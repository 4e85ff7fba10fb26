/** How long a text is as the agent stores and receives it. */
module Utf8 {
  import opened Integers

  /** In bytes. */
  function Utf8Length(raw: string): nat {
    if raw == [] then 0
    else
      var c := raw[0] as int;
      (if c < 0x80 then 1 else if c < 0x800 then 2 else if c < 0x10000 then 3 else 4) + Utf8Length(raw[1..])
  }

  // ---- The encoding itself, RFC 3629 -------------------------------------------------------------------------

  predicate Continues(b: Byte) {
    0x80 <= b <= 0xbf
  }

  /** The bytes of one character: its bits, in the shortest form. */
  predicate IsUtf8Char(b: seq<Byte>, c: char) {
    var n := c as int;
    || (|b| == 1 && n < 0x80 && n == b[0])
    || (|b| == 2 && n >= 0x80 && 0xc0 <= b[0] <= 0xdf && Continues(b[1])
        && n == (b[0] as int - 0xc0) * 0x40 + (b[1] as int - 0x80))
    || (|b| == 3 && n >= 0x800 && 0xe0 <= b[0] <= 0xef && Continues(b[1]) && Continues(b[2])
        && n == (b[0] as int - 0xe0) * 0x1000 + (b[1] as int - 0x80) * 0x40 + (b[2] as int - 0x80))
    || (|b| == 4 && n >= 0x10000 && 0xf0 <= b[0] <= 0xf7 && Continues(b[1]) && Continues(b[2]) && Continues(b[3])
        && n == (b[0] as int - 0xf0) * 0x40000 + (b[1] as int - 0x80) * 0x1000 + (b[2] as int - 0x80) * 0x40
                + (b[3] as int - 0x80))
  }

  ghost predicate IsUtf8(bytes: seq<Byte>, raw: string)
    decreases |raw|
  {
    if raw == [] then bytes == []
    else exists b, more :: bytes == b + more && IsUtf8Char(b, raw[0]) && IsUtf8(more, raw[1..])
  }

  lemma CharHasBytes(c: char) returns (b: seq<Byte>)
    ensures IsUtf8Char(b, c)
  {
    var n := c as int;
    var n1, b0 := n / 0x40, n % 0x40;
    var n2, b1 := n1 / 0x40, n1 % 0x40;
    var n3, b2 := n2 / 0x40, n2 % 0x40;
    b := if n < 0x80 then [n]
         else if n < 0x800 then [0xc0 + n1, 0x80 + b0]
         else if n < 0x10000 then [0xe0 + n2, 0x80 + b1, 0x80 + b0]
         else [0xf0 + n3, 0x80 + b2, 0x80 + b1, 0x80 + b0];
  }

  lemma {:induction false} HasBytes(raw: string) returns (bytes: seq<Byte>)
    ensures IsUtf8(bytes, raw)
  {
    if raw == [] {
      bytes := [];
    } else {
      var b := CharHasBytes(raw[0]);
      var more := HasBytes(raw[1..]);
      bytes := b + more;
    }
  }

  lemma {:induction false} BytesAreLength(bytes: seq<Byte>, raw: string)
    requires IsUtf8(bytes, raw)
    ensures |bytes| == Utf8Length(raw)
    decreases |raw|
  {
    if raw != [] {
      var b, more :| bytes == b + more && IsUtf8Char(b, raw[0]) && IsUtf8(more, raw[1..]);
      BytesAreLength(more, raw[1..]);
    }
  }

  /** The length is that of the text in UTF-8. */
  lemma LengthInBytes(raw: string, n: nat)
    ensures Utf8Length(raw) == n <==> exists bytes :: |bytes| == n && IsUtf8(bytes, raw)
  {
    var bytes := HasBytes(raw);
    BytesAreLength(bytes, raw);
    forall other | IsUtf8(other, raw)
      ensures |other| == Utf8Length(raw)
    {
      BytesAreLength(other, raw);
    }
  }
}
