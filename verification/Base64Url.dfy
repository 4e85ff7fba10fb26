/** base64url without padding, strictly: every byte string has one spelling and everything else is refused. */
module Base64Url {
  import opened Integers
  import opened Options

  const UPPER: string := "ABCDEFGHIJKLMNOPQRSTUVWXYZ"
  const LOWER: string := "abcdefghijklmnopqrstuvwxyz"
  const ALPHABET: string := UPPER + LOWER + "0123456789-_"

  function Sextet(c: char): (v: Option<int>)
    ensures v.Some? ==> 0 <= v.value < 64
  {
    if 'A' <= c <= 'Z' then Some(c as int - 'A' as int)
    else if 'a' <= c <= 'z' then Some(c as int - 'a' as int + 26)
    else if '0' <= c <= '9' then Some(c as int - '0' as int + 52)
    else if c == '-' then Some(62)
    else if c == '_' then Some(63)
    else None
  }

  /** The alphabet by its ranges. */
  function Character(v: int): char
    requires 0 <= v < 64
  {
    if v < 26 then ('A' as int + v) as char
    else if v < 52 then ('a' as int + v - 26) as char
    else if v < 62 then ('0' as int + v - 52) as char
    else if v == 62 then '-'
    else '_'
  }

  lemma AlphabetIs(v: int)
    requires 0 <= v < 64
    ensures ALPHABET[v] == Character(v)
  {
    if v < 26 {
      assert ALPHABET[v] == UPPER[v];
    } else if v < 52 {
      assert ALPHABET[v] == LOWER[v - 26];
    }
  }

  /** The alphabet and the table of the decoder are inverse. */
  lemma SextetOfCharacter(v: int)
    requires 0 <= v < 64
    ensures Sextet(Character(v)) == Some(v)
  {
  }

  lemma CharacterOfSextet(c: char)
    requires Sextet(c).Some?
    ensures Character(Sextet(c).value) == c
  {
  }

  // ---- One chunk -----------------------------------------------------------------------------------------

  predicate IsChunk(bytes: seq<Byte>) {
    1 <= |bytes| <= 3
  }

  /** Up to three bytes as 24 bits, the missing ones 0. */
  function Word(bytes: seq<Byte>): (n: nat)
    requires IsChunk(bytes)
    ensures n < 0x100_0000
  {
    var b0: int, b1: int, b2: int := bytes[0], if |bytes| > 1 then bytes[1] else 0, if |bytes| > 2 then bytes[2] else 0;
    b0 * 0x1_0000 + b1 * 0x100 + b2
  }

  /** `n >> (18 - 6 * i)`, six bits at a time. */
  function Shifted(n: nat, i: nat): nat
    requires i < 4
    decreases 4 - i
  {
    if i == 3 then n else Shifted(n, i + 1) / 64
  }

  /** `v << (18 - 6 * i)`, six bits at a time. */
  function Placed(v: nat, i: nat): nat
    requires i < 4
    decreases 4 - i
  {
    if i == 3 then v else 64 * Placed(v, i + 1)
  }

  function Letter(n: nat, i: nat): char
    requires i < 4
  {
    Character(Shifted(n, i) % 64)
  }

  /** The first `k` characters of a word. */
  function Letters(n: nat, k: nat): (s: string)
    requires k <= 4
    ensures |s| == k
  {
    if k == 0 then "" else Letters(n, k - 1) + [Letter(n, k - 1)]
  }

  function EncodeChunk(bytes: seq<Byte>): (s: string)
    requires IsChunk(bytes)
    ensures |s| == |bytes| + 1
  {
    Letters(Word(bytes), |bytes| + 1)
  }

  /** The 24 bits of up to four characters, unless one is not in the alphabet. */
  function Gathered(s: string): (n: Option<nat>)
    requires |s| <= 4
  {
    if s == [] then Some(0)
    else
      var front, v := Gathered(s[..|s| - 1]), Sextet(s[|s| - 1]);
      if front.None? || v.None? then None else Some(front.value + Placed(v.value, |s| - 1))
  }

  /** The bits of a word below its first `produced` bytes. */
  function Unused(n: nat, produced: nat): nat {
    if produced == 0 then n % 0x100_0000
    else if produced == 1 then n % 0x1_0000
    else if produced == 2 then n % 0x100
    else 0
  }

  /** `n >> (16 - 8 * i)`, eight bits at a time. */
  function ByteShifted(n: nat, i: nat): nat
    requires i < 3
    decreases 3 - i
  {
    if i == 2 then n else ByteShifted(n, i + 1) / 256
  }

  function ByteAt(n: nat, i: nat): Byte
    requires i < 3
  {
    ByteShifted(n, i) % 256
  }

  /** The first `k` bytes of a word. */
  function Octets(n: nat, k: nat): (b: seq<Byte>)
    requires k <= 3
    ensures |b| == k
  {
    if k == 0 then [] else Octets(n, k - 1) + [ByteAt(n, k - 1)]
  }

  function DecodeChunk(s: string): (r: Option<seq<Byte>>)
    requires 1 <= |s| <= 4
    ensures r.Some? ==> |r.value| == |s| - 1
  {
    var n := Gathered(s);
    if n.None? || Unused(n.value, |s| - 1) != 0 then None else Some(Octets(n.value, |s| - 1))
  }

  // ---- Whole texts ---------------------------------------------------------------------------------------

  function Encoded(bytes: seq<Byte>): string {
    if bytes == [] then ""
    else
      var k := Min(3, |bytes|);
      EncodeChunk(bytes[..k]) + Encoded(bytes[k..])
  }

  function Decoded(s: string): Option<seq<Byte>> {
    if |s| % 4 == 1 then None else DecodedChunks(s)
  }

  function DecodedChunks(s: string): Option<seq<Byte>> {
    if s == [] then Some([])
    else
      var k := Min(4, |s|);
      Joined(DecodeChunk(s[..k]), DecodedChunks(s[k..]))
  }

  function Joined(a: Option<seq<Byte>>, b: Option<seq<Byte>>): Option<seq<Byte>> {
    if a.None? || b.None? then None else Some(a.value + b.value)
  }

  method Encode(bytes: seq<Byte>) returns (out: string)
    ensures out == Encoded(bytes)
  {
    out := "";
    var at := 0;
    assert bytes[0..] == bytes;
    while at < |bytes|
      invariant 0 <= at && out + Encoded(bytes[Min(at, |bytes|)..]) == Encoded(bytes)
    {
      var letters := EncodeOne(bytes[at..Min(at + 3, |bytes|)]);
      EncodedStep(out, bytes, at);
      out := out + letters;
      at := at + 3;
    }
  }

  /** One round of the encoder's loop. */
  method EncodeOne(chunk: seq<Byte>) returns (out: string)
    requires IsChunk(chunk)
    ensures out == EncodeChunk(chunk)
  {
    var n := Word(chunk);
    out := "";
    var i := 0;
    while i < |chunk| + 1
      invariant 0 <= i <= |chunk| + 1 && out == Letters(n, i)
    {
      AlphabetIs(Shifted(n, i) % 64);
      out := out + [ALPHABET[Shifted(n, i) % 64]];
      i := i + 1;
    }
  }

  lemma EncodedStep(out: string, bytes: seq<Byte>, at: nat)
    requires at < |bytes|
    ensures var next := Min(at + 3, |bytes|);
            out + EncodeChunk(bytes[at..next]) + Encoded(bytes[next..]) == out + Encoded(bytes[at..])
  {
    var next := Min(at + 3, |bytes|);
    Tail(bytes, at, next);
    assert out + (EncodeChunk(bytes[at..next]) + Encoded(bytes[next..]))
        == out + EncodeChunk(bytes[at..next]) + Encoded(bytes[next..]);
  }

  method Decode(s: string) returns (r: Option<seq<Byte>>)
    ensures r == Decoded(s)
  {
    if |s| % 4 == 1 {
      return None;
    }
    var out: seq<Byte> := [];
    var at := 0;
    assert s[0..] == s;
    JoinedEmpty(DecodedChunks(s));
    while at < |s|
      invariant 0 <= at && Joined(Some(out), DecodedChunks(s[Min(at, |s|)..])) == DecodedChunks(s)
    {
      var produced := DecodeOne(s[at..Min(at + 4, |s|)]);
      DecodedFirst(s, at);
      JoinedRegroups(out, produced, DecodedChunks(s[Min(at + 4, |s|)..]));
      if produced.None? {
        return None;
      }
      out := out + produced.value;
      at := at + 4;
    }
    JoinedEmpty(Some(out));
    return Some(out);
  }

  /** One round of the decoder's loop. */
  method DecodeOne(chunk: string) returns (r: Option<seq<Byte>>)
    requires 1 <= |chunk| <= 4
    ensures r == DecodeChunk(chunk)
  {
    var n := 0;
    var i := 0;
    while i < |chunk|
      invariant 0 <= i <= |chunk| && Gathered(chunk[..i]) == Some(n)
    {
      var v := Sextet(chunk[i]);
      assert chunk[..i + 1][..i] == chunk[..i];
      if v.None? {
        GatheredFails(chunk, i + 1);
        return None;
      }
      n := n + Placed(v.value, i);
      i := i + 1;
    }
    assert chunk[..|chunk|] == chunk;
    var produced := |chunk| - 1;
    if Unused(n, produced) != 0 {
      return None;
    }
    var out: seq<Byte> := [];
    i := 0;
    while i < produced
      invariant 0 <= i <= produced && out == Octets(n, i)
    {
      out := out + [ByteAt(n, i)];
      i := i + 1;
    }
    return Some(out);
  }

  lemma {:induction false} GatheredFails(s: string, k: nat)
    requires k <= |s| <= 4 && Gathered(s[..k]).None?
    ensures Gathered(s).None?
    decreases |s|
  {
    if k == |s| {
      assert s[..k] == s;
    } else {
      assert s[..|s| - 1][..k] == s[..k];
      GatheredFails(s[..|s| - 1], k);
    }
  }

  lemma JoinedEmpty(r: Option<seq<Byte>>)
    ensures Joined(Some([]), r) == r == Joined(r, Some([]))
  {
    if r.Some? {
      assert [] + r.value == r.value == r.value + [];
    }
  }

  lemma Tail<T>(s: seq<T>, at: nat, next: nat)
    requires at <= next <= |s|
    ensures s[at..][..next - at] == s[at..next] && s[at..][next - at..] == s[next..]
  {
  }

  lemma JoinedRegroups(a: seq<Byte>, b: Option<seq<Byte>>, c: Option<seq<Byte>>)
    ensures Joined(Some(a), Joined(b, c)) == Joined(Joined(Some(a), b), c)
  {
    if b.Some? && c.Some? {
      assert a + (b.value + c.value) == a + b.value + c.value;
    }
  }

  lemma DecodedFirst(s: string, at: nat)
    requires at < |s|
    ensures var next := Min(at + 4, |s|);
            DecodedChunks(s[at..]) == Joined(DecodeChunk(s[at..next]), DecodedChunks(s[next..]))
  {
    Tail(s, at, Min(at + 4, |s|));
  }

  // ---- Strictness ----------------------------------------------------------------------------------------

  lemma BytesOfWord(n: nat)
    requires n < 0x100_0000
    ensures n == n / 0x100 / 0x100 % 256 * 0x1_0000 + n / 0x100 % 256 * 0x100 + n % 256
  {
  }

  /** The sextets of a chunk as one number, without the places that a short chunk leaves free. */
  function High(s: string): nat {
    if s == [] then 0
    else
      var v := Sextet(s[|s| - 1]);
      64 * High(s[..|s| - 1]) + if v.Some? then v.value else 0
  }

  lemma {:induction false} PlacedAdds(a: nat, b: nat, i: nat)
    requires i < 4
    ensures Placed(a + b, i) == Placed(a, i) + Placed(b, i)
    decreases 4 - i
  {
    if i < 3 {
      PlacedAdds(a, b, i + 1);
    }
  }

  lemma {:induction false} PlacedUp(v: nat, i: nat)
    requires i < 3
    ensures Placed(v, i) == Placed(64 * v, i + 1)
    decreases 4 - i
  {
    if i < 2 {
      PlacedUp(v, i + 1);
    }
  }

  lemma {:induction false} ShiftedPlaced(v: nat, i: nat)
    requires i < 4
    ensures Shifted(Placed(v, i), i) == v
    decreases 4 - i
  {
    if i < 3 {
      PlacedUp(v, i);
      ShiftedPlaced(64 * v, i + 1);
    }
  }

  lemma {:induction false} GatheredIsHigh(s: string)
    requires 1 <= |s| <= 4 && Gathered(s).Some?
    ensures Gathered(s).value == Placed(High(s), |s| - 1)
    decreases |s|
  {
    var k := |s| - 1;
    var v := Sextet(s[k]).value;
    if k == 0 {
      assert Gathered(s[..0]) == Some(0) && High(s[..0]) == 0;
    } else {
      GatheredIsHigh(s[..k]);
      PlacedUp(High(s[..k]), k - 1);
      PlacedAdds(64 * High(s[..k]), v, k);
    }
  }

  lemma OneMore(s: string, c: char)
    requires |s| < 4 && Gathered(s).Some? && Sextet(c).Some?
    ensures Gathered(s + [c]).Some? && High(s + [c]) == 64 * High(s) + Sextet(c).value
  {
    assert (s + [c])[..|s|] == s;
  }

  lemma {:induction false} LettersAreHigh(n: nat, k: nat)
    requires 1 <= k <= 4 && n < 0x100_0000
    ensures Gathered(Letters(n, k)).Some? && High(Letters(n, k)) == Shifted(n, k - 1)
    decreases k
  {
    var v := Shifted(n, k - 1) % 64;
    SextetOfCharacter(v);
    if k == 1 {
      TopSextet(n);
    } else {
      LettersAreHigh(n, k - 1);
    }
    OneMore(Letters(n, k - 1), Character(v));
  }

  lemma TopSextet(n: nat)
    requires n < 0x100_0000
    ensures Shifted(n, 0) < 64
  {
    assert Shifted(n, 0) == Shifted(n, 1) / 64 == n / 64 / 64 / 64;
  }

  lemma WordIsWhole(b: seq<Byte>)
    requires IsChunk(b)
    ensures Placed(Shifted(Word(b), |b|), |b|) == Word(b) && Unused(Word(b), |b|) == 0
    ensures Octets(Word(b), |b|) == b
  {
    WordPlaces(b);
    WordOctets(b);
  }

  lemma WordPlaces(b: seq<Byte>)
    requires IsChunk(b)
    ensures Placed(Shifted(Word(b), |b|), |b|) == Word(b) && Unused(Word(b), |b|) == 0
  {
    BytesApart(b[0], if |b| > 1 then b[1] else 0, if |b| > 2 then b[2] else 0);
    WholePlaces(Word(b), |b|);
  }

  lemma WordOctets(b: seq<Byte>)
    requires IsChunk(b)
    ensures Octets(Word(b), |b|) == b
  {
    var b0: int, b1: int, b2: int := b[0], if |b| > 1 then b[1] else 0, if |b| > 2 then b[2] else 0;
    BytesApart(b0, b1, b2);
    OctetsOf(Word(b), b0, b1, b2);
    FirstOf(b, b0, b1, b2);
  }

  lemma FirstOf(b: seq<Byte>, b0: int, b1: int, b2: int)
    requires 1 <= |b| <= 3 && b[0] == b0 && (|b| > 1 ==> b[1] == b1) && (|b| > 2 ==> b[2] == b2)
    ensures b == if |b| == 1 then [b0] else if |b| == 2 then [b0, b1] else [b0, b1, b2]
  {
  }

  lemma OctetsOf(n: nat, b0: int, b1: int, b2: int)
    requires 0 <= b0 < 256 && 0 <= b1 < 256 && 0 <= b2 < 256
    requires n / 0x100 / 0x100 == b0 && n / 0x100 % 256 == b1 && n % 256 == b2
    ensures Octets(n, 1) == [b0] && Octets(n, 2) == [b0, b1] && Octets(n, 3) == [b0, b1, b2]
  {
    assert ByteAt(n, 0) == b0 && ByteAt(n, 1) == b1 && ByteAt(n, 2) == b2;
    assert Octets(n, 1) == [] + [ByteAt(n, 0)];
  }

  lemma WholePlaces(n: nat, k: nat)
    requires k == 3 || (k == 2 && n % 0x40 == 0) || (k == 1 && n % 0x1000 == 0)
    ensures Placed(Shifted(n, k), k) == n
  {
    if k == 2 {
      assert Shifted(n, 2) == n / 64 && Placed(n / 64, 2) == 64 * (n / 64);
    } else if k == 1 {
      var v := n / 0x1000;
      assert n == 0x1000 * v;
      assert n / 64 == 64 * v && n / 64 / 64 == v;
      assert Shifted(n, 1) == Shifted(n, 2) / 64 == n / 64 / 64;
      assert Placed(v, 1) == 64 * Placed(v, 2) == 64 * (64 * v);
    }
  }

  lemma BytesApart(b0: int, b1: int, b2: int)
    requires 0 <= b0 < 256 && 0 <= b1 < 256 && 0 <= b2 < 256
    ensures var n := b0 * 0x1_0000 + b1 * 0x100 + b2;
            && n / 0x100 / 0x100 == b0 && n / 0x100 % 256 == b1 && n % 256 == b2
            && (b2 == 0 ==> n % 0x100 == 0 && n % 0x40 == 0)
            && (b1 == 0 && b2 == 0 ==> n % 0x1_0000 == 0 && n % 0x1000 == 0)
  {
    var n := b0 * 0x1_0000 + b1 * 0x100 + b2;
    assert n == 0x100 * (b0 * 0x100 + b1) + b2 && n / 0x100 == b0 * 0x100 + b1;
  }

  lemma ChunkReadsBack(b: seq<Byte>)
    requires IsChunk(b)
    ensures DecodeChunk(EncodeChunk(b)) == Some(b)
  {
    var n := Word(b);
    LettersAreHigh(n, |b| + 1);
    GatheredIsHigh(EncodeChunk(b));
    WordIsWhole(b);
  }

  lemma HighFront(s: string)
    requires 1 <= |s| <= 4 && Gathered(s).Some?
    ensures High(s[..|s| - 1]) == High(s) / 64 && Sextet(s[|s| - 1]) == Some(High(s) % 64)
  {
  }

  lemma {:induction false} HighPrefix(s: string, k: nat, n: nat)
    requires 1 <= k <= |s| <= 4 && Gathered(s).Some? && Shifted(n, |s| - 1) == High(s)
    ensures Gathered(s[..k]).Some? && Shifted(n, k - 1) == High(s[..k])
    decreases |s| - k
  {
    GatheredPrefix(s, k);
    if k == |s| {
      assert s[..k] == s;
    } else {
      HighPrefix(s, k + 1, n);
      HighFront(s[..k + 1]);
      assert s[..k + 1][..k] == s[..k];
    }
  }

  lemma GatheredPrefix(s: string, k: nat)
    requires k <= |s| <= 4 && Gathered(s).Some?
    ensures Gathered(s[..k]).Some?
  {
    if Gathered(s[..k]).None? {
      GatheredFails(s, k);
    }
  }

  lemma LetterIs(s: string, i: nat)
    requires i < |s| <= 4 && Gathered(s).Some?
    ensures Letter(Gathered(s).value, i) == s[i]
  {
    var n := Gathered(s).value;
    GatheredIsHigh(s);
    ShiftedPlaced(High(s), |s| - 1);
    HighPrefix(s, i + 1, n);
    HighFront(s[..i + 1]);
    CharacterOfSextet(s[i]);
  }

  lemma {:induction false} LettersAre(n: nat, s: string, k: nat)
    requires k <= |s| <= 4 && forall i :: 0 <= i < k ==> Letter(n, i) == s[i]
    ensures Letters(n, k) == s[..k]
    decreases k
  {
    if k > 0 {
      LettersAre(n, s, k - 1);
      assert s[..k] == s[..k - 1] + [s[k - 1]];
    }
  }

  /** What the characters of a chunk add up to gives them back. */
  lemma GatheredSplits(s: string)
    requires |s| <= 4 && Gathered(s).Some?
    ensures Letters(Gathered(s).value, |s|) == s
  {
    forall i | 0 <= i < |s|
      ensures Letter(Gathered(s).value, i) == s[i]
    {
      LetterIs(s, i);
    }
    LettersAre(Gathered(s).value, s, |s|);
  }

  lemma {:induction false} HighIsSmall(s: string)
    requires |s| <= 4
    ensures High(s) < if |s| == 0 then 1 else if |s| == 1 then 64 else if |s| == 2 then 0x1000
                      else if |s| == 3 then 0x4_0000 else 0x100_0000
  {
    if s != [] {
      HighIsSmall(s[..|s| - 1]);
    }
  }

  lemma GatheredIsSmall(s: string)
    requires 1 <= |s| <= 4 && Gathered(s).Some?
    ensures Gathered(s).value < 0x100_0000
  {
    GatheredIsHigh(s);
    HighIsSmall(s);
    assert Placed(High(s), 0) == 64 * Placed(High(s), 1) == 0x1000 * Placed(High(s), 2) == 0x4_0000 * High(s);
  }

  lemma WordOfBytes(n: nat, k: nat)
    requires 1 <= k <= 3 && n < 0x100_0000 && Unused(n, k) == 0
    ensures Word(Octets(n, k)) == n
  {
    BytesOfWord(n);
    UnusedBytes(n, k);
    OctetsAre(n, k);
  }

  lemma UnusedBytes(n: nat, k: nat)
    requires 1 <= k <= 3 && Unused(n, k) == 0
    ensures (k < 3 ==> n % 256 == 0) && (k < 2 ==> n / 0x100 % 256 == 0)
  {
    if k == 1 {
      var q := n / 0x1_0000;
      assert n == 0x100 * (0x100 * q) && n / 0x100 == 0x100 * q;
    }
  }

  lemma OctetsAre(n: nat, k: nat)
    requires 1 <= k <= 3
    ensures Octets(n, k) == [n / 0x100 / 0x100 % 256, n / 0x100 % 256, n % 256][..k]
  {
    assert Octets(n, 1) == [ByteAt(n, 0)] && Octets(n, 2) == [ByteAt(n, 0), ByteAt(n, 1)];
    assert Octets(n, 3) == [ByteAt(n, 0), ByteAt(n, 1), ByteAt(n, 2)];
  }

  lemma ChunkIsSpelling(s: string, b: seq<Byte>)
    requires 2 <= |s| <= 4 && DecodeChunk(s) == Some(b)
    ensures IsChunk(b) && EncodeChunk(b) == s
  {
    GatheredSplits(s);
    GatheredIsSmall(s);
    WordOfBytes(Gathered(s).value, |b|);
  }

  lemma ChunkInFront(chunk: string, text: string, bytes: seq<Byte>, rest: seq<Byte>)
    requires 2 <= |chunk| <= 4 && (|chunk| < 4 ==> text == "")
    requires DecodeChunk(chunk) == Some(bytes) && DecodedChunks(text) == Some(rest)
    ensures DecodedChunks(chunk + text) == Some(bytes + rest)
  {
    var s := chunk + text;
    assert Min(4, |s|) == |chunk|;
    assert s[..|chunk|] == chunk && s[|chunk|..] == text;
  }

  function LastLength(bytes: nat): nat {
    if bytes % 3 == 0 then 0 else bytes % 3 + 1
  }

  lemma LastLengthStep(n: nat, m: nat)
    requires n >= 3 && m % 4 == LastLength(n - 3)
    ensures (4 + m) % 4 == LastLength(n)
  {
    assert n == 3 * ((n - 3) / 3 + 1) + (n - 3) % 3;
    assert 4 + m == 4 * (m / 4 + 1) + m % 4;
  }

  lemma {:induction false} EncodedLength(b: seq<Byte>)
    ensures |Encoded(b)| % 4 == LastLength(|b|)
    decreases |b|
  {
    if |b| >= 3 {
      EncodedLength(b[3..]);
      EncodedIsChunkFirst(b, 3);
      LastLengthStep(|b|, |Encoded(b[3..])|);
    } else if b != [] {
      EncodedIsChunkFirst(b, |b|);
    }
  }

  lemma EncodedIsChunkFirst(b: seq<Byte>, k: nat)
    requires b != [] && k == Min(3, |b|)
    ensures |Encoded(b)| == k + 1 + |Encoded(b[k..])| && (k < 3 ==> Encoded(b[k..]) == "")
  {
    if k < 3 {
      assert b[k..] == [];
    }
  }

  lemma {:induction false} TextReadsBack(b: seq<Byte>)
    ensures DecodedChunks(Encoded(b)) == Some(b)
    decreases |b|
  {
    if b != [] {
      var k := Min(3, |b|);
      TextReadsBack(b[k..]);
      ChunkReadsBack(b[..k]);
      EncodedIsChunkFirst(b, k);
      ChunkInFront(EncodeChunk(b[..k]), Encoded(b[k..]), b[..k], b[k..]);
      Together(b, k);
    }
  }

  lemma Together<T>(b: seq<T>, k: nat)
    requires k <= |b|
    ensures b == b[..k] + b[k..]
  {
  }

  /** The chunk a text starts with, and the rest. */
  lemma DecodedParts(s: string, b: seq<Byte>, k: nat) returns (chunk: seq<Byte>, rest: seq<Byte>)
    requires s != [] && k == Min(4, |s|) && DecodedChunks(s) == Some(b)
    ensures DecodeChunk(s[..k]) == Some(chunk) && DecodedChunks(s[k..]) == Some(rest) && |chunk| == k - 1
    ensures b == chunk + rest && (k < 4 ==> rest == [])
  {
    chunk, rest := DecodeChunk(s[..k]).value, DecodedChunks(s[k..]).value;
    if k < 4 {
      assert s[k..] == [];
    }
  }

  lemma EncodedInFront(chunk: seq<Byte>, rest: seq<Byte>)
    requires IsChunk(chunk) && (|chunk| < 3 ==> rest == [])
    ensures Encoded(chunk + rest) == EncodeChunk(chunk) + Encoded(rest)
  {
    var b := chunk + rest;
    assert Min(3, |b|) == |chunk| && b[..|chunk|] == chunk && b[|chunk|..] == rest;
  }

  lemma {:induction false} TextIsSpelling(s: string, b: seq<Byte>)
    requires |s| % 4 != 1 && DecodedChunks(s) == Some(b)
    ensures s == Encoded(b)
    decreases |s|
  {
    if s != [] {
      var k := Min(4, |s|);
      var chunk, rest := DecodedParts(s, b, k);
      ChunkIsSpelling(s[..k], chunk);
      TextIsSpelling(s[k..], rest);
      EncodedInFront(chunk, rest);
      Together(s, k);
    }
  }

  /** Sections 3.5 and 5 of RFC 4648, strictly: a text decodes to a byte string exactly when it is its encoding. */
  lemma OneSpelling(s: string, b: seq<Byte>)
    ensures Decoded(s) == Some(b) <==> s == Encoded(b)
  {
    TextReadsBack(b);
    EncodedLength(b);
    if Decoded(s) == Some(b) {
      TextIsSpelling(s, b);
    }
  }

  // ---- Signatures ----------------------------------------------------------------------------------------

  predicate InAlphabet(s: string) {
    forall i :: 0 <= i < |s| ==> Sextet(s[i]).Some?
  }

  lemma {:induction false} AlphabetGathers(s: string)
    requires |s| <= 4 && InAlphabet(s)
    ensures Gathered(s).Some?
  {
    if s != [] {
      AlphabetGathers(s[..|s| - 1]);
    }
  }

  lemma PairUnused(h: nat)
    ensures Unused(Placed(h, 1), 1) == 0 <==> h % 16 == 0
  {
    assert Placed(h, 1) == 64 * Placed(h, 2) == 64 * (64 * h);
    var q, r := h / 16, h % 16;
    assert h == 16 * q + r;
    assert 0x1000 * h == 0x1_0000 * q + 0x1000 * r;
    Remainder(0x1000 * h, q, 0x1000 * r);
  }

  lemma Remainder(n: nat, q: nat, r: nat)
    requires n == 0x1_0000 * q + r && r < 0x1_0000
    ensures n % 0x1_0000 == r
  {
  }

  lemma PairDecodes(s: string)
    requires |s| == 2 && InAlphabet(s)
    ensures DecodeChunk(s).Some? <==> Sextet(s[1]).value % 16 == 0
  {
    AlphabetGathers(s);
    PairIsGathered(s);
    PairUnused(High(s));
    HighFront(s);
    LowBits(High(s));
  }

  lemma PairIsGathered(s: string)
    requires |s| == 2 && Gathered(s).Some?
    ensures DecodeChunk(s).Some? <==> Unused(Placed(High(s), 1), 1) == 0
  {
    GatheredIsHigh(s);
  }

  lemma LowBits(n: nat)
    ensures n % 64 % 16 == n % 16
  {
  }

  /** Before the last two characters nothing can fail but a foreign character. */
  lemma {:induction false} LastPairDecides(s: string)
    requires |s| % 4 == 2 && InAlphabet(s)
    ensures DecodedChunks(s).Some? <==> Sextet(s[|s| - 1]).value % 16 == 0
    ensures DecodedChunks(s).Some? ==> |DecodedChunks(s).value| == |s| / 4 * 3 + 1
    decreases |s|
  {
    if |s| == 2 {
      PairDecodes(s);
      assert s[..2] == s && s[2..] == "";
    } else {
      AlphabetGathers(s[..4]);
      LastPairDecides(s[4..]);
    }
  }

  /** The signature format's rule for its last character is the strict decoder's: 86 characters of the alphabet
      decode, and to 64 bytes, exactly when the last is one of four. */
  lemma SignatureForm(s: string)
    requires |s| == 86 && InAlphabet(s)
    ensures Decoded(s).Some? <==> s[85] in "AQgw"
    ensures Decoded(s).Some? ==> |Decoded(s).value| == 64
  {
    LastPairDecides(s);
    CharacterOfSextet(s[85]);
  }

  // ---- The bits ------------------------------------------------------------------------------------------

  /** The bytes of a chunk as one number, the first one highest. */
  function Number(b: seq<Byte>): nat {
    if b == [] then 0
    else
      var last: int := b[|b| - 1];
      256 * Number(b[..|b| - 1]) + last
  }

  lemma NumberOf(b: seq<Byte>)
    requires IsChunk(b)
    ensures Number(b) * (if |b| == 1 then 0x1_0000 else if |b| == 2 then 0x100 else 1) == Word(b)
  {
    assert Number(b[..1]) == b[0] as int by {
      assert b[..1][..0] == [];
      assert Number([]) == 0;
    }
    if |b| > 1 {
      assert b[..2][..1] == b[..1];
      assert Number(b[..2]) == 256 * (b[0] as int) + b[1] as int;
    }
    if |b| > 2 {
      assert b[..3][..2] == b[..2];
    }
    assert b[..|b|] == b;
  }

  /** Section 4 of RFC 4648: a chunk's characters hold the bits of its bytes in order, filled up with zeros: none
      for three bytes, two for two bytes, four for one. */
  lemma ChunkHoldsBits(b: seq<Byte>)
    requires IsChunk(b)
    ensures High(EncodeChunk(b)) == Number(b) * if |b| == 1 then 16 else if |b| == 2 then 4 else 1
  {
    var n := Word(b);
    LettersAreHigh(n, |b| + 1);
    NumberOf(b);
    if |b| == 1 {
      assert n / 64 == 0x400 * Number(b) && n / 64 / 64 == 16 * Number(b);
      assert Shifted(n, 1) == Shifted(n, 2) / 64 == n / 64 / 64;
    } else if |b| == 2 {
      assert n / 64 == 4 * Number(b);
    }
  }
}
