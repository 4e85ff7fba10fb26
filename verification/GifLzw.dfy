/** The GIF image data of the sprite generator: LZW codes of one width with a periodic clear, packed into bytes and
    cut into sub-blocks, and the decoder of Appendix F of the GIF89a specification that has to read them. */
module GifLzw {
  import opened Integers
  import opened Options
  import opened Sequences

  function Pow2(k: nat): (p: nat)
    ensures p > 0
  {
    if k == 0 then 1 else 2 * Pow2(k - 1)
  }

  function ShiftLeft(n: nat, k: nat): nat {
    if k == 0 then n else 2 * ShiftLeft(n, k - 1)
  }

  /** `n` without its `k` lowest bits. */
  function Without(n: nat, k: nat): nat {
    if k == 0 then n else Without(n / 2, k - 1)
  }

  lemma {:induction false} WithoutIs(low: nat, high: nat, k: nat)
    requires low < Pow2(k)
    ensures Without(low + ShiftLeft(high, k), k) == high
  {
    if k > 0 {
      HalfOfSum(low, high, k);
      WithoutIs(low / 2, high, k - 1);
    }
  }

  lemma HalfOfSum(low: nat, high: nat, k: nat)
    requires k > 0
    ensures (low + ShiftLeft(high, k)) / 2 == low / 2 + ShiftLeft(high, k - 1)
    ensures (low + ShiftLeft(high, k)) % 2 == low % 2
  {
    assert ShiftLeft(high, k) == 2 * ShiftLeft(high, k - 1);
  }

  lemma {:induction false} Pow2Grows(a: nat, b: nat)
    requires a <= b
    ensures Pow2(a) <= Pow2(b)
  {
    if a < b {
      Pow2Grows(a, b - 1);
    }
  }

  lemma ByteWeight(n: nat)
    ensures ShiftLeft(n, 8) == 256 * n && Pow2(8) == 256
  {
    assert ShiftLeft(n, 4) == 2 * ShiftLeft(n, 3) == 4 * ShiftLeft(n, 2) == 8 * ShiftLeft(n, 1) == 16 * n;
    assert ShiftLeft(n, 8) == 2 * ShiftLeft(n, 7) == 4 * ShiftLeft(n, 6) == 8 * ShiftLeft(n, 5) == 16 * ShiftLeft(n, 4);
    assert Pow2(4) == 2 * Pow2(3) == 4 * Pow2(2) == 8 * Pow2(1) == 16;
    assert Pow2(8) == 2 * Pow2(7) == 4 * Pow2(6) == 8 * Pow2(5) == 16 * Pow2(4);
  }

  // ---- Bits, lowest first --------------------------------------------------------------------------------

  function Bits(n: nat, width: nat): (bits: seq<bool>)
    ensures |bits| == width
  {
    if width == 0 then [] else [n % 2 == 1] + Bits(n / 2, width - 1)
  }

  function Number(bits: seq<bool>): nat {
    if bits == [] then 0 else (if bits[0] then 1 else 0) + 2 * Number(bits[1..])
  }

  lemma {:induction false} NumberOfBits(n: nat, width: nat)
    requires n < Pow2(width)
    ensures Number(Bits(n, width)) == n
  {
    if width > 0 {
      NumberOfBits(n / 2, width - 1);
    }
  }

  /** The low bits stand first, then those of the rest. */
  lemma {:induction false} BitsSplit(n: nat, low: nat, high: nat)
    ensures Bits(n, low + high) == Bits(n, low) + Bits(Without(n, low), high)
  {
    if low > 0 {
      BitsSplit(n / 2, low - 1, high);
    }
  }

  lemma WithoutByte(n: nat)
    ensures Without(n, 8) == n / 256
  {
    ByteWeight(n / 256);
    WithoutIs(n % 256, n / 256, 8);
  }

  /** Adding above the low bits leaves them as they are. */
  lemma {:induction false} BitsIgnoreHigh(low: nat, high: nat, width: nat)
    ensures Bits(low + ShiftLeft(high, width), width) == Bits(low, width)
  {
    if width > 0 {
      HalfOfSum(low, high, width);
      BitsIgnoreHigh(low / 2, high, width - 1);
    }
  }

  /** What `put` does to its accumulator: the code's bits follow those that are waiting. */
  lemma BitsJoin(low: nat, width: nat, code: nat, size: nat)
    requires low < Pow2(width)
    ensures Bits(low + ShiftLeft(code, width), width + size) == Bits(low, width) + Bits(code, size)
  {
    var n := low + ShiftLeft(code, width);
    BitsSplit(n, width, size);
    BitsIgnoreHigh(low, code, width);
    WithoutIs(low, code, width);
  }

  /** On 32-bit words the source's `|` is this addition, because the waiting bits lie below the code's. */
  lemma OrIsPlus(cur: bv32, code: bv32, bits: bv32)
    requires bits < 8 && cur < (1 << bits) && code < 512
    ensures cur | (code << bits) == cur + (code << bits)
  {
  }

  function BytesBits(bytes: seq<Byte>): (bits: seq<bool>)
    ensures |bits| == 8 * |bytes|
  {
    if bytes == [] then [] else Bits(bytes[0], 8) + BytesBits(bytes[1..])
  }

  lemma {:induction false} BytesBitsAppend(bytes: seq<Byte>, b: Byte)
    ensures BytesBits(bytes + [b]) == BytesBits(bytes) + Bits(b, 8)
  {
    if bytes == [] {
      assert BytesBits([b]) == Bits(b, 8) + BytesBits([]);
    } else {
      assert (bytes + [b])[1..] == bytes[1..] + [b];
      BytesBitsAppend(bytes[1..], b);
    }
  }

  function CodesBits(codes: seq<nat>, width: nat): seq<bool> {
    if codes == [] then [] else Bits(codes[0], width) + CodesBits(codes[1..], width)
  }

  lemma {:induction false} CodesBitsAppend(codes: seq<nat>, code: nat, width: nat)
    ensures CodesBits(codes + [code], width) == CodesBits(codes, width) + Bits(code, width)
  {
    if codes == [] {
      assert CodesBits([code], width) == Bits(code, width) + CodesBits([], width);
    } else {
      assert (codes + [code])[1..] == codes[1..] + [code];
      CodesBitsAppend(codes[1..], code, width);
    }
  }

  // ---- The codes -----------------------------------------------------------------------------------------

  function Clear(min: nat): nat {
    Pow2(min)
  }

  function EndOfInformation(min: nat): nat {
    Pow2(min) + 1
  }

  predicate AreIndices(indices: seq<nat>, min: nat) {
    forall i :: 0 <= i < |indices| ==> indices[i] < Pow2(min)
  }

  /** The codes that are still to come when `since` indices were written after the last clear, if a clear follows
      every `limit` of them. */
  function Codes(indices: seq<nat>, since: nat, min: nat, limit: nat): seq<nat> {
    if indices == [] then [EndOfInformation(min)]
    else if since + 1 >= limit then [indices[0], Clear(min)] + Codes(indices[1..], 0, min, limit)
    else [indices[0]] + Codes(indices[1..], since + 1, min, limit)
  }

  function Stream(indices: seq<nat>, min: nat, limit: nat): seq<nat> {
    [Clear(min)] + Codes(indices, 0, min, limit)
  }

  // ---- The encoder ---------------------------------------------------------------------------------------

  /** Codes packed so far: whole bytes in `out`, the rest in `cur`. */
  ghost predicate Packed(out: seq<Byte>, cur: nat, bits: nat, codes: seq<nat>, size: nat) {
    && cur < Pow2(bits)
    && BytesBits(out) + Bits(cur, bits) == CodesBits(codes, size)
  }

  lemma PutStep(out: seq<Byte>, cur: nat, bits: nat, codes: seq<nat>, size: nat, code: nat)
    requires Packed(out, cur, bits, codes, size) && code < Pow2(size)
    ensures Packed(out, cur + ShiftLeft(code, bits), bits + size, codes + [code], size)
  {
    BitsJoin(cur, bits, code, size);
    CodesBitsAppend(codes, code, size);
    JoinedIsSmall(cur, bits, code, size);
    Regroup(BytesBits(out), Bits(cur, bits), Bits(code, size));
  }

  lemma {:induction false} JoinedIsSmall(cur: nat, bits: nat, code: nat, size: nat)
    requires cur < Pow2(bits) && code < Pow2(size)
    ensures cur + ShiftLeft(code, bits) < Pow2(bits + size)
  {
    if bits > 0 {
      JoinedIsSmall(cur / 2, bits - 1, code, size);
    }
  }

  lemma EmitStep(out: seq<Byte>, cur: nat, bits: nat, codes: seq<nat>, size: nat)
    requires Packed(out, cur, bits, codes, size) && bits >= 8
    ensures var low: Byte := cur % 256; Packed(out + [low], cur / 256, bits - 8, codes, size)
  {
    LowByte(cur, bits);
    BytesBitsAppend(out, cur % 256);
    Regroup(BytesBits(out), Bits(cur % 256, 8), Bits(cur / 256, bits - 8));
  }

  lemma {:induction false} WithoutIsSmall(n: nat, low: nat, high: nat)
    requires n < Pow2(low + high)
    ensures Without(n, low) < Pow2(high)
  {
    if low > 0 {
      WithoutIsSmall(n / 2, low - 1, high);
    }
  }

  lemma LowByte(cur: nat, bits: nat)
    requires cur < Pow2(bits) && bits >= 8
    ensures cur / 256 < Pow2(bits - 8)
    ensures Bits(cur, bits) == Bits(cur % 256, 8) + Bits(cur / 256, bits - 8)
  {
    WithoutByte(cur);
    WithoutIsSmall(cur, 8, bits - 8);
    BitsSplit(cur, 8, bits - 8);
    LowBits(cur);
  }

  lemma LowBits(n: nat)
    ensures Bits(n % 256, 8) == Bits(n, 8)
  {
    ByteWeight(n / 256);
    BitsIgnoreHigh(n % 256, n / 256, 8);
  }

  /** The bit writer that `put` closes over. */
  class BitWriter {
    const codeSize: nat
    var out: seq<Byte>
    var cur: nat
    var bits: nat
    ghost var codes: seq<nat>

    ghost predicate Valid()
      reads this
    {
      bits < 8 && Packed(out, cur, bits, codes, codeSize)
    }

    constructor (codeSize: nat)
      ensures Valid() && this.codeSize == codeSize && codes == []
    {
      this.codeSize, out, cur, bits, codes := codeSize, [], 0, 0, [];
    }

    method Put(code: nat)
      requires Valid() && code < Pow2(codeSize)
      modifies this
      ensures Valid() && codes == old(codes) + [code]
    {
      PutStep(out, cur, bits, codes, codeSize, code);
      cur := cur + ShiftLeft(code, bits);
      bits := bits + codeSize;
      codes := codes + [code];
      Drain();
    }

    /** The loop at the end of `put`: whole bytes leave the accumulator. */
    method Drain()
      requires Packed(out, cur, bits, codes, codeSize)
      modifies `out, `cur, `bits
      ensures Valid()
    {
      while bits >= 8
        invariant Packed(out, cur, bits, codes, codeSize)
      {
        EmitStep(out, cur, bits, codes, codeSize);
        var low: Byte := cur % 256;
        out := out + [low];
        cur := cur / 256;
        bits := bits - 8;
      }
    }

    /** The bytes, the last one filled up with zeros. */
    method Finish() returns (bytes: seq<Byte>)
      requires Valid()
      ensures CodesBits(codes, codeSize) <= BytesBits(bytes) && 8 * |bytes| < |CodesBits(codes, codeSize)| + 8
    {
      bytes := out;
      if bits > 0 {
        bytes := bytes + [cur % 256];
        LastByte(out, cur, bits);
      }
    }
  }

  /** Zeros fill the last byte, above the waiting bits. */
  lemma LastByte(out: seq<Byte>, cur: nat, bits: nat)
    requires cur < Pow2(bits) && bits < 8
    ensures BytesBits(out) + Bits(cur, bits) <= BytesBits(out + [cur % 256])
  {
    Pow2Grows(bits, 8);
    ByteWeight(0);
    var b: Byte := cur % 256;
    assert b == cur;
    BytesBitsAppend(out, b);
    BitsSplit(cur, bits, 8 - bits);
    PrefixOf(BytesBits(out), Bits(cur, bits), Bits(Without(cur, bits), 8 - bits));
  }

  lemma PrefixOf(a: seq<bool>, b: seq<bool>, c: seq<bool>)
    ensures a + b <= a + (b + c)
  {
    Regroup(a, b, c);
  }

  /** The codes of the indices, with a clear code after every `clear - 2` of them, packed into bytes. */
  method Lzw(min: nat, indices: seq<nat>) returns (out: seq<Byte>)
    requires 2 <= min <= 8 && AreIndices(indices, min)
    ensures var bits := CodesBits(Stream(indices, min, Clear(min) - 2), min + 1);
            bits <= BytesBits(out) && 8 * |out| < |bits| + 8
  {
    var clear := Clear(min);
    var eoi := clear + 1;
    var maxBeforeClear := clear - 2;
    var w := new BitWriter(min + 1);
    assert clear < Pow2(min + 1) && eoi < Pow2(min + 1) by {
      Pow2Grows(1, min);
    }
    ghost var stream := Stream(indices, min, maxBeforeClear);
    assert indices[0..] == indices;
    w.Put(clear);
    var since := 0;
    var i := 0;
    while i < |indices|
      invariant 0 <= i <= |indices| && w.Valid() && w.codeSize == min + 1 && fresh(w)
      invariant w.codes + Codes(indices[i..], since, min, maxBeforeClear) == stream
    {
      WrittenStep(w.codes, indices, i, since, min, maxBeforeClear);
      w.Put(indices[i]);
      since := since + 1;
      if since >= maxBeforeClear {
        w.Put(clear);
        since := 0;
      }
      i := i + 1;
    }
    assert indices[i..] == [];
    w.Put(eoi);
    assert w.codes == stream;
    out := w.Finish();
  }

  lemma WrittenStep(written: seq<nat>, indices: seq<nat>, i: nat, since: nat, min: nat, limit: nat)
    requires i < |indices|
    ensures since + 1 >= limit ==>
      written + [indices[i]] + [Clear(min)] + Codes(indices[i + 1..], 0, min, limit)
        == written + Codes(indices[i..], since, min, limit)
    ensures since + 1 < limit ==>
      written + [indices[i]] + Codes(indices[i + 1..], since + 1, min, limit)
        == written + Codes(indices[i..], since, min, limit)
  {
    assert indices[i..][0] == indices[i] && indices[i..][1..] == indices[i + 1..];
  }

  // ---- The decoder of Appendix F -------------------------------------------------------------------------

  /** What each code stands for, the width of the next code, and what the last code stood for. */
  datatype Decoder = Decoder(table: seq<seq<nat>>, width: nat, last: Option<seq<nat>>)

  datatype Decoded = Decoded(output: seq<nat>, widest: nat)

  /** After a clear the table holds the roots; the two codes above them stand for nothing. */
  function Roots(min: nat): seq<seq<nat>> {
    seq(Clear(min) + 2, i => if 0 <= i < Clear(min) then [i] else [])
  }

  function Cleared(min: nat): Decoder {
    Decoder(Roots(min), min + 1, None)
  }

  /** What a code stands for: an entry, or the entry that this code completes. */
  function Entry(d: Decoder, code: nat): (e: Option<seq<nat>>)
    ensures e.Some? ==> e.value != []
  {
    if code < |d.table| && d.table[code] != [] then Some(d.table[code])
    else if code == |d.table| && d.last.Some? && d.last.value != [] then Some(d.last.value + [d.last.value[0]])
    else None
  }

  /** The table grows by the last entry and the first index of this one; the width follows it, up to 12 bits. */
  function Learn(d: Decoder, e: seq<nat>): (d': Decoder)
    requires e != []
    ensures d'.width >= d.width
  {
    if d.last.None? || |d.table| == 4096 then d.(last := Some(e))
    else
      var table := d.table + [d.last.value + [e[0]]];
      Decoder(table, if |table| == Pow2(d.width) && d.width < 12 then d.width + 1 else d.width, Some(e))
  }

  /** Decode up to the end-of-information code; nothing where the codes run out or stand for nothing. */
  function Decode(bits: seq<bool>, min: nat, d: Decoder): Option<Decoded>
    requires d.width > 0
    decreases |bits|
  {
    if |bits| < d.width then None
    else
      var code, rest := Number(bits[..d.width]), bits[d.width..];
      if code == EndOfInformation(min) then Some(Decoded([], d.width))
      else if code == Clear(min) then Wrote([], d.width, Decode(rest, min, Cleared(min)))
      else
        match Entry(d, code)
        case None => None
        case Some(e) => Wrote(e, d.width, Decode(rest, min, Learn(d, e)))
  }

  function Wrote(e: seq<nat>, width: nat, more: Option<Decoded>): Option<Decoded> {
    if more.None? then None else Some(Decoded(e + more.value.output, Max(width, more.value.widest)))
  }

  // ---- The decoder reads what the encoder wrote ------------------------------------------------------------

  /** The decoder when `since` root codes came after the last clear: still at the first width. */
  ghost predicate Rooted(d: Decoder, since: nat, min: nat) {
    && Roots(min) <= d.table && |d.table| == Clear(min) + 2 + (if since == 0 then 0 else since - 1)
    && d.width == min + 1 && (d.last.Some? <==> since > 0)
  }

  lemma RootStep(d: Decoder, since: nat, min: nat, index: nat)
    requires min <= 8 && Rooted(d, since, min) && index < Clear(min) && since + 1 < Clear(min) - 1
    ensures Entry(d, index) == Some([index]) && Rooted(Learn(d, [index]), since + 1, min)
  {
    assert d.table[index] == Roots(min)[index];
    assert Pow2(min + 1) == 2 * Clear(min);
    Pow2Grows(min, 8);
    ByteWeight(0);
  }

  lemma CodeIsRead(code: nat, width: nat, rest: seq<bool>)
    requires code < Pow2(width)
    ensures var bits := Bits(code, width) + rest; Number(bits[..width]) == code && bits[width..] == rest
  {
    NumberOfBits(code, width);
    assert (Bits(code, width) + rest)[..width] == Bits(code, width);
  }

  /** The bits of some codes directly in front of what follows them. */
  function Written(codes: seq<nat>, width: nat, pad: seq<bool>): seq<bool> {
    if codes == [] then pad else Bits(codes[0], width) + Written(codes[1..], width, pad)
  }

  lemma {:induction false} WrittenIs(codes: seq<nat>, width: nat, pad: seq<bool>)
    ensures Written(codes, width, pad) == CodesBits(codes, width) + pad
  {
    if codes != [] {
      WrittenIs(codes[1..], width, pad);
      Regroup(Bits(codes[0], width), CodesBits(codes[1..], width), pad);
    }
  }

  lemma WrittenCons(code: nat, codes: seq<nat>, width: nat, pad: seq<bool>)
    ensures Written([code] + codes, width, pad) == Bits(code, width) + Written(codes, width, pad)
  {
    assert ([code] + codes)[1..] == codes;
  }

  lemma ClearIsRead(rest: seq<bool>, min: nat, d: Decoder)
    requires d.width == min + 1
    ensures Decode(Bits(Clear(min), min + 1) + rest, min, d) == Wrote([], min + 1, Decode(rest, min, Cleared(min)))
  {
    CodeIsRead(Clear(min), min + 1, rest);
  }

  lemma EndIsRead(rest: seq<bool>, min: nat, d: Decoder)
    requires d.width == min + 1 && min > 0
    ensures Decode(Bits(EndOfInformation(min), min + 1) + rest, min, d) == Some(Decoded([], min + 1))
  {
    Pow2Grows(1, min);
    CodeIsRead(EndOfInformation(min), min + 1, rest);
  }

  lemma IndexIsRead(index: nat, rest: seq<bool>, min: nat, d: Decoder)
    requires d.width == min + 1 && index < Clear(min) && Entry(d, index) == Some([index])
    ensures Decode(Bits(index, min + 1) + rest, min, d)
         == Wrote([index], min + 1, Decode(rest, min, Learn(d, [index])))
  {
    CodeIsRead(index, min + 1, rest);
  }

  /** The codes that are still to come, as bits. */
  function Coming(indices: seq<nat>, since: nat, min: nat, pad: seq<bool>): seq<bool>
    requires Clear(min) >= 2
  {
    Written(Codes(indices, since, min, Clear(min) - 2), min + 1, pad)
  }

  lemma WrittenTwo(code: nat, next: nat, codes: seq<nat>, width: nat, pad: seq<bool>)
    ensures Written([code, next] + codes, width, pad)
         == Bits(code, width) + (Bits(next, width) + Written(codes, width, pad))
  {
    assert [code, next] + codes == [code] + ([next] + codes);
    WrittenCons(code, [next] + codes, width, pad);
    WrittenCons(next, codes, width, pad);
  }

  lemma ComingStep(indices: seq<nat>, since: nat, min: nat, pad: seq<bool>)
    requires Clear(min) >= 2 && indices != []
    ensures Coming(indices, since, min, pad) == Bits(indices[0], min + 1) +
      if since + 1 >= Clear(min) - 2 then Bits(Clear(min), min + 1) + Coming(indices[1..], 0, min, pad)
      else Coming(indices[1..], since + 1, min, pad)
  {
    var limit := Clear(min) - 2;
    if since + 1 >= limit {
      WrittenTwo(indices[0], Clear(min), Codes(indices[1..], 0, min, limit), min + 1, pad);
    } else {
      WrittenCons(indices[0], Codes(indices[1..], since + 1, min, limit), min + 1, pad);
    }
  }

  lemma ComingEnd(since: nat, min: nat, pad: seq<bool>)
    requires Clear(min) >= 2
    ensures Coming([], since, min, pad) == Bits(EndOfInformation(min), min + 1) + pad
  {
    WrittenCons(EndOfInformation(min), [], min + 1, pad);
    assert [EndOfInformation(min)] + [] == Codes([], since, min, Clear(min) - 2);
  }

  lemma WroteOne(indices: seq<nat>, width: nat)
    requires indices != []
    ensures Wrote([indices[0]], width, Some(Decoded(indices[1..], width))) == Some(Decoded(indices, width))
  {
    assert indices == [indices[0]] + indices[1..];
  }

  /** What the decoder makes of the codes that are still to come. */
  ghost predicate IsRead(indices: seq<nat>, since: nat, min: nat, pad: seq<bool>, d: Decoder)
    requires Clear(min) >= 2 && d.width > 0
  {
    Decode(Coming(indices, since, min, pad), min, d) == Some(Decoded(indices, min + 1))
  }

  lemma LastIsRead(since: nat, min: nat, pad: seq<bool>, d: Decoder)
    requires 2 <= min && Clear(min) >= 2 && d.width == min + 1
    ensures IsRead([], since, min, pad, d)
  {
    ComingEnd(since, min, pad);
    EndIsRead(pad, min, d);
  }

  /** An index after which no clear comes. */
  lemma NextIsRead(indices: seq<nat>, since: nat, min: nat, pad: seq<bool>, d: Decoder)
    requires indices != [] && indices[0] < Clear(min) && since + 1 < Clear(min) - 2
    requires d.width == min + 1 && Entry(d, indices[0]) == Some([indices[0]])
    requires IsRead(indices[1..], since + 1, min, pad, Learn(d, [indices[0]]))
    ensures IsRead(indices, since, min, pad, d)
  {
    ComingStep(indices, since, min, pad);
    IndexIsRead(indices[0], Coming(indices[1..], since + 1, min, pad), min, d);
    WroteOne(indices, min + 1);
  }

  /** An index that fills up the table, and the clear after it. */
  lemma ClearedNextIsRead(indices: seq<nat>, since: nat, min: nat, pad: seq<bool>, d: Decoder)
    requires indices != [] && indices[0] < Clear(min) && since + 1 >= Clear(min) - 2 >= 0
    requires d.width == min + 1 && Entry(d, indices[0]) == Some([indices[0]])
    requires Learn(d, [indices[0]]).width == min + 1 && IsRead(indices[1..], 0, min, pad, Cleared(min))
    ensures IsRead(indices, since, min, pad, d)
  {
    var more := Coming(indices[1..], 0, min, pad);
    ComingStep(indices, since, min, pad);
    IndexIsRead(indices[0], Bits(Clear(min), min + 1) + more, min, d);
    ClearIsRead(more, min, Learn(d, [indices[0]]));
    WroteNothing(indices[1..], min + 1);
    WroteOne(indices, min + 1);
  }

  /** The decoder takes the next index, and those behind it are indices again. */
  lemma FirstStep(indices: seq<nat>, since: nat, min: nat, d: Decoder)
    requires 2 <= min <= 8 && AreIndices(indices, min) && indices != []
    requires since < Clear(min) - 2 && Rooted(d, since, min)
    ensures indices[0] < Clear(min) && AreIndices(indices[1..], min) && d.width == min + 1
    ensures Entry(d, indices[0]) == Some([indices[0]])
    ensures Learn(d, [indices[0]]).width == min + 1 && Rooted(Learn(d, [indices[0]]), since + 1, min)
  {
    RootStep(d, since, min, indices[0]);
  }

  lemma {:induction false} CodesAreRead(indices: seq<nat>, since: nat, min: nat, pad: seq<bool>, d: Decoder)
    requires 2 <= min <= 8 && Clear(min) >= 4 && AreIndices(indices, min)
    requires since < Clear(min) - 2 && Rooted(d, since, min)
    ensures IsRead(indices, since, min, pad, d)
    decreases |indices|
  {
    if indices == [] {
      LastIsRead(since, min, pad, d);
    } else {
      FirstStep(indices, since, min, d);
      if since + 1 >= Clear(min) - 2 {
        CodesAreRead(indices[1..], 0, min, pad, Cleared(min));
        ClearedNextIsRead(indices, since, min, pad, d);
      } else {
        CodesAreRead(indices[1..], since + 1, min, pad, Learn(d, [indices[0]]));
        NextIsRead(indices, since, min, pad, d);
      }
    }
  }

  lemma WroteNothing(indices: seq<nat>, width: nat)
    ensures Wrote([], width, Some(Decoded(indices, width))) == Some(Decoded(indices, width))
  {
    assert [] + indices == indices;
  }

  /** The decoder gets the indices back from any bits that start with the encoder's, and never widens its codes. */
  lemma StreamIsRead(indices: seq<nat>, min: nat, bits: seq<bool>)
    requires 2 <= min <= 8 && AreIndices(indices, min)
    requires CodesBits(Stream(indices, min, Clear(min) - 2), min + 1) <= bits
    ensures Decode(bits, min, Cleared(min)) == Some(Decoded(indices, min + 1))
  {
    var codes := Stream(indices, min, Clear(min) - 2);
    var pad := bits[|CodesBits(codes, min + 1)|..];
    WrittenIs(codes, min + 1, pad);
    WrittenCons(Clear(min), Codes(indices, 0, min, Clear(min) - 2), min + 1, pad);
    assert bits == Bits(Clear(min), min + 1) + Coming(indices, 0, min, pad);
    ClearedIsRead(indices, min, pad);
  }

  lemma ClearedIsRead(indices: seq<nat>, min: nat, pad: seq<bool>)
    requires 2 <= min <= 8 && AreIndices(indices, min)
    ensures Decode(Bits(Clear(min), min + 1) + Coming(indices, 0, min, pad), min, Cleared(min))
         == Some(Decoded(indices, min + 1))
  {
    FourRoots(min);
    ClearIsRead(Coming(indices, 0, min, pad), min, Cleared(min));
    CodesAreRead(indices, 0, min, pad, Cleared(min));
    WroteNothing(indices, min + 1);
  }

  lemma FourRoots(min: nat)
    requires min >= 2
    ensures Clear(min) >= 4
  {
    Pow2Grows(2, min);
    assert Pow2(2) == 4;
  }

  // ---- How early the clear has to come -----------------------------------------------------------------------

  /** The decoder after root codes, read since a clear. */
  function After(indices: seq<nat>, min: nat): Decoder {
    if indices == [] then Cleared(min) else Learn(After(indices[..|indices| - 1], min), [indices[|indices| - 1]])
  }

  lemma {:induction false} AfterRoots(indices: seq<nat>, min: nat)
    requires 2 <= min <= 8 && AreIndices(indices, min)
    ensures |indices| <= Clear(min) - 2 ==> Rooted(After(indices, min), |indices|, min)
    ensures |indices| > Clear(min) - 2 ==> After(indices, min).width > min + 1
    decreases |indices|
  {
    FourRoots(min);
    if indices != [] {
      var front, last := indices[..|indices| - 1], indices[|indices| - 1];
      AfterRoots(front, min);
      if |indices| <= Clear(min) - 2 {
        RootStep(After(front, min), |front|, min, last);
      } else if |indices| == Clear(min) - 1 {
        Widens(After(front, min), |front|, min, last);
      }
    }
  }

  lemma Widens(d: Decoder, since: nat, min: nat, index: nat)
    requires 2 <= min <= 8 && Rooted(d, since, min) && since == Clear(min) - 2 > 0
    ensures Learn(d, [index]).width == min + 2
  {
    assert Pow2(min + 1) == 2 * Clear(min);
    Pow2Grows(min, 8);
    ByteWeight(0);
  }

  /** `clear - 2` is the most: with one more code between two clears the decoder widens and reads on at another
      width than the encoder writes. */
  lemma ClearIsJustInTime(indices: seq<nat>, min: nat)
    requires 2 <= min <= 8 && AreIndices(indices, min)
    ensures After(indices, min).width == min + 1 <==> |indices| <= Clear(min) - 2
  {
    AfterRoots(indices, min);
  }

  // ---- Sub-blocks ------------------------------------------------------------------------------------------

  function Blocks(data: seq<Byte>): seq<Byte> {
    if data == [] then [0]
    else
      var k := Min(|data|, 255);
      [k as Byte] + data[..k] + Blocks(data[k..])
  }

  /** Section 15: blocks of a length and that many bytes, up to an empty one. */
  function ReadBlocks(bytes: seq<Byte>): Option<(seq<Byte>, seq<Byte>)>
    decreases |bytes|
  {
    if bytes == [] || |bytes| <= bytes[0] then None
    else if bytes[0] == 0 then Some(([], bytes[1..]))
    else
      match ReadBlocks(bytes[1 + bytes[0]..])
      case None => None
      case Some((data, rest)) => Some((bytes[1..1 + bytes[0]] + data, rest))
  }

  function PutBlocks(data: seq<Byte>, rest: seq<Byte>): seq<Byte> {
    if data == [] then [0] + rest
    else
      var k := Min(|data|, 255);
      [k as Byte] + (data[..k] + PutBlocks(data[k..], rest))
  }

  lemma {:induction false} PutBlocksIs(data: seq<Byte>, rest: seq<Byte>)
    ensures PutBlocks(data, rest) == Blocks(data) + rest
    decreases |data|
  {
    if data != [] {
      var k := Min(|data|, 255);
      PutBlocksIs(data[k..], rest);
      RegroupBytes([k as Byte], data[..k], Blocks(data[k..]), rest);
    }
  }

  lemma RegroupBytes(a: seq<Byte>, b: seq<Byte>, c: seq<Byte>, d: seq<Byte>)
    ensures a + (b + (c + d)) == a + b + c + d
  {
  }

  lemma BlockIsRead(k: Byte, chunk: seq<Byte>, bytes: seq<Byte>, data: seq<Byte>, rest: seq<Byte>)
    requires 0 < |chunk| == k && ReadBlocks(bytes) == Some((data, rest))
    ensures ReadBlocks([k] + (chunk + bytes)) == Some((chunk + data, rest))
  {
    var all := [k] + (chunk + bytes);
    assert all[0] == k && |all| > k;
    assert all[1..1 + k] == chunk;
    assert all[1 + k..] == bytes;
  }

  lemma {:induction false} BlocksAreRead(data: seq<Byte>, rest: seq<Byte>)
    ensures ReadBlocks(PutBlocks(data, rest)) == Some((data, rest))
    decreases |data|
  {
    if data == [] {
      assert ([0] + rest)[1..] == rest;
    } else {
      var k := Min(|data|, 255);
      var chunk, more := data[..k], data[k..];
      assert data == chunk + more;
      BlocksAreRead(more, rest);
      BlockIsRead(k, chunk, PutBlocks(more, rest), more, rest);
      assert PutBlocks(data, rest) == [k as Byte] + (chunk + PutBlocks(more, rest));
    }
  }

  /** Whatever follows the blocks, a reader gets the data and stops there. */
  lemma BlocksReadBack(data: seq<Byte>, rest: seq<Byte>)
    ensures ReadBlocks(Blocks(data) + rest) == Some((data, rest))
  {
    BlocksAreRead(data, rest);
    PutBlocksIs(data, rest);
  }

  method SubBlocks(data: seq<Byte>) returns (b: seq<Byte>)
    ensures b == Blocks(data)
  {
    b := [];
    var i := 0;
    assert data[0..] == data && b + Blocks(data) == Blocks(data);
    while i < |data|
      invariant 0 <= i && b + Blocks(data[Min(i, |data|)..]) == Blocks(data)
    {
      var next := Min(i + 255, |data|);
      var chunk := data[i..next];
      BlocksStep(b, data, i, next);
      b := b + ([|chunk| as Byte] + chunk);
      i := i + 255;
    }
    assert data[Min(i, |data|)..] == [];
    b := b + [0];
  }

  lemma BlocksStep(b: seq<Byte>, data: seq<Byte>, i: nat, next: nat)
    requires i < |data| && next == Min(i + 255, |data|)
    ensures b + ([|data[i..next]| as Byte] + data[i..next]) + Blocks(data[next..]) == b + Blocks(data[i..])
  {
    var tail := data[i..];
    assert tail[..next - i] == data[i..next] && tail[next - i..] == data[next..];
    Regroup(b, [(next - i) as Byte] + data[i..next], Blocks(data[next..]));
    assert Blocks(tail) == [(next - i) as Byte] + data[i..next] + Blocks(data[next..]);
  }

  // ---- A frame's image data ----------------------------------------------------------------------------------

  function ReadImage(bytes: seq<Byte>): Option<(Decoded, seq<Byte>)> {
    if bytes == [] || !(2 <= bytes[0] <= 8) then None
    else
      match ReadBlocks(bytes[1..])
      case None => None
      case Some((data, rest)) =>
        match Decode(BytesBits(data), bytes[0], Cleared(bytes[0]))
        case None => None
        case Some(d) => Some((d, rest))
  }

  /** One frame as `encodeGif` writes it; a decoder gets the frame back and stops where the next block starts. */
  method EncodeImage(frame: seq<nat>) returns (b: seq<Byte>)
    requires AreIndices(frame, 4)
    ensures forall rest :: ReadImage(b + rest) == Some((Decoded(frame, 5), rest))
  {
    var data := Lzw(4, frame);
    var blocks := SubBlocks(data);
    b := [4] + blocks;
    assert Clear(4) == 16;
    StreamIsRead(frame, 4, BytesBits(data));
    forall rest
      ensures ReadImage(b + rest) == Some((Decoded(frame, 5), rest))
    {
      ImageIsRead(data, Decoded(frame, 5), rest);
      assert b + rest == [4] + (blocks + rest);
    }
  }

  lemma ImageIsRead(data: seq<Byte>, d: Decoded, rest: seq<Byte>)
    requires Decode(BytesBits(data), 4, Cleared(4)) == Some(d)
    ensures ReadImage([4] + (Blocks(data) + rest)) == Some((d, rest))
  {
    assert ([4] + (Blocks(data) + rest))[1..] == Blocks(data) + rest;
    BlocksReadBack(data, rest);
  }
}
