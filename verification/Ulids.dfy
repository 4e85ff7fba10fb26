/** ULIDs: 48 bits of milliseconds and 80 random bits as 26 Crockford base-32 digits. */
module Ulids {
  import opened Integers
  import opened Options
  import opened TextOrder

  const CROCKFORD: string := "0123456789ABCDEFGHJKMNPQRSTVWXYZ"
  const DIGITS := 26
  /** 2^80, the weight of one millisecond. */
  const MS_WEIGHT: nat := 0x1_0000_0000_0000_0000_0000
  const MS_LIMIT: nat := 0x1_0000_0000_0000

  predicate IsUlid(s: string) {
    |s| == DIGITS && forall c :: c in s ==> c in CROCKFORD
  }

  /** Crockford's alphabet leaves out I, L, O and U. */
  predicate IdText(s: string) {
    |s| == 26 && forall i :: 0 <= i < |s| ==>
      || '0' <= s[i] <= '9' || 'A' <= s[i] <= 'H' || s[i] == 'J' || s[i] == 'K' || s[i] == 'M' || s[i] == 'N'
      || 'P' <= s[i] <= 'T' || 'V' <= s[i] <= 'Z'
  }

  lemma InParts(c: char)
    ensures c in CROCKFORD
       <==> c in "0123456789" || c in "ABCDEFGH" || c in "JKMN" || c in "PQRST" || c in "VWXYZ"
  {
    assert CROCKFORD == "0123456789" + ("ABCDEFGH" + ("JKMN" + ("PQRST" + "VWXYZ")));
  }

  lemma InCrockford(c: char)
    ensures c in CROCKFORD
       <==> || '0' <= c <= '9' || 'A' <= c <= 'H' || c == 'J' || c == 'K' || c == 'M' || c == 'N'
            || 'P' <= c <= 'T' || 'V' <= c <= 'Z'
  {
    InParts(c);
    assert c in "0123456789" <==> '0' <= c <= '9';
    assert c in "ABCDEFGH" <==> 'A' <= c <= 'H';
    assert c in "JKMN" <==> c == 'J' || c == 'K' || c == 'M' || c == 'N';
    assert c in "PQRST" <==> 'P' <= c <= 'T';
    assert c in "VWXYZ" <==> 'V' <= c <= 'Z';
  }

  lemma IdTextIs(s: string)
    ensures IsUlid(s) <==> IdText(s)
  {
    forall i | 0 <= i < |s|
      ensures s[i] in CROCKFORD
         <==> || '0' <= s[i] <= '9' || 'A' <= s[i] <= 'H' || s[i] == 'J' || s[i] == 'K' || s[i] == 'M' || s[i] == 'N'
              || 'P' <= s[i] <= 'T' || 'V' <= s[i] <= 'Z'
    {
      InCrockford(s[i]);
    }
    assert forall i :: 0 <= i < |s| ==> s[i] in s;
  }

  function Pow32(k: nat): nat {
    if k == 0 then 1 else 32 * Pow32(k - 1)
  }

  /** The `k` lowest base-32 digits of `n`, most significant first. */
  function Digits(n: nat, k: nat): (s: string)
    ensures |s| == k
  {
    if k == 0 then [] else Digits(n / 32, k - 1) + [CROCKFORD[n % 32]]
  }

  function BigEndian(bytes: seq<Byte>): nat {
    if bytes == [] then 0 else BigEndian(bytes[..|bytes| - 1]) * 256 + bytes[|bytes| - 1]
  }

  function Pow256(k: nat): nat {
    if k == 0 then 1 else 256 * Pow256(k - 1)
  }

  /** Each random byte is shifted in below the bits so far. */
  function Shifted(n: nat, bytes: seq<Byte>): nat {
    if bytes == [] then n else Shifted(n, bytes[..|bytes| - 1]) * 256 + bytes[|bytes| - 1]
  }

  lemma ShiftedNext(n: nat, bytes: seq<Byte>, i: nat)
    requires i < |bytes|
    ensures Shifted(n, bytes[..i + 1]) == Shifted(n, bytes[..i]) * 256 + bytes[i]
  {
    assert bytes[..i + 1][..i] == bytes[..i];
  }

  lemma DigitMoves(n: nat, k: nat, s: string)
    requires k > 0
    ensures Digits(n, k) + s == Digits(n / 32, k - 1) + ([CROCKFORD[n % 32]] + s)
  {
  }

  method Ulid(ms: nat, random: seq<Byte>) returns (s: string)
    requires |random| == 10
    ensures s == Digits(Shifted(ms, random), DIGITS)
  {
    var n: nat := ms;
    for i := 0 to |random|
      invariant n == Shifted(ms, random[..i])
    {
      ShiftedNext(ms, random, i);
      n := n * 256 + random[i];
    }
    assert random[..|random|] == random;
    s := "";
    for i := 0 to DIGITS
      invariant n >= 0
      invariant Digits(n, DIGITS - i) + s == Digits(Shifted(ms, random), DIGITS)
    {
      DigitMoves(n, DIGITS - i, s);
      s := [CROCKFORD[n % 32]] + s;
      n := n / 32;
    }
  }

  lemma {:induction false} ShiftedIsSum(n: nat, bytes: seq<Byte>)
    ensures Shifted(n, bytes) == n * Pow256(|bytes|) + BigEndian(bytes)
    ensures BigEndian(bytes) < Pow256(|bytes|)
    decreases |bytes|
  {
    if bytes != [] {
      var front := bytes[..|bytes| - 1];
      ShiftedIsSum(n, front);
      assert n * Pow256(|bytes|) == n * Pow256(|front|) * 256 by {
        assert Pow256(|bytes|) == 256 * Pow256(|front|);
      }
    }
  }

  lemma PowersMeet()
    ensures Pow256(10) == MS_WEIGHT
    ensures Pow32(DIGITS) == 4 * MS_LIMIT * MS_WEIGHT
  {
    assert Pow256(5) == 0x100_0000_0000;
    assert Pow256(10) == 256 * (256 * (256 * (256 * (256 * Pow256(5)))));
    assert Pow32(6) == 0x4000_0000;
    assert Pow32(12) == 32 * (32 * (32 * (32 * (32 * (32 * Pow32(6))))));
    assert Pow32(18) == 32 * (32 * (32 * (32 * (32 * (32 * Pow32(12))))));
    assert Pow32(24) == 32 * (32 * (32 * (32 * (32 * (32 * Pow32(18))))));
    assert Pow32(26) == 32 * (32 * Pow32(24));
  }

  lemma CrockfordAscends(i: nat, j: nat)
    requires i < j < 32
    ensures CROCKFORD[i] < CROCKFORD[j]
  {
  }

  /** Digits of one length compare as the numbers do. */
  lemma {:induction false} DigitsAscend(m: nat, n: nat, k: nat)
    requires m < n < Pow32(k)
    ensures Less(Digits(m, k), Digits(n, k))
    decreases k
  {
    if k > 0 {
      LessByFront(Digits(m / 32, k - 1), Digits(n / 32, k - 1), CROCKFORD[m % 32], CROCKFORD[n % 32]);
      if m / 32 < n / 32 {
        DigitsAscend(m / 32, n / 32, k - 1);
      } else {
        CrockfordAscends(m % 32, n % 32);
      }
    }
  }

  /** Name order is time order: ids of different milliseconds compare as the milliseconds do, whatever their random
      bits. It holds up to 2^50 ms, four times the 48 bits the format promises. */
  lemma NameOrderIsTimeOrder(ms1: nat, random1: seq<Byte>, ms2: nat, random2: seq<Byte>)
    requires |random1| == |random2| == 10
    requires ms1 < ms2 < 4 * MS_LIMIT
    ensures Less(Digits(Shifted(ms1, random1), DIGITS), Digits(Shifted(ms2, random2), DIGITS))
  {
    ShiftedIsSum(ms1, random1);
    ShiftedIsSum(ms2, random2);
    PowersMeet();
    DigitsAscend(Shifted(ms1, random1), Shifted(ms2, random2), DIGITS);
  }

  /** The bound is exact: 2^50 ms no longer fits in 26 digits and sorts before every earlier time but zero. */
  lemma TimeOrderEnds(ms: nat, random1: seq<Byte>, random2: seq<Byte>)
    requires |random1| == |random2| == 10 && 0 < ms < 4 * MS_LIMIT
    ensures Less(Digits(Shifted(4 * MS_LIMIT, random2), DIGITS), Digits(Shifted(ms, random1), DIGITS))
  {
    TimedValue(ms, random1);
    TooLate(random2);
    DigitsAscend(BigEndian(random2), Shifted(ms, random1), DIGITS);
  }

  lemma TimedValue(ms: nat, random: seq<Byte>)
    requires |random| == 10 && 0 < ms < 4 * MS_LIMIT
    ensures MS_WEIGHT <= Shifted(ms, random) < Pow32(DIGITS)
  {
    ShiftedIsSum(ms, random);
    PowersMeet();
  }

  /** Of an id made too late only the random bits are written. */
  lemma TooLate(random: seq<Byte>)
    requires |random| == 10
    ensures Digits(Shifted(4 * MS_LIMIT, random), DIGITS) == Digits(BigEndian(random), DIGITS)
    ensures BigEndian(random) < MS_WEIGHT
  {
    TooLateValue(random);
    TopIsDropped(Shifted(4 * MS_LIMIT, random), BigEndian(random), DIGITS);
  }

  lemma TooLateValue(random: seq<Byte>)
    requires |random| == 10
    ensures Shifted(4 * MS_LIMIT, random) == Pow32(DIGITS) + BigEndian(random) && BigEndian(random) < MS_WEIGHT
  {
    ShiftedIsSum(4 * MS_LIMIT, random);
    PowersMeet();
  }

  /** What does not fit in `k` digits is not written. */
  lemma {:induction false} TopIsDropped(m: nat, n: nat, k: nat)
    requires m == Pow32(k) + n
    ensures Digits(m, k) == Digits(n, k)
    decreases k
  {
    if k > 0 {
      WholeIsDropped(m, n, Pow32(k - 1));
      TopIsDropped(m / 32, n / 32, k - 1);
    }
  }

  lemma WholeIsDropped(m: nat, n: nat, p: nat)
    requires m == 32 * p + n
    ensures m / 32 == p + n / 32 && m % 32 == n % 32
  {
  }

  // ---- Reading an id back ----------------------------------------------------------------------------

  function DigitValue(c: char): Option<nat> {
    DigitFrom(c, 0)
  }

  function DigitFrom(c: char, i: nat): (v: Option<nat>)
    requires i <= 32
    ensures v.Some? ==> v.value < 32 && CROCKFORD[v.value] == c
    ensures v.None? ==> forall j :: i <= j < 32 ==> CROCKFORD[j] != c
    decreases 32 - i
  {
    if i == 32 then None else if CROCKFORD[i] == c then Some(i) else DigitFrom(c, i + 1)
  }

  function Value(s: string): Option<nat> {
    if s == [] then Some(0)
    else
      var front := Value(s[..|s| - 1]);
      var digit := DigitValue(s[|s| - 1]);
      if front.None? || digit.None? then None else Some(front.value * 32 + digit.value)
  }

  lemma DigitValueOf(d: nat)
    requires d < 32
    ensures DigitValue(CROCKFORD[d]) == Some(d)
  {
    var v := DigitValue(CROCKFORD[d]);
    if v.None? {
      assert false;
    } else if v.value < d {
      CrockfordAscends(v.value, d);
    } else if d < v.value {
      CrockfordAscends(d, v.value);
    }
  }

  lemma DigitValueIn(c: char)
    requires c in CROCKFORD
    ensures DigitValue(c).Some?
  {
    var d: nat :| d < |CROCKFORD| && CROCKFORD[d] == c;
    DigitValueOf(d);
  }

  /** Every number below 32^k is read back from its k digits. */
  lemma {:induction false} DigitsReadBack(n: nat, k: nat)
    requires n < Pow32(k)
    ensures Value(Digits(n, k)) == Some(n)
    decreases k
  {
    if k > 0 {
      DigitsReadBack(n / 32, k - 1);
      DigitValueOf(n % 32);
      assert Digits(n, k)[..k - 1] == Digits(n / 32, k - 1);
    }
  }

  lemma ValueAppend(front: string, c: char)
    requires c in CROCKFORD && Value(front).Some?
    ensures Value(front + [c]).Some?
    ensures Value(front + [c]).value / 32 == Value(front).value
    ensures CROCKFORD[Value(front + [c]).value % 32] == c
  {
    DigitValueIn(c);
    assert (front + [c])[..|front|] == front;
  }

  /** And every text of Crockford digits is the digits of exactly the number it reads as. */
  lemma {:induction false} ValuesPrintBack(s: string)
    requires forall c :: c in s ==> c in CROCKFORD
    ensures Value(s).Some? && Value(s).value < Pow32(|s|)
    ensures Digits(Value(s).value, |s|) == s
    decreases |s|
  {
    if s != [] {
      var front, c := s[..|s| - 1], s[|s| - 1];
      assert s == front + [c];
      assert forall x :: x in front ==> x in s;
      assert c in s;
      ValuesPrintBack(front);
      ValueAppend(front, c);
      var n := Value(s).value;
      assert Digits(n / 32, |s| - 1) == front;
    }
  }

  lemma {:induction false} DigitsAreCrockford(n: nat, k: nat)
    ensures forall c :: c in Digits(n, k) ==> c in CROCKFORD
    decreases k
  {
    if k > 0 {
      DigitsAreCrockford(n / 32, k - 1);
    }
  }

  /** A fresh id always has the format, and for a 48-bit time it still holds the time and every random bit. */
  lemma UlidRoundTrip(ms: nat, random: seq<Byte>)
    requires |random| == 10 && ms < MS_LIMIT
    ensures var id := Digits(Shifted(ms, random), DIGITS);
            && IsUlid(id)
            && Value(id) == Some(ms * MS_WEIGHT + BigEndian(random))
            && Value(id).value / MS_WEIGHT == ms
  {
    DigitsAreCrockford(Shifted(ms, random), DIGITS);
    ShiftedIsSum(ms, random);
    PowersMeet();
    DigitsReadBack(Shifted(ms, random), DIGITS);
  }
}
