/** Every JSON text is read, as what it spells: the reader accepts the grammar and nothing else. */
module JsonReading {
  import opened CanonicalJson
  import opened JsonGrammar
  import opened JsonSpelling
  import opened JsonText
  import opened Numerals
  import opened Options
  import opened Sequences

  lemma ShortIsRead(p: string, u: Unit, rest: string)
    requires |p| == 2 && p[0] == '\\' && ShortIs(p[1], u)
    ensures EscapeUnit(p[1..] + rest) == Some((1, u))
  {
    assert (p[1..] + rest)[0] == p[1];
  }

  lemma HexIsHex(c: char, d: int)
    requires HexIs(c, d)
    ensures IsHex(c) && HexOf(c) == d
  {
  }

  lemma HexAreRead(p: string, u: Unit, a: int, b: int, c: int, d: int)
    requires HexFour(p, u, a, b, c, d)
    ensures IsHex(p[2]) && HexOf(p[2]) == a && IsHex(p[3]) && HexOf(p[3]) == b
    ensures IsHex(p[4]) && HexOf(p[4]) == c && IsHex(p[5]) && HexOf(p[5]) == d
  {
    HexIsHex(p[2], a);
    HexIsHex(p[3], b);
    HexIsHex(p[4], c);
    HexIsHex(p[5], d);
  }

  lemma Behind(p: string, rest: string)
    requires |p| == 6
    ensures var t := p[1..] + rest;
            |t| >= 5 && t[0] == p[1] && t[1] == p[2] && t[2] == p[3] && t[3] == p[4] && t[4] == p[5]
  {
  }

  lemma FourAreRead(p: string, u: Unit, a: int, b: int, c: int, d: int, rest: string)
    requires HexFour(p, u, a, b, c, d)
    ensures EscapeUnit(p[1..] + rest) == Some((5, u))
  {
    HexAreRead(p, u, a, b, c, d);
    Behind(p, rest);
    FourDigits(p[1..] + rest, a, b, c, d);
  }

  lemma LongIsRead(p: string, u: Unit, rest: string)
    requires IsLong(p, u)
    ensures EscapeUnit(p[1..] + rest) == Some((5, u))
  {
    var a, b, c, d :| HexFour(p, u, a, b, c, d);
    FourAreRead(p, u, a, b, c, d, rest);
  }

  lemma FourDigits(t: string, a: int, b: int, c: int, d: int)
    requires |t| >= 5 && t[0] == 'u' && IsHex(t[1]) && IsHex(t[2]) && IsHex(t[3]) && IsHex(t[4])
    requires HexOf(t[1]) == a && HexOf(t[2]) == b && HexOf(t[3]) == c && HexOf(t[4]) == d
    ensures EscapeUnit(t) == Some((5, ((a * 16 + b) * 16 + c) * 16 + d))
  {
  }

  lemma EncodesOnce(units: seq<Unit>, c: char)
    requires Encodes(units, c)
    ensures units == Encode(c)
  {
    if |units| == 2 {
      var n := c as int;
      var high, low := units[0] - 0xd800, units[1] as int - 0xdc00;
      assert n - 0x10000 == high * 0x400 + low && 0 <= low < 0x400;
      assert (n - 0x10000) / 0x400 == high && (n - 0x10000) % 0x400 == low;
      assert units == [units[0], units[1]];
    } else {
      assert units[0] == c as int;
    }
  }

  lemma PieceIsRead(p: string, units: seq<Unit>, rest: string)
    requires IsPiece(p, units)
    ensures p != [] && p[0] != '"' && ParseChar(p + rest) == Some((units, rest))
  {
    var t := p + rest;
    assert t[1..] == p[1..] + rest;
    if |p| == 1 {
      EncodesOnce(units, p[0]);
    } else {
      if |p| == 2 {
        ShortIsRead(p, units[0], rest);
      } else {
        LongIsRead(p, units[0], rest);
      }
      assert t[1..][|p| - 1..] == rest;
      assert units == [units[0]];
    }
  }

  lemma PieceInFront(p: string, u: seq<Unit>, t: string, units: seq<Unit>, rest: string)
    requires IsPiece(p, u) && ParseChars(t) == Some((units, rest))
    ensures ParseChars(p + t) == Some((u + units, rest))
  {
    PieceIsRead(p, u, t);
    assert (p + t)[0] == p[0];
  }

  lemma {:induction false} TextIsRead(t: string, units: seq<Unit>, rest: string)
    requires IsText(t, units)
    ensures ParseChars(t + ("\"" + rest)) == Some((units, rest))
    decreases |t|
  {
    if t == [] {
      assert [] + ("\"" + rest) == "\"" + rest && ("\"" + rest)[1..] == rest;
    } else {
      var p, q, u, w :| t == p + q && p != [] && units == u + w && IsPiece(p, u) && IsText(q, w);
      TextIsRead(q, w, rest);
      PieceInFront(p, u, q + ("\"" + rest), w, rest);
      Regroup(p, q, "\"" + rest);
    }
  }

  lemma DigitsAreRun(digits: string, rest: string)
    requires AreDigits(digits) && EndsNumber(rest)
    ensures DigitRun(digits + rest) == |digits|
  {
    DigitRunOf(digits, rest);
  }

  lemma WholeReads(whole: string, rest: string)
    requires IsWhole(whole) && EndsNumber(rest)
    ensures WholePart(whole + rest) == |whole| && !Starts(whole + rest, '-')
  {
    assert whole[0] in whole;
    DigitsAreRun(whole, rest);
  }

  lemma FractionReads(fraction: string, rest: string)
    requires IsFraction(fraction) && EndsNumber(rest) && !Starts(rest, '.')
    ensures FractionPart(fraction + rest) == Some(|fraction|)
  {
    if fraction == [] {
      assert fraction + rest == rest;
    } else {
      assert (fraction + rest)[1..] == fraction[1..] + rest;
      DigitsAreRun(fraction[1..], rest);
    }
  }

  lemma ExponentReads(exponent: string, rest: string)
    requires IsExponent(exponent) && EndsNumeral(rest)
    ensures ExponentPart(exponent + rest) == Some(|exponent|)
  {
    if exponent == [] {
      assert exponent + rest == rest;
    } else {
      var t := exponent + rest;
      var u := t[1..];
      assert u == exponent[1..] + rest;
      if AreDigits(exponent[1..]) {
        assert exponent[1] in exponent[1..];
        DigitsAreRun(exponent[1..], rest);
        assert u[0..] == u;
      } else {
        DigitsAreRun(exponent[2..], rest);
        assert u[1..] == exponent[2..] + rest;
      }
    }
  }

  lemma TailReads(fraction: string, exponent: string, rest: string)
    requires IsFraction(fraction) && IsExponent(exponent) && EndsNumeral(rest)
    ensures TailLength(fraction + (exponent + rest)) == Some(|fraction + exponent|)
    ensures EndsNumber(fraction + (exponent + rest))
  {
    var back := exponent + rest;
    FractionReads(fraction, back);
    ExponentReads(exponent, rest);
    assert (fraction + back)[|fraction|..] == back;
  }

  lemma HeadReads(sign: string, whole: string, rest: string)
    requires (sign == "" || sign == "-") && IsWhole(whole) && EndsNumber(rest)
    ensures HeadLength(sign + (whole + rest)) == |sign + whole| > 0
  {
    WholeReads(whole, rest);
    assert (sign + (whole + rest))[|sign|..] == whole + rest;
  }

  lemma NumberReads(t: string, head: nat, tail: nat)
    requires 0 < head <= |t| && HeadLength(t) == head && TailLength(t[head..]) == Some(tail)
    ensures head + tail <= |t| && ParseNumber(t) == Some((Numeral(t[..head + tail]), t[head + tail..]))
  {
  }

  lemma NumeralReads(t: string, rest: string)
    requires IsNumeral(t) && EndsNumeral(rest)
    ensures t != [] && (t[0] == '-' || IsDigit(t[0])) && ParseNumber(t + rest) == Some((Numeral(t), rest))
  {
    var sign, whole, fraction, exponent :|
      && t == sign + (whole + (fraction + exponent)) && (sign == "" || sign == "-")
      && IsWhole(whole) && IsFraction(fraction) && IsExponent(exponent);
    PartsRead(sign, whole, fraction, exponent, rest);
    NumeralStart(sign, whole, fraction + exponent);
    NumberReads(t + rest, |sign + whole|, |fraction + exponent|);
    assert (t + rest)[..|t|] == t && (t + rest)[|t|..] == rest;
  }

  lemma NumeralStart(sign: string, whole: string, more: string)
    requires (sign == "" || sign == "-") && IsWhole(whole)
    ensures var t := sign + (whole + more); t != [] && (t[0] == '-' || IsDigit(t[0]))
  {
    assert whole[0] in whole;
  }

  lemma PartsRead(sign: string, whole: string, fraction: string, exponent: string, rest: string)
    requires (sign == "" || sign == "-") && IsWhole(whole) && IsFraction(fraction) && IsExponent(exponent)
    requires EndsNumeral(rest)
    ensures var t := sign + (whole + (fraction + exponent)) + rest;
            var head := |sign + whole|;
            0 < head <= |t| && HeadLength(t) == head && TailLength(t[head..]) == Some(|fraction + exponent|)
  {
    var back := fraction + (exponent + rest);
    TailReads(fraction, exponent, rest);
    HeadReads(sign, whole, back);
    Regroup(sign, whole, back);
    Grouped(sign, whole, fraction, exponent, rest);
    assert ((sign + whole) + back)[|sign + whole|..] == back;
  }

  lemma Grouped(a: string, b: string, c: string, d: string, rest: string)
    ensures a + (b + (c + d)) + rest == a + (b + (c + (d + rest)))
  {
    Regroup(c, d, rest);
    Regroup(b, c + d, rest);
    Regroup(a, b + (c + d), rest);
  }

  lemma WordReads(t: string, v: Json, rest: string)
    requires Spells(t, Word(v))
    ensures t != [] && ParseValue(t + rest, None) == Some((Word(v), rest))
  {
    assert (t + rest)[|t|..] == rest;
  }

  lemma Unquoted(t: string, rest: string)
    requires Enclosed(t, '"', '"')
    ensures (t + rest)[1..] == Inside(t) + ("\"" + rest)
  {
  }

  lemma StringReads(t: string, units: seq<Unit>, rest: string)
    requires Spells(t, Chars(units))
    ensures Starts(t, '"') && ParseChars((t + rest)[1..]) == Some((units, rest))
  {
    TextIsRead(Inside(t), units, rest);
    Unquoted(t, rest);
  }

  lemma {:induction false} SkipBlank(b: string, t: string)
    requires Blank(b) && (t == [] || !IsSpace(t[0]))
    ensures Skip(b + t) == t
    decreases |b|
  {
    if b == [] {
      assert b + t == t;
    } else {
      assert b[0] in b && forall c :: c in b[1..] ==> c in b;
      assert (b + t)[1..] == b[1..] + t;
      SkipBlank(b[1..], t);
    }
  }

  lemma SpelledStart(t: string, x: Syntax)
    requires Spells(t, x)
    ensures t != [] && !IsSpace(t[0]) && t[0] != ']' && t[0] != '}'
  {
    if x.Numeral? {
      NumeralReads(t, []);
    }
  }

  lemma Ended(c: char, rest: string)
    requires c == ',' || c == ':' || c == ']' || c == '}'
    ensures EndsNumeral([c] + rest) && !IsSpace(([c] + rest)[0])
  {
  }

  lemma BlankEnds(e: string, rest: string)
    requires Blank(e) && EndsNumeral(rest)
    ensures EndsNumeral(e + rest)
  {
    if e != [] {
      assert e[0] in e;
    }
  }

  lemma StringIsRead(t: string, units: seq<Unit>, rest: string)
    requires Spells(t, Chars(units))
    ensures ParseValue(t + rest, None) == Some((Chars(units), rest))
  {
    StringReads(t, units, rest);
  }

  lemma NumeralIsValue(t: string, rest: string)
    requires IsNumeral(t) && EndsNumeral(rest)
    ensures ParseValue(t + rest, None) == Some((Numeral(t), rest))
  {
    NumeralReads(t, rest);
    assert (t + rest)[0] == t[0] && t[0] !in {'"', 't', 'f', 'n', '{', '['};
  }

  lemma Opened(t: string, open: char, close: char, x: Syntax, rest: string)
    requires Enclosed(t, open, close)
    requires open == '[' ==> ParseArray(Inside(t) + ([close] + rest), None) == Some((x, rest))
    requires open == '{' ==> ParseObject(Inside(t) + ([close] + rest), None) == Some((x, rest))
    ensures open == '[' || open == '{' ==> ParseValue(t + rest, None) == Some((x, rest))
  {
    assert (t + rest)[0] == open && (t + rest)[1..] == Inside(t) + ([close] + rest);
  }

  lemma {:induction false} SpelledIsRead(t: string, x: Syntax, rest: string)
    requires Spells(t, x) && EndsNumeral(rest)
    ensures ParseValue(t + rest, None) == Some((x, rest))
    decreases |t|, 0
  {
    match x
    case Word(v) => WordReads(t, v, rest);
    case Numeral(_) => NumeralIsValue(t, rest);
    case Chars(units) => StringIsRead(t, units, rest);
    case Items(items) =>
      ArrayIsRead(Inside(t), items, rest);
      Opened(t, '[', ']', x, rest);
    case Members(members) =>
      ObjectIsRead(Inside(t), members, rest);
      Opened(t, '{', '}', x, rest);
  }

  /** What is left of the space behind a value is skipped. */
  lemma {:induction false} PaddedIsRead(t: string, x: Syntax, rest: string) returns (e: string)
    requires Padded(t, x) && EndsNumeral(rest) && (rest == [] || !IsSpace(rest[0]))
    ensures ParseValue(Skip(t + rest), None) == Some((x, e)) && Skip(e) == rest
    decreases |t|, 1
  {
    var b, s, back :| t == b + (s + back) && Blank(b) && Blank(back) && Spells(s, x);
    e := back + rest;
    BlankEnds(back, rest);
    SpelledIsRead(s, x, e);
    SpelledStart(s, x);
    SkipBlank(b, s + e);
    SkipBlank(back, rest);
    Regroup(s, back, rest);
    Regroup(b, s + back, rest);
  }

  lemma {:induction false} ArrayIsRead(t: string, items: seq<Syntax>, rest: string)
    requires if items == [] then Blank(t) else SpellItems(t, items)
    ensures ParseArray(t + ("]" + rest), None) == Some((Items(items), rest))
    decreases |t|, 4
  {
    if items == [] {
      SkipBlank(t, "]" + rest);
      assert ("]" + rest)[1..] == rest;
    } else {
      ItemsAreRead(t, items, rest);
    }
  }

  lemma ItemRead(t: string, x: Syntax, e: string, back: string, more: seq<Syntax>, rest: string)
    requires ParseValue(t, None) == Some((x, e)) && Skip(e) == "," + back
    requires ParseItems(Skip(back), None) == Some((more, rest))
    ensures ParseItems(t, None) == Some(([x] + more, rest))
  {
    assert ("," + back)[1..] == back;
  }

  lemma LastItemRead(t: string, x: Syntax, e: string, rest: string)
    requires ParseValue(t, None) == Some((x, e)) && Skip(e) == "]" + rest
    ensures ParseItems(t, None) == Some(([x], rest))
  {
    assert ("]" + rest)[1..] == rest;
  }

  /** Several items, when those after the first are read. */
  lemma {:induction false} FirstIsRead(a: string, x: Syntax, b: string, more: seq<Syntax>, rest: string)
    requires Padded(a, x) && ParseItems(Skip(b + ("]" + rest)), None) == Some((more, rest))
    ensures ParseItems(Skip(a + ("," + b) + ("]" + rest)), None) == Some(([x] + more, rest))
    decreases |a|, 2
  {
    var end := "]" + rest;
    Ended(',', b + end);
    var e := PaddedIsRead(a, x, "," + (b + end));
    Regroup(",", b, end);
    Regroup(a, "," + b, end);
    ItemRead(Skip(a + ("," + b) + end), x, e, b + end, more, rest);
  }

  lemma ItemsSplit(t: string, items: seq<Syntax>) returns (a: string, b: string)
    requires |items| > 1 && SpellItems(t, items)
    ensures t == a + ("," + b) && Padded(a, items[0]) && SpellItems(b, items[1..])
  {
    a, b :| t == a + ("," + b) && Padded(a, items[0]) && SpellItems(b, items[1..]);
  }

  lemma {:induction false} OnlyIsRead(t: string, x: Syntax, rest: string)
    requires Padded(t, x)
    ensures ParseItems(Skip(t + ("]" + rest)), None) == Some(([x], rest))
    decreases |t|, 2
  {
    Ended(']', rest);
    var e := PaddedIsRead(t, x, "]" + rest);
    LastItemRead(Skip(t + ("]" + rest)), x, e, rest);
  }

  lemma FrontAndRest<T>(s: seq<T>)
    requires s != []
    ensures s == [s[0]] + s[1..]
  {
  }

  lemma ItemAlone(t: string, items: seq<Syntax>)
    requires |items| == 1 && SpellItems(t, items)
    ensures Padded(t, items[0]) && items == [items[0]]
  {
  }

  lemma {:induction false} ItemsAreRead(t: string, items: seq<Syntax>, rest: string)
    requires items != [] && SpellItems(t, items)
    ensures ParseItems(Skip(t + ("]" + rest)), None) == Some((items, rest))
    decreases |t|, 3
  {
    if |items| == 1 {
      ItemAlone(t, items);
      OnlyIsRead(t, items[0], rest);
    } else {
      var a, b := ItemsSplit(t, items);
      FrontAndRest(items);
      ItemsAreRead(b, items[1..], rest);
      FirstIsRead(a, items[0], b, items[1..], rest);
    }
  }

  lemma {:induction false} ObjectIsRead(t: string, members: seq<Member>, rest: string)
    requires if members == [] then Blank(t) else SpellMembers(t, members)
    ensures ParseObject(t + ("}" + rest), None) == Some((Members(members), rest))
    decreases |t|, 5
  {
    if members == [] {
      SkipBlank(t, "}" + rest);
      assert ("}" + rest)[1..] == rest;
    } else {
      MembersAreRead(t, members, rest);
    }
  }

  lemma {:induction false} KeyIsRead(t: string, key: seq<Unit>, rest: string)
    requires Padded(t, Chars(key))
    ensures ParseKey(Skip(t + (":" + rest))) == Some((key, Skip(rest)))
    decreases |t|, 2
  {
    var b, s, back :| t == b + (s + back) && Blank(b) && Blank(back) && Spells(s, Chars(key));
    var e := back + (":" + rest);
    StringReads(s, key, e);
    SkipBlank(b, s + e);
    SkipBlank(back, ":" + rest);
    Regroup(s, back, ":" + rest);
    Regroup(b, s + back, ":" + rest);
    assert (":" + rest)[1..] == rest;
  }

  lemma {:induction false} MemberIsRead(t: string, m: Member, rest: string) returns (w: string, e: string)
    requires SpellMember(t, m) && EndsNumeral(rest) && (rest == [] || !IsSpace(rest[0]))
    ensures ParseKey(Skip(t + rest)) == Some((m.key, w))
    ensures ParseValue(w, None) == Some((m.value, e)) && Skip(e) == rest
    decreases |t|, 2
  {
    var a, b :| t == a + (":" + b) && Padded(a, Chars(m.key)) && Padded(b, m.value);
    e := PaddedIsRead(b, m.value, rest);
    KeyIsRead(a, m.key, b + rest);
    w := Skip(b + rest);
    Regroup(":", b, rest);
    Regroup(a, ":" + b, rest);
  }

  lemma LastMemberRead(t: string, m: Member, w: string, e: string, rest: string)
    requires ParseKey(t) == Some((m.key, w)) && ParseValue(w, None) == Some((m.value, e)) && Skip(e) == "}" + rest
    ensures ParseMembers(t, None) == Some(([m], rest))
  {
    assert ("}" + rest)[1..] == rest;
  }

  lemma MemberRead(t: string, m: Member, w: string, e: string, back: string, more: seq<Member>, rest: string)
    requires ParseKey(t) == Some((m.key, w)) && ParseValue(w, None) == Some((m.value, e)) && Skip(e) == "," + back
    requires ParseMembers(Skip(back), None) == Some((more, rest))
    ensures ParseMembers(t, None) == Some(([m] + more, rest))
  {
    assert ("," + back)[1..] == back;
  }

  /** Several members, when those after the first are read. */
  lemma {:induction false} FirstMemberIsRead(a: string, m: Member, b: string, more: seq<Member>, rest: string)
    requires SpellMember(a, m) && ParseMembers(Skip(b + ("}" + rest)), None) == Some((more, rest))
    ensures ParseMembers(Skip(a + ("," + b) + ("}" + rest)), None) == Some(([m] + more, rest))
    decreases |a|, 3
  {
    var end := "}" + rest;
    Ended(',', b + end);
    var w, e := MemberIsRead(a, m, "," + (b + end));
    Regroup(",", b, end);
    Regroup(a, "," + b, end);
    MemberRead(Skip(a + ("," + b) + end), m, w, e, b + end, more, rest);
  }

  lemma MembersSplit(t: string, members: seq<Member>) returns (a: string, b: string)
    requires |members| > 1 && SpellMembers(t, members)
    ensures t == a + ("," + b) && SpellMember(a, members[0]) && SpellMembers(b, members[1..])
  {
    a, b :| t == a + ("," + b) && SpellMember(a, members[0]) && SpellMembers(b, members[1..]);
  }

  lemma {:induction false} OnlyMemberIsRead(t: string, m: Member, rest: string)
    requires SpellMember(t, m)
    ensures ParseMembers(Skip(t + ("}" + rest)), None) == Some(([m], rest))
    decreases |t|, 3
  {
    Ended('}', rest);
    var w, e := MemberIsRead(t, m, "}" + rest);
    LastMemberRead(Skip(t + ("}" + rest)), m, w, e, rest);
  }

  lemma MemberAlone(t: string, members: seq<Member>)
    requires |members| == 1 && SpellMembers(t, members)
    ensures SpellMember(t, members[0]) && members == [members[0]]
  {
  }

  lemma {:induction false} MembersAreRead(t: string, members: seq<Member>, rest: string)
    requires members != [] && SpellMembers(t, members)
    ensures ParseMembers(Skip(t + ("}" + rest)), None) == Some((members, rest))
    decreases |t|, 4
  {
    if |members| == 1 {
      MemberAlone(t, members);
      OnlyMemberIsRead(t, members[0], rest);
    } else {
      var a, b := MembersSplit(t, members);
      FrontAndRest(members);
      MembersAreRead(b, members[1..], rest);
      FirstMemberIsRead(a, members[0], b, members[1..], rest);
    }
  }

  // ---- The whole text ----------------------------------------------------------------------------------------

  /** The reader accepts exactly the JSON texts, and reads each as the value it spells. */
  lemma ParsesGrammar(raw: string, x: Syntax)
    ensures Parse(raw, None) == Some(x) <==> Padded(raw, x)
  {
    if Padded(raw, x) {
      var e := PaddedIsRead(raw, x, []);
      assert raw + [] == raw;
    }
    if Parse(raw, None) == Some(x) {
      var b := SkipsBlank(raw);
      var s := ValueIsSpelled(Skip(raw));
      var back := ParseValue(Skip(raw), None).value.1;
      var e := SkipsBlank(back);
      assert e + [] == e;
      PaddedIs(raw, b, s, e, x);
    }
  }
}
