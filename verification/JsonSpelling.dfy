/** Whatever the reader accepts is a JSON text that spells what was read. */
module JsonSpelling {
  import opened CanonicalJson
  import opened JsonGrammar
  import opened JsonText
  import opened Numerals
  import opened Options
  import opened Sequences

  lemma EncodeIs(c: char)
    ensures Encodes(Encode(c), c)
  {
  }

  lemma HexOfIs(c: char)
    requires IsHex(c)
    ensures HexIs(c, HexOf(c))
  {
  }

  lemma EscapeIsPiece(t: string)
    requires t != [] && t[0] == '\\' && EscapeUnit(t[1..]).Some?
    ensures var e := EscapeUnit(t[1..]).value; IsPiece(t[..1 + e.0], [e.1])
  {
    var e := EscapeUnit(t[1..]).value;
    if e.0 == 5 {
      HexOfIs(t[2]);
      HexOfIs(t[3]);
      HexOfIs(t[4]);
      HexOfIs(t[5]);
      assert HexFour(t[..6], e.1, HexOf(t[2]), HexOf(t[3]), HexOf(t[4]), HexOf(t[5]));
    } else {
      assert e.0 == 1 && ShortIs(t[1], e.1);
    }
  }

  lemma CharIsPiece(t: string) returns (p: string)
    requires t != [] && t[0] != '"' && ParseChar(t).Some?
    ensures var r := ParseChar(t).value; t == p + r.1 && p != [] && IsPiece(p, r.0)
  {
    if t[0] == '\\' {
      var e := EscapeUnit(t[1..]).value;
      EscapeIsPiece(t);
      p := t[..1 + e.0];
      assert t[1..][e.0..] == t[1 + e.0..];
    } else {
      EncodeIs(t[0]);
      p := t[..1];
    }
  }

  lemma TextInFront(p: string, u: seq<Unit>, q: string, w: seq<Unit>)
    requires p != [] && IsPiece(p, u) && IsText(q, w)
    ensures IsText(p + q, u + w)
  {
  }

  lemma Headed(t: string, c: char)
    requires Starts(t, c)
    ensures t == [c] + t[1..]
  {
  }

  lemma FirstChar(t: string)
    requires t != [] && t[0] != '"' && ParseChars(t).Some?
    ensures ParseChar(t).Some? && ParseChars(ParseChar(t).value.1).Some?
    ensures var one := ParseChar(t).value;
            var more := ParseChars(one.1).value;
            ParseChars(t) == Some((one.0 + more.0, more.1))
  {
  }

  lemma {:induction false} CharsAreText(t: string) returns (p: string)
    requires ParseChars(t).Some?
    ensures var r := ParseChars(t).value; t == p + ("\"" + r.1) && IsText(p, r.0)
    decreases |t|
  {
    if t[0] == '"' {
      p := [];
      Headed(t, '"');
    } else {
      FirstChar(t);
      var one := ParseChar(t).value;
      var more := ParseChars(one.1).value;
      var front := CharIsPiece(t);
      var back := CharsAreText(one.1);
      p := front + back;
      TextInFront(front, one.0, back, more.0);
      Regroup(front, back, "\"" + more.1);
    }
  }

  lemma {:induction false} RunIsDigits(t: string)
    ensures forall i :: 0 <= i < DigitRun(t) ==> IsDigit(t[i])
    ensures DigitRun(t) < |t| ==> !IsDigit(t[DigitRun(t)])
  {
    if t != [] && IsDigit(t[0]) {
      RunIsDigits(t[1..]);
    }
  }

  lemma RunAreDigits(t: string)
    requires DigitRun(t) > 0
    ensures AreDigits(t[..DigitRun(t)])
  {
    RunIsDigits(t);
  }

  lemma WholeIsRead(t: string)
    requires WholePart(t) > 0
    ensures IsWhole(t[..WholePart(t)])
  {
    if !Starts(t, '0') {
      RunAreDigits(t);
    }
  }

  lemma FractionIsRead(t: string)
    requires FractionPart(t).Some?
    ensures IsFraction(t[..FractionPart(t).value])
  {
    if Starts(t, '.') {
      var k := DigitRun(t[1..]);
      RunAreDigits(t[1..]);
      assert t[..1 + k][1..] == t[1..][..k];
    }
  }

  lemma ExponentIsRead(t: string)
    requires ExponentPart(t).Some?
    ensures IsExponent(t[..ExponentPart(t).value])
  {
    if Starts(t, 'e') || Starts(t, 'E') {
      var sign := if Starts(t[1..], '+') || Starts(t[1..], '-') then 1 else 0;
      var u := t[1..][sign..];
      var k := DigitRun(u);
      var e := t[..1 + sign + k];
      RunAreDigits(u);
      assert e[0] == t[0] && e[1 + sign..] == u[..k];
      if sign == 1 {
        assert e[1] == t[1] == t[1..][0];
      }
    }
  }

  lemma Cut(t: string, i: nat, j: nat)
    requires i + j <= |t|
    ensures t[..i + j] == t[..i] + t[i..][..j]
  {
  }

  lemma HeadIsRead(t: string)
    requires HeadLength(t) > 0
    ensures exists sign, whole :: t[..HeadLength(t)] == sign + whole && (sign == "" || sign == "-") && IsWhole(whole)
  {
    var sign := if Starts(t, '-') then 1 else 0;
    var k := WholePart(t[sign..]);
    WholeIsRead(t[sign..]);
    Cut(t, sign, k);
    assert t[..sign] == if sign == 1 then "-" else "";
  }

  lemma TailIsRead(t: string)
    requires TailLength(t).Some?
    ensures exists fraction, exponent ::
        t[..TailLength(t).value] == fraction + exponent && IsFraction(fraction) && IsExponent(exponent)
  {
    var i := FractionPart(t).value;
    var j := ExponentPart(t[i..]).value;
    FractionIsRead(t);
    ExponentIsRead(t[i..]);
    Cut(t, i, j);
  }

  lemma NumeralIs(t: string, sign: string, whole: string, fraction: string, exponent: string)
    requires t == (sign + whole) + (fraction + exponent) && (sign == "" || sign == "-")
    requires IsWhole(whole) && IsFraction(fraction) && IsExponent(exponent)
    ensures IsNumeral(t)
  {
    Regroup(sign, whole, fraction + exponent);
  }

  lemma NumeralIsRead(t: string)
    requires NumberLength(t).Some?
    ensures IsNumeral(t[..NumberLength(t).value])
  {
    var i := HeadLength(t);
    var j := TailLength(t[i..]).value;
    HeadIsRead(t);
    var sign, whole :| t[..i] == sign + whole && (sign == "" || sign == "-") && IsWhole(whole);
    TailIsRead(t[i..]);
    var fraction, exponent :|
      t[i..][..j] == fraction + exponent && IsFraction(fraction) && IsExponent(exponent);
    Cut(t, i, j);
    NumeralIs(t[..i + j], sign, whole, fraction, exponent);
  }

  lemma SkipsBlank(t: string) returns (b: string)
    ensures t == b + Skip(t) && Blank(b)
  {
    if t != [] && IsSpace(t[0]) {
      var more := SkipsBlank(t[1..]);
      b := [t[0]] + more;
      assert t == [t[0]] + t[1..];
    } else {
      b := [];
    }
  }

  lemma Quoted(q: string, units: seq<Unit>)
    requires IsText(q, units)
    ensures Spells("\"" + (q + "\""), Chars(units))
  {
    assert Inside("\"" + (q + "\"")) == q;
  }

  lemma StringIsSpelled(t: string) returns (p: string)
    requires Starts(t, '"') && ParseChars(t[1..]).Some?
    ensures var r := ParseChars(t[1..]).value; t == p + r.1 && Spells(p, Chars(r.0))
  {
    var r := ParseChars(t[1..]).value;
    var q := CharsAreText(t[1..]);
    p := "\"" + (q + "\"");
    Quoted(q, r.0);
    assert t == ['"'] + t[1..];
    Regroup(q, "\"", r.1);
    Regroup("\"", q + "\"", r.1);
  }

  lemma NumberIsSpelled(t: string) returns (p: string)
    requires ParseNumber(t).Some?
    ensures var r := ParseNumber(t).value; t == p + r.1 && Spells(p, r.0)
  {
    NumeralIsRead(t);
    p := t[..NumberLength(t).value];
  }

  lemma WordIsSpelled(t: string, p: string, v: Json)
    requires p != [] && ParseWord(t, p, v).Some? && Spells(p, Word(v))
    ensures var r := ParseWord(t, p, v).value; t == p + r.1 && Spells(p, r.0)
  {
  }

  lemma ScalarIsSpelled(t: string) returns (p: string)
    requires t != [] && ParseScalar(t).Some?
    ensures var r := ParseScalar(t).value; t == p + r.1 && Spells(p, r.0)
  {
    match t[0]
    case '"' => p := StringIsSpelled(t);
    case 't' =>
      p := "true";
      WordIsSpelled(t, p, Bool(true));
    case 'f' =>
      p := "false";
      WordIsSpelled(t, p, Bool(false));
    case 'n' =>
      p := "null";
      WordIsSpelled(t, p, Null);
    case _ => p := NumberIsSpelled(t);
  }

  lemma PaddedIs(t: string, b: string, s: string, e: string, x: Syntax)
    requires t == b + (s + e) && Blank(b) && Blank(e) && Spells(s, x)
    ensures Padded(t, x)
  {
  }

  /** Space in front of a value, and behind it, belongs to its padding. */
  lemma PadsMore(b: string, t: string, x: Syntax)
    requires Blank(b) && Padded(t, x)
    ensures Padded(b + t, x)
  {
    var b0, s, e :| t == b0 + (s + e) && Blank(b0) && Blank(e) && Spells(s, x);
    Regroup(b, b0, s + e);
    PaddedIs(b + t, b + b0, s, e, x);
  }

  lemma SpelledIsPadded(s: string, e: string, x: Syntax)
    requires Blank(e) && Spells(s, x)
    ensures Padded(s + e, x)
  {
    PaddedIs(s + e, [], s, e, x);
  }

  lemma ItemsAre(t: string, a: string, b: string, items: seq<Syntax>)
    requires |items| > 1 && t == a + ("," + b) && Padded(a, items[0]) && SpellItems(b, items[1..])
    ensures SpellItems(t, items)
  {
  }

  lemma ItemInFront(a: string, x: Syntax, b: string, more: seq<Syntax>)
    requires Padded(a, x) && more != [] && SpellItems(b, more)
    ensures SpellItems(a + ("," + b), [x] + more)
  {
    assert ([x] + more)[1..] == more;
    ItemsAre(a + ("," + b), a, b, [x] + more);
  }

  lemma ItemsPadMore(b: string, t: string, items: seq<Syntax>)
    requires Blank(b) && items != [] && SpellItems(t, items)
    ensures SpellItems(b + t, items)
  {
    if |items| == 1 {
      PadsMore(b, t, items[0]);
    } else {
      var a, c :| t == a + ("," + c) && Padded(a, items[0]) && SpellItems(c, items[1..]);
      PadsMore(b, a, items[0]);
      Regroup(b, a, "," + c);
      ItemsAre(b + t, b + a, c, items);
    }
  }

  lemma MemberIs(t: string, a: string, b: string, m: Member)
    requires t == a + (":" + b) && Padded(a, Chars(m.key)) && Padded(b, m.value)
    ensures SpellMember(t, m)
  {
  }

  lemma MemberPadsMore(b: string, t: string, m: Member)
    requires Blank(b) && SpellMember(t, m)
    ensures SpellMember(b + t, m)
  {
    var a, c :| t == a + (":" + c) && Padded(a, Chars(m.key)) && Padded(c, m.value);
    PadsMore(b, a, Chars(m.key));
    Regroup(b, a, ":" + c);
    MemberIs(b + t, b + a, c, m);
  }

  lemma MembersAre(t: string, a: string, b: string, members: seq<Member>)
    requires |members| > 1 && t == a + ("," + b) && SpellMember(a, members[0]) && SpellMembers(b, members[1..])
    ensures SpellMembers(t, members)
  {
  }

  lemma MemberInFront(a: string, m: Member, b: string, more: seq<Member>)
    requires SpellMember(a, m) && more != [] && SpellMembers(b, more)
    ensures SpellMembers(a + ("," + b), [m] + more)
  {
    assert ([m] + more)[1..] == more;
    MembersAre(a + ("," + b), a, b, [m] + more);
  }

  lemma MembersPadMore(b: string, t: string, members: seq<Member>)
    requires Blank(b) && members != [] && SpellMembers(t, members)
    ensures SpellMembers(b + t, members)
  {
    if |members| == 1 {
      MemberPadsMore(b, t, members[0]);
    } else {
      var a, c :| t == a + ("," + c) && SpellMember(a, members[0]) && SpellMembers(c, members[1..]);
      MemberPadsMore(b, a, members[0]);
      Regroup(b, a, "," + c);
      MembersAre(b + t, b + a, c, members);
    }
  }

  lemma ItemsEnclosed(q: string, items: seq<Syntax>)
    requires if items == [] then Blank(q) else SpellItems(q, items)
    ensures Spells("[" + (q + "]"), Items(items))
  {
    assert Inside("[" + (q + "]")) == q;
  }

  lemma MembersEnclosed(q: string, members: seq<Member>)
    requires if members == [] then Blank(q) else SpellMembers(q, members)
    ensures Spells("{" + (q + "}"), Members(members))
  {
    assert Inside("{" + (q + "}")) == q;
  }

  lemma {:induction false} ValueIsSpelled(t: string) returns (p: string)
    requires ParseValue(t, None).Some?
    ensures var r := ParseValue(t, None).value; t == p + r.1 && Spells(p, r.0)
    decreases |t|, 2
  {
    var r := ParseValue(t, None).value;
    if t[0] == '[' {
      var q := ArrayIsSpelled(t[1..]);
      p := "[" + (q + "]");
      ItemsEnclosed(q, r.0.items);
      assert t == ['['] + t[1..] == p + r.1;
    } else if t[0] == '{' {
      var q := ObjectIsSpelled(t[1..]);
      p := "{" + (q + "}");
      MembersEnclosed(q, r.0.members);
      assert t == ['{'] + t[1..] == p + r.1;
    } else {
      p := ScalarIsSpelled(t);
    }
  }

  /** Two members of a list, the comma between them and the space around it. */
  lemma Glue(p: string, b: string, q: string, rest: string)
    ensures p + ("," + (b + (q + rest))) == (p + ("," + (b + q))) + rest
  {
    Regroup(b, q, rest);
    Regroup(",", b + q, rest);
    Regroup(p, "," + (b + q), rest);
  }

  lemma {:induction false} ArrayIsSpelled(t: string) returns (q: string)
    requires ParseArray(t, None).Some?
    ensures var r := ParseArray(t, None).value;
            && t == q + ("]" + r.1) && r.0.Items?
            && if r.0.items == [] then Blank(q) else SpellItems(q, r.0.items)
    decreases |t|, 5
  {
    var b := SkipsBlank(t);
    var u := Skip(t);
    if Starts(u, ']') {
      q := b;
      Headed(u, ']');
    } else {
      var w := ItemsAreSpelled(u);
      var r := ParseItems(u, None).value;
      q := b + w;
      ItemsPadMore(b, w, r.0);
      Regroup(b, w, "]" + r.1);
    }
  }

  /** A value and the space behind it. */
  lemma {:induction false} ItemIsSpelled(t: string) returns (p: string)
    requires ParseValue(t, None).Some?
    ensures var r := ParseValue(t, None).value; t == p + Skip(r.1) && Padded(p, r.0)
    decreases |t|, 3
  {
    var r := ParseValue(t, None).value;
    var s := ValueIsSpelled(t);
    var e := SkipsBlank(r.1);
    SpelledIsPadded(s, e, r.0);
    Regroup(s, e, Skip(r.1));
    p := s + e;
  }

  lemma {:induction false} ItemsAreSpelled(t: string) returns (q: string)
    requires ParseItems(t, None).Some?
    ensures var r := ParseItems(t, None).value; r.0 != [] && t == q + ("]" + r.1) && SpellItems(q, r.0)
    decreases |t|, 4
  {
    var first := ParseValue(t, None).value;
    var u := Skip(first.1);
    var p := ItemIsSpelled(t);
    if Starts(u, ']') {
      q := p;
      Headed(u, ']');
    } else {
      var b := SkipsBlank(u[1..]);
      var w := Skip(u[1..]);
      var more := ItemsAreSpelled(w);
      var r := ParseItems(w, None).value;
      ItemsPadMore(b, more, r.0);
      ItemInFront(p, first.0, b + more, r.0);
      q := p + ("," + (b + more));
      Headed(u, ',');
      Glue(p, b, more, "]" + r.1);
    }
  }

  lemma {:induction false} ObjectIsSpelled(t: string) returns (q: string)
    requires ParseObject(t, None).Some?
    ensures var r := ParseObject(t, None).value;
            && t == q + ("}" + r.1) && r.0.Members?
            && if r.0.members == [] then Blank(q) else SpellMembers(q, r.0.members)
    decreases |t|, 5
  {
    var b := SkipsBlank(t);
    var u := Skip(t);
    if Starts(u, '}') {
      q := b;
      Headed(u, '}');
    } else {
      var w := MembersAreSpelled(u);
      var r := ParseMembers(u, None).value;
      q := b + w;
      MembersPadMore(b, w, r.0);
      Regroup(b, w, "}" + r.1);
    }
  }

  lemma KeyIsSpelled(t: string) returns (a: string, b: string)
    requires ParseKey(t).Some?
    ensures var r := ParseKey(t).value; t == a + (":" + (b + r.1)) && Padded(a, Chars(r.0)) && Blank(b)
  {
    var key := ParseChars(t[1..]).value;
    var u := Skip(key.1);
    var s := StringIsSpelled(t);
    var e := SkipsBlank(key.1);
    SpelledIsPadded(s, e, Chars(key.0));
    Regroup(s, e, u);
    a := s + e;
    b := SkipsBlank(u[1..]);
    Headed(u, ':');
  }

  /** A member and the space behind it. */
  lemma {:induction false} MemberIsSpelled(t: string, w: string, m: Member) returns (p: string)
    requires ParseKey(t) == Some((m.key, w)) && |w| < |t|
    requires ParseValue(w, None).Some? && ParseValue(w, None).value.0 == m.value
    ensures t == p + Skip(ParseValue(w, None).value.1) && SpellMember(p, m)
    decreases |t|, 2
  {
    var u := Skip(ParseValue(w, None).value.1);
    var a, b := KeyIsSpelled(t);
    var q := ItemIsSpelled(w);
    PadsMore(b, q, m.value);
    p := a + (":" + (b + q));
    MemberIs(p, a, b + q, m);
    Regroup(b, q, u);
    Regroup(":", b + q, u);
    Regroup(a, ":" + (b + q), u);
  }

  lemma {:induction false} MembersAreSpelled(t: string) returns (q: string)
    requires ParseMembers(t, None).Some?
    ensures var r := ParseMembers(t, None).value; r.0 != [] && t == q + ("}" + r.1) && SpellMembers(q, r.0)
    decreases |t|, 4
  {
    var key := ParseKey(t).value;
    var first := ParseValue(key.1, None).value;
    var m := Member(key.0, first.0);
    var u := Skip(first.1);
    var p := MemberIsSpelled(t, key.1, m);
    if Starts(u, '}') {
      q := p;
      Headed(u, '}');
    } else {
      var b := SkipsBlank(u[1..]);
      var w := Skip(u[1..]);
      var more := MembersAreSpelled(w);
      var r := ParseMembers(w, None).value;
      MembersPadMore(b, more, r.0);
      MemberInFront(p, m, b + more, r.0);
      q := p + ("," + (b + more));
      Headed(u, ',');
      Glue(p, b, more, "}" + r.1);
    }
  }
}
