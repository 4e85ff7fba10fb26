/** Two ways to bound the nesting: scanning the raw text before parsing, and counting while parsing. */
module JsonScan {
  import opened CanonicalJson
  import opened DepthScan
  import opened Integers
  import opened JsonText
  import opened Numerals
  import opened Options

  lemma LevelsInFront(x: Syntax, more: seq<Syntax>)
    ensures ItemLevels([x] + more) == Max(Levels(x), ItemLevels(more))
  {
    assert ([x] + more)[1..] == more;
  }

  lemma MemberLevelsInFront(m: Member, more: seq<Member>)
    ensures MemberLevels([m] + more) == Max(Levels(m.value), MemberLevels(more))
  {
    assert ([m] + more)[1..] == more;
  }

  // ---- A bound only refuses ------------------------------------------------------------------------------

  /** The bounded reader reads what the unbounded one reads, where that nests no deeper than the bound. */
  lemma {:induction false} BoundedValue(t: string, room: nat)
    ensures ParseValue(t, None).None? ==> ParseValue(t, Some(room)).None?
    ensures ParseValue(t, None).Some? ==>
      ParseValue(t, Some(room)) == if Levels(ParseValue(t, None).value.0) <= room then ParseValue(t, None) else None
    decreases |t|, 2
  {
    if Starts(t, '{') {
      if room > 0 {
        BoundedObject(t[1..], room - 1);
      }
    } else if Starts(t, '[') {
      if room > 0 {
        BoundedArray(t[1..], room - 1);
      }
    } else if t != [] && ParseScalar(t).Some? {
      ScalarIsFlat(t);
    }
  }

  lemma ScalarIsFlat(t: string)
    requires t != [] && ParseScalar(t).Some?
    ensures Levels(ParseScalar(t).value.0) == 0
  {
  }

  lemma {:induction false} BoundedArray(t: string, room: nat)
    ensures ParseArray(t, None).None? ==> ParseArray(t, Some(room)).None?
    ensures ParseArray(t, None).Some? ==>
      ParseArray(t, Some(room)) == if Levels(ParseArray(t, None).value.0) <= room + 1 then ParseArray(t, None) else None
    decreases |t|, 4
  {
    BoundedItems(Skip(t), room);
  }

  lemma {:induction false} BoundedItems(t: string, room: nat)
    ensures ParseItems(t, None).None? ==> ParseItems(t, Some(room)).None?
    ensures ParseItems(t, None).Some? ==>
      ParseItems(t, Some(room)) == if ItemLevels(ParseItems(t, None).value.0) <= room then ParseItems(t, None) else None
    decreases |t|, 3
  {
    BoundedValue(t, room);
    var first := ParseValue(t, None);
    if first.Some? {
      var u := Skip(first.value.1);
      LevelsInFront(first.value.0, []);
      if Starts(u, ',') {
        BoundedItems(Skip(u[1..]), room);
        var more := ParseItems(Skip(u[1..]), None);
        if more.Some? {
          LevelsInFront(first.value.0, more.value.0);
        }
      }
    }
  }

  lemma {:induction false} BoundedObject(t: string, room: nat)
    ensures ParseObject(t, None).None? ==> ParseObject(t, Some(room)).None?
    ensures ParseObject(t, None).Some? ==>
      ParseObject(t, Some(room))
      == if Levels(ParseObject(t, None).value.0) <= room + 1 then ParseObject(t, None) else None
    decreases |t|, 4
  {
    BoundedMembers(Skip(t), room);
  }

  lemma {:induction false} BoundedMembers(t: string, room: nat)
    ensures ParseMembers(t, None).None? ==> ParseMembers(t, Some(room)).None?
    ensures ParseMembers(t, None).Some? ==>
      ParseMembers(t, Some(room))
        == if MemberLevels(ParseMembers(t, None).value.0) <= room then ParseMembers(t, None) else None
    decreases |t|, 3
  {
    var key := ParseKey(t);
    if key.Some? {
      BoundedValue(key.value.1, room);
      var first := ParseValue(key.value.1, None);
      if first.Some? {
        var u := Skip(first.value.1);
        var member := Member(key.value.0, first.value.0);
        MemberLevelsInFront(member, []);
        if Starts(u, ',') {
          BoundedMembers(Skip(u[1..]), room);
          var more := ParseMembers(Skip(u[1..]), None);
          if more.Some? {
            MemberLevelsInFront(member, more.value.0);
          }
        }
      }
    }
  }

  // ---- The scan of a text and the value read from it ---------------------------------------------------------

  predicate Outside(s: Scan) {
    !s.inString && !s.skip
  }

  /** `t` is `word` and then `rest`, and the scan does not see `word`. */
  lemma InertPrefix(s: Scan, t: string, k: nat)
    requires k <= |t| && Outside(s) && forall i :: 0 <= i < k ==> Inert(t[i])
    ensures ScanFrom(s, t) == ScanFrom(s, t[k..])
  {
    WordIsPassed(s, t[..k], t[k..]);
    assert t == t[..k] + t[k..];
  }

  lemma {:induction false} SpaceIsPassed(s: Scan, t: string)
    requires Outside(s)
    ensures ScanFrom(s, t) == ScanFrom(s, Skip(t))
  {
    if t != [] && IsSpace(t[0]) {
      SpaceIsPassed(s, t[1..]);
    }
  }

  lemma {:induction false} DigitsOfRun(t: string)
    ensures forall i :: 0 <= i < DigitRun(t) ==> IsDigit(t[i])
  {
    if t != [] && IsDigit(t[0]) {
      DigitsOfRun(t[1..]);
      assert forall i :: 0 < i < DigitRun(t) ==> t[i] == t[1..][i - 1];
    }
  }

  lemma WholeIsInert(t: string)
    ensures forall i :: 0 <= i < WholePart(t) ==> Inert(t[i])
  {
    DigitsOfRun(t);
  }

  lemma FractionIsInert(t: string)
    requires FractionPart(t).Some?
    ensures forall i :: 0 <= i < FractionPart(t).value ==> Inert(t[i])
  {
    if Starts(t, '.') {
      DigitsOfRun(t[1..]);
      assert forall i :: 0 < i < FractionPart(t).value ==> t[i] == t[1..][i - 1];
    }
  }

  lemma ExponentIsInert(t: string)
    requires ExponentPart(t).Some?
    ensures forall i :: 0 <= i < ExponentPart(t).value ==> Inert(t[i])
  {
    if Starts(t, 'e') || Starts(t, 'E') {
      var sign := if Starts(t[1..], '+') || Starts(t[1..], '-') then 1 else 0;
      var u := t[1..][sign..];
      DigitsOfRun(u);
      assert forall i :: 1 + sign <= i < ExponentPart(t).value ==> t[i] == u[i - 1 - sign];
      assert sign == 1 ==> t[1] == t[1..][0];
    }
  }

  lemma Drops(t: string, i: nat, j: nat)
    requires i + j <= |t|
    ensures t[i..][j..] == t[i + j..]
  {
  }

  lemma TailIsScanned(s: Scan, t: string)
    requires Outside(s) && TailLength(t).Some?
    ensures ScanFrom(s, t) == ScanFrom(s, t[TailLength(t).value..])
  {
    var k := FractionPart(t).value;
    FractionIsInert(t);
    InertPrefix(s, t, k);
    ExponentIsInert(t[k..]);
    InertPrefix(s, t[k..], ExponentPart(t[k..]).value);
    Drops(t, k, ExponentPart(t[k..]).value);
  }

  lemma HeadIsScanned(s: Scan, t: string)
    requires Outside(s)
    ensures ScanFrom(s, t) == ScanFrom(s, t[HeadLength(t)..])
  {
    if HeadLength(t) > 0 {
      var sign := if Starts(t, '-') then 1 else 0;
      InertPrefix(s, t, sign);
      WholeIsInert(t[sign..]);
      InertPrefix(s, t[sign..], WholePart(t[sign..]));
      Drops(t, sign, WholePart(t[sign..]));
    }
  }

  lemma NumberIsScanned(s: Scan, t: string)
    requires Outside(s) && NumberLength(t).Some?
    ensures ScanFrom(s, t) == ScanFrom(s, t[NumberLength(t).value..])
  {
    var head := HeadLength(t);
    var tail := t[head..];
    var k := TailLength(tail).value;
    assert NumberLength(t) == Some(head + k);
    Drops(t, head, k);
    HeadIsScanned(s, t);
    TailIsScanned(s, tail);
  }

  /** In a string, a character that does not end it or escape the next one is passed over. */
  lemma {:induction false} PlainIsPassed(s: Scan, t: string, k: nat)
    requires k <= |t| && s.inString && !s.skip && forall i :: 0 <= i < k ==> t[i] != '\\' && t[i] != '"'
    ensures ScanFrom(s, t) == ScanFrom(s, t[k..])
    decreases k
  {
    if k > 0 {
      PlainIsPassed(s, t[1..], k - 1);
      assert t[1..][k - 1..] == t[k..];
    }
  }

  lemma CharIsScanned(s: Scan, t: string)
    requires s.inString && !s.skip && t != [] && t[0] != '"' && ParseChar(t).Some?
    ensures ScanFrom(s, t) == ScanFrom(s, ParseChar(t).value.1)
  {
    if t[0] == '\\' {
      var k := EscapeUnit(t[1..]).value.0;
      assert ScanFrom(s, t) == ScanFrom(s.(skip := true), t[1..]);
      assert ScanFrom(s.(skip := true), t[1..]) == ScanFrom(s, t[1..][1..]);
      PlainIsPassed(s, t[1..][1..], k - 1);
      assert t[1..][1..][k - 1..] == t[1..][k..];
    }
  }

  lemma {:induction false} CharsAreScanned(s: Scan, t: string)
    requires s.inString && !s.skip && ParseChars(t).Some?
    ensures ScanFrom(s, t) == ScanFrom(s.(inString := false), ParseChars(t).value.1)
    decreases |t|
  {
    if t[0] != '"' {
      CharIsScanned(s, t);
      CharsAreScanned(s, ParseChar(t).value.1);
    }
  }

  lemma StringIsScanned(s: Scan, t: string)
    requires Outside(s) && Starts(t, '"') && ParseChars(t[1..]).Some?
    ensures ScanFrom(s, t) == ScanFrom(s, ParseChars(t[1..]).value.1)
  {
    CharsAreScanned(s.(inString := true), t[1..]);
  }

  lemma WordIsScanned(s: Scan, t: string, word: string)
    requires Outside(s) && word <= t && forall c :: c in word ==> Inert(c)
    ensures ScanFrom(s, t) == ScanFrom(s, t[|word|..])
  {
    assert forall i :: 0 <= i < |word| ==> t[i] == word[i] && word[i] in word;
    InertPrefix(s, t, |word|);
  }

  lemma ScalarIsScanned(s: Scan, t: string)
    requires Outside(s) && t != [] && ParseScalar(t).Some?
    ensures ScanFrom(s, t) == ScanFrom(s, ParseScalar(t).value.1)
  {
    match t[0]
    case '"' => StringIsScanned(s, t);
    case 't' => WordIsScanned(s, t, "true");
    case 'f' => WordIsScanned(s, t, "false");
    case 'n' => WordIsScanned(s, t, "null");
    case _ => NumberIsScanned(s, t);
  }

  lemma {:induction false} ValueIsScanned(s: Scan, t: string)
    requires Outside(s) && ParseValue(t, None).Some?
    ensures var r := ParseValue(t, None).value; ScanFrom(s, t) == ScanFrom(Over(s, Levels(r.0)), r.1)
    decreases |t|, 2
  {
    var r := ParseValue(t, None).value;
    assert t == [t[0]] + t[1..];
    match t[0]
    case '{' =>
      ObjectIsScanned(Step(s, '{'), t[1..]);
      BracketsArePassed(s, '{', '}', t[1..], Levels(r.0) - 1, r.1);
    case '[' =>
      ArrayIsScanned(Step(s, '['), t[1..]);
      BracketsArePassed(s, '[', ']', t[1..], Levels(r.0) - 1, r.1);
    case _ =>
      ScalarIsFlat(t);
      ScalarIsScanned(s, t);
  }

  lemma {:induction false} ArrayIsScanned(s: Scan, t: string)
    requires Outside(s) && ParseArray(t, None).Some?
    ensures var r := ParseArray(t, None).value;
            r.0.Items? && ScanFrom(s, t) == ScanFrom(Step(Over(s, ItemLevels(r.0.items)), ']'), r.1)
    decreases |t|, 4
  {
    SpaceIsPassed(s, t);
    if !Starts(Skip(t), ']') {
      ItemsAreScanned(s, Skip(t));
    }
  }

  lemma {:induction false} ItemsAreScanned(s: Scan, t: string)
    requires Outside(s) && ParseItems(t, None).Some?
    ensures var r := ParseItems(t, None).value; ScanFrom(s, t) == ScanFrom(Step(Over(s, ItemLevels(r.0)), ']'), r.1)
    decreases |t|, 3
  {
    var first := ParseValue(t, None).value;
    var u := Skip(first.1);
    var after := Over(s, Levels(first.0));
    ValueIsScanned(s, t);
    SpaceIsPassed(after, first.1);
    if Starts(u, ']') {
      LevelsInFront(first.0, []);
    } else {
      var more := ParseItems(Skip(u[1..]), None).value;
      SpaceIsPassed(after, u[1..]);
      ItemsAreScanned(after, Skip(u[1..]));
      LevelsInFront(first.0, more.0);
      assert Over(after, ItemLevels(more.0)) == Over(s, ItemLevels([first.0] + more.0));
    }
  }

  lemma {:induction false} ObjectIsScanned(s: Scan, t: string)
    requires Outside(s) && ParseObject(t, None).Some?
    ensures var r := ParseObject(t, None).value;
            r.0.Members? && ScanFrom(s, t) == ScanFrom(Step(Over(s, MemberLevels(r.0.members)), '}'), r.1)
    decreases |t|, 4
  {
    SpaceIsPassed(s, t);
    if !Starts(Skip(t), '}') {
      MembersAreScanned(s, Skip(t));
    }
  }

  lemma KeyIsScanned(s: Scan, t: string)
    requires Outside(s) && ParseKey(t).Some?
    ensures ScanFrom(s, t) == ScanFrom(s, ParseKey(t).value.1)
  {
    var u := ParseChars(t[1..]).value.1;
    StringIsScanned(s, t);
    SpaceIsPassed(s, u);
    SpaceIsPassed(s, Skip(u)[1..]);
  }

  /** The first member and what follows it. */
  lemma MemberParts(t: string) returns (w: string, m: Member, u: string, more: seq<Member>)
    requires ParseMembers(t, None).Some?
    ensures ParseKey(t) == Some((m.key, w)) && |w| < |t|
    ensures ParseValue(w, None).Some? && ParseValue(w, None).value.0 == m.value
    ensures u == Skip(ParseValue(w, None).value.1) && u != [] && |u| < |w|
    ensures u[0] == '}' || u[0] == ','
    ensures u[0] == '}' ==> more == [] && ParseMembers(t, None).value.1 == u[1..]
    ensures u[0] == ',' ==> ParseMembers(Skip(u[1..]), None) == Some((more, ParseMembers(t, None).value.1))
    ensures ParseMembers(t, None).value.0 == [m] + more
  {
    var key := ParseKey(t).value;
    var first := ParseValue(key.1, None).value;
    w, m, u := key.1, Member(key.0, first.0), Skip(first.1);
    more := if u[0] == '}' then [] else ParseMembers(Skip(u[1..]), None).value.0;
  }

  /** One member, up to what ends it. */
  lemma {:induction false} MemberIsScanned(s: Scan, t: string, w: string, m: Member, u: string)
    requires Outside(s) && ParseKey(t) == Some((m.key, w)) && |w| < |t|
    requires ParseValue(w, None).Some? && ParseValue(w, None).value.0 == m.value
    requires u == Skip(ParseValue(w, None).value.1)
    ensures ScanFrom(s, t) == ScanFrom(Over(s, Levels(m.value)), u)
    decreases |t|, 2
  {
    KeyIsScanned(s, t);
    ValueIsScanned(s, w);
    SpaceIsPassed(Over(s, Levels(m.value)), ParseValue(w, None).value.1);
  }

  lemma {:induction false} MembersAreScanned(s: Scan, t: string)
    requires Outside(s) && ParseMembers(t, None).Some?
    ensures var r := ParseMembers(t, None).value; ScanFrom(s, t) == ScanFrom(Step(Over(s, MemberLevels(r.0)), '}'), r.1)
    decreases |t|, 3
  {
    var w, m, u, more := MemberParts(t);
    var after := Over(s, Levels(m.value));
    MemberIsScanned(s, t, w, m, u);
    MemberLevelsInFront(m, more);
    if u[0] == ',' {
      SpaceIsPassed(after, u[1..]);
      MembersAreScanned(after, Skip(u[1..]));
      assert Over(after, MemberLevels(more)) == Over(s, MemberLevels([m] + more));
    }
  }

  /** On every text that is JSON, the scan finds how deep the text nests, and ends outside strings at the top. */
  lemma ScanIsLevels(raw: string)
    requires Parse(raw, None).Some?
    ensures ScanFrom(START, raw) == Scan(0, Levels(Parse(raw, None).value), false, false)
  {
    var first := ParseValue(Skip(raw), None).value;
    var after := Over(START, Levels(first.0));
    SpaceIsPassed(START, raw);
    ValueIsScanned(START, Skip(raw));
    SpaceIsPassed(after, first.1);
  }

  /** Bounding the scan and then parsing reads every text exactly as parsing with the bound does. */
  lemma SameReading(raw: string, bound: nat)
    ensures Parse(raw, Some(bound)) == if ScanFrom(START, raw).deepest > bound then None else Parse(raw, None)
  {
    BoundedValue(Skip(raw), bound);
    if Parse(raw, None).Some? {
      ScanIsLevels(raw);
    }
  }
}
