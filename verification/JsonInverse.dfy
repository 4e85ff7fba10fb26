/** The parser undoes the canonical printer. */
module JsonInverse {
  import opened CanonicalJson
  import opened CanonicalReader
  import opened JsonText
  import opened Numerals
  import opened Options
  import opened Sequences
  import opened TextOrder

  function EncodeAll(s: string): seq<Unit> {
    if s == [] then [] else Encode(s[0]) + EncodeAll(s[1..])
  }

  lemma DecodeEncode(c: char, more: seq<Unit>)
    ensures Decode(Encode(c) + more) == Before(c, Decode(more))
  {
    var units := Encode(c) + more;
    if c as int < 0x10000 {
      assert units[1..] == more;
    } else {
      assert Pair(units[0], units[1]) == c;
      assert units[2..] == more;
    }
  }

  lemma BeforeRest(s: string)
    requires s != []
    ensures Before(s[0], Some(s[1..])) == Some(s)
  {
    assert s == [s[0]] + s[1..];
  }

  lemma {:induction false} DecodeEncodeAll(s: string)
    ensures Decode(EncodeAll(s)) == Some(s)
  {
    if s != [] {
      var more := EncodeAll(s[1..]);
      DecodeEncodeAll(s[1..]);
      DecodeEncode(s[0], more);
      assert EncodeAll(s) == Encode(s[0]) + more;
      BeforeRest(s);
    }
  }

  lemma HexAgrees(d: nat)
    requires d < 16
    ensures IsHex(HEX[d]) && HexOf(HEX[d]) == d
  {
  }

  lemma CharParses(c: char, u: string)
    ensures ParseChar(Escape(c) + u) == Some((Encode(c), u))
  {
    var t := Escape(c) + u;
    if |Escape(c)| == 6 {
      HexCharParses(c, u);
    } else if |Escape(c)| == 2 {
      assert t[1..][1..] == u;
    } else {
      assert t[1..] == u;
    }
  }

  lemma HexCharParses(c: char, u: string)
    requires |Escape(c)| == 6
    ensures ParseChar(Escape(c) + u) == Some((Encode(c), u))
  {
    var t := Escape(c) + u;
    var e := t[1..];
    var high, low := c as int / 16, c as int % 16;
    HexAgrees(high);
    HexAgrees(low);
    assert e[0] == 'u' && e[1] == '0' && e[2] == '0' && e[3] == HEX[high] && e[4] == HEX[low];
    assert HexOf(e[1]) == 0 && HexOf(e[2]) == 0;
    assert EscapeUnit(e) == Some((5, c as int));
    assert e[5..] == u;
  }

  lemma CharInFront(c: char, t: string, units: seq<Unit>, rest: string)
    requires ParseChars(t) == Some((units, rest))
    ensures ParseChars(Escape(c) + t) == Some((Encode(c) + units, rest))
  {
    CharParses(c, t);
    EscapeStart(c);
    assert (Escape(c) + t)[0] == Escape(c)[0];
  }

  lemma {:induction false} CharsParse(s: string, rest: string)
    ensures ParseChars(PutEscaped(s, "\"" + rest)) == Some((EncodeAll(s), rest))
    decreases |s|
  {
    if s == [] {
      assert ("\"" + rest)[1..] == rest;
    } else {
      CharsParse(s[1..], rest);
      CharInFront(s[0], PutEscaped(s[1..], "\"" + rest), EncodeAll(s[1..]), rest);
    }
  }

  lemma {:induction false} NoLeadingZero(n: nat)
    requires n > 0
    ensures Digits(n)[0] != '0'
  {
    if n >= 10 {
      NoLeadingZero(n / 10);
      DigitsRead(n / 10);
      assert Digits(n)[0] == Digits(n / 10)[0];
    }
  }

  lemma WholeOfDigits(n: nat, rest: string)
    requires EndsNumeral(rest)
    ensures WholePart(Digits(n) + rest) == |Digits(n)| > 0
    ensures !Starts(Digits(n) + rest, '-')
  {
    var t := Digits(n) + rest;
    DigitsRead(n);
    assert t[0] == Digits(n)[0] && t[0] in Digits(n);
    if n > 0 {
      NoLeadingZero(n);
      DigitRunOf(Digits(n), rest);
    }
  }

  lemma NumeralParses(n: int, rest: string)
    requires EndsNumeral(rest)
    ensures ParseNumber(Decimal(n) + rest) == Some((Numeral(Decimal(n)), rest))
  {
    var t := Decimal(n) + rest;
    HeadOfDecimal(n, rest);
    assert t[..|Decimal(n)|] == Decimal(n) && t[|Decimal(n)|..] == rest;
    assert rest[0..] == rest;
  }

  lemma HeadOfDecimal(n: int, rest: string)
    requires EndsNumeral(rest)
    ensures HeadLength(Decimal(n) + rest) == |Decimal(n)| > 0
  {
    if n < 0 {
      WholeOfDigits(-n, rest);
      SignedHead(Digits(-n) + rest);
      Regroup("-", Digits(-n), rest);
    } else {
      WholeOfDigits(n, rest);
      UnsignedHead(Digits(n) + rest);
    }
  }

  lemma SignedHead(u: string)
    requires WholePart(u) > 0
    ensures HeadLength("-" + u) == 1 + WholePart(u)
  {
    assert ("-" + u)[1..] == u;
  }

  lemma UnsignedHead(t: string)
    requires WholePart(t) > 0 && !Starts(t, '-')
    ensures HeadLength(t) == WholePart(t)
  {
    assert t[0..] == t;
  }

  predicate Solid(t: string) {
    t != [] && !IsSpace(t[0])
  }

  lemma PutIsSolid(v: Json, rest: string)
    requires Allowed(v)
    ensures Solid(Put(v, rest)) && Put(v, rest)[0] != ']'
  {
    TextStart(v);
    if v.Num? && v.number.Whole? {
      DecimalStart(v.number.n);
      assert Put(v, rest)[0] == Decimal(v.number.n)[0];
    }
  }

  lemma WordParses(word: string, v: Json, rest: string)
    requires word != []
    ensures ParseWord(word + rest, word, v) == Some((Word(v), rest))
  {
    assert (word + rest)[|word|..] == rest;
  }

  lemma NumParses(v: Json, rest: string, num: string -> Number) returns (x: Syntax)
    requires v.Num? && Allowed(v) && EndsNumeral(rest) && ReadsIntegers(num)
    ensures ParseScalar(Put(v, rest)) == Some((x, rest)) && Value(x, num) == Plain(v)
  {
    var n := if v.number.Whole? then v.number.n else 0;
    x := Numeral(Decimal(n));
    assert Put(v, rest) == Decimal(n) + rest;
    NumeralParses(n, rest);
    DecimalStart(n);
    NumeralIsScalar(Decimal(n) + rest);
  }

  lemma NumeralIsScalar(t: string)
    requires t != [] && (t[0] == '-' || IsDigit(t[0]))
    ensures ParseScalar(t) == ParseNumber(t)
  {
    assert t[0] !in {'"', 't', 'f', 'n'};
  }

  lemma StrParses(s: string, rest: string)
    ensures ParseScalar(PutQuote(s, rest)) == Some((Chars(EncodeAll(s)), rest))
  {
    assert PutQuote(s, rest)[1..] == PutEscaped(s, "\"" + rest);
    CharsParse(s, rest);
  }

  lemma ScalarParses(v: Json, rest: string, num: string -> Number) returns (x: Syntax)
    requires Allowed(v) && !v.Arr? && !v.Obj? && EndsNumeral(rest) && ReadsIntegers(num)
    ensures Put(v, rest) != [] && ParseScalar(Put(v, rest)) == Some((x, rest)) && Value(x, num) == Plain(v)
  {
    PutIsSolid(v, rest);
    match v
    case Null =>
      x := Word(v);
      WordParses("null", v, rest);
    case Bool(b) =>
      x := Word(v);
      WordParses(if b then "true" else "false", v, rest);
    case Num(_) => x := NumParses(v, rest, num);
    case Str(s) =>
      x := Chars(EncodeAll(s));
      StrParses(s, rest);
      DecodeEncodeAll(s);
  }

  lemma ScalarIsValue(t: string)
    requires t != [] && t[0] != '[' && t[0] != '{'
    ensures ParseValue(t, None) == ParseScalar(t)
  {
  }

  lemma ScalarStart(v: Json, rest: string)
    requires Allowed(v) && !v.Arr? && !v.Obj?
    ensures Put(v, rest) != [] && Put(v, rest)[0] != '[' && Put(v, rest)[0] != '{'
  {
    PutIsSolid(v, rest);
    if v.Num? && v.number.Whole? {
      DecimalStart(v.number.n);
      assert Put(v, rest)[0] == Decimal(v.number.n)[0];
    }
  }

  lemma ArrayParses(u: string, items: seq<Syntax>, rest: string)
    requires Solid(u) && u[0] != ']' && ParseItems(u, None) == Some((items, rest))
    ensures ParseValue("[" + u, None) == Some((Items(items), rest))
  {
    assert ("[" + u)[1..] == u;
  }

  lemma ObjectParses(u: string, members: seq<Member>, rest: string)
    requires Starts(u, '"') && ParseMembers(u, None) == Some((members, rest))
    ensures ParseValue("{" + u, None) == Some((Members(members), rest))
  {
    assert ("{" + u)[1..] == u;
  }

  lemma EmptyParses(rest: string)
    ensures ParseValue("[" + ("]" + rest), None) == Some((Items([]), rest))
    ensures ParseValue("{" + ("}" + rest), None) == Some((Members([]), rest))
  {
    assert ("[" + ("]" + rest))[1..] == "]" + rest && ("]" + rest)[1..] == rest;
    assert ("{" + ("}" + rest))[1..] == "}" + rest && ("}" + rest)[1..] == rest;
  }

  lemma LastItemParses(t: string, x: Syntax, rest: string)
    requires ParseValue(t, None) == Some((x, "]" + rest))
    ensures ParseItems(t, None) == Some(([x], rest))
  {
    assert ("]" + rest)[1..] == rest;
  }

  lemma ItemParses(t: string, x: Syntax, w: string, more: seq<Syntax>, rest: string)
    requires ParseValue(t, None) == Some((x, "," + w)) && Solid(w) && ParseItems(w, None) == Some((more, rest))
    ensures ParseItems(t, None) == Some(([x] + more, rest))
  {
    assert ("," + w)[1..] == w;
  }

  lemma KeyParses(key: string, w: string)
    requires Solid(w)
    ensures ParseKey(PutQuote(key, ":" + w)) == Some((EncodeAll(key), w))
  {
    assert PutQuote(key, ":" + w)[1..] == PutEscaped(key, "\"" + (":" + w));
    CharsParse(key, ":" + w);
    assert (":" + w)[1..] == w;
  }

  lemma LastMemberParses(t: string, m: Member, w: string, rest: string)
    requires ParseKey(t) == Some((m.key, w)) && ParseValue(w, None) == Some((m.value, "}" + rest))
    ensures ParseMembers(t, None) == Some(([m], rest))
  {
    assert ("}" + rest)[1..] == rest;
  }

  lemma MemberParses(t: string, m: Member, w: string, u: string, more: seq<Member>, rest: string)
    requires ParseKey(t) == Some((m.key, w)) && ParseValue(w, None) == Some((m.value, "," + u))
    requires Solid(u) && ParseMembers(u, None) == Some((more, rest))
    ensures ParseMembers(t, None) == Some(([m] + more, rest))
  {
    assert ("," + u)[1..] == u;
  }

  lemma ArrayIsRead(v: Json, xs: seq<Syntax>, rest: string, num: string -> Number)
    requires v.Arr? && v.items != [] && Allowed(v.items[0])
    requires ParseItems(PutItems(v.items, rest), None) == Some((xs, rest)) && Values(xs, num) == PlainItems(v.items)
    ensures ParseValue(Put(v, rest), None) == Some((Items(xs), rest)) && Value(Items(xs), num) == Plain(v)
  {
    PutIsSolid(v.items[0], AfterItem(v.items, rest));
    ArrayParses(PutItems(v.items, rest), xs, rest);
  }

  lemma ObjectIsWorth(v: Json, keys: seq<string>, ms: seq<Member>, num: string -> Number)
    requires v.Obj? && forall k :: k in keys <==> k in v.fields
    requires AllNamed(ms) && Fields(ms, num) == PlainFields(v, keys)
    ensures Value(Members(ms), num) == Plain(v)
  {
    PlainFieldsAll(v, keys);
  }

  lemma ObjectIsRead(v: Json, ms: seq<Member>, rest: string)
    requires v.Obj? && v.fields != map[] && Listing(v.fields.Keys) != []
    requires ParseMembers(PutFields(v, Listing(v.fields.Keys), rest), None) == Some((ms, rest))
    ensures ParseValue(Put(v, rest), None) == Some((Members(ms), rest))
  {
    var u := PutFields(v, Listing(v.fields.Keys), rest);
    ObjectIsPut(v, rest);
    ObjectParses(u, ms, rest);
  }

  lemma EmptyIsRead(v: Json, rest: string, num: string -> Number) returns (x: Syntax)
    requires v == Arr([]) || v == Obj(map[])
    ensures ParseValue(Put(v, rest), None) == Some((x, rest)) && Value(x, num) == Plain(v)
  {
    EmptyParses(rest);
    x := if v.Arr? then Items([]) else Members([]);
  }

  lemma ScalarIsRead(v: Json, rest: string, num: string -> Number) returns (x: Syntax)
    requires Allowed(v) && !v.Arr? && !v.Obj? && EndsNumeral(rest) && ReadsIntegers(num)
    ensures ParseValue(Put(v, rest), None) == Some((x, rest)) && Value(x, num) == Plain(v)
  {
    x := ScalarParses(v, rest, num);
    ScalarStart(v, rest);
    ScalarIsValue(Put(v, rest));
  }

  lemma {:induction false} CanonicalParses(v: Json, rest: string, num: string -> Number) returns (x: Syntax)
    requires Allowed(v) && EndsNumeral(rest) && ReadsIntegers(num)
    ensures ParseValue(Put(v, rest), None) == Some((x, rest)) && Value(x, num) == Plain(v)
    decreases v, 1, 0
  {
    if v == Arr([]) || v == Obj(map[]) {
      x := EmptyIsRead(v, rest, num);
    } else if v.Arr? {
      var xs := ItemsParse(v.items, rest, num);
      x := Items(xs);
      ArrayIsRead(v, xs, rest, num);
    } else if v.Obj? {
      var keys := Listing(v.fields.Keys);
      KeysOf(v.fields);
      var ms := MembersParse(v, keys, rest, num);
      x := Members(ms);
      ObjectIsRead(v, ms, rest);
      ObjectIsWorth(v, keys, ms, num);
    } else {
      x := ScalarIsRead(v, rest, num);
    }
  }

  lemma ValuesInFront(x: Syntax, more: seq<Syntax>, num: string -> Number)
    ensures Values([x] + more, num) == [Value(x, num)] + Values(more, num)
  {
    assert ([x] + more)[1..] == more;
  }

  lemma {:induction false} ItemsParse(items: seq<Json>, rest: string, num: string -> Number) returns (xs: seq<Syntax>)
    requires items != [] && ReadsIntegers(num) && forall i :: 0 <= i < |items| ==> Allowed(items[i])
    ensures ParseItems(PutItems(items, rest), None) == Some((xs, rest)) && Values(xs, num) == PlainItems(items)
    decreases items, 0, |items|
  {
    var x := CanonicalParses(items[0], AfterItem(items, rest), num);
    if |items| == 1 {
      xs := [x];
      LastItemParses(PutItems(items, rest), x, rest);
      OnePlain(items);
    } else {
      var more := ItemsParse(items[1..], rest, num);
      xs := [x] + more;
      PutIsSolid(items[1], AfterItem(items[1..], rest));
      ItemParses(PutItems(items, rest), x, PutItems(items[1..], rest), more, rest);
      ValuesInFront(x, more, num);
    }
  }

  lemma FieldsInFront(name: string, x: Syntax, more: seq<Member>, num: string -> Number)
    ensures Fields([Member(EncodeAll(name), x)] + more, num) == map[name := Value(x, num)] + Fields(more, num)
    ensures AllNamed(more) ==> AllNamed([Member(EncodeAll(name), x)] + more)
  {
    assert ([Member(EncodeAll(name), x)] + more)[1..] == more;
    DecodeEncodeAll(name);
  }

  /** Sorted keys are distinct, so no later member replaces the first one. */
  lemma PlainFieldsFirst(v: Json, keys: seq<string>)
    requires v.Obj? && keys != [] && Sorted(keys) && forall k :: k in keys ==> k in v.fields
    ensures keys[0] in keys
    ensures PlainFields(v, keys) == map[keys[0] := Plain(v.fields[keys[0]])] + PlainFields(v, keys[1..])
  {
    PlainFieldsStep(v, keys);
    LessIsStrict(keys[0]);
    assert keys[0] !in keys[1..];
  }

  /** The last member of an object is read. */
  lemma LastMember(v: Json, key: string, rest: string, num: string -> Number, x: Syntax)
    requires v.Obj? && Allowed(v) && key in v.fields
    requires var after := AfterField(v, [key], rest);
             ParseValue(Put(v.fields[key], after), None) == Some((x, after))
    requires Value(x, num) == Plain(v.fields[key])
    ensures var ms := [Member(EncodeAll(key), x)];
            && ParseMembers(PutFields(v, [key], rest), None) == Some((ms, rest))
            && AllNamed(ms) && Fields(ms, num) == map[key := Plain(v.fields[key])]
  {
    var after, m := AfterField(v, [key], rest), Member(EncodeAll(key), x);
    PutIsSolid(v.fields[key], after);
    KeyParses(key, Put(v.fields[key], after));
    LastMemberParses(PutFields(v, [key], rest), m, Put(v.fields[key], after), rest);
    FieldsInFront(key, x, [], num);
    assert [m] + [] == [m];
  }

  /** A member is read in front of the others. */
  lemma MemberInFront(v: Json, keys: seq<string>, rest: string, num: string -> Number, x: Syntax, more: seq<Member>)
    requires v.Obj? && Allowed(v) && |keys| > 1 && forall k :: k in keys ==> k in v.fields
    requires var after := AfterField(v, keys, rest);
             ParseValue(Put(v.fields[keys[0]], after), None) == Some((x, after))
    requires Value(x, num) == Plain(v.fields[keys[0]])
    requires ParseMembers(PutFields(v, keys[1..], rest), None) == Some((more, rest)) && AllNamed(more)
    ensures var ms := [Member(EncodeAll(keys[0]), x)] + more;
            && ParseMembers(PutFields(v, keys, rest), None) == Some((ms, rest)) && AllNamed(ms)
            && Fields(ms, num) == map[keys[0] := Plain(v.fields[keys[0]])] + Fields(more, num)
  {
    var value, after := v.fields[keys[0]], AfterField(v, keys, rest);
    PutIsSolid(value, after);
    KeyParses(keys[0], Put(value, after));
    MemberParses(PutFields(v, keys, rest), Member(EncodeAll(keys[0]), x), Put(value, after),
                 PutFields(v, keys[1..], rest), more, rest);
    FieldsInFront(keys[0], x, more, num);
  }

  lemma {:induction false} MembersParse(v: Json, keys: seq<string>, rest: string, num: string -> Number)
    returns (ms: seq<Member>)
    requires v.Obj? && Allowed(v) && ReadsIntegers(num)
    requires keys != [] && Sorted(keys) && forall k :: k in keys ==> k in v.fields
    ensures ParseMembers(PutFields(v, keys, rest), None) == Some((ms, rest))
    ensures AllNamed(ms) && Fields(ms, num) == PlainFields(v, keys)
    decreases v, 0, |keys|
  {
    PlainFieldsFirst(v, keys);
    var x := CanonicalParses(v.fields[keys[0]], AfterField(v, keys, rest), num);
    if |keys| == 1 {
      assert keys == [keys[0]];
      LastMember(v, keys[0], rest, num, x);
      ms := [Member(EncodeAll(keys[0]), x)];
    } else {
      var more := MembersParse(v, keys[1..], rest, num);
      MemberInFront(v, keys, rest, num, x, more);
      ms := [Member(EncodeAll(keys[0]), x)] + more;
    }
  }

  /** `JSON.parse` undoes the printer, but for the sign of a zero. */
  lemma ParseUndoesCanonicalize(v: Json, num: string -> Number)
    requires Canonicalize(v).Some? && ReadsIntegers(num)
    ensures ReadJson(Canonicalize(v).value, None, num) == Some(Plain(v))
  {
    var x := CanonicalParses(v, "", num);
    PutIs(v, "");
    PutIsSolid(v, "");
    assert Text(v) + "" == Text(v);
  }
}
