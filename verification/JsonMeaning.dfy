/** What a JSON text means: the whole of `JSON.parse`, from characters to values, without the reader. */
module JsonMeaning {
  import opened CanonicalJson
  import CanonicalReader
  import opened JsonGrammar
  import JsonInverse
  import JsonReading
  import JsonScan
  import JsonSpelling
  import opened JsonText
  import opened Options

  /** The units spell the text. */
  ghost predicate Utf16(units: seq<Unit>, s: string)
    decreases |s|
  {
    if s == [] then units == []
    else exists u, w :: units == u + w && Encodes(u, s[0]) && Utf16(w, s[1..])
  }

  ghost predicate IsNamed(key: seq<Unit>) {
    exists s :: Utf16(key, s)
  }

  /** The member at `i` is the last one with that name. */
  ghost predicate IsLast(members: seq<Member>, i: int, name: string) {
    && 0 <= i < |members| && Utf16(members[i].key, name)
    && forall j :: i < j < |members| ==> !Utf16(members[j].key, name)
  }

  ghost predicate Means(x: Syntax, v: Json, num: string -> Number)
    decreases x, 1
  {
    match x
    case Word(w) => v == w
    case Numeral(text) => v == Num(num(text))
    case Chars(units) => if v.Str? then Utf16(units, v.s) else v.IllFormed? && !IsNamed(units)
    case Items(items) =>
      v.Arr? && |v.items| == |items| && forall i :: 0 <= i < |items| ==> Means(items[i], v.items[i], num)
    case Members(members) =>
      if forall m :: m in members ==> IsNamed(m.key) then v.Obj? && MeanFields(members, v.fields, num)
      else v.Stray? && MeanFields(members, v.fields, num)
  }

  /** Each name has the value of the last member with it. */
  ghost predicate MeanFields(members: seq<Member>, fields: map<string, Json>, num: string -> Number)
    decreases members, 0
  {
    && (forall i, name :: 0 <= i < |members| && Utf16(members[i].key, name) ==> name in fields)
    && (forall name :: name in fields ==>
          exists i :: IsLast(members, i, name) && Means(members[i].value, fields[name], num))
  }

  // ---- Strings -------------------------------------------------------------------------------------------

  lemma {:induction false} SpelledDecodes(units: seq<Unit>, s: string)
    requires Utf16(units, s)
    ensures Decode(units) == Some(s)
    decreases |s|
  {
    if s != [] {
      var u, w :| units == u + w && Encodes(u, s[0]) && Utf16(w, s[1..]);
      SpelledDecodes(w, s[1..]);
      JsonReading.EncodesOnce(u, s[0]);
      JsonInverse.DecodeEncode(s[0], w);
      JsonInverse.BeforeRest(s);
    }
  }

  lemma CharInFront(u: seq<Unit>, c: char, w: seq<Unit>, rest: string)
    requires Encodes(u, c) && Utf16(w, rest)
    ensures Utf16(u + w, [c] + rest)
  {
    assert ([c] + rest)[1..] == rest;
  }

  lemma {:induction false} DecodedSpells(units: seq<Unit>)
    requires Decode(units).Some?
    ensures Utf16(units, Decode(units).value)
    decreases |units|
  {
    if units != [] {
      var k := if IsHigh(units[0]) && |units| > 1 && IsLow(units[1]) then 2 else 1;
      var c := if k == 2 then Pair(units[0], units[1]) else units[0] as char;
      assert Decode(units) == Before(c, Decode(units[k..]));
      DecodedSpells(units[k..]);
      CharInFront(units[..k], c, units[k..], Decode(units[k..]).value);
      assert units == units[..k] + units[k..];
    }
  }

  /** UTF-16 is read as what it spells, and a lone surrogate spells nothing. */
  lemma DecodesExactly(units: seq<Unit>, s: string)
    ensures Decode(units) == Some(s) <==> Utf16(units, s)
  {
    if Utf16(units, s) {
      SpelledDecodes(units, s);
    }
    if Decode(units) == Some(s) {
      DecodedSpells(units);
    }
  }

  lemma NamedDecodes(units: seq<Unit>)
    ensures IsNamed(units) <==> Decode(units).Some?
  {
    if Decode(units).Some? {
      DecodesExactly(units, Decode(units).value);
    }
    if IsNamed(units) {
      var s :| Utf16(units, s);
      DecodesExactly(units, s);
    }
  }

  // ---- Members -------------------------------------------------------------------------------------------

  lemma {:induction false} LastField(members: seq<Member>, i: int, name: string, num: string -> Number)
    requires IsLast(members, i, name)
    ensures name in Fields(members, num) && Fields(members, num)[name] == Value(members[i].value, num)
    decreases |members|
  {
    DecodesExactly(members[0].key, name);
    if i > 0 {
      LastField(members[1..], i - 1, name, num);
    } else if name in Fields(members[1..], num) {
      var j := FieldIsLast(members[1..], name, num);
    }
  }

  lemma {:induction false} FieldIsLast(members: seq<Member>, name: string, num: string -> Number) returns (i: int)
    requires name in Fields(members, num)
    ensures IsLast(members, i, name)
    decreases |members|
  {
    DecodesExactly(members[0].key, name);
    if name in Fields(members[1..], num) {
      var j := FieldIsLast(members[1..], name, num);
      i := j + 1;
    } else {
      i := 0;
      forall j | 0 < j < |members|
        ensures !Utf16(members[j].key, name)
      {
        if Utf16(members[j].key, name) {
          var k := LastOf(members[1..], j - 1, name);
          LastField(members[1..], k, name, num);
        }
      }
    }
  }

  lemma {:induction false} LastOf(members: seq<Member>, i: int, name: string) returns (k: int)
    requires 0 <= i < |members| && Utf16(members[i].key, name)
    ensures IsLast(members, k, name)
    decreases |members| - i
  {
    if j :| i < j < |members| && Utf16(members[j].key, name) {
      k := LastOf(members, j, name);
    } else {
      k := i;
    }
  }

  // ---- Values --------------------------------------------------------------------------------------------

  lemma {:induction false} ValuesAt(items: seq<Syntax>, num: string -> Number)
    ensures |Values(items, num)| == |items|
    ensures forall i :: 0 <= i < |items| ==> Values(items, num)[i] == Value(items[i], num)
  {
    if items != [] {
      ValuesAt(items[1..], num);
    }
  }

  lemma NamesDecode(members: seq<Member>)
    ensures AllNamed(members) <==> forall m :: m in members ==> IsNamed(m.key)
  {
    forall m | m in members
      ensures IsNamed(m.key) <==> Decode(m.key).Some?
    {
      NamedDecodes(m.key);
    }
  }

  lemma {:induction false} ValueMeans(x: Syntax, num: string -> Number)
    ensures Means(x, Value(x, num), num)
    decreases x, 1
  {
    match x
    case Chars(units) =>
      NamedDecodes(units);
      if Decode(units).Some? {
        DecodesExactly(units, Decode(units).value);
      }
    case Items(items) =>
      ValuesAt(items, num);
      forall i | 0 <= i < |items|
        ensures Means(items[i], Value(items[i], num), num)
      {
        ValueMeans(items[i], num);
      }
    case Members(members) =>
      NamesDecode(members);
      FieldsMean(members, num);
    case _ =>
  }

  lemma {:induction false} FieldsMean(members: seq<Member>, num: string -> Number)
    ensures MeanFields(members, Fields(members, num), num)
    decreases members, 0
  {
    var fields := Fields(members, num);
    forall i, name | 0 <= i < |members| && Utf16(members[i].key, name)
      ensures name in fields
    {
      var k := LastOf(members, i, name);
      LastField(members, k, name, num);
    }
    forall name | name in fields
      ensures exists i :: IsLast(members, i, name) && Means(members[i].value, fields[name], num)
    {
      var i := FieldIsLast(members, name, num);
      LastField(members, i, name, num);
      ValueMeans(members[i].value, num);
    }
  }

  lemma {:induction false} MeaningIsValue(x: Syntax, v: Json, num: string -> Number)
    requires Means(x, v, num)
    ensures v == Value(x, num)
    decreases x, 1
  {
    match x
    case Chars(units) =>
      NamedDecodes(units);
      if v.Str? {
        DecodesExactly(units, v.s);
      }
    case Items(items) =>
      ValuesAt(items, num);
      forall i | 0 <= i < |items|
        ensures v.items[i] == Value(items[i], num)
      {
        MeaningIsValue(items[i], v.items[i], num);
      }
      assert v.items == Values(items, num);
    case Members(members) =>
      NamesDecode(members);
      MeaningIsFields(members, v.fields, num);
    case _ =>
  }

  lemma {:induction false} MeaningIsFields(members: seq<Member>, fields: map<string, Json>, num: string -> Number)
    requires MeanFields(members, fields, num)
    ensures fields == Fields(members, num)
    decreases members, 0
  {
    var read := Fields(members, num);
    forall name | name in read
      ensures name in fields
    {
      var i := FieldIsLast(members, name, num);
    }
    forall name | name in fields
      ensures name in read && read[name] == fields[name]
    {
      var i :| IsLast(members, i, name) && Means(members[i].value, fields[name], num);
      LastField(members, i, name, num);
      MeaningIsValue(members[i].value, fields[name], num);
    }
  }

  /** A text is read as a value exactly when it is a JSON text that means it. */
  lemma ReadsExactly(raw: string, v: Json, num: string -> Number)
    ensures ReadJson(raw, None, num) == Some(v) <==> exists x :: Padded(raw, x) && Means(x, v, num)
  {
    if ReadJson(raw, None, num) == Some(v) {
      var x := Parse(raw, None).value;
      JsonReading.ParsesGrammar(raw, x);
      ValueMeans(x, num);
    }
    if exists x :: Padded(raw, x) && Means(x, v, num) {
      var x :| Padded(raw, x) && Means(x, v, num);
      JsonReading.ParsesGrammar(raw, x);
      MeaningIsValue(x, v, num);
    }
  }

  /** With a bound on nesting it is read exactly when it nests no deeper as well. */
  lemma ReadsWithin(raw: string, bound: nat, v: Json, num: string -> Number)
    ensures ReadJson(raw, Some(bound), num) == Some(v)
       <==> exists x :: Padded(raw, x) && Levels(x) <= bound && Means(x, v, num)
  {
    JsonScan.BoundedValue(Skip(raw), bound);
    if ReadJson(raw, Some(bound), num) == Some(v) {
      var x := Parse(raw, None).value;
      JsonReading.ParsesGrammar(raw, x);
      ValueMeans(x, num);
    }
    if exists x :: Padded(raw, x) && Levels(x) <= bound && Means(x, v, num) {
      var x :| Padded(raw, x) && Levels(x) <= bound && Means(x, v, num);
      JsonReading.ParsesGrammar(raw, x);
      MeaningIsValue(x, v, num);
    }
  }

  // ---- The printer's strings ---------------------------------------------------------------------------------

  lemma EscapeSpells(c: char, units: seq<Unit>)
    requires Encodes(units, c)
    ensures IsPiece(Escape(c), units)
  {
    JsonReading.EncodesOnce(units, c);
    JsonInverse.CharParses(c, "");
    assert Escape(c) + "" == Escape(c);
    CanonicalReader.EscapeStart(c);
    var p := JsonSpelling.CharIsPiece(Escape(c));
    assert p + "" == p;
  }

  lemma PlainIsShortest(c: char, units: seq<Unit>, p: string)
    requires Encodes(units, c) && IsPiece(p, units) && |p| == 1
    ensures p == Escape(c)
  {
    assert p == [c] by {
      JsonReading.EncodesOnce(units, c);
      JsonReading.EncodesOnce(units, p[0]);
    }
  }

  lemma LetterIsShortest(c: char, units: seq<Unit>, p: string)
    requires Encodes(units, c) && IsPiece(p, units) && |p| == 2
    ensures |Escape(c)| <= 2 && (|Escape(c)| == 2 ==> p == Escape(c))
  {
    assert units == [c as int] && ShortIs(p[1], c as int);
    assert p == ['\\', p[1]];
  }

  lemma HexEscape(c: char)
    requires |Escape(c)| == 6
    ensures c as int < 32 && Escape(c) == ['\\', 'u', '0', '0', HEX[c as int / 16], HEX[c as int % 16]]
  {
  }

  lemma LowerHex(h: char, d: int)
    requires HexIs(h, d) && !('A' <= h <= 'F')
    ensures h == HEX[d]
  {
  }

  lemma LowDigits(n: nat, x: int, y: int, z: int, w: int)
    requires 0 <= x < 16 && 0 <= y < 16 && 0 <= z < 16 && 0 <= w < 16
    requires n < 32 && n == ((x * 16 + y) * 16 + z) * 16 + w
    ensures x == 0 && y == 0 && z == n / 16 && w == n % 16
  {
  }

  lemma DigitsFixed(c: char, p: string, x: int, y: int, z: int, w: int)
    requires |Escape(c)| == 6 && HexFour(p, c as int, x, y, z, w) && forall i :: 2 <= i < 6 ==> !('A' <= p[i] <= 'F')
    ensures p == Escape(c)
  {
    HexEscape(c);
    LowDigits(c as int, x, y, z, w);
    LowerHex(p[2], 0);
    LowerHex(p[3], 0);
    LowerHex(p[4], z);
    LowerHex(p[5], w);
  }

  lemma HexIsShortest(c: char, p: string)
    requires |Escape(c)| == 6 && IsLong(p, c as int) && forall i :: 2 <= i < 6 && i < |p| ==> !('A' <= p[i] <= 'F')
    ensures p == Escape(c)
  {
    var x, y, z, w :| HexFour(p, c as int, x, y, z, w);
    DigitsFixed(c, p, x, y, z, w);
  }

  lemma HexIsLower(c: char)
    requires |Escape(c)| == 6
    ensures forall i :: 2 <= i < 6 ==> !('A' <= Escape(c)[i] <= 'F')
  {
    HexEscape(c);
  }

  /** Each character is printed in the shortest way there is, and in hexadecimal with small letters. */
  lemma PrintsShortest(c: char, units: seq<Unit>, p: string)
    requires Encodes(units, c) && IsPiece(p, units)
    ensures IsPiece(Escape(c), units) && |Escape(c)| <= |p|
    ensures |p| == |Escape(c)| ==> (p == Escape(c) <==> |p| < 6 || forall i :: 2 <= i < 6 ==> !('A' <= p[i] <= 'F'))
  {
    EscapeSpells(c, units);
    if |p| == 1 {
      PlainIsShortest(c, units, p);
    } else if |p| == 2 {
      LetterIsShortest(c, units, p);
    } else if |Escape(c)| == 6 {
      HexEscape(c);
      HexIsLower(c);
      if forall i :: 2 <= i < 6 ==> !('A' <= p[i] <= 'F') {
        HexIsShortest(c, p);
      }
    } else {
      AtMostTwo(c);
    }
  }

  lemma AtMostTwo(c: char)
    ensures |Escape(c)| <= 2 || |Escape(c)| == 6
  {
  }
}
