/** What the canonical printer writes is read back: a value has one text. */
module CanonicalReader {
  import opened CanonicalJson
  import opened Numerals
  import opened Options
  import opened Sequences
  import opened TextOrder

  // ---- Numbers read back -----------------------------------------------------------------------------

  lemma NaturalReadsBack(n: nat, rest: string)
    requires n <= MAX_SAFE_INTEGER && EndsNumber(rest)
    ensures ReadNumber(Digits(n) + rest) == Some((Num(Whole(n)), rest))
  {
    var digits := Digits(n);
    DigitsRead(n);
    DigitRunOf(digits, rest);
    assert digits[0] in digits;
    assert !Starts(digits + rest, '-');
    AcceptedReads(digits, rest, n);
  }

  lemma NegativeReadsBack(n: nat, rest: string)
    requires 0 < n <= MAX_SAFE_INTEGER && EndsNumber(rest)
    ensures ReadNumber(Decimal(0 - n) + rest) == Some((Num(Whole(0 - n)), rest))
  {
    var word := "-" + Digits(n);
    BehindMinus(Digits(n), rest);
    DigitsInFront(n, rest);
    MinusReads(word + rest);
    assert ReadNumber(word + rest) == Accepted(word + rest, |word|, 0 - n);
    AcceptedReads(word, rest, 0 - n);
  }

  lemma DigitsInFront(n: nat, rest: string)
    requires EndsNumber(rest)
    ensures var t := Digits(n) + rest; DigitRun(t) == |Digits(n)| && Parsed(t[..|Digits(n)|]) == n
  {
    DigitsRead(n);
    DigitRunOf(Digits(n), rest);
    Prefix(Digits(n), rest);
  }

  lemma BehindMinus(digits: string, rest: string)
    ensures Starts("-" + digits + rest, '-') && ("-" + digits + rest)[1..] == digits + rest
  {
  }

  lemma Prefix(front: string, rest: string)
    ensures (front + rest)[..|front|] == front
  {
  }

  lemma MinusReads(t: string)
    requires Starts(t, '-')
    ensures var k := DigitRun(t[1..]);
            ReadNumber(t) == Accepted(t, 1 + k, 0 - Parsed(t[1..][..k]))
  {
  }

  lemma AcceptedReads(word: string, rest: string, n: int)
    requires word != [] && Decimal(n) == word && -MAX_SAFE_INTEGER <= n <= MAX_SAFE_INTEGER
    ensures Accepted(word + rest, |word|, n) == Some((Num(Whole(n)), rest))
    ensures (word + rest)[..|word|] == word
  {
    assert (word + rest)[|word|..] == rest;
  }

  lemma NumberReadsBack(n: int, rest: string)
    requires -MAX_SAFE_INTEGER <= n <= MAX_SAFE_INTEGER && EndsNumber(rest)
    ensures ReadNumber(Decimal(n) + rest) == Some((Num(Whole(n)), rest))
  {
    if n < 0 {
      NegativeReadsBack(-n, rest);
    } else {
      NaturalReadsBack(n, rest);
    }
  }

  // ---- Strings read back -----------------------------------------------------------------------------

  lemma EscapeStart(c: char)
    ensures Escape(c) != [] && Escape(c)[0] != '"'
  {
  }

  lemma UnescapeReadsBack(c: char, rest: string)
    ensures Unescape(Escape(c) + rest) == Some((c, rest))
  {
    if |Escape(c)| == 6 {
      HexReadsBack(c, rest);
    } else {
      assert (Escape(c) + rest)[|Escape(c)|..] == rest;
    }
  }

  lemma HexReadsBack(c: char, rest: string)
    requires |Escape(c)| == 6
    ensures Unescape(Escape(c) + rest) == Some((c, rest))
  {
    var t := Escape(c) + rest;
    var high, low := c as int / 16, c as int % 16;
    HexDigit(high);
    HexDigit(low);
    assert t[0] == '\\' && t[1] == 'u' && t[4] == HEX[high] && t[5] == HEX[low];
    assert (HexValue(t[4]) * 16 + HexValue(t[5])) as char == c;
    assert t[6..] == rest;
  }

  lemma HexDigit(d: nat)
    requires d < 16
    ensures HexValue(HEX[d]) == d
  {
  }

  lemma StringStepReads(c: char, u: string, s: string, rest: string)
    requires ReadString(u) == Some((s, rest))
    ensures ReadString(Escape(c) + u) == Some(([c] + s, rest))
  {
    EscapeStart(c);
    UnescapeReadsBack(c, u);
    assert (Escape(c) + u)[0] == Escape(c)[0];
  }

  lemma {:induction false} StringReadsBack(s: string, rest: string)
    ensures ReadString(PutEscaped(s, "\"" + rest)) == Some((s, rest))
    decreases |s|
  {
    if s == [] {
      assert ("\"" + rest)[1..] == rest;
    } else {
      StringReadsBack(s[1..], rest);
      StringStepReads(s[0], PutEscaped(s[1..], "\"" + rest), s[1..], rest);
      assert s == [s[0]] + s[1..];
    }
  }

  // ---- Values read back ------------------------------------------------------------------------------

  // The printer once more, each text directly in front of what follows it.

  function PutEscaped(s: string, rest: string): string {
    if s == [] then rest else Escape(s[0]) + PutEscaped(s[1..], rest)
  }

  function PutQuote(s: string, rest: string): string {
    "\"" + PutEscaped(s, "\"" + rest)
  }

  function Put(v: Json, rest: string): string
    decreases v, 1, 0
  {
    match v
    case Num(number) => if number.Whole? then Decimal(number.n) + rest else "0" + rest
    case Str(s) => PutQuote(s, rest)
    case Arr(items) => if items == [] then "[" + ("]" + rest) else "[" + PutItems(items, rest)
    case Obj(fields) =>
      if fields == map[] then "{" + ("}" + rest) else "{" + PutFields(v, Listing(fields.Keys), rest)
    case _ => Text(v) + rest
  }

  function AfterItem(items: seq<Json>, rest: string): string
    requires items != []
    decreases items, 0, |items|, 0
  {
    if |items| == 1 then "]" + rest else "," + PutItems(items[1..], rest)
  }

  function PutItems(items: seq<Json>, rest: string): string
    requires items != []
    decreases items, 0, |items|, 1
  {
    Put(items[0], AfterItem(items, rest))
  }

  function AfterField(v: Json, keys: seq<string>, rest: string): string
    requires v.Obj? && keys != [] && forall k :: k in keys ==> k in v.fields
    decreases v, 0, |keys|, 0
  {
    if |keys| == 1 then "}" + rest else "," + PutFields(v, keys[1..], rest)
  }

  function PutFields(v: Json, keys: seq<string>, rest: string): string
    requires v.Obj? && keys != [] && forall k :: k in keys ==> k in v.fields
    decreases v, 0, |keys|, 1
  {
    assert keys[0] in keys;
    PutQuote(keys[0], ":" + Put(v.fields[keys[0]], AfterField(v, keys, rest)))
  }

  lemma ObjectIsPut(v: Json, rest: string)
    requires v.Obj? && v.fields != map[] && Listing(v.fields.Keys) != []
    ensures Put(v, rest) == "{" + PutFields(v, Listing(v.fields.Keys), rest)
  {
  }

  lemma {:induction false} PutEscapedIs(s: string, rest: string)
    ensures PutEscaped(s, rest) == Escaped(s) + rest
    decreases |s|
  {
    if s != [] {
      PutEscapedIs(s[1..], rest);
      assert Escape(s[0]) + (Escaped(s[1..]) + rest) == Escape(s[0]) + Escaped(s[1..]) + rest;
    }
  }

  lemma PutQuoteIs(s: string, rest: string)
    ensures PutQuote(s, rest) == Quote(s) + rest
  {
    PutEscapedIs(s, "\"" + rest);
  }

  lemma {:induction false} PutIs(v: Json, rest: string)
    ensures Put(v, rest) == Text(v) + rest
    decreases v, 1, 0
  {
    match v
    case Str(s) => PutQuoteIs(s, rest);
    case Arr(items) =>
      if items != [] {
        PutItemsIs(items, rest);
      }
    case Obj(fields) =>
      if fields != map[] {
        PutFieldsIs(v, Listing(fields.Keys), rest);
      }
    case _ =>
  }

  lemma {:induction false} PutItemsIs(items: seq<Json>, rest: string)
    requires items != []
    ensures PutItems(items, rest) == ItemsText(items) + rest
    decreases items, 0, |items|
  {
    if |items| == 1 {
      PutIs(items[0], "]" + rest);
      Regroup(Text(items[0]), "]", rest);
    } else {
      var more := ItemsText(items[1..]);
      PutItemsIs(items[1..], rest);
      PutIs(items[0], "," + (more + rest));
      RegroupItem(Text(items[0]), ",", more, rest);
    }
  }

  lemma {:induction false} PutFieldsIs(v: Json, keys: seq<string>, rest: string)
    requires v.Obj? && keys != [] && forall k :: k in keys ==> k in v.fields
    ensures PutFields(v, keys, rest) == FieldsText(v, keys) + rest
    decreases v, 0, |keys|
  {
    assert keys[0] in keys;
    var value := v.fields[keys[0]];
    var tail := if |keys| == 1 then "}" else "," + FieldsText(v, keys[1..]);
    assert AfterField(v, keys, rest) == tail + rest by {
      if |keys| > 1 {
        PutFieldsIs(v, keys[1..], rest);
        Regroup(",", FieldsText(v, keys[1..]), rest);
      }
    }
    PutIs(value, tail + rest);
    PutQuoteIs(keys[0], ":" + (Text(value) + (tail + rest)));
    RegroupField(Quote(keys[0]), ":", Text(value), tail, rest);
  }

  lemma RegroupItem(a: string, b: string, c: string, d: string)
    ensures a + (b + (c + d)) == a + (b + c) + d
  {
    Regroup(b, c, d);
    Regroup(a, b + c, d);
  }

  lemma RegroupField(a: string, b: string, c: string, d: string, e: string)
    ensures a + (b + (c + (d + e))) == a + b + c + d + e
  {
    Regroup(a, b, c + (d + e));
    Regroup(a + b, c, d + e);
    Regroup(a + b + c, d, e);
  }

  lemma TextStart(v: Json)
    requires Allowed(v)
    ensures forall rest :: Put(v, rest) != [] && Put(v, rest)[0] != ']'
  {
    match v
    case Num(number) =>
      if number.Whole? {
        var digits := Digits(if number.n < 0 then -number.n else number.n);
        DigitsRead(if number.n < 0 then -number.n else number.n);
        assert digits[0] in digits;
      }
    case _ =>
  }

  lemma ReadsAsNumber(t: string)
    requires t != [] && (IsDigit(t[0]) || t[0] == '-')
    ensures ReadScalar(t) == ReadNumber(t)
  {
  }

  lemma DecimalStart(n: int)
    ensures Decimal(n) != [] && (IsDigit(Decimal(n)[0]) || Decimal(n)[0] == '-')
  {
    DigitsRead(if n < 0 then -n else n);
    assert n >= 0 ==> Decimal(n)[0] in Decimal(n);
  }

  lemma NumReadsBack(v: Json, rest: string)
    requires v.Num? && Allowed(v) && EndsNumber(rest)
    ensures ReadValue(Put(v, rest)) == Some((Plain(v), rest))
  {
    var n := if v.number.Whole? then v.number.n else 0;
    assert Put(v, rest) == Decimal(n) + rest;
    NumberReadsBack(n, rest);
    DecimalStart(n);
    ReadsAsNumber(Decimal(n) + rest);
  }

  lemma ArrReads(u: string, items: seq<Json>, rest: string)
    requires !Starts(u, ']') && ReadItems(u) == Some((items, rest))
    ensures ReadValue("[" + u) == Some((Arr(items), rest))
  {
    assert ("[" + u)[1..] == u;
  }

  lemma ObjReads(u: string, fields: map<string, Json>, rest: string)
    requires !Starts(u, '}') && ReadFields(u, None) == Some((fields, rest))
    ensures ReadValue("{" + u) == Some((Obj(fields), rest))
  {
    assert ("{" + u)[1..] == u;
  }

  lemma EmptyReads(rest: string)
    ensures ReadValue("[" + ("]" + rest)) == Some((Arr([]), rest))
    ensures ReadValue("{" + ("}" + rest)) == Some((Obj(map[]), rest))
  {
    assert ("[" + ("]" + rest))[1..] == "]" + rest && ("]" + rest)[1..] == rest;
    assert ("{" + ("}" + rest))[1..] == "}" + rest && ("}" + rest)[1..] == rest;
  }

  lemma WordReadsBack(word: string, v: Json, rest: string)
    requires word != []
    ensures ReadWord(word + rest, word, v) == Some((v, rest))
  {
    assert (word + rest)[|word|..] == rest;
  }

  lemma StrReadsBack(s: string, rest: string)
    ensures ReadValue(PutQuote(s, rest)) == Some((Str(s), rest))
  {
    assert PutQuote(s, rest)[1..] == PutEscaped(s, "\"" + rest);
    StringReadsBack(s, rest);
  }

  lemma KeyReadsBack(key: string, last: Option<string>, rest: string)
    requires IsKey(key) && (last.Some? ==> Less(last.value, key))
    ensures ReadKey(PutQuote(key, ":" + rest), last) == Some((key, rest))
  {
    assert PutQuote(key, ":" + rest)[1..] == PutEscaped(key, "\"" + (":" + rest));
    StringReadsBack(key, ":" + rest);
    assert (":" + rest)[1..] == rest;
  }

  function PlainFields(v: Json, keys: seq<string>): map<string, Json>
    requires v.Obj? && forall k :: k in keys ==> k in v.fields
  {
    map k | k in keys :: Plain(v.fields[k])
  }

  lemma KeysOf(fields: map<string, Json>)
    ensures Listing(fields.Keys) == [] <==> fields == map[]
  {
    var keys := Listing(fields.Keys);
    if keys != [] {
      assert keys[0] in keys;
    }
    if fields != map[] {
      var k :| k in fields;
      assert k in keys;
    }
  }

  lemma PlainFieldsAll(v: Json, keys: seq<string>)
    requires v.Obj? && forall k :: k in keys <==> k in v.fields
    ensures Plain(v) == Obj(PlainFields(v, keys))
  {
    assert PlainMap(v) == PlainFields(v, keys);
  }

  lemma PlainFieldsStep(v: Json, keys: seq<string>)
    requires v.Obj? && keys != [] && forall k :: k in keys ==> k in v.fields
    ensures keys[0] in keys
    ensures PlainFields(v, keys) == PlainFields(v, keys[1..])[keys[0] := Plain(v.fields[keys[0]])]
  {
    assert forall k :: k in keys <==> k == keys[0] || k in keys[1..];
  }

  lemma ReadItemsLast(t: string, v: Json, rest: string)
    requires ReadValue(t) == Some((v, "]" + rest))
    ensures ReadItems(t) == Some(([v], rest))
  {
    assert ("]" + rest)[1..] == rest;
  }

  lemma ReadItemsMore(t: string, v: Json, w: string, more: seq<Json>, rest: string)
    requires ReadValue(t) == Some((v, "," + w)) && ReadItems(w) == Some((more, rest))
    ensures ReadItems(t) == Some(([v] + more, rest))
  {
    assert ("," + w)[1..] == w;
  }

  lemma ReadFieldsLast(t: string, last: Option<string>, key: string, u: string, v: Json, rest: string)
    requires ReadKey(t, last) == Some((key, u)) && ReadValue(u) == Some((v, "}" + rest))
    ensures ReadFields(t, last) == Some((map[key := v], rest))
  {
    assert ("}" + rest)[1..] == rest;
  }

  lemma ReadFieldsMore(t: string, last: Option<string>, key: string, u: string, v: Json, w: string,
                       more: map<string, Json>, rest: string)
    requires ReadKey(t, last) == Some((key, u)) && ReadValue(u) == Some((v, "," + w))
    requires ReadFields(w, Some(key)) == Some((more, rest))
    ensures ReadFields(t, last) == Some((more[key := v], rest))
  {
    assert ("," + w)[1..] == w;
  }

  lemma OnePlain(items: seq<Json>)
    requires |items| == 1
    ensures PlainItems(items) == [Plain(items[0])]
  {
    assert PlainItems(items[1..]) == [];
  }

  lemma {:induction false} PutReadsBack(v: Json, rest: string)
    requires Allowed(v) && EndsNumber(rest)
    ensures ReadValue(Put(v, rest)) == Some((Plain(v), rest))
    decreases v, 1, 0
  {
    match v
    case Null => WordReadsBack("null", v, rest);
    case Bool(b) => WordReadsBack(if b then "true" else "false", v, rest);
    case Num(_) => NumReadsBack(v, rest);
    case Str(s) => StrReadsBack(s, rest);
    case Arr(items) =>
      if items == [] {
        EmptyReads(rest);
      } else {
        ItemsReadBack(items, rest);
        TextStart(items[0]);
        ArrReads(PutItems(items, rest), PlainItems(items), rest);
      }
    case Obj(fields) =>
      var keys := Listing(fields.Keys);
      PlainFieldsAll(v, keys);
      KeysOf(fields);
      if fields == map[] {
        EmptyReads(rest);
      } else {
        FieldsReadBack(v, keys, None, rest);
        ObjReads(PutFields(v, keys, rest), PlainFields(v, keys), rest);
      }
  }

  lemma {:induction false} ItemsReadBack(items: seq<Json>, rest: string)
    requires items != [] && forall i :: 0 <= i < |items| ==> Allowed(items[i])
    ensures ReadItems(PutItems(items, rest)) == Some((PlainItems(items), rest))
    decreases items, 0, |items|
  {
    PutReadsBack(items[0], AfterItem(items, rest));
    if |items| == 1 {
      ReadItemsLast(PutItems(items, rest), Plain(items[0]), rest);
      OnePlain(items);
    } else {
      ItemsReadBack(items[1..], rest);
      ReadItemsMore(PutItems(items, rest), Plain(items[0]), PutItems(items[1..], rest), PlainItems(items[1..]), rest);
    }
  }

  lemma {:induction false} FieldsReadBack(v: Json, keys: seq<string>, last: Option<string>, rest: string)
    requires v.Obj? && Allowed(v) && keys != [] && Sorted(keys) && forall k :: k in keys ==> k in v.fields
    requires last.Some? ==> Less(last.value, keys[0])
    ensures ReadFields(PutFields(v, keys, rest), last) == Some((PlainFields(v, keys), rest))
    decreases v, 0, |keys|
  {
    PlainFieldsStep(v, keys);
    var key, value := keys[0], v.fields[keys[0]];
    var u := Put(value, AfterField(v, keys, rest));
    KeyReadsBack(key, last, u);
    PutReadsBack(value, AfterField(v, keys, rest));
    if |keys| == 1 {
      ReadFieldsLast(PutFields(v, keys, rest), last, key, u, Plain(value), rest);
      assert PlainFields(v, keys[1..]) == map[];
    } else {
      FieldsReadBack(v, keys[1..], Some(key), rest);
      ReadFieldsMore(PutFields(v, keys, rest), last, key, u, Plain(value), PutFields(v, keys[1..], rest),
                     PlainFields(v, keys[1..]), rest);
    }
  }

  /** The reader returns exactly the value and what follows its text, whatever follows but a digit. */
  lemma ValueReadsBack(v: Json, rest: string)
    requires Canonicalize(v).Some? && EndsNumber(rest)
    ensures ReadValue(Canonicalize(v).value + rest) == Some((Plain(v), rest))
  {
    PutReadsBack(v, rest);
    PutIs(v, rest);
  }

  /** Two values with one canonical text are one value, but for the sign of a zero. */
  lemma CanonicalTextIsUnique(v: Json, w: Json)
    requires Canonicalize(v).Some? && Canonicalize(v) == Canonicalize(w)
    ensures Plain(v) == Plain(w)
  {
    ValueReadsBack(v, "");
    ValueReadsBack(w, "");
  }
}
