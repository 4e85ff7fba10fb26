/** The bracket scanner that bounds a frame's nesting before anything parses it. It looks at characters only, and
    agrees with the structure of the value whenever the text is canonical. */
module DepthScan {
  import opened CanonicalJson
  import opened CanonicalReader
  import opened Integers
  import opened Numerals
  import opened TextOrder

  /** Where the scan is: `skip` says that the next character follows a backslash. */
  datatype Scan = Scan(depth: int, deepest: int, inString: bool, skip: bool)

  const START: Scan := Scan(0, 0, false, false)

  function Step(s: Scan, c: char): Scan {
    if s.skip then s.(skip := false)
    else if s.inString then
      if c == '\\' then s.(skip := true) else if c == '"' then s.(inString := false) else s
    else if c == '"' then s.(inString := true)
    else if c == '{' || c == '[' then s.(depth := s.depth + 1, deepest := Max(s.deepest, s.depth + 1))
    else if c == '}' || c == ']' then s.(depth := s.depth - 1)
    else s
  }

  function ScanFrom(s: Scan, raw: string): Scan
    decreases |raw|
  {
    if raw == [] then s else ScanFrom(Step(s, raw[0]), raw[1..])
  }

  /** The loop, which jumps over the character behind a backslash, possibly past the end of the text. */
  method NestingDepth(raw: string) returns (deepest: int)
    ensures deepest == ScanFrom(START, raw).deepest
  {
    var depth := 0;
    deepest := 0;
    var inString := false;
    var i := 0;
    while i < |raw|
      invariant i <= |raw| + 1
      invariant i <= |raw| ==> ScanFrom(START, raw) == ScanFrom(Scan(depth, deepest, inString, false), raw[i..])
      invariant i > |raw| ==> ScanFrom(START, raw).deepest == deepest
    {
      var c := raw[i];
      assert raw[i..][1..] == raw[i + 1..];
      if inString {
        if c == '\\' {
          if i + 1 < |raw| {
            assert raw[i + 1..][1..] == raw[i + 2..];
          }
          i := i + 1;
        } else if c == '"' {
          inString := false;
        }
      } else if c == '"' {
        inString := true;
      } else if c == '{' || c == '[' {
        depth := depth + 1;
        deepest := Max(deepest, depth);
      } else if c == '}' || c == ']' {
        depth := depth - 1;
      }
      i := i + 1;
    }
  }

  // ---- The structure -----------------------------------------------------------------------------------

  /** How deep arrays and objects nest in a value; a scalar has depth 0. */
  function Depth(v: Json): nat
    decreases v, 1, 0
  {
    match v
    case Arr(items) => 1 + ItemsDepth(items)
    case Obj(fields) => 1 + FieldsDepth(v, Listing(fields.Keys))
    case _ => 0
  }

  function ItemsDepth(items: seq<Json>): nat
    decreases items, 0, |items|
  {
    if items == [] then 0 else Max(Depth(items[0]), ItemsDepth(items[1..]))
  }

  function FieldsDepth(v: Json, keys: seq<string>): nat
    requires v.Obj? && forall k :: k in keys ==> k in v.fields
    decreases v, 0, |keys|
  {
    if keys == [] then 0
    else
      assert keys[0] in keys;
      Max(Depth(v.fields[keys[0]]), FieldsDepth(v, keys[1..]))
  }

  /** What a whole value does to the scan: it goes `depth` levels down and comes back up. */
  function Over(s: Scan, depth: nat): Scan
    requires !s.inString && !s.skip
  {
    s.(deepest := Max(s.deepest, if depth == 0 then s.deepest else s.depth + depth))
  }

  // ---- The scan follows the structure --------------------------------------------------------------------

  predicate Inert(c: char) {
    c != '"' && c != '{' && c != '[' && c != '}' && c != ']'
  }

  lemma {:induction false} WordIsPassed(s: Scan, word: string, rest: string)
    requires !s.inString && !s.skip && forall c :: c in word ==> Inert(c)
    ensures ScanFrom(s, word + rest) == ScanFrom(s, rest)
    decreases |word|
  {
    if word == [] {
      assert word + rest == rest;
    } else {
      assert word[0] in word && (word + rest)[1..] == word[1..] + rest;
      WordIsPassed(s, word[1..], rest);
    }
  }

  lemma OneIsPassed(s: Scan, c: char, rest: string)
    ensures ScanFrom(s, [c] + rest) == ScanFrom(Step(s, c), rest)
  {
    assert ([c] + rest)[1..] == rest;
  }

  lemma PairIsPassed(s: Scan, c: char, d: char, rest: string)
    ensures ScanFrom(s, [c, d] + rest) == ScanFrom(Step(Step(s, c), d), rest)
  {
    assert [c, d] + rest == [c] + ([d] + rest);
    OneIsPassed(s, c, [d] + rest);
    OneIsPassed(Step(s, c), d, rest);
  }

  lemma EscapeIsPassed(s: Scan, c: char, rest: string)
    requires s.inString && !s.skip
    ensures ScanFrom(s, Escape(c) + rest) == ScanFrom(s, rest)
  {
    var e := Escape(c);
    if |e| == 1 {
      OneIsPassed(s, c, rest);
    } else if |e| == 2 {
      PairIsPassed(s, e[0], e[1], rest);
    } else {
      HexIsPassed(s, e, rest);
    }
  }

  lemma HexIsPassed(s: Scan, e: string, rest: string)
    requires s.inString && !s.skip && |e| == 6 && e[..4] == "\\u00" && e[4] in HEX && e[5] in HEX
    ensures ScanFrom(s, e + rest) == ScanFrom(s, rest)
  {
    var last := [e[4], e[5]] + rest;
    var middle := [e[2], e[3]] + last;
    assert e[0] == e[..4][0] == '\\' && e[2] == e[..4][2] == '0' && e[3] == e[..4][3] == '0';
    InPairs(e, rest);
    PairIsPassed(s, e[0], e[1], middle);
    PairIsPassed(s, e[2], e[3], last);
    PairIsPassed(s, e[4], e[5], rest);
  }

  lemma InPairs(e: string, rest: string)
    requires |e| == 6
    ensures e + rest == [e[0], e[1]] + ([e[2], e[3]] + ([e[4], e[5]] + rest))
  {
  }

  lemma {:induction false} EscapedIsPassed(s: Scan, text: string, rest: string)
    requires s.inString && !s.skip
    ensures ScanFrom(s, PutEscaped(text, rest)) == ScanFrom(s, rest)
    decreases |text|
  {
    if text != [] {
      EscapeIsPassed(s, text[0], PutEscaped(text[1..], rest));
      EscapedIsPassed(s, text[1..], rest);
    }
  }

  /** Whatever a string or key holds, the scan leaves it where it entered it. */
  lemma QuoteIsPassed(s: Scan, text: string, rest: string)
    requires !s.inString && !s.skip
    ensures ScanFrom(s, PutQuote(text, rest)) == ScanFrom(s, rest)
  {
    OneIsPassed(s, '"', PutEscaped(text, "\"" + rest));
    EscapedIsPassed(s.(inString := true), text, "\"" + rest);
    OneIsPassed(s.(inString := true), '"', rest);
  }

  lemma KeyIsPassed(s: Scan, key: string, u: string)
    requires !s.inString && !s.skip
    ensures ScanFrom(s, PutQuote(key, ":" + u)) == ScanFrom(s, u)
  {
    QuoteIsPassed(s, key, ":" + u);
    OneIsPassed(s, ':', u);
  }

  lemma {:induction false} DigitsAreInert(n: nat)
    ensures forall c :: c in Digits(n) ==> Inert(c)
  {
    DigitsRead(n);
  }

  lemma NumberIsPassed(s: Scan, v: Json, rest: string)
    requires v.Num? && !s.inString && !s.skip
    ensures ScanFrom(s, Put(v, rest)) == ScanFrom(s, rest)
  {
    var n := if v.number.Whole? then v.number.n else 0;
    DigitsAreInert(if n < 0 then -n else n);
    WordIsPassed(s, Decimal(n), rest);
    assert Put(v, rest) == Decimal(n) + rest;
  }

  lemma ScalarIsPassed(s: Scan, v: Json, rest: string)
    requires !v.Arr? && !v.Obj? && !s.inString && !s.skip
    ensures ScanFrom(s, Put(v, rest)) == ScanFrom(s, rest)
  {
    match v
    case Null => WordIsPassed(s, "null", rest);
    case Bool(b) => WordIsPassed(s, if b then "true" else "false", rest);
    case Num(_) => NumberIsPassed(s, v, rest);
    case Str(text) => QuoteIsPassed(s, text, rest);
    case IllFormed => assert Put(v, rest) == rest;
    case Stray(_) => assert Put(v, rest) == rest;
  }

  /** Between its brackets the scan is one level down. */
  lemma BracketsArePassed(s: Scan, open: char, close: char, inside: string, depth: nat, rest: string)
    requires !s.inString && !s.skip && (open == '[' || open == '{') && (close == ']' || close == '}')
    requires ScanFrom(Step(s, open), inside) == ScanFrom(Step(Over(Step(s, open), depth), close), rest)
    ensures ScanFrom(s, [open] + inside) == ScanFrom(Over(s, 1 + depth), rest)
  {
    OneIsPassed(s, open, inside);
  }

  lemma {:induction false} ValueIsPassed(s: Scan, v: Json, rest: string)
    requires !s.inString && !s.skip
    ensures ScanFrom(s, Put(v, rest)) == ScanFrom(Over(s, Depth(v)), rest)
    decreases v, 2, 0
  {
    match v
    case Arr(_) => ArrayIsPassed(s, v, rest);
    case Obj(_) => ObjectIsPassed(s, v, rest);
    case _ => ScalarIsPassed(s, v, rest);
  }

  lemma {:induction false} ArrayIsPassed(s: Scan, v: Json, rest: string)
    requires v.Arr? && !s.inString && !s.skip
    ensures ScanFrom(s, Put(v, rest)) == ScanFrom(Over(s, Depth(v)), rest)
    decreases v, 1, 0
  {
    if v.items == [] {
      NothingIsPassed(s, '[', ']', rest);
    } else {
      ItemsArePassed(Step(s, '['), v.items, rest);
      BracketsArePassed(s, '[', ']', PutItems(v.items, rest), ItemsDepth(v.items), rest);
    }
  }

  lemma {:induction false} ObjectIsPassed(s: Scan, v: Json, rest: string)
    requires v.Obj? && !s.inString && !s.skip
    ensures ScanFrom(s, Put(v, rest)) == ScanFrom(Over(s, Depth(v)), rest)
    decreases v, 1, 0
  {
    var keys := Listing(v.fields.Keys);
    KeysOf(v.fields);
    if v.fields == map[] {
      NothingIsPassed(s, '{', '}', rest);
    } else {
      ObjectIsPut(v, rest);
      ObjectDepth(v);
      FieldsArePassed(Step(s, '{'), v, keys, rest);
      BracketsArePassed(s, '{', '}', PutFields(v, keys, rest), FieldsDepth(v, keys), rest);
    }
  }

  lemma ObjectDepth(v: Json)
    requires v.Obj?
    ensures Depth(v) == 1 + FieldsDepth(v, Listing(v.fields.Keys))
  {
  }

  lemma NothingIsPassed(s: Scan, open: char, close: char, rest: string)
    requires !s.inString && !s.skip && (open == '[' || open == '{') && (close == ']' || close == '}')
    ensures ScanFrom(s, [open] + ([close] + rest)) == ScanFrom(Over(s, 1), rest)
  {
    OneIsPassed(Step(s, open), close, rest);
    BracketsArePassed(s, open, close, [close] + rest, 0, rest);
  }

  lemma ItemsOver(s: Scan, items: seq<Json>)
    requires items != [] && !s.inString && !s.skip
    ensures Over(Over(s, Depth(items[0])), ItemsDepth(items[1..])) == Over(s, ItemsDepth(items))
    ensures |items| == 1 ==> Over(s, Depth(items[0])) == Over(s, ItemsDepth(items))
  {
  }

  lemma FieldsOver(s: Scan, v: Json, keys: seq<string>)
    requires v.Obj? && keys != [] && forall k :: k in keys ==> k in v.fields
    requires !s.inString && !s.skip
    ensures keys[0] in keys
    ensures Over(Over(s, Depth(v.fields[keys[0]])), FieldsDepth(v, keys[1..])) == Over(s, FieldsDepth(v, keys))
    ensures |keys| == 1 ==> Over(s, Depth(v.fields[keys[0]])) == Over(s, FieldsDepth(v, keys))
  {
  }

  /** The items and the closing bracket: down to the deepest item, then one level up. */
  lemma {:induction false} ItemsArePassed(s: Scan, items: seq<Json>, rest: string)
    requires items != [] && !s.inString && !s.skip
    ensures ScanFrom(s, PutItems(items, rest)) == ScanFrom(Step(Over(s, ItemsDepth(items)), ']'), rest)
    decreases items, 0, |items|
  {
    var after := Over(s, Depth(items[0]));
    ValueIsPassed(s, items[0], AfterItem(items, rest));
    ItemsOver(s, items);
    if |items| == 1 {
      OneIsPassed(after, ']', rest);
    } else {
      OneIsPassed(after, ',', PutItems(items[1..], rest));
      ItemsArePassed(after, items[1..], rest);
    }
  }

  lemma {:induction false} FieldsArePassed(s: Scan, v: Json, keys: seq<string>, rest: string)
    requires v.Obj? && keys != [] && forall k :: k in keys ==> k in v.fields
    requires !s.inString && !s.skip
    ensures ScanFrom(s, PutFields(v, keys, rest)) == ScanFrom(Step(Over(s, FieldsDepth(v, keys)), '}'), rest)
    decreases v, 0, |keys|
  {
    FieldsOver(s, v, keys);
    var value := v.fields[keys[0]];
    var after := Over(s, Depth(value));
    var u := Put(value, AfterField(v, keys, rest));
    KeyIsPassed(s, keys[0], u);
    ValueIsPassed(s, value, AfterField(v, keys, rest));
    if |keys| == 1 {
      OneIsPassed(after, '}', rest);
    } else {
      OneIsPassed(after, ',', PutFields(v, keys[1..], rest));
      FieldsArePassed(after, v, keys[1..], rest);
    }
  }

  /** On canonical text the scan finds the structural depth, and ends outside strings and back at the top. */
  lemma ScanIsDepth(v: Json)
    requires Canonicalize(v).Some?
    ensures ScanFrom(START, Canonicalize(v).value) == Scan(0, Depth(v), false, false)
  {
    PutIs(v, "");
    assert Text(v) + "" == Text(v);
    ValueIsPassed(START, v, "");
  }
}
