/** Canonical JSON: RFC 8785 restricted to safe integers, printable-ASCII keys and well-formed strings.

    `Canonicalize` is the printer. `ReadValue` is a reader for exactly the canonical texts: it is the printer's
    inverse, so a value has one text and a text has at most one value. */
module CanonicalJson {
  import opened Numerals
  import opened Options
  import opened TextOrder

  /** 2^53 - 1: up to here every integer has a double of its own. */
  const MAX_SAFE_INTEGER: int := 9_007_199_254_740_991

  /** A double as far as the printer tells doubles apart; `NotWhole` is a fraction, an infinity or a NaN. */
  datatype Number = Whole(n: int) | NegativeZero | NotWhole

  /** A parsed value. Strings and keys are sequences of code points; `IllFormed` is a string that holds a lone
      surrogate, `Stray` an object that has a key with one, next to its well-formed `fields`. */
  datatype Json =
    | Null
    | Bool(b: bool)
    | Num(number: Number)
    | Str(s: string)
    | IllFormed
    | Arr(items: seq<Json>)
    | Obj(fields: map<string, Json>)
    | Stray(fields: map<string, Json>)

  // ---- Its parts -------------------------------------------------------------------------------------

  function SafeInteger(v: Option<Json>): Option<int> {
    match v
    case Some(Num(Whole(n))) => if -MAX_SAFE_INTEGER <= n <= MAX_SAFE_INTEGER then Some(n) else None
    case Some(Num(NegativeZero)) => Some(0)
    case _ => None
  }

  function Field(fields: map<string, Json>, name: string): Option<Json> {
    if name in fields then Some(fields[name]) else None
  }

  /** A number that is the integer `n`; -0 is 0. */
  predicate IsInteger(v: Json, n: int) {
    -9_007_199_254_740_991 <= n <= 9_007_199_254_740_991 && (v == Num(Whole(n)) || (n == 0 && v == Num(NegativeZero)))
  }

  lemma SafeIntegerIs(v: Json, n: int)
    ensures SafeInteger(Some(v)) == Some(n) <==> IsInteger(v, n)
  {
  }

  // ---- The printer -----------------------------------------------------------------------------------

  const HEX: string := "0123456789abcdef"

  /** One character as `JSON.stringify` writes it. */
  function Escape(c: char): string {
    if c == '"' then "\\\""
    else if c == '\\' then "\\\\"
    else if c as int == 8 then "\\b"
    else if c as int == 9 then "\\t"
    else if c as int == 10 then "\\n"
    else if c as int == 12 then "\\f"
    else if c as int == 13 then "\\r"
    else if c as int < 32 then "\\u00" + [HEX[c as int / 16], HEX[c as int % 16]]
    else [c]
  }

  function Escaped(s: string): string {
    if s == [] then [] else Escape(s[0]) + Escaped(s[1..])
  }

  function Quote(s: string): string {
    "\"" + Escaped(s) + "\""
  }

  /** `/^[\x20-\x7e]+$/` */
  predicate IsKey(s: string) {
    s != [] && forall c :: c in s ==> ' ' <= c <= '~'
  }

  /** No part of the value makes the printer throw. */
  predicate Allowed(v: Json)
    decreases v
  {
    match v
    case Num(number) => !number.NotWhole? && (number.Whole? ==> -MAX_SAFE_INTEGER <= number.n <= MAX_SAFE_INTEGER)
    case IllFormed => false
    case Stray(_) => false
    case Arr(items) => forall i :: 0 <= i < |items| ==> Allowed(items[i])
    case Obj(fields) => forall k :: k in fields ==> IsKey(k) && Allowed(fields[k])
    case _ => true
  }

  function Text(v: Json): string
    decreases v, 1, 0
  {
    match v
    case Null => "null"
    case Bool(b) => if b then "true" else "false"
    case Num(number) => if number.Whole? then Decimal(number.n) else "0"
    case Str(s) => Quote(s)
    case IllFormed => ""
    case Stray(_) => ""
    case Arr(items) => if items == [] then "[]" else "[" + ItemsText(items)
    case Obj(fields) => if fields == map[] then "{}" else "{" + FieldsText(v, Listing(fields.Keys))
  }

  /** The items of an array and its closing bracket. */
  function ItemsText(items: seq<Json>): string
    requires items != []
    decreases items, 0, |items|
  {
    Text(items[0]) + if |items| == 1 then "]" else "," + ItemsText(items[1..])
  }

  /** The fields of an object in the order of `keys`, and its closing brace. */
  function FieldsText(v: Json, keys: seq<string>): string
    requires v.Obj? && keys != [] && forall k :: k in keys ==> k in v.fields
    decreases v, 0, |keys|
  {
    assert keys[0] in keys;
    Quote(keys[0]) + ":" + Text(v.fields[keys[0]]) + if |keys| == 1 then "}" else "," + FieldsText(v, keys[1..])
  }

  /** The canonical text, or nothing where the printer throws. */
  function Canonicalize(v: Json): Option<string> {
    if Allowed(v) then Some(Text(v)) else None
  }

  /** The value that is left when -0 and 0 are the same number. */
  function Plain(v: Json): Json
    decreases v, 1, 0
  {
    match v
    case Num(number) => if number.NegativeZero? then Num(Whole(0)) else v
    case Arr(items) => Arr(PlainItems(items))
    case Obj(_) => Obj(PlainMap(v))
    case _ => v
  }

  function PlainMap(v: Json): map<string, Json>
    requires v.Obj?
    decreases v, 0, 0
  {
    map k | k in v.fields :: Plain(v.fields[k])
  }

  function PlainItems(items: seq<Json>): seq<Json>
    decreases items, 0, |items|
  {
    if items == [] then [] else [Plain(items[0])] + PlainItems(items[1..])
  }

  // ---- The reader ------------------------------------------------------------------------------------

  predicate Starts(t: string, c: char) {
    t != [] && t[0] == c
  }

  /** A number is read only in the spelling the printer gives it. */
  function ReadNumber(t: string): (r: Option<(Json, string)>)
    ensures r.Some? ==> |r.value.1| < |t|
  {
    if Starts(t, '-') then
      var k := DigitRun(t[1..]);
      Accepted(t, 1 + k, 0 - Parsed(t[1..][..k]))
    else
      var k := DigitRun(t);
      Accepted(t, k, Parsed(t[..k]))
  }

  function Accepted(t: string, k: nat, n: int): (r: Option<(Json, string)>)
    requires k <= |t|
    ensures r.Some? ==> |r.value.1| < |t|
  {
    if k > 0 && Decimal(n) == t[..k] && -MAX_SAFE_INTEGER <= n <= MAX_SAFE_INTEGER then Some((Num(Whole(n)), t[k..]))
    else None
  }

  function HexValue(c: char): int {
    if IsDigit(c) then c as int - '0' as int else if 'a' <= c <= 'f' then c as int - 'a' as int + 10 else 99
  }

  /** The character an escape sequence stands for, if it is the spelling the printer uses. */
  function Unescape(t: string): (r: Option<(char, string)>)
    requires t != []
    ensures r.Some? ==> Escape(r.value.0) <= t && r.value.1 == t[|Escape(r.value.0)|..]
  {
    var c :=
      if t[0] != '\\' || |t| < 2 then t[0]
      else if t[1] == 'b' then 8 as char
      else if t[1] == 't' then 9 as char
      else if t[1] == 'n' then 10 as char
      else if t[1] == 'f' then 12 as char
      else if t[1] == 'r' then 13 as char
      else if t[1] == 'u' && |t| >= 6 && HexValue(t[4]) <= 1 && HexValue(t[5]) <= 15
      then (HexValue(t[4]) * 16 + HexValue(t[5])) as char
      else t[1];
    if Escape(c) <= t then Some((c, t[|Escape(c)|..])) else None
  }

  /** The rest of a string after its opening quote. */
  function ReadString(t: string): (r: Option<(string, string)>)
    ensures r.Some? ==> |r.value.1| < |t|
    decreases |t|
  {
    if t == [] then None
    else if t[0] == '"' then Some(("", t[1..]))
    else
      var one := Unescape(t);
      if one.None? then None
      else
        var more := ReadString(one.value.1);
        if more.None? then None else Some(([one.value.0] + more.value.0, more.value.1))
  }

  function ReadWord(t: string, word: string, v: Json): (r: Option<(Json, string)>)
    requires word != []
    ensures r.Some? ==> |r.value.1| < |t|
  {
    if word <= t then Some((v, t[|word|..])) else None
  }

  function ReadConstant(t: string): (r: Option<(Json, string)>)
    requires t != []
    ensures r.Some? ==> |r.value.1| < |t|
  {
    match t[0]
    case 'n' => ReadWord(t, "null", Null)
    case 't' => ReadWord(t, "true", Bool(true))
    case 'f' => ReadWord(t, "false", Bool(false))
    case _ => None
  }

  function ReadScalar(t: string): (r: Option<(Json, string)>)
    requires t != []
    ensures r.Some? ==> |r.value.1| < |t|
  {
    if t[0] == '"' then
      var s := ReadString(t[1..]);
      if s.None? then None else Some((Str(s.value.0), s.value.1))
    else if t[0] == '-' || IsDigit(t[0]) then ReadNumber(t)
    else ReadConstant(t)
  }

  function ReadValue(t: string): (r: Option<(Json, string)>)
    ensures r.Some? ==> |r.value.1| < |t|
    decreases |t|, 2
  {
    if t == [] then None
    else if t[0] == '[' then ReadArray(t[1..])
    else if t[0] == '{' then ReadObject(t[1..])
    else ReadScalar(t)
  }

  /** The rest of an array after its opening bracket. */
  function ReadArray(t: string): (r: Option<(Json, string)>)
    ensures r.Some? ==> |r.value.1| < |t|
    decreases |t|, 4
  {
    if Starts(t, ']') then Some((Arr([]), t[1..]))
    else
      var items := ReadItems(t);
      if items.None? then None else Some((Arr(items.value.0), items.value.1))
  }

  function ReadItems(t: string): (r: Option<(seq<Json>, string)>)
    ensures r.Some? ==> |r.value.1| < |t|
    decreases |t|, 3
  {
    var first := ReadValue(t);
    if first.None? then None
    else
      var (v, rest) := first.value;
      if Starts(rest, ']') then Some(([v], rest[1..]))
      else if Starts(rest, ',') then
        var more := ReadItems(rest[1..]);
        if more.None? then None else Some(([v] + more.value.0, more.value.1))
      else None
  }

  /** The rest of an object after its opening brace. */
  function ReadObject(t: string): (r: Option<(Json, string)>)
    ensures r.Some? ==> |r.value.1| < |t|
    decreases |t|, 4
  {
    if Starts(t, '}') then Some((Obj(map[]), t[1..]))
    else
      var fields := ReadFields(t, None);
      if fields.None? then None else Some((Obj(fields.value.0), fields.value.1))
  }

  /** A key and its colon. Keys must be printable and strictly ascending; `last` is the key before. */
  function ReadKey(t: string, last: Option<string>): (r: Option<(string, string)>)
    ensures r.Some? ==> |r.value.1| < |t|
  {
    var key := if Starts(t, '"') then ReadString(t[1..]) else None;
    if key.None? || !Starts(key.value.1, ':') then None
    else if !IsKey(key.value.0) || (last.Some? && !Less(last.value, key.value.0)) then None
    else Some((key.value.0, key.value.1[1..]))
  }

  function ReadFields(t: string, last: Option<string>): (r: Option<(map<string, Json>, string)>)
    ensures r.Some? ==> |r.value.1| < |t|
    decreases |t|, 3
  {
    var key := ReadKey(t, last);
    if key.None? then None
    else
      var first := ReadValue(key.value.1);
      if first.None? then None
      else
        var (v, rest) := first.value;
        if Starts(rest, '}') then Some((map[key.value.0 := v], rest[1..]))
        else if Starts(rest, ',') then
          var more := ReadFields(rest[1..], Some(key.value.0));
          if more.None? then None else Some((more.value.0[key.value.0 := v], more.value.1))
        else None
  }
}
