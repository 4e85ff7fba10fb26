/** The JSON reader: what `JSON.parse` accepts, and the same reader with the agent's bound on nesting.

    The cloud bounds a frame's depth with a scan of the raw text and then parses without a bound; the agent refuses
    while it parses. `JsonScan.SameReading` says that both read every text alike. */
module JsonText {
  import opened CanonicalJson
  import opened Integers
  import opened Numerals
  import opened Options

  type Unit = u: int | 0 <= u < 0x10000

  /** What the text says: numbers unread, strings as UTF-16 code units, members as they are written. */
  datatype Syntax =
    | Word(v: Json)
    | Numeral(text: string)
    | Chars(units: seq<Unit>)
    | Items(items: seq<Syntax>)
    | Members(members: seq<Member>)

  datatype Member = Member(key: seq<Unit>, value: Syntax)

  // ---- UTF-16 ------------------------------------------------------------------------------------------

  function Encode(c: char): seq<Unit> {
    var n := c as int;
    if n < 0x10000 then [n] else [0xd800 + (n - 0x10000) / 0x400, 0xdc00 + (n - 0x10000) % 0x400]
  }

  predicate IsHigh(u: Unit) {
    0xd800 <= u < 0xdc00
  }

  predicate IsLow(u: Unit) {
    0xdc00 <= u < 0xe000
  }

  function Pair(high: int, low: int): char
    requires 0xd800 <= high < 0xdc00 <= low < 0xe000
  {
    (0x10000 + (high - 0xd800) * 0x400 + (low - 0xdc00)) as char
  }

  /** The text the units spell, unless one of them is a lone surrogate. */
  function Decode(units: seq<Unit>): Option<string> {
    if units == [] then Some("")
    else if IsHigh(units[0]) && |units| > 1 && IsLow(units[1]) then
      Before(Pair(units[0], units[1]), Decode(units[2..]))
    else if IsHigh(units[0]) || IsLow(units[0]) then None
    else Before(units[0] as char, Decode(units[1..]))
  }

  function Before(c: char, rest: Option<string>): Option<string> {
    if rest.None? then None else Some([c] + rest.value)
  }

  // ---- The reader ----------------------------------------------------------------------------------------

  predicate IsSpace(c: char) {
    c == ' ' || c == '\t' || c == '\n' || c == '\r'
  }

  function Skip(t: string): (r: string)
    ensures |r| <= |t|
  {
    if t != [] && IsSpace(t[0]) then Skip(t[1..]) else t
  }

  predicate IsHex(c: char) {
    IsDigit(c) || 'a' <= c <= 'f' || 'A' <= c <= 'F'
  }

  function HexOf(c: char): (d: nat)
    requires IsHex(c)
    ensures d < 16
  {
    if IsDigit(c) then c as int - '0' as int
    else if 'a' <= c then c as int - 'a' as int + 10
    else c as int - 'A' as int + 10
  }

  /** How many characters the escape sequence after a backslash takes, and its code unit. */
  function EscapeUnit(t: string): (r: Option<(nat, Unit)>)
    ensures r.Some? ==> 1 <= r.value.0 <= |t|
  {
    if t == [] then None
    else
      match t[0]
      case '"' => Some((1, 0x22))
      case '\\' => Some((1, 0x5c))
      case '/' => Some((1, 0x2f))
      case 'b' => Some((1, 0x08))
      case 'f' => Some((1, 0x0c))
      case 'n' => Some((1, 0x0a))
      case 'r' => Some((1, 0x0d))
      case 't' => Some((1, 0x09))
      case 'u' =>
        if |t| >= 5 && IsHex(t[1]) && IsHex(t[2]) && IsHex(t[3]) && IsHex(t[4])
        then Some((5, HexOf(t[1]) * 0x1000 + HexOf(t[2]) * 0x100 + HexOf(t[3]) * 0x10 + HexOf(t[4])))
        else None
      case _ => None
  }

  /** One character of a string, spelled out or escaped: its code units and what follows. */
  function ParseChar(t: string): (r: Option<(seq<Unit>, string)>)
    requires t != []
    ensures r.Some? ==> |r.value.1| < |t|
  {
    if t[0] == '\\' then
      var e := EscapeUnit(t[1..]);
      if e.None? then None else Some(([e.value.1], t[1..][e.value.0..]))
    else if t[0] as int < 0x20 then None
    else Some((Encode(t[0]), t[1..]))
  }

  /** The rest of a string after its opening quote. */
  function ParseChars(t: string): (r: Option<(seq<Unit>, string)>)
    ensures r.Some? ==> |r.value.1| < |t|
    decreases |t|
  {
    if t == [] then None
    else if t[0] == '"' then Some(([], t[1..]))
    else
      var one := ParseChar(t);
      if one.None? then None
      else
        var more := ParseChars(one.value.1);
        if more.None? then None else Some((one.value.0 + more.value.0, more.value.1))
  }

  /** The length of the digits before any point: a lone 0, or digits that do not start with 0. */
  function WholePart(t: string): (k: nat)
    ensures k <= |t|
  {
    if Starts(t, '0') then 1 else DigitRun(t)
  }

  function FractionPart(t: string): (k: Option<nat>)
    ensures k.Some? ==> k.value <= |t|
  {
    if !Starts(t, '.') then Some(0)
    else if DigitRun(t[1..]) == 0 then None
    else Some(1 + DigitRun(t[1..]))
  }

  function ExponentPart(t: string): (k: Option<nat>)
    ensures k.Some? ==> k.value <= |t|
  {
    if !Starts(t, 'e') && !Starts(t, 'E') then Some(0)
    else
      var sign := if Starts(t[1..], '+') || Starts(t[1..], '-') then 1 else 0;
      var k := DigitRun(t[1..][sign..]);
      if k == 0 then None else Some(1 + sign + k)
  }

  /** The length of the sign and the digits before any point. */
  function HeadLength(t: string): (k: nat)
    ensures k <= |t|
  {
    var sign := if Starts(t, '-') then 1 else 0;
    var whole := WholePart(t[sign..]);
    if whole == 0 then 0 else sign + whole
  }

  function TailLength(t: string): (k: Option<nat>)
    ensures k.Some? ==> k.value <= |t|
  {
    var fraction := FractionPart(t);
    if fraction.None? then None
    else
      var exponent := ExponentPart(t[fraction.value..]);
      if exponent.None? then None else Some(fraction.value + exponent.value)
  }

  /** The length of the number a text starts with. */
  function NumberLength(t: string): (k: Option<nat>)
    ensures k.Some? ==> 0 < k.value <= |t|
  {
    var head := HeadLength(t);
    if head == 0 then None
    else
      var tail := TailLength(t[head..]);
      if tail.None? then None else Some(head + tail.value)
  }

  /** What may follow a number and leave it as it is. */
  predicate EndsNumeral(rest: string) {
    EndsNumber(rest) && !Starts(rest, '.') && !Starts(rest, 'e') && !Starts(rest, 'E')
  }

  function ParseNumber(t: string): (r: Option<(Syntax, string)>)
    ensures r.Some? ==> |r.value.1| < |t|
  {
    var k := NumberLength(t);
    if k.None? then None else Some((Numeral(t[..k.value]), t[k.value..]))
  }

  function ParseWord(t: string, word: string, v: Json): (r: Option<(Syntax, string)>)
    requires word != []
    ensures r.Some? ==> |r.value.1| < |t|
  {
    if word <= t then Some((Word(v), t[|word|..])) else None
  }

  function ParseScalar(t: string): (r: Option<(Syntax, string)>)
    requires t != []
    ensures r.Some? ==> |r.value.1| < |t|
  {
    match t[0]
    case '"' =>
      var s := ParseChars(t[1..]);
      if s.None? then None else Some((Chars(s.value.0), s.value.1))
    case 't' => ParseWord(t, "true", Bool(true))
    case 'f' => ParseWord(t, "false", Bool(false))
    case 'n' => ParseWord(t, "null", Null)
    case _ => if t[0] == '-' || IsDigit(t[0]) then ParseNumber(t) else None
  }

  /** One level down; `None` is no bound. */
  predicate Room(room: Option<nat>) {
    room.Some? ==> room.value > 0
  }

  function Down(room: Option<nat>): Option<nat>
    requires Room(room)
  {
    if room.None? then None else Some(room.value - 1)
  }

  /** A value that may nest at most `room` levels of arrays and objects, and what follows it. */
  function ParseValue(t: string, room: Option<nat>): (r: Option<(Syntax, string)>)
    ensures r.Some? ==> |r.value.1| < |t|
    decreases |t|, 2
  {
    if t == [] then None
    else if t[0] == '{' then (if Room(room) then ParseObject(t[1..], Down(room)) else None)
    else if t[0] == '[' then (if Room(room) then ParseArray(t[1..], Down(room)) else None)
    else ParseScalar(t)
  }

  function ParseArray(t: string, room: Option<nat>): (r: Option<(Syntax, string)>)
    ensures r.Some? ==> |r.value.1| < |t|
    decreases |t|, 4
  {
    var u := Skip(t);
    if Starts(u, ']') then Some((Items([]), u[1..]))
    else
      var items := ParseItems(u, room);
      if items.None? then None else Some((Items(items.value.0), items.value.1))
  }

  function ParseItems(t: string, room: Option<nat>): (r: Option<(seq<Syntax>, string)>)
    ensures r.Some? ==> |r.value.1| < |t|
    decreases |t|, 3
  {
    var first := ParseValue(t, room);
    if first.None? then None
    else
      var u := Skip(first.value.1);
      if Starts(u, ']') then Some(([first.value.0], u[1..]))
      else if Starts(u, ',') then
        var more := ParseItems(Skip(u[1..]), room);
        if more.None? then None else Some(([first.value.0] + more.value.0, more.value.1))
      else None
  }

  function ParseObject(t: string, room: Option<nat>): (r: Option<(Syntax, string)>)
    ensures r.Some? ==> |r.value.1| < |t|
    decreases |t|, 4
  {
    var u := Skip(t);
    if Starts(u, '}') then Some((Members([]), u[1..]))
    else
      var members := ParseMembers(u, room);
      if members.None? then None else Some((Members(members.value.0), members.value.1))
  }

  /** A key and its colon. */
  function ParseKey(t: string): (r: Option<(seq<Unit>, string)>)
    ensures r.Some? ==> |r.value.1| < |t|
  {
    var key := if Starts(t, '"') then ParseChars(t[1..]) else None;
    if key.None? || !Starts(Skip(key.value.1), ':') then None
    else Some((key.value.0, Skip(Skip(key.value.1)[1..])))
  }

  function ParseMembers(t: string, room: Option<nat>): (r: Option<(seq<Member>, string)>)
    ensures r.Some? ==> |r.value.1| < |t|
    decreases |t|, 3
  {
    var key := ParseKey(t);
    if key.None? then None
    else
      var first := ParseValue(key.value.1, room);
      if first.None? then None
      else
        var member := Member(key.value.0, first.value.0);
        var u := Skip(first.value.1);
        if Starts(u, '}') then Some(([member], u[1..]))
        else if Starts(u, ',') then
          var more := ParseMembers(Skip(u[1..]), room);
          if more.None? then None else Some(([member] + more.value.0, more.value.1))
        else None
  }

  /** The whole text is one value, with space around it. */
  function Parse(raw: string, room: Option<nat>): Option<Syntax> {
    var first := ParseValue(Skip(raw), room);
    if first.None? || Skip(first.value.1) != [] then None else Some(first.value.0)
  }

  // ---- Depth of what was read ----------------------------------------------------------------------------

  function Levels(x: Syntax): nat
    decreases x, 1, 0
  {
    match x
    case Items(items) => 1 + ItemLevels(items)
    case Members(members) => 1 + MemberLevels(members)
    case _ => 0
  }

  function ItemLevels(items: seq<Syntax>): nat
    decreases items, 0, |items|
  {
    if items == [] then 0 else Max(Levels(items[0]), ItemLevels(items[1..]))
  }

  function MemberLevels(members: seq<Member>): nat
    decreases members, 0, |members|
  {
    if members == [] then 0 else Max(Levels(members[0].value), MemberLevels(members[1..]))
  }

  // ---- The value a text stands for ---------------------------------------------------------------------------

  predicate AllNamed(members: seq<Member>) {
    forall m :: m in members ==> Decode(m.key).Some?
  }

  /** `num` gives the double a numeral stands for. */
  function Value(x: Syntax, num: string -> Number): Json
    decreases x, 1, 0
  {
    match x
    case Word(v) => v
    case Numeral(text) => Num(num(text))
    case Chars(units) => (match Decode(units) case Some(s) => Str(s) case None => IllFormed)
    case Items(items) => Arr(Values(items, num))
    case Members(members) => if AllNamed(members) then Obj(Fields(members, num)) else Stray(Fields(members, num))
  }

  function Values(items: seq<Syntax>, num: string -> Number): seq<Json>
    decreases items, 0, |items|
  {
    if items == [] then [] else [Value(items[0], num)] + Values(items[1..], num)
  }

  /** Of two members with one name the later one stays. */
  function Fields(members: seq<Member>, num: string -> Number): map<string, Json>
    decreases members, 0, |members|
  {
    if members == [] then map[]
    else
      var later := Fields(members[1..], num);
      match Decode(members[0].key)
      case Some(name) => map[name := Value(members[0].value, num)] + later
      case None => later
  }

  /** Whole numbers that a double holds exactly are read exactly. */
  ghost predicate ReadsIntegers(num: string -> Number) {
    forall n: int | -MAX_SAFE_INTEGER <= n <= MAX_SAFE_INTEGER :: num(Decimal(n)) == Whole(n)
  }

  function ReadJson(raw: string, room: Option<nat>, num: string -> Number): Option<Json> {
    match Parse(raw, room)
    case Some(x) => Some(Value(x, num))
    case None => None
  }
}
