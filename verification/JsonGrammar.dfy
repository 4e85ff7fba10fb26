/** The grammar of JSON texts, RFC 8259. Nothing here reads from left to right: a text spells a value where it can be
    cut into the parts of one. */
module JsonGrammar {
  import opened CanonicalJson
  import opened JsonText

  // ---- Strings -------------------------------------------------------------------------------------------

  /** The UTF-16 code units of one character. */
  predicate Encodes(units: seq<Unit>, c: char) {
    || units == [c as int]
    || (|units| == 2 && 0xd800 <= units[0] <= 0xdbff && 0xdc00 <= units[1] <= 0xdfff
        && c as int == 0x10000 + (units[0] as int - 0xd800) * 0x400 + (units[1] as int - 0xdc00))
  }

  predicate HexIs(c: char, d: int) {
    0 <= d < 16 && (c == "0123456789abcdef"[d] || c == "0123456789ABCDEF"[d])
  }

  /** The letter after a backslash and the code unit the two stand for. */
  predicate ShortIs(c: char, u: Unit) {
    || (c == '"' && u == 34) || (c == '\\' && u == 92) || (c == '/' && u == 47)
    || (c == 'b' && u == 8) || (c == 'f' && u == 12) || (c == 'n' && u == 10) || (c == 'r' && u == 13)
    || (c == 't' && u == 9)
  }

  predicate HexFour(p: string, u: Unit, a: int, b: int, c: int, d: int) {
    && |p| == 6 && p[0] == '\\' && p[1] == 'u'
    && HexIs(p[2], a) && HexIs(p[3], b) && HexIs(p[4], c) && HexIs(p[5], d) && u == ((a * 16 + b) * 16 + c) * 16 + d
  }

  ghost predicate IsLong(p: string, u: Unit) {
    exists a, b, c, d :: HexFour(p, u, a, b, c, d)
  }

  /** One character between the quotes, as it is or escaped. */
  ghost predicate IsPiece(p: string, units: seq<Unit>) {
    || (|p| == 1 && p[0] as int >= 0x20 && p[0] != '"' && p[0] != '\\' && Encodes(units, p[0]))
    || (|p| == 2 && p[0] == '\\' && |units| == 1 && ShortIs(p[1], units[0]))
    || (|units| == 1 && IsLong(p, units[0]))
  }

  /** What may stand between the quotes, and its code units. */
  ghost predicate IsText(t: string, units: seq<Unit>)
    decreases |t|
  {
    if t == [] then units == []
    else exists p, q, u, w :: t == p + q && p != [] && units == u + w && IsPiece(p, u) && IsText(q, w)
  }

  // ---- Numbers -------------------------------------------------------------------------------------------

  predicate AreDigits(t: string) {
    t != [] && forall c :: c in t ==> '0' <= c <= '9'
  }

  predicate IsWhole(t: string) {
    AreDigits(t) && (t[0] == '0' ==> t == "0")
  }

  predicate IsFraction(t: string) {
    t == [] || (t[0] == '.' && AreDigits(t[1..]))
  }

  predicate IsExponent(t: string) {
    t == [] || ((t[0] == 'e' || t[0] == 'E')
                && (AreDigits(t[1..]) || (|t| > 1 && (t[1] == '+' || t[1] == '-') && AreDigits(t[2..]))))
  }

  ghost predicate IsNumeral(t: string) {
    exists sign, whole, fraction, exponent ::
      && t == sign + (whole + (fraction + exponent)) && (sign == "" || sign == "-")
      && IsWhole(whole) && IsFraction(fraction) && IsExponent(exponent)
  }

  // ---- Values --------------------------------------------------------------------------------------------

  predicate Blank(t: string) {
    forall c :: c in t ==> c == ' ' || c == '\t' || c == '\n' || c == '\r'
  }

  predicate Enclosed(t: string, open: char, close: char) {
    |t| >= 2 && t[0] == open && t[|t| - 1] == close
  }

  function Inside(t: string): string
    requires |t| >= 2
  {
    t[1..|t| - 1]
  }

  ghost predicate Spells(t: string, x: Syntax)
    decreases |t|, 0
  {
    match x
    case Word(v) => (t == "null" && v == Null) || (t == "true" && v == Bool(true)) || (t == "false" && v == Bool(false))
    case Numeral(text) => t == text && IsNumeral(t)
    case Chars(units) => Enclosed(t, '"', '"') && IsText(Inside(t), units)
    case Items(items) => Enclosed(t, '[', ']') && if items == [] then Blank(Inside(t)) else SpellItems(Inside(t), items)
    case Members(members) =>
      Enclosed(t, '{', '}') && if members == [] then Blank(Inside(t)) else SpellMembers(Inside(t), members)
  }

  /** A value with space around it. */
  ghost predicate Padded(t: string, x: Syntax)
    decreases |t|, 1
  {
    exists b, s, e :: t == b + (s + e) && Blank(b) && Blank(e) && Spells(s, x)
  }

  ghost predicate SpellItems(t: string, items: seq<Syntax>)
    requires items != []
    decreases |t|, 2
  {
    if |items| == 1 then Padded(t, items[0])
    else exists a, b :: t == a + ("," + b) && Padded(a, items[0]) && SpellItems(b, items[1..])
  }

  ghost predicate SpellMember(t: string, m: Member)
    decreases |t|, 2
  {
    exists a, b :: t == a + (":" + b) && Padded(a, Chars(m.key)) && Padded(b, m.value)
  }

  ghost predicate SpellMembers(t: string, members: seq<Member>)
    requires members != []
    decreases |t|, 3
  {
    if |members| == 1 then SpellMember(t, members[0])
    else exists a, b :: t == a + ("," + b) && SpellMember(a, members[0]) && SpellMembers(b, members[1..])
  }
}
