/** The escapers of the service files: chains of replacements that amount to one simultaneous map, and the readers
    that undo them. */
module Escapers {
  import opened Options
  import opened Sequences

  /** `str::replace` with a one-character pattern. */
  function Replace(s: string, c: char, to: string): string {
    if s == "" then "" else (if s[0] == c then to else [s[0]]) + Replace(s[1..], c, to)
  }

  lemma {:induction false} ReplaceAppend(s: string, t: string, c: char, to: string)
    ensures Replace(s + t, c, to) == Replace(s, c, to) + Replace(t, c, to)
    decreases |s|
  {
    if s == "" {
      assert s + t == t;
    } else {
      assert (s + t)[1..] == s[1..] + t;
      ReplaceAppend(s[1..], t, c, to);
    }
  }

  lemma ReplaceOne(c: char, from: char, to: string)
    ensures Replace([c], from, to) == if c == from then to else [c]
  {
    assert [c][1..] == "";
  }

  // ---- XML -----------------------------------------------------------------------------------------------

  function Xml(s: string): string {
    Replace(Replace(Replace(Replace(Replace(s, '&', "&amp;"), '<', "&lt;"), '>', "&gt;"), '"', "&quot;"), '\'',
            "&apos;")
  }

  /** The entity of a character, or the character itself. */
  function XmlChar(c: char): string {
    if c == '&' then "&amp;"
    else if c == '<' then "&lt;"
    else if c == '>' then "&gt;"
    else if c == '"' then "&quot;"
    else if c == '\'' then "&apos;"
    else [c]
  }

  function XmlMap(s: string): string {
    if s == "" then "" else XmlChar(s[0]) + XmlMap(s[1..])
  }

  /** A replacement leaves alone what does not hold its character. */
  lemma {:induction false} ReplaceNothing(s: string, c: char, to: string)
    requires forall i :: 0 <= i < |s| ==> s[i] != c
    ensures Replace(s, c, to) == s
    decreases |s|
  {
    if s != "" {
      ReplaceNothing(s[1..], c, to);
      assert s == [s[0]] + s[1..];
    }
  }

  /** The replacements after the one that wrote an entity leave it alone. */
  lemma EntityStays(e: string)
    requires forall i :: 0 <= i < |e| ==> e[i] != '<' && e[i] != '>' && e[i] != '"' && e[i] != '\''
    ensures Replace(e, '<', "&lt;") == e && Replace(e, '>', "&gt;") == e
    ensures Replace(e, '"', "&quot;") == e && Replace(e, '\'', "&apos;") == e
  {
    ReplaceNothing(e, '<', "&lt;");
    ReplaceNothing(e, '>', "&gt;");
    ReplaceNothing(e, '"', "&quot;");
    ReplaceNothing(e, '\'', "&apos;");
  }

  lemma XmlOne(c: char)
    ensures Xml([c]) == XmlChar(c)
  {
    ReplaceOne(c, '&', "&amp;");
    ReplaceOne(c, '<', "&lt;");
    ReplaceOne(c, '>', "&gt;");
    ReplaceOne(c, '"', "&quot;");
    ReplaceOne(c, '\'', "&apos;");
    if c == '&' || c == '<' || c == '>' || c == '"' {
      EntityStays(XmlChar(c));
    }
  }

  lemma XmlAppend(s: string, t: string)
    ensures Xml(s + t) == Xml(s) + Xml(t)
  {
    var s1, t1 := Replace(s, '&', "&amp;"), Replace(t, '&', "&amp;");
    var s2, t2 := Replace(s1, '<', "&lt;"), Replace(t1, '<', "&lt;");
    var s3, t3 := Replace(s2, '>', "&gt;"), Replace(t2, '>', "&gt;");
    var s4, t4 := Replace(s3, '"', "&quot;"), Replace(t3, '"', "&quot;");
    ReplaceAppend(s, t, '&', "&amp;");
    ReplaceAppend(s1, t1, '<', "&lt;");
    ReplaceAppend(s2, t2, '>', "&gt;");
    ReplaceAppend(s3, t3, '"', "&quot;");
    ReplaceAppend(s4, t4, '\'', "&apos;");
  }

  /** The five replacements in a row do not touch each other's results. */
  lemma {:induction false} XmlIsMap(s: string)
    ensures Xml(s) == XmlMap(s)
    decreases |s|
  {
    if s != "" {
      assert s == [s[0]] + s[1..];
      XmlAppend([s[0]], s[1..]);
      XmlOne(s[0]);
      XmlIsMap(s[1..]);
    }
  }

  /** Section 4.6 of XML 1.0: a reader that knows the five predefined entities and refuses everything else that is
      markup. */
  function ReadXml(t: string): Option<string>
    decreases |t|
  {
    if t == "" then Some("")
    else if t[0] == '<' || t[0] == '>' || t[0] == '"' || t[0] == '\'' then None
    else if t[0] != '&' then Before(t[0], ReadXml(t[1..]))
    else if "&amp;" <= t then Before('&', ReadXml(t[5..]))
    else if "&lt;" <= t then Before('<', ReadXml(t[4..]))
    else if "&gt;" <= t then Before('>', ReadXml(t[4..]))
    else if "&quot;" <= t then Before('"', ReadXml(t[6..]))
    else if "&apos;" <= t then Before('\'', ReadXml(t[6..]))
    else None
  }

  function Before(c: char, rest: Option<string>): Option<string> {
    if rest.None? then None else Some([c] + rest.value)
  }

  lemma XmlCharReads(c: char, t: string)
    ensures ReadXml(XmlChar(c) + t) == Before(c, ReadXml(t))
  {
    Behind(XmlChar(c), t);
    if c == '<' {
      NotBegun("&lt;", "&amp;", 1, t);
    } else if c == '>' {
      NotBegun("&gt;", "&amp;", 1, t);
      NotBegun("&gt;", "&lt;", 1, t);
    } else if c == '"' {
      NotBegun("&quot;", "&amp;", 1, t);
      NotBegun("&quot;", "&lt;", 1, t);
      NotBegun("&quot;", "&gt;", 1, t);
    } else if c == '\'' {
      NotBegun("&apos;", "&amp;", 2, t);
      NotBegun("&apos;", "&lt;", 1, t);
      NotBegun("&apos;", "&gt;", 1, t);
      NotBegun("&apos;", "&quot;", 1, t);
    }
  }

  lemma Behind(e: string, t: string)
    requires e != ""
    ensures e <= e + t && (e + t)[0] == e[0] && (e + t)[|e|..] == t
  {
  }

  /** A text that begins with `e` does not begin with what differs from it. */
  lemma NotBegun(e: string, other: string, k: nat, t: string)
    requires k < |e| && k < |other| && e[k] != other[k]
    ensures !(other <= e + t)
  {
    assert (e + t)[k] == e[k];
  }

  /** Every text comes back, and what is written holds no markup: the reader would refuse it. */
  lemma {:induction false} XmlReadsBack(s: string)
    ensures ReadXml(Xml(s)) == Some(s)
    decreases |s|
  {
    XmlIsMap(s);
    if s != "" {
      XmlIsMap(s[1..]);
      XmlReadsBack(s[1..]);
      XmlCharReads(s[0], XmlMap(s[1..]));
      assert s == [s[0]] + s[1..];
    }
  }

  // ---- systemd -------------------------------------------------------------------------------------------

  function SystemdEscaped(s: string): string {
    Replace(Replace(Replace(s, '\\', "\\\\"), '"', "\\\""), '%', "%%")
  }

  function SystemdQuote(s: string): string {
    "\"" + SystemdEscaped(s) + "\""
  }

  function SystemdChar(c: char): string {
    if c == '\\' then "\\\\" else if c == '"' then "\\\"" else if c == '%' then "%%" else [c]
  }

  function SystemdMap(s: string): string {
    if s == "" then "" else SystemdChar(s[0]) + SystemdMap(s[1..])
  }

  lemma SystemdOne(c: char)
    ensures SystemdEscaped([c]) == SystemdChar(c)
  {
    ReplaceOne(c, '\\', "\\\\");
    if c == '\\' {
      ReplaceNothing("\\\\", '"', "\\\"");
      ReplaceNothing("\\\\", '%', "%%");
    } else if c == '"' {
      ReplaceOne(c, '"', "\\\"");
      ReplaceNothing("\\\"", '%', "%%");
    } else {
      ReplaceOne(c, '"', "\\\"");
      ReplaceOne(c, '%', "%%");
    }
  }

  lemma SystemdAppend(s: string, t: string)
    ensures SystemdEscaped(s + t) == SystemdEscaped(s) + SystemdEscaped(t)
  {
    var s1, t1 := Replace(s, '\\', "\\\\"), Replace(t, '\\', "\\\\");
    var s2, t2 := Replace(s1, '"', "\\\""), Replace(t1, '"', "\\\"");
    ReplaceAppend(s, t, '\\', "\\\\");
    ReplaceAppend(s1, t1, '"', "\\\"");
    ReplaceAppend(s2, t2, '%', "%%");
  }

  lemma {:induction false} SystemdIsMap(s: string)
    ensures SystemdEscaped(s) == SystemdMap(s)
    decreases |s|
  {
    if s != "" {
      assert s == [s[0]] + s[1..];
      SystemdAppend([s[0]], s[1..]);
      SystemdOne(s[0]);
      SystemdIsMap(s[1..]);
    }
  }

  /** A quoted value after its opening quote: up to the closing one, with backslash escapes undone. */
  function ReadQuoted(t: string): Option<(string, string)>
    decreases |t|
  {
    if t == "" then None
    else if t[0] == '"' then Some(("", t[1..]))
    else if t[0] != '\\' then Continued(t[0], ReadQuoted(t[1..]))
    else if |t| > 1 && (t[1] == '\\' || t[1] == '"') then Continued(t[1], ReadQuoted(t[2..]))
    else None
  }

  function Continued(c: char, rest: Option<(string, string)>): Option<(string, string)> {
    if rest.None? then None else Some(([c] + rest.value.0, rest.value.1))
  }

  /** Specifiers: two percent signs are one; any other specifier would be expanded to something else. */
  function Expanded(t: string): Option<string>
    decreases |t|
  {
    if t == "" then Some("")
    else if t[0] != '%' then Before(t[0], Expanded(t[1..]))
    else if |t| > 1 && t[1] == '%' then Before('%', Expanded(t[2..]))
    else None
  }

  function Percents(s: string): string {
    if s == "" then "" else (if s[0] == '%' then "%%" else [s[0]]) + Percents(s[1..])
  }

  lemma QuotedCharReads(c: char, t: string, content: string, rest: string)
    requires ReadQuoted(t) == Some((content, rest))
    ensures ReadQuoted(SystemdChar(c) + t) == Some(((if c == '%' then "%%" else [c]) + content, rest))
  {
    var e := SystemdChar(c);
    assert (e + t)[|e|..] == t;
    if c == '%' {
      assert (e + t)[1..] == "%" + t && ("%" + t)[1..] == t;
      assert ReadQuoted("%" + t) == Some(("%" + content, rest));
      assert "%" + ("%" + content) == "%%" + content;
    }
  }

  /** The escaped text directly in front of what follows it. */
  function SystemdPut(s: string, u: string): string {
    if s == "" then u else SystemdChar(s[0]) + SystemdPut(s[1..], u)
  }

  lemma {:induction false} SystemdPutIs(s: string, u: string)
    ensures SystemdPut(s, u) == SystemdMap(s) + u
    decreases |s|
  {
    if s != "" {
      SystemdPutIs(s[1..], u);
      assert SystemdChar(s[0]) + (SystemdMap(s[1..]) + u) == SystemdChar(s[0]) + SystemdMap(s[1..]) + u;
    }
  }

  lemma {:induction false} QuotedReads(s: string, rest: string)
    ensures ReadQuoted(SystemdPut(s, "\"" + rest)) == Some((Percents(s), rest))
    decreases |s|
  {
    if s == "" {
      assert ("\"" + rest)[1..] == rest;
    } else {
      QuotedReads(s[1..], rest);
      QuotedCharReads(s[0], SystemdPut(s[1..], "\"" + rest), Percents(s[1..]), rest);
    }
  }

  lemma PercentExpands(c: char, t: string)
    ensures Expanded((if c == '%' then "%%" else [c]) + t) == Before(c, Expanded(t))
  {
    if c == '%' {
      Behind("%%", t);
      assert ("%%" + t)[1] == '%';
    } else {
      Behind([c], t);
    }
  }

  lemma {:induction false} PercentsExpand(s: string)
    ensures Expanded(Percents(s)) == Some(s)
    decreases |s|
  {
    if s != "" {
      PercentsExpand(s[1..]);
      PercentExpands(s[0], Percents(s[1..]));
      assert s == [s[0]] + s[1..];
    }
  }

  /** A quoted value ends at its own closing quote, whatever follows, and unquoting and expanding give it back. */
  lemma SystemdReadsBack(s: string, rest: string)
    ensures var t := SystemdQuote(s) + rest;
            && t[0] == '"' && ReadQuoted(t[1..]).Some? && ReadQuoted(t[1..]).value.1 == rest
            && Expanded(ReadQuoted(t[1..]).value.0) == Some(s)
  {
    var closed := "\"" + rest;
    var body := SystemdMap(s);
    SystemdIsMap(s);
    QuoteOpens(body, rest);
    SystemdPutIs(s, closed);
    QuotedReads(s, rest);
    PercentsExpand(s);
  }

  /** A quoted text is its opening quote, and then the text in front of the closing one. */
  lemma QuoteOpens(body: string, rest: string)
    ensures "\"" + body + "\"" + rest == "\"" + (body + ("\"" + rest))
    ensures ("\"" + (body + ("\"" + rest)))[1..] == body + ("\"" + rest)
  {
    Regroup("\"" + body, "\"", rest);
    Regroup("\"", body, "\"" + rest);
  }
}
