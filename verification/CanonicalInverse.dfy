/** What the canonical reader reads is what the printer writes: a text has at most one value. */
module CanonicalInverse {
  import opened CanonicalJson
  import opened CanonicalReader
  import opened Numerals
  import opened Options
  import opened TextOrder

  lemma NumberIsCanonical(t: string, v: Json, rest: string)
    requires ReadNumber(t) == Some((v, rest))
    ensures v.Num? && Allowed(v) && Plain(v) == v && Put(v, rest) == t
  {
    var k, n := NumberParts(t);
    AcceptedIsPut(t, k, n, v, rest);
  }

  lemma NumberParts(t: string) returns (k: nat, n: int)
    ensures k <= |t| && ReadNumber(t) == Accepted(t, k, n)
  {
    if Starts(t, '-') {
      MinusReads(t);
      k, n := 1 + DigitRun(t[1..]), 0 - Parsed(t[1..][..DigitRun(t[1..])]);
    } else {
      k, n := DigitRun(t), Parsed(t[..DigitRun(t)]);
    }
  }

  lemma AcceptedIsPut(t: string, k: nat, n: int, v: Json, rest: string)
    requires k <= |t| && Accepted(t, k, n) == Some((v, rest))
    ensures v == Num(Whole(n)) && Allowed(v) && Put(v, rest) == t
  {
    assert t == t[..k] + t[k..];
  }

  lemma {:induction false} StringIsCanonical(t: string, s: string, rest: string)
    requires ReadString(t) == Some((s, rest))
    ensures PutEscaped(s, "\"" + rest) == t
    decreases |t|
  {
    if t[0] == '"' {
      assert t == "\"" + t[1..];
    } else {
      var one := Unescape(t).value;
      StringIsCanonical(one.1, s[1..], rest);
      assert t == Escape(one.0) + one.1;
    }
  }

  lemma HeadAndTail(t: string)
    requires t != []
    ensures t == [t[0]] + t[1..]
  {
  }

  lemma KeyIsCanonical(t: string, last: Option<string>, key: string, u: string)
    requires ReadKey(t, last) == Some((key, u))
    ensures IsKey(key) && (last.Some? ==> Less(last.value, key)) && t == PutQuote(key, ":" + u)
  {
    var s := t[1..];
    var r := ReadString(s).value.1;
    StringIsCanonical(s, key, r);
    HeadAndTail(r);
    HeadAndTail(t);
  }

  lemma WordIsCanonical(t: string, word: string, v: Json)
    requires word != [] && ReadWord(t, word, v).Some?
    ensures t == word + ReadWord(t, word, v).value.1
  {
  }

  /** A value the reader can return: the printer prints it, and it holds no -0. */
  ghost predicate Readable(v: Json) {
    Allowed(v) && Plain(v) == v
  }

  ghost predicate AllReadable(items: seq<Json>) {
    forall i :: 0 <= i < |items| ==> Readable(items[i])
  }

  ghost predicate FieldsReadable(fields: map<string, Json>) {
    forall k :: k in fields ==> IsKey(k) && Readable(fields[k])
  }

  lemma {:induction false} ReadableItems(items: seq<Json>)
    requires AllReadable(items)
    ensures PlainItems(items) == items
  {
    if items != [] {
      assert forall i :: 0 <= i < |items[1..]| ==> items[1..][i] == items[i + 1];
      ReadableItems(items[1..]);
    }
  }

  lemma ReadableObject(fields: map<string, Json>)
    requires FieldsReadable(fields)
    ensures Readable(Obj(fields))
  {
    assert PlainMap(Obj(fields)) == fields;
  }

  lemma ScalarIsCanonical(t: string, v: Json, rest: string)
    requires t != [] && ReadScalar(t) == Some((v, rest))
    ensures Readable(v) && Put(v, rest) == t
  {
    assert t == [t[0]] + t[1..];
    match t[0]
    case '"' => StringIsCanonical(t[1..], v.s, rest);
    case 'n' => WordIsCanonical(t, "null", Null);
    case 't' => WordIsCanonical(t, "true", Bool(true));
    case 'f' => WordIsCanonical(t, "false", Bool(false));
    case _ => NumberIsCanonical(t, v, rest);
  }

  lemma {:induction false} ReadIsCanonical(t: string, v: Json, rest: string)
    requires ReadValue(t) == Some((v, rest))
    ensures Readable(v) && Put(v, rest) == t
    decreases |t|, 2
  {
    assert t == [t[0]] + t[1..];
    match t[0]
    case '[' => ArrayIsCanonical(t[1..], v, rest);
    case '{' => ObjectIsCanonical(t[1..], v, rest);
    case _ => ScalarIsCanonical(t, v, rest);
  }

  lemma {:induction false} ArrayIsCanonical(t: string, v: Json, rest: string)
    requires ReadArray(t) == Some((v, rest))
    ensures Readable(v) && Put(v, rest) == "[" + t
    decreases |t|, 4
  {
    if Starts(t, ']') {
      assert t == "]" + rest;
    } else {
      ItemsAreCanonical(t, v.items, rest);
      ReadableItems(v.items);
    }
  }

  lemma LastItem(t: string, v: Json, rest: string)
    requires Readable(v) && Put(v, "]" + rest) == t
    ensures AllReadable([v]) && PutItems([v], rest) == t
  {
  }

  lemma ItemInFront(t: string, v: Json, u: string, more: seq<Json>, rest: string)
    requires Readable(v) && Put(v, "," + u) == t && more != [] && AllReadable(more) && PutItems(more, rest) == u
    ensures AllReadable([v] + more) && PutItems([v] + more, rest) == t
  {
    assert ([v] + more)[1..] == more;
  }

  /** The first item and what follows it. */
  lemma ItemParts(t: string, items: seq<Json>, rest: string) returns (v: Json, u: string)
    requires ReadItems(t) == Some((items, rest))
    ensures ReadValue(t) == Some((v, u)) && u != []
    ensures u[0] == ']' ==> u == "]" + rest && items == [v]
    ensures u[0] != ']' ==> u == "," + u[1..] && items != [] && items == [v] + items[1..]
    ensures u[0] != ']' ==> ReadItems(u[1..]) == Some((items[1..], rest))
  {
    v, u := ReadValue(t).value.0, ReadValue(t).value.1;
    assert u == [u[0]] + u[1..];
  }

  lemma {:induction false} ItemsAreCanonical(t: string, items: seq<Json>, rest: string)
    requires ReadItems(t) == Some((items, rest))
    ensures items != [] && AllReadable(items) && PutItems(items, rest) == t
    decreases |t|, 3
  {
    var v, u := ItemParts(t, items, rest);
    ReadIsCanonical(t, v, u);
    if u[0] == ']' {
      LastItem(t, v, rest);
    } else {
      ItemsAreCanonical(u[1..], items[1..], rest);
      ItemInFront(t, v, u[1..], items[1..], rest);
    }
  }

  lemma {:induction false} ObjectIsCanonical(t: string, v: Json, rest: string)
    requires ReadObject(t) == Some((v, rest))
    ensures Readable(v) && Put(v, rest) == "{" + t
    decreases |t|, 4
  {
    if Starts(t, '}') {
      assert t == "}" + rest;
      ReadableObject(map[]);
    } else {
      var keys := FieldsAreCanonical(t, None, v.fields, rest);
      ReadableObject(v.fields);
      ListingUnique(keys, v.fields.Keys);
      assert keys[0] in v.fields;
    }
  }

  /** The fields were read in key order, and `keys` is that order. */
  ghost predicate ReadInOrder(t: string, last: Option<string>, fields: map<string, Json>, rest: string,
                              keys: seq<string>) {
    && keys != [] && IsListing(keys, fields.Keys)
    && (last.Some? ==> Less(last.value, keys[0]))
    && FieldsReadable(fields)
    && PutFields(Obj(fields), keys, rest) == t
  }

  lemma LastInOrder(t: string, last: Option<string>, key: string, v: Json, rest: string)
    requires IsKey(key) && (last.Some? ==> Less(last.value, key)) && Readable(v)
    requires t == PutQuote(key, ":" + Put(v, "}" + rest))
    ensures ReadInOrder(t, last, map[key := v], rest, [key])
  {
  }

  lemma MoreInOrder(t: string, last: Option<string>, key: string, v: Json, u: string, more: map<string, Json>,
                    rest: string, others: seq<string>)
    requires IsKey(key) && (last.Some? ==> Less(last.value, key)) && Readable(v)
    requires t == PutQuote(key, ":" + Put(v, "," + u)) && ReadInOrder(u, Some(key), more, rest, others)
    ensures ReadInOrder(t, last, more[key := v], rest, [key] + others)
  {
    FieldInFront(key, v, more, others, rest);
    OneMoreReadable(more, key, v);
  }

  lemma OneMoreReadable(fields: map<string, Json>, key: string, v: Json)
    requires FieldsReadable(fields) && IsKey(key) && Readable(v)
    ensures FieldsReadable(fields[key := v])
  {
  }

  /** The first field and what follows it. */
  lemma FieldParts(t: string, last: Option<string>, fields: map<string, Json>, rest: string)
    returns (key: string, w: string, v: Json, u: string, more: map<string, Json>)
    requires ReadFields(t, last) == Some((fields, rest))
    ensures ReadKey(t, last) == Some((key, w)) && ReadValue(w) == Some((v, u)) && u != [] && |u| < |w| < |t|
    ensures u[0] == '}' ==> u == "}" + rest && fields == map[key := v]
    ensures u[0] != '}' ==> u == "," + u[1..] && fields == more[key := v]
    ensures u[0] != '}' ==> ReadFields(u[1..], Some(key)) == Some((more, rest))
  {
    key, w := ReadKey(t, last).value.0, ReadKey(t, last).value.1;
    v, u := ReadValue(w).value.0, ReadValue(w).value.1;
    more := if u[0] == '}' then map[] else ReadFields(u[1..], Some(key)).value.0;
    assert u == [u[0]] + u[1..];
  }

  lemma {:induction false} FieldsAreCanonical(t: string, last: Option<string>, fields: map<string, Json>, rest: string)
    returns (keys: seq<string>)
    requires ReadFields(t, last) == Some((fields, rest))
    ensures ReadInOrder(t, last, fields, rest, keys)
    decreases |t|, 3
  {
    var key, w, v, u, more := FieldParts(t, last, fields, rest);
    KeyIsCanonical(t, last, key, w);
    ReadIsCanonical(w, v, u);
    if u[0] == '}' {
      keys := [key];
      LastInOrder(t, last, key, v, rest);
    } else {
      var others := FieldsAreCanonical(u[1..], Some(key), more, rest);
      keys := [key] + others;
      MoreInOrder(t, last, key, v, u[1..], more, rest, others);
    }
  }

  /** One more field before the others, its key below all of theirs. */
  lemma FieldInFront(key: string, v: Json, more: map<string, Json>, others: seq<string>, rest: string)
    requires others != [] && IsListing(others, more.Keys) && Less(key, others[0])
    ensures IsListing([key] + others, more[key := v].Keys)
    ensures PutFields(Obj(more[key := v]), [key] + others, rest)
         == PutQuote(key, ":" + Put(v, "," + PutFields(Obj(more), others, rest)))
  {
    forall i | 0 <= i < |others|
      ensures Less(key, others[i])
    {
      if i > 0 {
        LessIsTransitive(key, others[0], others[i]);
      }
    }
    LessIsStrict(key);
    assert key !in more;
    assert ([key] + others)[1..] == others;
    SameFields(Obj(more[key := v]), Obj(more), others, rest);
  }

  lemma {:induction false} SameFields(v: Json, w: Json, keys: seq<string>, rest: string)
    requires v.Obj? && w.Obj? && keys != []
    requires forall k :: k in keys ==> k in v.fields && k in w.fields && v.fields[k] == w.fields[k]
    ensures PutFields(v, keys, rest) == PutFields(w, keys, rest)
    decreases |keys|
  {
    assert keys[0] in keys;
    if |keys| > 1 {
      SameFields(v, w, keys[1..], rest);
    }
  }

  /** The reader and the printer are inverse: a text is read as a value exactly when it is that value's text. */
  lemma ReaderIsInverse(t: string, v: Json, rest: string)
    requires EndsNumber(rest)
    ensures ReadValue(t) == Some((v, rest))
       <==> Plain(v) == v && Canonicalize(v).Some? && t == Canonicalize(v).value + rest
  {
    if ReadValue(t) == Some((v, rest)) {
      ReadIsCanonical(t, v, rest);
      PutIs(v, rest);
    }
    if Readable(v) && t == Text(v) + rest {
      ValueReadsBack(v, rest);
    }
  }

  // ---- What has no canonical text ----------------------------------------------------------------------------

  /** The value itself, or an item or a field of a part of it. */
  ghost predicate IsPart(p: Json, v: Json)
    decreases v
  {
    || p == v
    || (v.Arr? && exists i :: 0 <= i < |v.items| && IsPart(p, v.items[i]))
    || (v.Obj? && exists k :: k in v.fields && IsPart(p, v.fields[k]))
  }

  /** A number that is no safe integer, a lone surrogate, or an empty or unprintable key. */
  ghost predicate Throws(p: Json) {
    match p
    case Num(NotWhole) => true
    case Num(Whole(n)) => n < -9_007_199_254_740_991 || n > 9_007_199_254_740_991
    case IllFormed => true
    case Stray(_) => true
    case Obj(fields) =>
      exists k :: k in fields && (k == "" || exists c :: c in k && (c as int < 0x20 || c as int > 0x7e))
    case _ => false
  }

  lemma {:induction false} ThrowingPart(v: Json) returns (p: Json)
    requires !Allowed(v)
    ensures IsPart(p, v) && Throws(p)
  {
    match v
    case Arr(items) =>
      var i :| 0 <= i < |items| && !Allowed(items[i]);
      p := ThrowingPart(items[i]);
    case Obj(fields) =>
      var k :| k in fields && !(IsKey(k) && Allowed(fields[k]));
      if IsKey(k) {
        p := ThrowingPart(fields[k]);
      } else {
        p := v;
      }
    case _ => p := v;
  }

  lemma {:induction false} PartIsAllowed(p: Json, v: Json)
    requires Allowed(v) && IsPart(p, v)
    ensures !Throws(p)
    decreases v
  {
    if p != v {
      if v.Arr? {
        var i :| 0 <= i < |v.items| && IsPart(p, v.items[i]);
        PartIsAllowed(p, v.items[i]);
      } else {
        var k :| k in v.fields && IsPart(p, v.fields[k]);
        PartIsAllowed(p, v.fields[k]);
      }
    }
  }

  /** A value has no canonical text exactly when a part of it has none. */
  lemma ThrowsExactly(v: Json)
    ensures Canonicalize(v).None? <==> exists p :: IsPart(p, v) && Throws(p)
  {
    if !Allowed(v) {
      var p := ThrowingPart(v);
    } else if exists p :: IsPart(p, v) && Throws(p) {
      var p :| IsPart(p, v) && Throws(p);
      PartIsAllowed(p, v);
    }
  }
}
