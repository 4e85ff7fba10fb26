/** Sealing a frame: what a sender signs and sends, and that every receiver that trusts it reads exactly that. */
module Seals {
  import opened CanonicalInverse
  import opened CanonicalJson
  import opened CanonicalReader
  import opened DepthScan
  import opened Frames
  import opened JsonInverse
  import opened JsonText
  import opened Options
  import opened Ulids
  import opened Utf8
  import opened Verdicts

  /** What a sender decides. */
  datatype Draft = Draft(
    kind: string, id: string, ts: int, from: string, to: string, re: Option<string>, body: map<string, Json>
  )

  /** Everything but the body and the signature. */
  function Header(d: Draft, kid: string): map<string, Json> {
    var m := map["v" := Num(Whole(VERSION))]["type" := Str(d.kind)]["id" := Str(d.id)]["ts" := Num(Whole(d.ts))]
             ["from" := Str(d.from)]["to" := Str(d.to)]["kid" := Str(kid)];
    if d.re.Some? then m["re" := Str(d.re.value)] else m
  }

  function EnvelopeJson(d: Draft, kid: string): map<string, Json> {
    Header(d, kid)["body" := Obj(d.body)]
  }

  /** `sign` signs a text with the sender's key and spells the signature. */
  function Seal(d: Draft, kid: string, sign: string -> string): Option<string> {
    var unsigned := EnvelopeJson(d, kid);
    match Canonicalize(Obj(unsigned))
    case None => None
    case Some(text) => Canonicalize(Obj(unsigned["sig" := Str(sign(DOMAIN + text))]))
  }

  /** The protocol's formats, which a sender keeps. */
  predicate InFormat(d: Draft) {
    && IsType(d.kind) && IsUlid(d.id) && 0 <= d.ts <= MAX_SAFE_INTEGER && IsParty(d.from) && IsParty(d.to)
    && (d.re.Some? ==> IsUlid(d.re.value))
  }

  /** The receiver holds the sender's key, and that key verifies what the sender signs. */
  ghost predicate Trusts(r: Receiver, d: Draft, kid: string, sign: string -> string) {
    && IsBase64Url(kid, 16) && kid in r.keys && r.keys[kid].owner == d.from
    && forall text :: IsSig(sign(text)) && r.verifies(r.keys[kid].publicKey, text, sign(text))
  }

  function Sealed(d: Draft, kid: string, sign: string -> string): map<string, Json> {
    var unsigned := EnvelopeJson(d, kid);
    unsigned["sig" := Str(sign(DOMAIN + Text(Obj(unsigned))))]
  }

  // ---- The fields, by name ---------------------------------------------------------------------------------

  /** Names of one length differ in a character. */
  lemma NamesDiffer()
    ensures "id" != "ts" && "id" != "to" && "id" != "re" && "ts" != "to" && "ts" != "re" && "to" != "re"
    ensures "type" != "from" && "type" != "body" && "from" != "body" && "kid" != "sig"
  {
    assert "id"[0] == 'i' && "ts"[0] == 't' && "to"[0] == 't' && "re"[0] == 'r' && "ts"[1] == 's' && "to"[1] == 'o';
    assert "type"[0] == 't' && "from"[0] == 'f' && "body"[0] == 'b' && "kid"[0] == 'k' && "sig"[0] == 's';
  }

  /** A scalar that the printer prints, and that parsing leaves as it is. */
  predicate Flat(v: Json) {
    v.Str? || (v.Num? && v.number.Whole? && -MAX_SAFE_INTEGER <= v.number.n <= MAX_SAFE_INTEGER)
  }

  predicate AllFlat(m: map<string, Json>) {
    forall k :: k in m ==> IsKey(k) && Flat(m[k])
  }

  lemma FlatIsPlain(v: Json)
    requires Flat(v)
    ensures Allowed(v) && Plain(v) == v
  {
  }

  lemma FlatAdds(m: map<string, Json>, k: string, v: Json)
    requires AllFlat(m) && IsKey(k) && Flat(v)
    ensures AllFlat(m[k := v])
  {
  }

  lemma HeaderIsFlat(d: Draft, kid: string)
    requires 0 <= d.ts <= MAX_SAFE_INTEGER
    ensures AllFlat(Header(d, kid))
  {
    var m1 := map["v" := Num(Whole(VERSION))];
    FlatAdds(map[], "v", Num(Whole(VERSION)));
    FlatAdds(m1, "type", Str(d.kind));
    var m2 := m1["type" := Str(d.kind)];
    FlatAdds(m2, "id", Str(d.id));
    var m3 := m2["id" := Str(d.id)];
    FlatAdds(m3, "ts", Num(Whole(d.ts)));
    var m4 := m3["ts" := Num(Whole(d.ts))];
    FlatAdds(m4, "from", Str(d.from));
    var m5 := m4["from" := Str(d.from)];
    FlatAdds(m5, "to", Str(d.to));
    var m6 := m5["to" := Str(d.to)];
    FlatAdds(m6, "kid", Str(kid));
    if d.re.Some? {
      FlatAdds(m6["kid" := Str(kid)], "re", Str(d.re.value));
    }
  }

  /** What a header says, by name. */
  predicate SaysHeader(m: map<string, Json>, d: Draft, kid: string) {
    && "v" in m && m["v"] == Num(Whole(VERSION)) && "type" in m && m["type"] == Str(d.kind)
    && "id" in m && m["id"] == Str(d.id) && "ts" in m && m["ts"] == Num(Whole(d.ts))
    && "from" in m && m["from"] == Str(d.from) && "to" in m && m["to"] == Str(d.to)
    && "kid" in m && m["kid"] == Str(kid) && ("re" in m <==> d.re.Some?)
    && (d.re.Some? ==> m["re"] == Str(d.re.value)) && "body" !in m && "sig" !in m
    && m.Keys <= {"v", "type", "id", "ts", "from", "to", "kid", "re"}
  }

  lemma HeaderFields(d: Draft, kid: string)
    ensures SaysHeader(Header(d, kid), d, kid)
  {
    NamesDiffer();
  }

  // ---- What is sent and what is read -----------------------------------------------------------------------

  lemma AllowedWithBody(h: map<string, Json>, body: Json)
    requires AllFlat(h)
    ensures Allowed(Obj(h["body" := body])) <==> Allowed(body)
  {
    var m := h["body" := body];
    assert m["body"] == body && IsKey("body");
    forall k | k in h && k != "body"
      ensures IsKey(k) && Allowed(m[k])
    {
      FlatIsPlain(h[k]);
    }
  }

  lemma AllowedWithSig(m: map<string, Json>, sig: string)
    requires "sig" !in m
    ensures Allowed(Obj(m["sig" := Str(sig)])) <==> Allowed(Obj(m))
  {
    var n := m["sig" := Str(sig)];
    assert IsKey("sig");
    assert forall k :: k in m ==> k in n && n[k] == m[k];
    assert forall k :: k in n ==> k == "sig" || (k in m && n[k] == m[k]);
  }

  /** A draft in format is refused only for a body that has no canonical form. */
  lemma SealSucceeds(d: Draft, kid: string, sign: string -> string)
    requires InFormat(d)
    ensures Seal(d, kid, sign).Some? <==> Allowed(Obj(d.body))
    ensures Seal(d, kid, sign).Some? ==> Seal(d, kid, sign) == Some(Text(Obj(Sealed(d, kid, sign))))
    ensures Seal(d, kid, sign).Some? ==> Allowed(Obj(Sealed(d, kid, sign)))
  {
    HeaderIsFlat(d, kid);
    HeaderFields(d, kid);
    NamesDiffer();
    AllowedWithBody(Header(d, kid), Obj(d.body));
    AllowedWithSig(EnvelopeJson(d, kid), sign(DOMAIN + Text(Obj(EnvelopeJson(d, kid)))));
  }

  lemma PlainWithBody(h: map<string, Json>, body: Json, sig: string)
    requires AllFlat(h) && "sig" !in h
    ensures Plain(Obj(h["body" := body])) == Obj(h["body" := Plain(body)])
    ensures Plain(Obj(h["body" := body]["sig" := Str(sig)])) == Obj(h["body" := Plain(body)]["sig" := Str(sig)])
  {
    forall k | k in h
      ensures Plain(h[k]) == h[k]
    {
      FlatIsPlain(h[k]);
    }
    assert PlainMap(Obj(h["body" := body])) == h["body" := Plain(body)];
    assert PlainMap(Obj(h["body" := body]["sig" := Str(sig)])) == h["body" := Plain(body)]["sig" := Str(sig)];
  }

  /** What a frame says, by name. */
  predicate SaysFrame(f: map<string, Json>, d: Draft, kid: string, sig: string) {
    && "v" in f && f["v"] == Num(Whole(VERSION)) && "type" in f && f["type"] == Str(d.kind)
    && "id" in f && f["id"] == Str(d.id) && "ts" in f && f["ts"] == Num(Whole(d.ts))
    && "from" in f && f["from"] == Str(d.from) && "to" in f && f["to"] == Str(d.to)
    && "kid" in f && f["kid"] == Str(kid) && ("re" in f ==> d.re.Some? && f["re"] == Str(d.re.value))
    && "body" in f && f["body"].Obj? && "sig" in f && f["sig"] == Str(sig) && f.Keys <= FIELDS
  }

  lemma FrameSays(h: map<string, Json>, d: Draft, kid: string, body: Json, sig: string, f: map<string, Json>)
    requires SaysHeader(h, d, kid) && body.Obj? && f == h["body" := body]["sig" := Str(sig)]
    ensures SaysFrame(f, d, kid, sig) && f - {"sig"} == h["body" := body]
  {
    NamesDiffer();
    assert forall k :: k in h ==> k in f && f[k] == h[k];
  }

  /** As the receiver parses it: the same, but for the sign of zeros in the body. */
  lemma SealedSays(d: Draft, kid: string, sign: string -> string) returns (f: map<string, Json>)
    requires InFormat(d)
    ensures Plain(Obj(Sealed(d, kid, sign))) == Obj(f) && Plain(Obj(EnvelopeJson(d, kid))) == Obj(f - {"sig"})
    ensures SaysFrame(f, d, kid, sign(DOMAIN + Text(Obj(EnvelopeJson(d, kid)))))
  {
    var h, sig := Header(d, kid), sign(DOMAIN + Text(Obj(EnvelopeJson(d, kid))));
    HeaderIsFlat(d, kid);
    HeaderFields(d, kid);
    PlainWithBody(h, Obj(d.body), sig);
    f := h["body" := Plain(Obj(d.body))]["sig" := Str(sig)];
    FrameSays(h, d, kid, Plain(Obj(d.body)), sig, f);
  }

  lemma FormatsHold(f: map<string, Json>, d: Draft, kid: string, sig: string)
    requires InFormat(d) && IsBase64Url(kid, 16) && IsSig(sig) && SaysFrame(f, d, kid, sig) && Allowed(Obj(f))
    ensures WellFormed(Obj(f)) && EnvelopeOf(Obj(f)) == Envelope(d.id, d.ts, d.from, d.to, kid, sig, f)
  {
    IsWellFormed(f, d, kid, sig);
  }

  lemma IsWellFormed(f: map<string, Json>, d: Draft, kid: string, sig: string)
    requires InFormat(d) && IsBase64Url(kid, 16) && IsSig(sig) && SaysFrame(f, d, kid, sig) && Allowed(Obj(f))
    ensures WellFormed(Obj(f))
  {
    assert SafeInteger(Some(Num(Whole(d.ts)))) == Some(d.ts);
    IsTextOf(f, "type", d.kind, IsType);
    IsTextOf(f, "id", d.id, IsUlid);
    IsTextOf(f, "from", d.from, IsParty);
    IsTextOf(f, "to", d.to, IsParty);
    IsTextOf(f, "kid", kid, s => IsBase64Url(s, 16));
    IsTextOf(f, "sig", sig, IsSig);
  }

  lemma IsTextOf(f: map<string, Json>, name: string, s: string, format: string -> bool)
    requires name in f && f[name] == Str(s) && format(s)
    ensures IsText(Field(f, name), format)
  {
  }

  /** The checks between parser and clock pass a frame, by what each of them looks at. */
  lemma ScreenPasses(raw: string, f: map<string, Json>, r: Receiver, env: Envelope)
    requires WellFormed(Obj(f)) && EnvelopeOf(Obj(f)) == env && SafeInteger(Field(f, "v")) == Some(VERSION)
    requires Text(Obj(f)) == raw && Trusted(env, r) && env.to == r.me
    requires r.verifies(r.keys[env.kid].publicKey, SigningInput(env.fields), env.sig)
    ensures Screen(raw, Some(Obj(f)), r) == Accepted(env)
  {
  }

  lemma PlainAllowed(v: Json)
    requires Allowed(v)
    ensures Allowed(Plain(v)) && Text(Plain(v)) == Text(v)
  {
    ValueReadsBack(v, "");
    ReaderIsInverse(Text(v) + "", Plain(v), "");
    PlainPrintsAlike(v);
  }

  /** The checks between parser and clock pass every sealed frame that is addressed to the receiver: it takes for the
      signed text what the sender signed. */
  lemma SealedPasses(raw: string, d: Draft, kid: string, sign: string -> string, r: Receiver)
    returns (f: map<string, Json>, env: Envelope)
    requires InFormat(d) && Seal(d, kid, sign) == Some(raw) && Trusts(r, d, kid, sign) && d.to == r.me
    ensures Plain(Obj(Sealed(d, kid, sign))) == Obj(f)
    ensures env.ts == d.ts && env.from == d.from && env.id == d.id && env.fields == f
    ensures Allowed(Obj(Sealed(d, kid, sign))) && Text(Obj(Sealed(d, kid, sign))) == raw
    ensures Screen(raw, Some(Obj(f)), r) == Accepted(env)
  {
    var signed := DOMAIN + Text(Obj(EnvelopeJson(d, kid)));
    f := SealedSays(d, kid, sign);
    env := Envelope(d.id, d.ts, d.from, d.to, kid, sign(signed), f);
    SealSucceeds(d, kid, sign);
    PlainAllowed(Obj(Sealed(d, kid, sign)));
    assert SigningInput(f) == signed by {
      PlainAllowed(Obj(EnvelopeJson(d, kid)));
    }
    FormatsHold(f, d, kid, sign(signed));
    ScreenPasses(raw, f, r, env);
  }

  /** The reference parses a canonical text back, unless it is too long or too deep. */
  lemma TextIsScreened(raw: string, v: Json, f: map<string, Json>, r: Receiver)
    requires Allowed(v) && Text(v) == raw && Plain(v) == Obj(f) && ReadsIntegers(r.num)
    ensures ReferenceScreen(raw, r) == if Utf8Length(raw) > MAX_FRAME_BYTES || Depth(v) > MAX_DEPTH
                                       then Rejected(Malformed) else Screen(raw, Some(Obj(f)), r)
  {
    ScanIsDepth(v);
    ParseUndoesCanonicalize(v, r.num);
  }

  lemma TimedEnvelope(screened: Verdict, env: Envelope, now: int, seen: set<string>)
    requires screened == Accepted(env) || screened.Rejected?
    ensures var verdict := Timed(screened, now, seen);
            && (verdict.Accepted? <==>
                  screened.Accepted? && -WINDOW_MS <= now - env.ts <= WINDOW_MS && env.from + "/" + env.id !in seen)
            && (verdict.Accepted? ==> verdict.env == env)
  {
  }

  /** Every sealed frame that fits is accepted by every receiver that trusts its sender, in the window and once, and
      the receiver reads what was sealed. Nothing else about an honest frame can make it rejected. */
  lemma SealedIsAccepted(raw: string, d: Draft, kid: string, sign: string -> string, r: Receiver, now: int,
                         seen: set<string>)
    requires InFormat(d) && Seal(d, kid, sign) == Some(raw) && Trusts(r, d, kid, sign) && d.to == r.me
    requires ReadsIntegers(r.num)
    ensures var verdict := Timed(ReferenceScreen(raw, r), now, seen);
            && (verdict.Accepted? <==>
                 && Utf8Length(raw) <= MAX_FRAME_BYTES && Depth(Obj(Sealed(d, kid, sign))) <= MAX_DEPTH
                 && -WINDOW_MS <= now - d.ts <= WINDOW_MS && (d.from + "/" + d.id) !in seen)
            && (verdict.Accepted? ==> Obj(verdict.env.fields) == Plain(Obj(Sealed(d, kid, sign))))
  {
    var f, env := SealedPasses(raw, d, kid, sign, r);
    TextIsScreened(raw, Obj(Sealed(d, kid, sign)), f, r);
    TimedEnvelope(ReferenceScreen(raw, r), env, now, seen);
  }
}
