/** Which code a refused frame gets: for each code exactly the frames that get it, by what is in the frame and what the
    receiver holds. */
module FrameCodes {
  import opened CanonicalJson
  import opened DepthScan
  import opened Frames
  import opened JsonText
  import opened Options
  import opened Ulids
  import opened Utf8
  import opened Verdicts

  // ---- Formats, letter by letter ---------------------------------------------------------------------------

  predicate TypeText(s: string) {
    && 1 <= |s| <= 64 && 'a' <= s[0] <= 'z'
    && forall i :: 0 <= i < |s| ==> 'a' <= s[i] <= 'z' || s[i] == '_' || s[i] == '.'
  }

  predicate PartyText(s: string) {
    s == "cloud" || (|s| == 30 && s[..4] == "dev_" && IdText(s[4..]))
  }

  predicate Base64Text(s: string, length: nat) {
    |s| == length && forall i :: 0 <= i < |s| ==>
      'A' <= s[i] <= 'Z' || 'a' <= s[i] <= 'z' || '0' <= s[i] <= '9' || s[i] == '-' || s[i] == '_'
  }

  predicate SigText(s: string) {
    Base64Text(s, 86) && (s[85] == 'A' || s[85] == 'Q' || s[85] == 'g' || s[85] == 'w')
  }

  lemma PartyTextIs(s: string)
    ensures IsParty(s) <==> PartyText(s)
  {
    if |s| >= 4 {
      IdTextIs(s[4..]);
      assert "dev_" <= s <==> s[..4] == "dev_";
    }
  }

  lemma Base64TextIs(s: string, length: nat)
    ensures IsBase64Url(s, length) <==> Base64Text(s, length)
  {
    assert forall i :: 0 <= i < |s| ==> s[i] in s;
  }

  lemma SigTextIs(s: string)
    ensures IsSig(s) <==> SigText(s)
  {
    Base64TextIs(s, 86);
  }

  lemma TypeTextIs(s: string)
    ensures IsType(s) <==> TypeText(s)
  {
  }

  // ---- What a text holds -----------------------------------------------------------------------------------

  /** Short and shallow enough, and JSON: the value. */
  ghost predicate Holds(raw: string, r: Receiver, v: Json) {
    Utf8Length(raw) <= 65_536 && ScanFrom(START, raw).deepest <= 32 && ReadJson(raw, None, r.num) == Some(v)
  }

  /** An object that names the protocol version `n`. */
  ghost predicate HoldsVersion(raw: string, r: Receiver, n: int) {
    exists v :: Holds(raw, r, v) && (v.Obj? || v.Stray?) && "v" in v.fields && IsInteger(v.fields["v"], n)
  }

  /** A field that holds a text of a format. */
  ghost predicate HasText(f: map<string, Json>, name: string, spelled: string -> bool) {
    name in f && f[name].Str? && spelled(f[name].s)
  }

  /** The closed field set of version 1, every field in its format. */
  ghost predicate InFormat(f: map<string, Json>) {
    && f.Keys <= {"v", "type", "id", "ts", "from", "to", "kid", "re", "body", "sig"}
    && "v" in f && IsInteger(f["v"], 1)
    && HasText(f, "type", TypeText) && HasText(f, "id", IdText)
    && "ts" in f && (exists ts :: 0 <= ts && IsInteger(f["ts"], ts))
    && HasText(f, "from", PartyText) && HasText(f, "to", PartyText) && HasText(f, "kid", s => Base64Text(s, 16))
    && ("re" in f ==> HasText(f, "re", IdText))
    && "body" in f && (f["body"].Obj? || f["body"].Stray?)
    && HasText(f, "sig", SigText)
  }

  /** A version 1 frame with these fields, which have a canonical text. */
  ghost predicate HoldsFrame(raw: string, r: Receiver, f: map<string, Json>) {
    Holds(raw, r, Obj(f)) && InFormat(f) && Canonicalize(Obj(f)).Some?
  }

  lemma TextIs(f: map<string, Json>, name: string, format: string -> bool, spelled: string -> bool)
    requires forall s :: format(s) == spelled(s)
    ensures IsText(Field(f, name), format) <==> HasText(f, name, spelled)
  {
  }

  lemma FormatsAre()
    ensures forall s :: IsType(s) == TypeText(s)
    ensures forall s :: IsUlid(s) == IdText(s)
    ensures forall s :: IsParty(s) == PartyText(s)
    ensures forall s :: IsBase64Url(s, 16) == Base64Text(s, 16)
    ensures forall s :: IsSig(s) == SigText(s)
  {
    forall s
      ensures IsType(s) == TypeText(s) && IsUlid(s) == IdText(s) && IsParty(s) == PartyText(s)
      ensures IsBase64Url(s, 16) == Base64Text(s, 16) && IsSig(s) == SigText(s)
    {
      TypeTextIs(s);
      IdTextIs(s);
      PartyTextIs(s);
      Base64TextIs(s, 16);
      SigTextIs(s);
    }
  }

  lemma TextsAre(f: map<string, Json>)
    ensures IsText(Field(f, "type"), IsType) <==> HasText(f, "type", TypeText)
    ensures IsText(Field(f, "id"), IsUlid) <==> HasText(f, "id", IdText)
    ensures IsText(Field(f, "from"), IsParty) <==> HasText(f, "from", PartyText)
    ensures IsText(Field(f, "to"), IsParty) <==> HasText(f, "to", PartyText)
    ensures IsText(Field(f, "kid"), s => IsBase64Url(s, 16)) <==> HasText(f, "kid", s => Base64Text(s, 16))
    ensures IsText(Field(f, "re"), IsUlid) <==> HasText(f, "re", IdText)
    ensures IsText(Field(f, "sig"), IsSig) <==> HasText(f, "sig", SigText)
  {
    FormatsAre();
    TextIs(f, "type", IsType, TypeText);
    TextIs(f, "id", IsUlid, IdText);
    TextIs(f, "from", IsParty, PartyText);
    TextIs(f, "to", IsParty, PartyText);
    TextIs(f, "kid", s => IsBase64Url(s, 16), s => Base64Text(s, 16));
    TextIs(f, "re", IsUlid, IdText);
    TextIs(f, "sig", IsSig, SigText);
  }

  lemma TimeIs(f: map<string, Json>)
    ensures SafeInteger(Field(f, "ts")).Some? && SafeInteger(Field(f, "ts")).value >= 0
       <==> "ts" in f && exists ts :: 0 <= ts && IsInteger(f["ts"], ts)
  {
    if "ts" in f {
      forall ts
        ensures SafeInteger(Some(f["ts"])) == Some(ts) <==> IsInteger(f["ts"], ts)
      {
        SafeIntegerIs(f["ts"], ts);
      }
    }
  }

  lemma InFormatIs(f: map<string, Json>)
    requires "v" in f && IsInteger(f["v"], 1)
    ensures WellFormed(Obj(f)) <==> InFormat(f) && Canonicalize(Obj(f)).Some?
  {
    TextsAre(f);
    TimeIs(f);
  }

  // ---- What the receiver makes of it -------------------------------------------------------------------------

  /** The receiver holds the frame's key, and it is the sender's. */
  ghost predicate KnowsKey(f: map<string, Json>, r: Receiver)
    requires InFormat(f)
  {
    f["kid"].s in r.keys && r.keys[f["kid"].s].owner == f["from"].s
  }

  /** The key verifies the signature over the protocol's name and the canonical text of everything else. */
  ghost predicate Verifies(f: map<string, Json>, r: Receiver)
    requires InFormat(f) && KnowsKey(f, r)
  {
    var unsigned := Canonicalize(Obj(f - {"sig"}));
    && unsigned.Some?
    && r.verifies(r.keys[f["kid"].s].publicKey, "forgeline-wire/1\n" + unsigned.value, f["sig"].s)
  }

  /** Genuine, but for whom it is addressed to. */
  ghost predicate Genuine(raw: string, r: Receiver, f: map<string, Json>) {
    HoldsFrame(raw, r, f) && Canonicalize(Obj(f)) == Some(raw) && KnowsKey(f, r) && Verifies(f, r)
  }

  lemma HeldIsScreened(raw: string, r: Receiver, v: Json)
    requires Holds(raw, r, v)
    ensures ReferenceScreen(raw, r) == Screen(raw, Some(v), r)
  {
  }

  lemma SignedIs(f: map<string, Json>)
    requires Allowed(Obj(f))
    ensures Canonicalize(Obj(f - {"sig"})).Some?
    ensures SigningInput(f) == "forgeline-wire/1\n" + Canonicalize(Obj(f - {"sig"})).value
  {
    UnsignedAllowed(f);
  }

  lemma FrameIsScreened(raw: string, r: Receiver, f: map<string, Json>)
    requires HoldsFrame(raw, r, f)
    ensures var screened := ReferenceScreen(raw, r);
            if Canonicalize(Obj(f)) != Some(raw) then screened == Rejected(NonCanonical)
            else if !KnowsKey(f, r) then screened == Rejected(UnknownKey)
            else if !Verifies(f, r) then screened == Rejected(BadSignature)
            else if f["to"].s != r.me then screened == Rejected(WrongRecipient)
            else screened.Accepted? && screened.env.fields == f && screened.env.id == f["id"].s
                 && screened.env.from == f["from"].s && IsInteger(f["ts"], screened.env.ts)
  {
    InFormatIs(f);
    SignedIs(f);
    HeldIsScreened(raw, r, Obj(f));
    SafeIntegerIs(f["v"], 1);
    SafeIntegerIs(f["ts"], EnvelopeOf(Obj(f)).ts);
  }

  lemma VersionIs(raw: string, r: Receiver, n: int)
    ensures HoldsVersion(raw, r, n)
       <==> var parsed := ReadJson(raw, None, r.num);
            && Utf8Length(raw) <= MAX_FRAME_BYTES && ScanFrom(START, raw).deepest <= MAX_DEPTH
            && parsed.Some? && IsObject(parsed.value) && SafeInteger(Field(parsed.value.fields, "v")) == Some(n)
  {
    var parsed := ReadJson(raw, None, r.num);
    if parsed.Some? && IsObject(parsed.value) && "v" in parsed.value.fields {
      SafeIntegerIs(parsed.value.fields["v"], n);
    }
  }

  lemma OtherIsScreened(raw: string, r: Receiver)
    requires forall f: map<string, Json> :: !HoldsFrame(raw, r, f)
    ensures ReferenceScreen(raw, r)
         == Rejected(if exists n :: n != 1 && HoldsVersion(raw, r, n) then UnsupportedVersion else Malformed)
  {
    var parsed := ReadJson(raw, None, r.num);
    forall n
      ensures HoldsVersion(raw, r, n)
         <==> && Utf8Length(raw) <= MAX_FRAME_BYTES && ScanFrom(START, raw).deepest <= MAX_DEPTH
              && parsed.Some? && IsObject(parsed.value) && SafeInteger(Field(parsed.value.fields, "v")) == Some(n)
    {
      VersionIs(raw, r, n);
    }
    if HoldsVersion(raw, r, 1) && parsed.value.Obj? {
      var f := parsed.value.fields;
      SafeIntegerIs(f["v"], 1);
      InFormatIs(f);
      assert !HoldsFrame(raw, r, f);
    }
  }

  lemma OneVersion(raw: string, r: Receiver, f: map<string, Json>)
    requires HoldsFrame(raw, r, f)
    ensures forall n :: HoldsVersion(raw, r, n) <==> n == 1
    ensures forall g: map<string, Json> :: HoldsFrame(raw, r, g) ==> g == f
  {
  }

  // ---- One code each -------------------------------------------------------------------------------------------

  /** No version can be read, or it is 1 and the rest is not in its format or has no canonical text. */
  lemma MalformedExactly(raw: string, r: Receiver)
    ensures ReferenceScreen(raw, r) == Rejected(Malformed)
       <==> || (forall n :: !HoldsVersion(raw, r, n))
            || (HoldsVersion(raw, r, 1) && forall f: map<string, Json> :: !HoldsFrame(raw, r, f))
  {
    if exists f: map<string, Json> :: HoldsFrame(raw, r, f) {
      var f :| HoldsFrame(raw, r, f);
      FrameIsScreened(raw, r, f);
      OneVersion(raw, r, f);
    } else {
      OtherIsScreened(raw, r);
      VersionIsOne(raw, r);
    }
  }

  lemma VersionIsOne(raw: string, r: Receiver)
    ensures forall m, n :: HoldsVersion(raw, r, m) && HoldsVersion(raw, r, n) ==> m == n
  {
  }

  lemma UnsupportedVersionExactly(raw: string, r: Receiver)
    ensures ReferenceScreen(raw, r) == Rejected(UnsupportedVersion) <==> exists n :: n != 1 && HoldsVersion(raw, r, n)
  {
    if exists f: map<string, Json> :: HoldsFrame(raw, r, f) {
      var f :| HoldsFrame(raw, r, f);
      FrameIsScreened(raw, r, f);
      OneVersion(raw, r, f);
    } else {
      OtherIsScreened(raw, r);
    }
  }

  lemma NonCanonicalExactly(raw: string, r: Receiver)
    ensures ReferenceScreen(raw, r) == Rejected(NonCanonical)
       <==> exists f: map<string, Json> :: HoldsFrame(raw, r, f) && Canonicalize(Obj(f)) != Some(raw)
  {
    if exists f: map<string, Json> :: HoldsFrame(raw, r, f) {
      var f :| HoldsFrame(raw, r, f);
      FrameIsScreened(raw, r, f);
      OneVersion(raw, r, f);
    } else {
      OtherIsScreened(raw, r);
    }
  }

  lemma UnknownKeyExactly(raw: string, r: Receiver)
    ensures ReferenceScreen(raw, r) == Rejected(UnknownKey)
       <==> exists f: map<string, Json> :: HoldsFrame(raw, r, f) && Canonicalize(Obj(f)) == Some(raw) && !KnowsKey(f, r)
  {
    if exists f: map<string, Json> :: HoldsFrame(raw, r, f) {
      var f :| HoldsFrame(raw, r, f);
      FrameIsScreened(raw, r, f);
      OneVersion(raw, r, f);
    } else {
      OtherIsScreened(raw, r);
    }
  }

  lemma BadSignatureExactly(raw: string, r: Receiver)
    ensures ReferenceScreen(raw, r) == Rejected(BadSignature)
       <==> exists f: map<string, Json> ::
              HoldsFrame(raw, r, f) && Canonicalize(Obj(f)) == Some(raw) && KnowsKey(f, r) && !Verifies(f, r)
  {
    if exists f: map<string, Json> :: HoldsFrame(raw, r, f) {
      var f :| HoldsFrame(raw, r, f);
      FrameIsScreened(raw, r, f);
      OneVersion(raw, r, f);
    } else {
      OtherIsScreened(raw, r);
    }
  }

  lemma WrongRecipientExactly(raw: string, r: Receiver)
    ensures ReferenceScreen(raw, r) == Rejected(WrongRecipient)
       <==> exists f: map<string, Json> :: Genuine(raw, r, f) && f["to"].s != r.me
  {
    if exists f: map<string, Json> :: HoldsFrame(raw, r, f) {
      var f :| HoldsFrame(raw, r, f);
      FrameIsScreened(raw, r, f);
      OneVersion(raw, r, f);
    } else {
      OtherIsScreened(raw, r);
    }
  }

  // ---- The clock and the memory --------------------------------------------------------------------------------

  /** Genuine, for this receiver, with its sender's time and name. */
  ghost predicate Arrives(raw: string, r: Receiver, f: map<string, Json>, ts: int) {
    Genuine(raw, r, f) && f["to"].s == r.me && IsInteger(f["ts"], ts)
  }

  lemma ArrivedIs(raw: string, r: Receiver)
    ensures var screened := ReferenceScreen(raw, r);
            if screened.Accepted? then
              forall f: map<string, Json>, ts ::
                Arrives(raw, r, f, ts) <==> f == screened.env.fields && ts == screened.env.ts
            else forall f: map<string, Json>, ts :: !Arrives(raw, r, f, ts)
    ensures var screened := ReferenceScreen(raw, r);
            screened.Accepted? ==>
              && "from" in screened.env.fields && screened.env.fields["from"] == Str(screened.env.from)
              && "id" in screened.env.fields && screened.env.fields["id"] == Str(screened.env.id)
  {
    if exists f: map<string, Json> :: HoldsFrame(raw, r, f) {
      var f :| HoldsFrame(raw, r, f);
      FrameIsScreened(raw, r, f);
      OneVersion(raw, r, f);
    } else {
      OtherIsScreened(raw, r);
    }
  }

  /** A genuine frame is stale exactly when its time is more than five minutes from the receiver's clock. */
  lemma StaleExactly(raw: string, r: Receiver, now: int, seen: set<string>)
    ensures Timed(ReferenceScreen(raw, r), now, seen) == Rejected(Stale)
       <==> exists f: map<string, Json>, ts :: Arrives(raw, r, f, ts) && (now - ts > 300_000 || ts - now > 300_000)
  {
    var screened := ReferenceScreen(raw, r);
    ArrivedIs(raw, r);
    NotTimed(raw, r);
    if screened.Accepted? {
      assert Arrives(raw, r, screened.env.fields, screened.env.ts);
    }
  }

  /** What arrives is what the screen lets through. */
  lemma ArrivalIs(raw: string, r: Receiver, f: map<string, Json>, ts: int)
    requires Arrives(raw, r, f, ts)
    ensures var screened := ReferenceScreen(raw, r);
            && screened.Accepted? && screened.env.fields == f && screened.env.ts == ts
            && screened.env.from == f["from"].s && screened.env.id == f["id"].s
  {
    ArrivedIs(raw, r);
  }

  lemma ScreenedArrives(raw: string, r: Receiver)
    requires ReferenceScreen(raw, r).Accepted?
    ensures var env := ReferenceScreen(raw, r).env;
            && Arrives(raw, r, env.fields, env.ts)
            && env.from == env.fields["from"].s && env.id == env.fields["id"].s
  {
    ArrivedIs(raw, r);
    var env := ReferenceScreen(raw, r).env;
    assert Arrives(raw, r, env.fields, env.ts);
  }

  lemma ReplayIsArrival(raw: string, r: Receiver, now: int, seen: set<string>)
    requires Timed(ReferenceScreen(raw, r), now, seen) == Rejected(Replay)
    ensures exists f: map<string, Json>, ts :: Arrives(raw, r, f, ts) && now - 300_000 <= ts <= now + 300_000
                                               && f["from"].s + "/" + f["id"].s in seen
  {
    NotTimed(raw, r);
    ScreenedArrives(raw, r);
  }

  lemma SeenInTime(screened: Verdict, now: int, seen: set<string>, key: string)
    requires screened.Accepted? && -300_000 <= now - screened.env.ts <= 300_000
    requires key == screened.env.from + "/" + screened.env.id && key in seen
    ensures Timed(screened, now, seen) == Rejected(Replay)
  {
  }

  lemma ArrivalIsReplay(raw: string, r: Receiver, now: int, seen: set<string>, f: map<string, Json>, ts: int)
    requires Arrives(raw, r, f, ts) && now - 300_000 <= ts <= now + 300_000 && f["from"].s + "/" + f["id"].s in seen
    ensures Timed(ReferenceScreen(raw, r), now, seen) == Rejected(Replay)
  {
    ArrivalIs(raw, r, f, ts);
    SeenInTime(ReferenceScreen(raw, r), now, seen, f["from"].s + "/" + f["id"].s);
  }

  /** One in time is a replay exactly when its sender and id were seen. */
  lemma ReplayExactly(raw: string, r: Receiver, now: int, seen: set<string>)
    ensures Timed(ReferenceScreen(raw, r), now, seen) == Rejected(Replay)
       <==> exists f: map<string, Json>, ts :: Arrives(raw, r, f, ts) && now - 300_000 <= ts <= now + 300_000
                                               && f["from"].s + "/" + f["id"].s in seen
  {
    if Timed(ReferenceScreen(raw, r), now, seen) == Rejected(Replay) {
      ReplayIsArrival(raw, r, now, seen);
    }
    if f: map<string, Json>, ts :|
      Arrives(raw, r, f, ts) && now - 300_000 <= ts <= now + 300_000 && f["from"].s + "/" + f["id"].s in seen
    {
      ArrivalIsReplay(raw, r, now, seen, f, ts);
    }
  }

  lemma AcceptedIsArrival(raw: string, r: Receiver, now: int, seen: set<string>)
    requires Timed(ReferenceScreen(raw, r), now, seen).Accepted?
    ensures exists f: map<string, Json>, ts :: Arrives(raw, r, f, ts) && now - 300_000 <= ts <= now + 300_000
                                               && f["from"].s + "/" + f["id"].s !in seen
  {
    ScreenedArrives(raw, r);
  }

  lemma ArrivalIsAccepted(raw: string, r: Receiver, now: int, seen: set<string>, f: map<string, Json>, ts: int)
    requires Arrives(raw, r, f, ts) && now - 300_000 <= ts <= now + 300_000 && f["from"].s + "/" + f["id"].s !in seen
    ensures Timed(ReferenceScreen(raw, r), now, seen).Accepted?
  {
    ArrivalIs(raw, r, f, ts);
  }

  /** And every other genuine frame in time is accepted. */
  lemma AcceptedExactly(raw: string, r: Receiver, now: int, seen: set<string>)
    ensures Timed(ReferenceScreen(raw, r), now, seen).Accepted?
       <==> exists f: map<string, Json>, ts :: Arrives(raw, r, f, ts) && now - 300_000 <= ts <= now + 300_000
                                               && f["from"].s + "/" + f["id"].s !in seen
  {
    if Timed(ReferenceScreen(raw, r), now, seen).Accepted? {
      AcceptedIsArrival(raw, r, now, seen);
    }
    if f: map<string, Json>, ts :|
      Arrives(raw, r, f, ts) && now - 300_000 <= ts <= now + 300_000 && f["from"].s + "/" + f["id"].s !in seen
    {
      ArrivalIsAccepted(raw, r, now, seen, f, ts);
    }
  }

  /** As what it says. */
  lemma AcceptedArrives(raw: string, r: Receiver, now: int, seen: set<string>)
    ensures var verdict := Timed(ReferenceScreen(raw, r), now, seen);
            verdict.Accepted? ==> Arrives(raw, r, verdict.env.fields, verdict.env.ts)
  {
    ArrivedIs(raw, r);
  }

  lemma NotTimed(raw: string, r: Receiver)
    ensures ReferenceScreen(raw, r) != Rejected(Stale) && ReferenceScreen(raw, r) != Rejected(Replay)
  {
    ScreenedCode(raw, ReadJson(raw, None, r.num), r);
  }
}
