/** A job that a trusted sender seals, all the way: journaled under its id with its expiry, started or refused. */
module SealedJobs {
  import opened CanonicalJson
  import opened DepthScan
  import opened DeviceEndpoint
  import opened DeviceFrames
  import opened DeviceJobs
  import opened FrameCodes
  import opened Frames
  import opened JobBodies
  import opened JobFrames
  import opened JsonText
  import opened Options
  import opened Seals
  import opened Utf8
  import opened Verdicts

  /** Parsing changes nothing about a field but the sign of a zero. */
  lemma PlainField(b: map<string, Json>, name: string)
    requires name in b
    ensures Plain(Obj(b)).Obj? && name in Plain(Obj(b)).fields && Plain(Obj(b)).fields[name] == Plain(b[name])
  {
  }

  lemma PlainOrigin(b: map<string, Json>)
    requires HoldsOrigin(b)
    ensures HoldsOrigin(Plain(Obj(b)).fields)
  {
    var provider, reference :|
      HoldsText(b["origin"].fields, "provider", provider) && HoldsText(b["origin"].fields, "ref", reference);
    PlainField(b, "origin");
    PlainField(b["origin"].fields, "provider");
    PlainField(b["origin"].fields, "ref");
    assert HoldsText(Plain(b["origin"]).fields, "provider", provider);
    assert HoldsText(Plain(b["origin"]).fields, "ref", reference);
  }

  /** A job's body is still that job's when it is parsed. */
  lemma PlainJobBody(b: map<string, Json>, id: string, kind: string, issued: int, expires: int)
    requires IsJobBody(b, id, kind, issued, expires)
    ensures Plain(Obj(b)).Obj? && IsJobBody(Plain(Obj(b)).fields, id, kind, issued, expires)
  {
    PlainField(b, "job_id");
    PlainField(b, "kind");
    PlainField(b, "issued_at");
    PlainField(b, "expires_at");
    PlainField(b, "attempt");
    PlainField(b, "params");
    PlainOrigin(b);
    var n :| HoldsInteger(b, "attempt", n);
    assert HoldsInteger(Plain(Obj(b)).fields, "attempt", n);
  }

  /** The sealed frame fits, is in time and is new to the agent. */
  ghost predicate InTime(s: Endpoint, raw: string, d: Draft, kid: string, sign: string -> string) {
    && Utf8Length(raw) <= 65_536 && Depth(Obj(Sealed(d, kid, sign))) <= 32
    && -300_000 <= s.device.clock - d.ts <= 300_000
    && (d.from + "/" + d.id in s.seen ==> s.device.clock - s.seen[d.from + "/" + d.id] > 600_000)
  }

  lemma SealedArrives(raw: string, d: Draft, kid: string, sign: string -> string, r: Receiver)
    returns (f: map<string, Json>)
    requires Seals.InFormat(d) && Seal(d, kid, sign) == Some(raw) && Trusts(r, d, kid, sign) && d.to == r.me
    requires ReadsIntegers(r.num) && Utf8Length(raw) <= 65_536 && Depth(Obj(Sealed(d, kid, sign))) <= 32
    ensures Arrives(raw, r, f, d.ts) && f["from"].s == d.from && f["id"].s == d.id
    ensures Obj(f) == Plain(Obj(Sealed(d, kid, sign)))
  {
    var env: Envelope;
    f, env := SealedPasses(raw, d, kid, sign, r);
    TextIsScreened(raw, Obj(Sealed(d, kid, sign)), f, r);
    ArrivedIs(raw, r);
  }

  lemma SealedBody(d: Draft, kid: string, sign: string -> string, f: map<string, Json>)
    requires Obj(f) == Plain(Obj(Sealed(d, kid, sign)))
    ensures "type" in f && f["type"] == Str(d.kind) && "body" in f && f["body"] == Plain(Obj(d.body))
  {
    var all := Sealed(d, kid, sign);
    NamesDiffer();
    HeaderFields(d, kid);
    assert all["type"] == Str(d.kind) && all["body"] == Obj(d.body);
    PlainField(all, "type");
    PlainField(all, "body");
  }

  lemma SealedIsAJob(s: Endpoint, raw: string, d: Draft, kid: string, sign: string -> string, r: Receiver, id: string,
                     kind: string, issued: int, expires: int)
    returns (f: map<string, Json>, b: map<string, Json>)
    requires Seals.InFormat(d) && Seal(d, kid, sign) == Some(raw) && Trusts(r, d, kid, sign) && d.to == r.me
    requires ReadsIntegers(r.num) && InTime(s, raw, d, kid, sign)
    requires d.kind == "job" && IsJobBody(d.body, id, kind, issued, expires)
    ensures Accepts(s, raw, r, f) && HoldsJob(f, b) && IsJobBody(b, id, kind, issued, expires)
  {
    f := SealedArrives(raw, d, kid, sign, r);
    ArrivesInTime(s, raw, r, f, d.ts, d.from + "/" + d.id);
    SealedBody(d, kid, sign, f);
    PlainJobBody(d.body, id, kind, issued, expires);
    b := Plain(Obj(d.body)).fields;
  }

  /** A job sealed by a trusted sender and received in time is journaled under its id, with its expiry, and not yet
      executed. */
  lemma SealedJobIsJournaled(s: Endpoint, raw: string, now: int, d: Draft, kid: string, sign: string -> string,
                             r: Receiver, id: string, kind: string, issued: int, expires: int)
    requires Seals.InFormat(d) && Seal(d, kid, sign) == Some(raw) && Trusts(r, d, kid, sign) && d.to == r.me
    requires ReadsIntegers(r.num) && InTime(s, raw, d, kid, sign) && IsReady(s) && id !in s.device.disk
    requires d.kind == "job" && IsJobBody(d.body, id, kind, issued, expires)
    ensures var entry := Entry(id, kind, now, Some(expires), false, None);
            var t := Next(s, Receive(raw, now, true), Screening(r)).device;
            && t.disk == s.device.disk[id := entry] && t.place == Received(Job(id, kind, issued, expires), entry)
            && t.clock == now && t.log == s.device.log
  {
    var f, b := SealedIsAJob(s, raw, d, kid, sign, r, id, kind, issued, expires);
    FrameIsJournaled(s, raw, now, r, f, b, id, kind, issued, expires);
  }

  /** It is started exactly when its kind is known, its params are right, it is not expired, and neither the pause nor
      the policy nor the hourly limit stands in the way. */
  lemma SealedJobIsStarted(s: Endpoint, raw: string, now: int, d: Draft, kid: string, sign: string -> string,
                           r: Receiver, id: string, kind: string, issued: int, expires: int, action: Option<Action>,
                           env: Surroundings, result: JobResult, finished: bool)
    requires Seals.InFormat(d) && Seal(d, kid, sign) == Some(raw) && Trusts(r, d, kid, sign) && d.to == r.me
    requires ReadsIntegers(r.num) && InTime(s, raw, d, kid, sign) && IsReady(s) && id !in s.device.disk
    requires d.kind == "job" && IsJobBody(d.body, id, kind, issued, expires) && Started(id) !in s.device.log
    ensures var t := RunFrames(s, OnFrameSteps(raw, now, true, Admit(action, env), result, finished), Screening(r));
            Started(id) in t.device.log
            <==> && action.Some? && action.value.paramsOk && now < expires
                 && !(action.value.pausable && env.paused) && env.allowed
                 && (action.value.rateLimited ==> |Recent(s.device.disk, now)| < env.jobsPerHour)
  {
    var f, b := SealedIsAJob(s, raw, d, kid, sign, r, id, kind, issued, expires);
    var reply := FrameIsAnswered(s, raw, now, r, f, b, id, kind, issued, expires, action, env, result, finished);
    var refusal := RefusalCode(action, env, now, expires, |Recent(s.device.disk, now)|);
    StartedIsLogged(s.device.log, id, refusal.None?, reply);
    NothingRefuses(action, env, now, expires, |Recent(s.device.disk, now)|);
  }

  lemma StartedIsLogged(log: seq<Event>, id: JobId, started: bool, reply: JobResult)
    requires Started(id) !in log
    ensures Started(id) in log + (if started then [Started(id)] else []) + [AckSent(id), ResultSent(id, reply)]
       <==> started
  {
  }

  lemma NothingRefuses(action: Option<Action>, env: Surroundings, now: int, expires: int, recent: nat)
    ensures RefusalCode(action, env, now, expires, recent).None?
       <==> && action.Some? && action.value.paramsOk && now < expires && !(action.value.pausable && env.paused)
            && env.allowed && (action.value.rateLimited ==> recent < env.jobsPerHour)
  {
  }
}
