/** What a job frame's body has to hold, field by field, and what becomes of the job. */
module JobBodies {
  import opened CanonicalJson
  import opened DeviceFrames
  import opened DeviceHandling
  import opened DeviceJobs
  import opened Options
  import opened Ulids
  import opened Utf8

  // ---- The fields ------------------------------------------------------------------------------------------

  predicate HoldsText(b: map<string, Json>, name: string, s: string) {
    name in b && b[name] == Str(s)
  }

  predicate HoldsInteger(b: map<string, Json>, name: string, n: int) {
    name in b && IsInteger(b[name], n)
  }

  ghost predicate HoldsOrigin(b: map<string, Json>) {
    && "origin" in b && b["origin"].Obj?
    && exists provider, reference ::
         HoldsText(b["origin"].fields, "provider", provider) && HoldsText(b["origin"].fields, "ref", reference)
  }

  /** The body is that of a job: every field there, of its type, and at most 24 hours between the two times. */
  ghost predicate IsJobBody(b: map<string, Json>, id: string, kind: string, issued: int, expires: int) {
    && HoldsText(b, "job_id", id) && IdText(id)
    && HoldsText(b, "kind", kind) && 1 <= Utf8Length(kind) <= 64
    && HoldsInteger(b, "issued_at", issued) && HoldsInteger(b, "expires_at", expires)
    && expires - issued <= 24 * 60 * 60 * 1000
    && (exists n :: HoldsInteger(b, "attempt", n)) && HoldsOrigin(b)
    && "params" in b && b["params"].Obj?
  }

  lemma TextInIs(b: map<string, Json>, name: string, s: string)
    ensures TextIn(b, name) == Some(s) <==> HoldsText(b, name, s)
  {
  }

  lemma TextInIsSome(b: map<string, Json>, name: string)
    ensures TextIn(b, name).Some? <==> exists s :: HoldsText(b, name, s)
  {
    if TextIn(b, name).Some? {
      TextInIs(b, name, TextIn(b, name).value);
    }
  }

  lemma IntegerIs(b: map<string, Json>, name: string, n: int)
    ensures SafeInteger(Field(b, name)) == Some(n) <==> HoldsInteger(b, name, n)
  {
    if name in b {
      SafeIntegerIs(b[name], n);
    }
  }

  lemma IntegerIsSome(b: map<string, Json>, name: string)
    ensures SafeInteger(Field(b, name)).Some? <==> exists n :: HoldsInteger(b, name, n)
  {
    var found := SafeInteger(Field(b, name));
    if found.Some? {
      IntegerIs(b, name, found.value);
    } else if exists n :: HoldsInteger(b, name, n) {
      var n :| HoldsInteger(b, name, n);
      IntegerIs(b, name, n);
    }
  }

  lemma OriginIs(b: map<string, Json>)
    ensures HasOrigin(b) <==> HoldsOrigin(b)
  {
    if "origin" in b && b["origin"].Obj? {
      TextInIsSome(b["origin"].fields, "provider");
      TextInIsSome(b["origin"].fields, "ref");
    }
  }

  lemma {:induction false} EmptyKind(kind: string)
    ensures Utf8Length(kind) >= 1 <==> kind != ""
  {
  }

  /** The parser takes a body for a job exactly when it is one, and takes from it what it says. */
  lemma ParsedExactly(b: map<string, Json>, id: string, kind: string, issued: int, expires: int)
    ensures FromBody(BodyOf(b)) == Valid(Job(id, kind, issued, expires)) <==> IsJobBody(b, id, kind, issued, expires)
  {
    TextInIs(b, "job_id", id);
    TextInIs(b, "kind", kind);
    IntegerIs(b, "issued_at", issued);
    IntegerIs(b, "expires_at", expires);
    IntegerIsSome(b, "attempt");
    OriginIs(b);
    IdTextIs(id);
    EmptyKind(kind);
  }

  lemma InvalidExactly(b: map<string, Json>, id: string)
    ensures FromBody(BodyOf(b)) == Invalid(id)
       <==> && HoldsText(b, "job_id", id) && IdText(id)
            && forall kind, issued, expires :: !IsJobBody(b, id, kind, issued, expires)
  {
    TextInIs(b, "job_id", id);
    IdTextIs(id);
    var parsed := FromBody(BodyOf(b));
    if parsed.Valid? {
      ParsedExactly(b, parsed.job.id, parsed.job.kind, parsed.job.issuedAt, parsed.job.expiresAt);
    } else {
      forall kind, issued, expires
        ensures !IsJobBody(b, id, kind, issued, expires)
      {
        ParsedExactly(b, id, kind, issued, expires);
      }
    }
  }

  lemma UnanswerableExactly(b: map<string, Json>)
    ensures FromBody(BodyOf(b)).Unanswerable? <==> forall id :: !(HoldsText(b, "job_id", id) && IdText(id))
  {
    var found := TextIn(b, "job_id");
    if found.Some? {
      IdTextIs(found.value);
    }
    forall id
      ensures TextIn(b, "job_id") == Some(id) <==> HoldsText(b, "job_id", id)
    {
      TextInIs(b, "job_id", id);
    }
  }

  // ---- The gates ---------------------------------------------------------------------------------------------

  /** The jobs that were executed within the last hour, but for pausing. */
  function Recent(disk: map<JobId, Entry>, now: int): set<JobId> {
    set x | x in disk && disk[x].executed && disk[x].receivedAt >= now - 3_600_000 && disk[x].kind != "device.pause"
  }

  /** The first gate that refuses, by its code: unknown kind, bad params, too late, paused, not allowed, or too many in
      this hour. */
  function RefusalCode(action: Option<Action>, env: Surroundings, now: int, expires: int, recent: nat): Option<Code> {
    if action.None? then Some(Unsupported)
    else if !action.value.paramsOk then Some(InvalidParams)
    else if expires <= now then Some(Expired)
    else if action.value.pausable && env.paused then Some(Paused)
    else if !env.allowed then Some(NotAllowed)
    else if action.value.rateLimited && env.jobsPerHour <= recent then Some(RateLimited)
    else None
  }

  lemma GateRefuses(action: Option<Action>, env: Surroundings, now: int, expires: int, recent: nat)
    ensures var gate := Gate(action, env, now, expires, recent);
            var code := RefusalCode(action, env, now, expires, recent);
            && (gate.Some? <==> code.Some?)
            && (gate.Some? ==> gate.value.status == Rejected && gate.value.code == code.value)
  {
  }

  lemma RecentIs(disk: map<JobId, Entry>, id: JobId, kind: string, now: int, expires: int)
    requires id !in disk
    ensures ExecutedSince(disk[id := NewEntry(id, kind, now, Some(expires))], now - HOUR_MS) == |Recent(disk, now)|
  {
    assert Executed(disk[id := NewEntry(id, kind, now, Some(expires))], now - HOUR_MS) == Recent(disk, now);
  }

  // ---- What becomes of a job -----------------------------------------------------------------------------------

  /** The device is up, idle, and its memory is what is on disk. */
  ghost predicate Ready(d: Device) {
    d.entries == Some(d.disk) && d.place.Idle? && forall id :: id in d.disk ==> d.disk[id].jobId == id
  }

  /** A new job is journaled with the times its frame names. */
  lemma JobIsJournaled(d: Device, b: map<string, Json>, id: string, kind: string, issued: int, expires: int)
    requires Ready(d) && IsJobBody(b, id, kind, issued, expires) && id !in d.disk
    ensures var entry := Entry(id, kind, d.clock, Some(expires), false, None);
            Apply(d, Deliver(BodyOf(b), true))
            == Device(d.disk[id := entry], Some(d.disk[id := entry]), Received(Job(id, kind, issued, expires), entry),
                      d.clock, d.log)
  {
    ParsedExactly(b, id, kind, issued, expires);
  }

  /** It is started exactly when no gate refuses it, recorded, acknowledged and answered: with what the executor
      returned, or with the code of the gate. */
  lemma JobIsAnswered(d: Device, b: map<string, Json>, id: string, kind: string, issued: int, expires: int,
                      action: Option<Action>, env: Surroundings, result: JobResult, finished: bool)
    returns (reply: JobResult)
    requires Ready(d) && IsJobBody(b, id, kind, issued, expires) && id !in d.disk
    ensures var refusal := RefusalCode(action, env, d.clock, expires, |Recent(d.disk, d.clock)|);
            var t := Run(d, OnJobSteps(BodyOf(b), true, Admit(action, env), result, finished));
            var entry := Entry(id, kind, d.clock, Some(expires), refusal.None? && finished,
                               if finished then Some(reply) else None);
            && (if refusal.None? then reply == result else reply.status == Rejected && reply.code == refusal.value)
            && t.log == d.log + (if refusal.None? then [Started(id)] else []) + [AckSent(id), ResultSent(id, reply)]
            && t.disk == d.disk[id := entry] && t.entries == Some(t.disk) && t.place.Idle? && t.clock == d.clock
  {
    ParsedExactly(b, id, kind, issued, expires);
    ValidHandled(d, BodyOf(b), action, env, result, finished);
    RecentIs(d.disk, id, kind, d.clock, expires);
    GateRefuses(action, env, d.clock, expires, |Recent(d.disk, d.clock)|);
    var gate := GateFor(d, Job(id, kind, issued, expires), action, env);
    reply := if gate.Some? then gate.value else result;
  }

  /** A body that names a job and is otherwise broken: journaled without an expiry, acknowledged, rejected for its
      parameters, and not started. */
  lemma BrokenIsAnswered(d: Device, b: map<string, Json>, id: string, admit: Step, result: JobResult, finished: bool)
    returns (reply: JobResult)
    requires Ready(d) && admit.Admit? && id !in d.disk
    requires HoldsText(b, "job_id", id) && IdText(id)
    requires forall kind, issued, expires :: !IsJobBody(b, id, kind, issued, expires)
    ensures var t := Run(d, OnJobSteps(BodyOf(b), true, admit, result, finished));
            && reply.status == Rejected && reply.code == InvalidParams
            && t.log == d.log + [AckSent(id), ResultSent(id, reply)]
            && t.disk.Keys == d.disk.Keys + {id} && (forall x :: x in d.disk ==> t.disk[x] == d.disk[x])
            && t.disk[id].expiresAt == None && !t.disk[id].executed && t.disk[id].receivedAt == d.clock
            && t.disk[id].result == (if finished then Some(reply) else None)
            && (forall kind :: HoldsText(b, "kind", kind) ==> t.disk[id].kind == kind)
            && ((forall kind :: !HoldsText(b, "kind", kind)) ==> t.disk[id].kind == "unknown")
  {
    TextInIsSome(b, "kind");
    InvalidExactly(b, id);
    InvalidHandled(d, BodyOf(b), admit, result, finished);
    reply := MALFORMED;
  }

  /** A body that names no job is ignored. */
  lemma NamelessIsIgnored(d: Device, b: map<string, Json>, written: bool, admit: Step, result: JobResult,
                          finished: bool)
    requires Ready(d) && admit.Admit? && forall id :: !(HoldsText(b, "job_id", id) && IdText(id))
    ensures Run(d, OnJobSteps(BodyOf(b), written, admit, result, finished)) == d
  {
    UnanswerableExactly(b);
    UnansweredIgnored(d, BodyOf(b), written, admit, result, finished);
  }

  /** A job that is known is answered as before; one that never finished is answered as failed, and stays so. */
  lemma KnownIsAnswered(d: Device, b: map<string, Json>, id: string, written: bool, admit: Step, result: JobResult,
                        finished: bool)
    returns (reply: JobResult)
    requires Ready(d) && admit.Admit? && id in d.disk && HoldsText(b, "job_id", id) && IdText(id)
    ensures var t := Run(d, OnJobSteps(BodyOf(b), written, admit, result, finished));
            && (if d.disk[id].result.Some? then reply == d.disk[id].result.value
                else reply.status == Failed && reply.code == Internal)
            && t.log == d.log + [AckSent(id), ResultSent(id, reply)]
            && t.disk == if written then d.disk[id := d.disk[id].(result := Some(reply))] else d.disk
  {
    UnanswerableExactly(b);
    TextInIs(b, "job_id", id);
    RedeliveryAnswers(d, BodyOf(b), written, admit, result, finished);
    reply := if d.disk[id].result.Some? then d.disk[id].result.value else INTERRUPTED;
    assert d.disk[id].result.Some? ==> d.disk[id := d.disk[id].(result := Some(reply))] == d.disk;
  }
}
