/** The device's job path: at-least-once delivery turned into at-most-once execution by a durable journal.

    A job is handled in segments, and the device can crash between any two of them: what is on disk stays, what is in
    memory is gone, and a restart reads the journal back. A journal write is atomic: it happens whole or not at all.
    `Apply` is one segment (or a crash, a restart, a clock change); a run is any sequence of them. */
module DeviceJobs {
  import opened Options
  import opened Ulids
  import opened Utf8

  const DAY_MS := 24 * 60 * 60 * 1000
  const HOUR_MS := 60 * 60 * 1000
  const RETENTION_MS := DAY_MS

  type JobId = string

  // ---- Jobs and results ------------------------------------------------------------------------------

  datatype Status = Done | Rejected | Failed

  datatype Code =
    | Ok | Paused | NotAllowed | Unsupported | Expired | InvalidParams | RateLimited | ExecFailed | Internal

  datatype JobResult = JobResult(status: Status, code: Code, message: string)

  /** The answer to a redelivery of a job that was received and never finished. */
  const INTERRUPTED := JobResult(Failed, Internal, "outcome unknown; not run again")
  const MALFORMED := JobResult(Rejected, InvalidParams, "malformed; nothing ran")

  datatype Job = Job(id: JobId, kind: string, issuedAt: int, expiresAt: int)

  /** The fields of a job frame's body as the parser finds them; `rest` says that attempt, origin and params have the
      right shape. */
  datatype Body = Body(jobId: Option<string>, kind: Option<string>, issuedAt: Option<int>, expiresAt: Option<int>,
                       rest: bool)

  datatype Parsed = Valid(job: Job) | Invalid(id: JobId) | Unanswerable

  function FromBody(body: Body): Parsed {
    if body.jobId.None? || !IsUlid(body.jobId.value) then Unanswerable
    else if body.kind.None? || body.kind.value == "" || Utf8Length(body.kind.value) > 64 then Invalid(body.jobId.value)
    else if body.issuedAt.None? || body.expiresAt.None? then Invalid(body.jobId.value)
    else if body.expiresAt.value - body.issuedAt.value > RETENTION_MS then Invalid(body.jobId.value)
    else if !body.rest then Invalid(body.jobId.value)
    else Valid(Job(body.jobId.value, body.kind.value, body.issuedAt.value, body.expiresAt.value))
  }

  // ---- The gates in front of an executor -------------------------------------------------------------

  /** What an action declares about itself, and what the device finds when the job arrives. */
  datatype Action = Action(paramsOk: bool, pausable: bool, rateLimited: bool)
  datatype Surroundings = Surroundings(paused: bool, allowed: bool, jobsPerHour: nat)

  /** `None` lets the job through. An unknown kind has no action. */
  function Gate(action: Option<Action>, env: Surroundings, now: int, expiresAt: int, recent: nat): Option<JobResult> {
    if action.None? then Some(JobResult(Rejected, Unsupported, "not implemented"))
    else if !action.value.paramsOk then Some(JobResult(Rejected, InvalidParams, "bad params"))
    else if now >= expiresAt then Some(JobResult(Rejected, Expired, "too late"))
    else if action.value.pausable && env.paused then Some(JobResult(Rejected, Paused, "paused"))
    else if !env.allowed then Some(JobResult(Rejected, NotAllowed, "policy"))
    else if action.value.rateLimited && recent >= env.jobsPerHour then Some(JobResult(Rejected, RateLimited, "limit"))
    else None
  }

  // ---- The journal -----------------------------------------------------------------------------------

  datatype Entry = Entry(jobId: JobId, kind: string, receivedAt: int, expiresAt: Option<int>, executed: bool,
                         result: Option<JobResult>)

  /** Older than 24 hours and past its job's expiry. */
  predicate Forgettable(e: Entry, now: int) {
    now - e.receivedAt > RETENTION_MS && (e.expiresAt.None? || now >= e.expiresAt.value)
  }

  const PAUSE_KIND := "device.pause"

  /** The jobs that count towards the hourly limit. */
  function Executed(entries: map<JobId, Entry>, since: int): set<JobId> {
    set id | id in entries && entries[id].executed && entries[id].receivedAt >= since && entries[id].kind != PAUSE_KIND
  }

  function ExecutedSince(entries: map<JobId, Entry>, since: int): nat {
    |Executed(entries, since)|
  }

  // ---- The device as a state machine -----------------------------------------------------------------

  /** Where the handling of the current job frame stands. */
  datatype Place =
    | Idle
    | Received(job: Job, entry: Entry)         // journaled, not yet through the gates
    | Executing(entry: Entry)                  // the executor is running
    | Ran(entry: Entry, result: JobResult)     // has a result, not yet recorded
    | Answering(id: JobId, result: JobResult)  // about to hand back ack and result

  /** What the outside world sees, in order; `Forgotten` marks the deletion of a journal entry. */
  datatype Event =
    | Started(id: JobId)
    | AckSent(id: JobId)
    | ResultSent(id: JobId, result: JobResult)
    | Forgotten(id: JobId)

  /** `entries` is the journal in memory; there is none while the device is down. */
  datatype Device = Device(disk: map<JobId, Entry>, entries: Option<map<JobId, Entry>>, place: Place, clock: int,
                           log: seq<Event>)

  datatype Step =
    | Deliver(body: Body, written: bool)
    | Admit(action: Option<Action>, env: Surroundings)
    | Complete(result: JobResult)
    | Finish(written: bool)
    | Answer
    | Forget(id: JobId)
    | Clock(now: int)
    | Crash
    | Restart

  function Recorded(d: Device, entry: Entry): Device
    requires d.entries.Some?
  {
    d.(disk := d.disk[entry.jobId := entry], entries := Some(d.entries.value[entry.jobId := entry]))
  }

  function NewEntry(id: JobId, kind: string, now: int, expiresAt: Option<int>): Entry {
    Entry(id, kind, now, expiresAt, false, None)
  }

  /** The first record of a job; it remembers an expiry when the job is valid. */
  function EntryFor(body: Body, now: int): Entry
    requires !FromBody(body).Unanswerable?
  {
    match FromBody(body)
    case Valid(job) => NewEntry(job.id, job.kind, now, Some(job.expiresAt))
    case Invalid(id) => NewEntry(id, if body.kind.Some? then body.kind.value else "unknown", now, None)
  }

  /** `on_job` up to the gates. */
  function Delivered(d: Device, body: Body, written: bool): Device
    requires d.entries.Some?
  {
    match FromBody(body)
    case Unanswerable => d
    case Valid(job) =>
      if job.id in d.entries.value then Duplicate(d, job.id, written)
      else
        var entry := EntryFor(body, d.clock);
        if written then Recorded(d, entry).(place := Received(job, entry)) else d
    case Invalid(id) =>
      if id in d.entries.value then Duplicate(d, id, written)
      else
        var entry := EntryFor(body, d.clock);
        if written then Recorded(d, entry).(place := Ran(entry, MALFORMED)) else d
  }

  /** Acknowledge again and answer again; an unfinished job is answered "interrupted", never run. */
  function Duplicate(d: Device, id: JobId, written: bool): Device
    requires d.entries.Some? && id in d.entries.value
  {
    var entry := d.entries.value[id];
    if entry.result.Some? then d.(place := Answering(id, entry.result.value))
    else (if written then Recorded(d, entry.(result := Some(INTERRUPTED))) else d).(place := Answering(id, INTERRUPTED))
  }

  function Admitted(d: Device, action: Option<Action>, env: Surroundings): Device
    requires d.entries.Some? && d.place.Received?
  {
    var job, entry := d.place.job, d.place.entry;
    var now := entry.receivedAt;
    match Gate(action, env, now, job.expiresAt, ExecutedSince(d.entries.value, now - HOUR_MS))
    case Some(refusal) => d.(place := Ran(entry, refusal))
    case None => d.(place := Executing(entry), log := d.log + [Started(job.id)])
  }

  function Finished(d: Device, written: bool): Device
    requires d.entries.Some? && d.place.Ran?
  {
    var entry, result := d.place.entry, d.place.result;
    (if written then Recorded(d, entry.(result := Some(result))) else d).(place := Answering(entry.jobId, result))
  }

  function Forgets(d: Device, id: JobId): Device
    requires d.entries.Some?
  {
    d.(disk := d.disk - {id}, entries := Some(d.entries.value - {id}), log := d.log + [Forgotten(id)])
  }

  function Answered(d: Device): Device
    requires d.place.Answering?
  {
    d.(place := Idle, log := d.log + [AckSent(d.place.id), ResultSent(d.place.id, d.place.result)])
  }

  /** One step. A step that is not possible changes nothing. */
  function Apply(d: Device, step: Step): Device {
    match step
    case Clock(now) => d.(clock := now)
    case Crash => d.(entries := None, place := Idle)
    case Restart => if d.entries.None? then d.(entries := Some(d.disk)) else d
    case Deliver(body, written) => if d.entries.Some? && d.place.Idle? then Delivered(d, body, written) else d
    case Admit(action, env) => if d.entries.Some? && d.place.Received? then Admitted(d, action, env) else d
    case Complete(result) =>
      if d.entries.Some? && d.place.Executing? then d.(place := Ran(d.place.entry.(executed := true), result)) else d
    case Finish(written) => if d.entries.Some? && d.place.Ran? then Finished(d, written) else d
    case Answer => if d.entries.Some? && d.place.Answering? then Answered(d) else d
    case Forget(id) =>
      if d.entries.Some? && d.place.Idle? && id in d.entries.value && Forgettable(d.entries.value[id], d.clock)
      then Forgets(d, id) else d
  }

  function Run(d: Device, steps: seq<Step>): Device
    decreases |steps|
  {
    if steps == [] then d else Run(Apply(d, steps[0]), steps[1..])
  }

  /** A new device, before its first start. */
  function Fresh(clock: int): Device {
    Device(map[], None, Idle, clock, [])
  }

  /** Memory, when there is one, is what is on disk. */
  ghost predicate DiskOk(d: Device) {
    && (d.entries.Some? ==> d.entries.value == d.disk)
    && (d.entries.None? ==> d.place.Idle?)
    && (forall id :: id in d.disk ==> d.disk[id].jobId == id)
  }

  /** The segments of `on_job` in order. A branch that does not reach a segment skips it. */
  function OnJobSteps(body: Body, written: bool, admit: Step, result: JobResult, finished: bool): seq<Step> {
    [Deliver(body, written), admit, Complete(result), Finish(finished), Answer]
  }

  lemma {:induction false} RunAppend(d: Device, front: seq<Step>, back: seq<Step>)
    ensures Run(d, front + back) == Run(Run(d, front), back)
    decreases |front|
  {
    if front == [] {
      assert front + back == back;
    } else {
      assert (front + back)[1..] == front[1..] + back;
      RunAppend(Apply(d, front[0]), front[1..], back);
    }
  }

  lemma RunFive(d: Device, a: Step, b: Step, c: Step, e: Step, f: Step)
    ensures Run(d, [a, b, c, e, f]) == Apply(Apply(Apply(Apply(Apply(d, a), b), c), e), f)
  {
    RunCons(d, a, [b, c, e, f]);
    RunCons(Apply(d, a), b, [c, e, f]);
    RunCons(Apply(Apply(d, a), b), c, [e, f]);
    RunCons(Apply(Apply(Apply(d, a), b), c), e, [f]);
    RunCons(Apply(Apply(Apply(Apply(d, a), b), c), e), f, []);
    assert [a, b, c, e, f] == [a] + [b, c, e, f] && [b, c, e, f] == [b] + [c, e, f];
    assert [c, e, f] == [c] + [e, f] && [e, f] == [e] + [f] && [f] == [f] + [];
  }

  lemma RunCons(d: Device, a: Step, rest: seq<Step>)
    ensures Run(d, [a] + rest) == Run(Apply(d, a), rest)
  {
    assert ([a] + rest)[1..] == rest;
  }
}
