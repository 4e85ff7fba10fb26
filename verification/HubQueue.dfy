/** The cloud's job queue: one Durable Object (the Hub) with its own queue table and alarm, and the D1 database it
    shares with the rest of the cloud.

    A call of `enqueue` or `alarm` is cut at every `await`. Between two awaits it runs alone, so each such segment is
    one step; at an await anything else may run. A D1 request reaches the database at a moment of its own, and either
    commits as a whole or changes nothing. `Apply` is one step of the system, and a run is any sequence of steps. */
module HubQueue {
  import opened Options

  const MAX_PENDING_JOBS: nat := 100
  const MAX_TTL_MS := 24 * 60 * 60 * 1000

  type JobId = string
  type CallId = nat

  // ---- Data ------------------------------------------------------------------------------------------

  /** Everything about a job but its body. */
  datatype Meta = Meta(ownerId: string, kind: string, origin: string, issuedAt: int, expiresAt: int)

  datatype Job = Job(id: JobId, meta: Meta, params: string)

  /** What the caller handed to `enqueue`. `shapeOk` says that every field has the right type, length and alphabet
      and that the canonical job fits in one frame; the clock checks are made on `job` itself. */
  datatype Request = Request(ref: Option<JobId>, shapeOk: bool, job: Job)

  /** A row of the Hub's queue table. */
  datatype Row = Row(job: Job, paramsSha256: string, attempts: nat)

  datatype Status = Queued | Expired

  /** A row of D1's jobs table: the job's metadata and a hash of its params, never the params. */
  datatype JobRecord = JobRecord(meta: Meta, paramsSha256: string, attempts: nat, status: Status, updatedAt: int)

  datatype RefusalCode = JobsDisabled | InvalidJob | QueueFull | Internal

  datatype AuditRow =
    | JobEnqueued(id: JobId, at: int)
    | JobRefused(ref: Option<JobId>, code: RefusalCode)
    | JobExpired(id: JobId, attempts: nat, at: int)

  datatype Reply =
    | Accepted(id: JobId, duplicate: bool)
    | Refused(ref: Option<JobId>, code: RefusalCode)

  /** The Hub's storage: it survives a crash of the object. */
  datatype Hub = Hub(queue: map<JobId, Row>, alarm: Option<int>)

  datatype Database = Database(jobs: map<JobId, JobRecord>, audit: multiset<AuditRow>)

  /** Where a call in flight is waiting. */
  datatype Pc =
    // enqueue
    | Started(req: Request, now: int)                // reading the kill switch
    | Hashing(job: Job, now: int)                    // hashing the params
    | Reading(row: Row, now: int)                    // SELECT sent to D1, not yet executed
    | Known(row: Row, now: int, known: bool)         // SELECT answered, enqueue not yet resumed
    | Recording(row: Row, now: int)                  // Hub row inserted, D1 batch sent
    | Recorded(row: Row)                             // the batch committed, enqueue not yet resumed
    | Unrecorded(row: Row)                           // the batch failed, enqueue not yet resumed
    | Settled(row: Row)                              // alarm armed, about to return
    | Refusing(ref: Option<JobId>, code: RefusalCode)  // the refusal's audit row sent to D1
    | RefusalAudited(ref: Option<JobId>, code: RefusalCode)
    // alarm
    | Expiring(at: int, now: int, due: map<JobId, Row>)  // batch sent to D1
    | Marked(at: int, due: map<JobId, Row>)
    | Unmarked(at: int, due: map<JobId, Row>)

  /** `alive` is false once the object that made the call has crashed: its D1 request may still execute, but nothing
      waits for the answer any more. */
  datatype Call = Call(pc: Pc, alive: bool)

  datatype System = System(hub: Hub, d1: Database, calls: map<CallId, Call>, replies: seq<Reply>)

  // ---- The Hub's segments ----------------------------------------------------------------------------

  function CheckJob(req: Request, now: int): Option<Job> {
    var job := req.job;
    if !req.shapeOk then None
    else if job.meta.issuedAt < 0 || job.meta.expiresAt < 0 then None
    else if job.meta.expiresAt <= job.meta.issuedAt then None
    else if job.meta.expiresAt - job.meta.issuedAt > MAX_TTL_MS then None
    else if job.meta.expiresAt <= now then None
    else Some(job)
  }

  /** `alarm` is the earliest expiry in `queue`, or nothing when the queue is empty. */
  ghost predicate IsEarliest(queue: map<JobId, Row>, alarm: Option<int>) {
    match alarm
    case None => queue == map[]
    case Some(t) =>
      && (exists id :: id in queue && queue[id].job.meta.expiresAt == t)
      && (forall id :: id in queue ==> t <= queue[id].job.meta.expiresAt)
  }

  lemma EarliestExists(queue: map<JobId, Row>)
    ensures exists alarm :: IsEarliest(queue, alarm)
    decreases |queue|
  {
    if queue == map[] {
      assert IsEarliest(queue, None);
    } else {
      var id :| id in queue;
      var rest := queue - {id};
      assert rest.Keys == queue.Keys - {id};
      EarliestExists(rest);
      var sub :| IsEarliest(rest, sub);
      var t := queue[id].job.meta.expiresAt;
      if sub.None? || t <= sub.value {
        assert forall k :: k in queue ==> k == id || k in rest;
        assert IsEarliest(queue, Some(t));
      } else {
        assert forall k :: k in queue ==> k == id || k in rest;
        assert IsEarliest(queue, sub);
      }
    }
  }

  ghost function Earliest(queue: map<JobId, Row>): (alarm: Option<int>)
    ensures IsEarliest(queue, alarm)
  {
    EarliestExists(queue);
    var alarm :| IsEarliest(queue, alarm);
    alarm
  }

  ghost function Armed(h: Hub): Hub {
    h.(alarm := Earliest(h.queue))
  }

  /** What a call does when it resumes: wait again, return to its caller, or end without a reply. */
  datatype Outcome = Wait(pc: Pc) | Return(reply: Reply) | End

  /** What the awaited operation hands back to the call. */
  datatype Answer = Answer(enabled: bool, hash: string)

  /** The check for a duplicate, the bound and the insert are one segment: nothing else runs between them. */
  function AfterKnown(h: Hub, row: Row, now: int, known: bool): (Hub, Outcome) {
    var id := row.job.id;
    if known || id in h.queue then (h, Return(Accepted(id, true)))
    else if |h.queue| >= MAX_PENDING_JOBS then (h, Wait(Refusing(Some(id), QueueFull)))
    else (h.(queue := h.queue[id := row]), Wait(Recording(row, now)))
  }

  function TakeBack(h: Hub, id: JobId): Hub {
    h.(queue := h.queue - {id})
  }

  ghost function Forget(h: Hub, due: map<JobId, Row>): Hub {
    Armed(h.(queue := h.queue - due.Keys))
  }

  /** The runtime keeps a failed alarm pending: it stays due no later than the time it was set for. */
  function Rearm(h: Hub, at: int): Hub {
    h.(alarm := Some(if h.alarm.Some? && h.alarm.value <= at then h.alarm.value else at))
  }

  predicate WaitsForHub(pc: Pc) {
    pc.Started? || pc.Hashing? || pc.Known? || pc.Recorded? || pc.Unrecorded? || pc.Settled? || pc.RefusalAudited?
    || pc.Marked? || pc.Unmarked?
  }

  ghost function Resumed(h: Hub, pc: Pc, answer: Answer): (Hub, Outcome)
    requires WaitsForHub(pc)
  {
    match pc
    case Started(req, now) =>
      if !answer.enabled then (h, Wait(Refusing(req.ref, JobsDisabled)))
      else (match CheckJob(req, now)
            case None => (h, Wait(Refusing(req.ref, InvalidJob)))
            case Some(job) => (h, Wait(Hashing(job, now))))
    case Hashing(job, now) => (h, Wait(Reading(Row(job, answer.hash, 0), now)))
    case Known(row, now, known) => AfterKnown(h, row, now, known)
    case Unrecorded(row) => (TakeBack(h, row.job.id), Return(Refused(Some(row.job.id), Internal)))
    case Recorded(row) => (Armed(h), Wait(Settled(row)))
    case Settled(row) => (h, Return(Accepted(row.job.id, false)))
    case RefusalAudited(ref, code) => (h, Return(Refused(ref, code)))
    case Marked(_, due) => (Forget(h, due), End)
    case Unmarked(at, _) => (Rearm(h, at), End)
  }

  function Due(queue: map<JobId, Row>, now: int): map<JobId, Row> {
    map id | id in queue && queue[id].job.meta.expiresAt <= now :: queue[id]
  }

  /** The first segment of `alarm`: the runtime has cleared the alarm it is delivering. */
  ghost function Fired(h: Hub, at: int, now: int): (Hub, Outcome) {
    var due := Due(h.queue, now);
    if due == map[] then (Armed(h.(alarm := None)), End)
    else (h.(alarm := None), Wait(Expiring(at, now, due)))
  }

  // ---- D1 --------------------------------------------------------------------------------------------

  function RecordOf(row: Row, status: Status, now: int): JobRecord {
    JobRecord(row.job.meta, row.paramsSha256, row.attempts, status, now)
  }

  /** The enqueue batch: a plain INSERT of the job and its audit row. A row with that id makes it fail. */
  function Enqueued(d1: Database, row: Row, now: int): Option<Database> {
    if row.job.id in d1.jobs then None
    else Some(Database(d1.jobs[row.job.id := RecordOf(row, Queued, now)],
                       d1.audit + multiset{JobEnqueued(row.job.id, now)}))
  }

  /** One upsert of the expiry batch: a conflict overwrites status, attempts and updated_at only. */
  function Upserted(jobs: map<JobId, JobRecord>, id: JobId, row: Row, now: int): JobRecord {
    if id in jobs then jobs[id].(status := Expired, attempts := row.attempts, updatedAt := now)
    else RecordOf(row, Expired, now)
  }

  function Expiries(due: map<JobId, Row>, now: int): multiset<AuditRow> {
    multiset(set id | id in due :: JobExpired(id, due[id].attempts, now))
  }

  function UpsertedAll(jobs: map<JobId, JobRecord>, due: map<JobId, Row>, now: int): map<JobId, JobRecord> {
    jobs + map id | id in due :: Upserted(jobs, id, due[id], now)
  }

  function ExpiredAll(d1: Database, due: map<JobId, Row>, now: int): Database {
    Database(UpsertedAll(d1.jobs, due, now), d1.audit + Expiries(due, now))
  }

  predicate WaitsForD1(pc: Pc) {
    pc.Reading? || pc.Recording? || pc.Refusing? || pc.Expiring?
  }

  /** A D1 request executes (`up`) or fails. `None` as the new place means the call throws. */
  function Executed(d1: Database, pc: Pc, up: bool): (Database, Option<Pc>)
    requires WaitsForD1(pc)
  {
    match pc
    case Reading(row, now) => (d1, if up then Some(Known(row, now, row.job.id in d1.jobs)) else None)
    case Recording(row, now) =>
      (match Enqueued(d1, row, now)
       case Some(after) => if up then (after, Some(Recorded(row))) else (d1, Some(Unrecorded(row)))
       case None => (d1, Some(Unrecorded(row))))
    case Refusing(ref, code) =>
      if up then (d1.(audit := d1.audit + multiset{JobRefused(ref, code)}), Some(RefusalAudited(ref, code)))
      else (d1, None)
    case Expiring(at, now, due) =>
      if up then (ExpiredAll(d1, due, now), Some(Marked(at, due))) else (d1, Some(Unmarked(at, due)))
  }

  ghost predicate IsExpired(d1: Database, id: JobId) {
    id in d1.jobs && d1.jobs[id].status == Expired
  }

  ghost predicate IsQueued(d1: Database, id: JobId) {
    id in d1.jobs && d1.jobs[id].status == Queued
  }

  /** A call whose D1 request failed for good ends without a reply. */
  function After(next: Option<Pc>): Outcome {
    if next.Some? then Wait(next.value) else End
  }

  // ---- The system ------------------------------------------------------------------------------------

  datatype Step =
    | Enqueue(c: CallId, req: Request, now: int)
    | Alarm(c: CallId, now: int)          // the runtime delivers a due alarm
    | Resume(c: CallId, answer: Answer)   // the call's await is over
    | Execute(c: CallId, up: bool)        // the call's D1 request reaches D1
    | Connect                             // a device connects: `fetch` arms the alarm
    | Crash                               // the object is lost; its storage stays
    | LoseAlarm                           // the runtime gives up retrying the alarm

  ghost function Put(s: System, c: CallId, alive: bool, out: Outcome): System {
    match out
    case Wait(pc) => s.(calls := s.calls[c := Call(pc, alive)])
    case Return(reply) => s.(calls := s.calls - {c}, replies := s.replies + [reply])
    case End => s.(calls := s.calls - {c})
  }

  ghost function AlarmCall(s: System, c: CallId, now: int): System {
    if c in s.calls || s.hub.alarm.None? || now < s.hub.alarm.value then s
    else
      var (hub, out) := Fired(s.hub, s.hub.alarm.value, now);
      Put(s.(hub := hub), c, true, out)
  }

  ghost function ResumeCall(s: System, c: CallId, answer: Answer): System {
    if c !in s.calls || !s.calls[c].alive || !WaitsForHub(s.calls[c].pc) then s
    else
      var (hub, out) := Resumed(s.hub, s.calls[c].pc, answer);
      Put(s.(hub := hub), c, true, out)
  }

  ghost function ExecuteCall(s: System, c: CallId, up: bool): System {
    if c !in s.calls || !WaitsForD1(s.calls[c].pc) then s
    else
      var (d1, next) := Executed(s.d1, s.calls[c].pc, up);
      Put(s.(d1 := d1), c, s.calls[c].alive, After(next))
  }

  /** One step. A step that is not possible changes nothing. */
  ghost function Apply(s: System, step: Step): System {
    match step
    case Enqueue(c, req, now) =>
      if c in s.calls then s else s.(calls := s.calls[c := Call(Started(req, now), true)])
    case Alarm(c, now) => AlarmCall(s, c, now)
    case Resume(c, answer) => ResumeCall(s, c, answer)
    case Execute(c, up) => ExecuteCall(s, c, up)
    case Connect => s.(hub := Armed(s.hub))
    case Crash => s.(calls := map c | c in s.calls :: s.calls[c].(alive := false))
    case LoseAlarm => s.(hub := s.hub.(alarm := None))
  }

  ghost function Run(s: System, steps: seq<Step>): System
    decreases |steps|
  {
    if steps == [] then s else Run(Apply(s, steps[0]), steps[1..])
  }

  const EMPTY: System := System(Hub(map[], None), Database(map[], multiset{}), map[], [])

  lemma {:induction false} RunAppend(s: System, front: seq<Step>, back: seq<Step>)
    ensures Run(s, front + back) == Run(Run(s, front), back)
    decreases |front|
  {
    if front == [] {
      assert front + back == back;
    } else {
      assert (front + back)[1..] == front[1..] + back;
      RunAppend(Apply(s, front[0]), front[1..], back);
    }
  }

  lemma RunTwo(s: System, a: Step, b: Step)
    ensures Run(s, [a, b]) == Apply(Apply(s, a), b)
  {
    assert [a, b][1..] == [b];
    assert Run(Apply(s, a), [b]) == Run(Apply(Apply(s, a), b), [b][1..]);
  }

  lemma RunThree(s: System, a: Step, b: Step, c: Step)
    ensures Run(s, [a, b, c]) == Apply(Apply(Apply(s, a), b), c)
  {
    assert [a, b, c][1..] == [b, c];
    RunTwo(Apply(s, a), b, c);
  }

  lemma RunSix(s: System, a: Step, b: Step, c: Step, d: Step, e: Step, f: Step)
    ensures Run(s, [a, b, c, d, e, f]) == Apply(Apply(Apply(Apply(Apply(Apply(s, a), b), c), d), e), f)
  {
    assert [a, b, c, d, e, f] == [a, b, c] + [d, e, f];
    RunAppend(s, [a, b, c], [d, e, f]);
    RunThree(s, a, b, c);
    RunThree(Apply(Apply(Apply(s, a), b), c), d, e, f);
  }
}
