/** No job is marked expired before it is due, exactly when the valid requests for one job id name one expiry. */
module HubExpiry {
  import opened HubCalls
  import opened HubConservation
  import opened HubQueue
  import opened Options

  /** What `CheckJob` asks of a request, whatever the time. */
  predicate Valid(req: Request) {
    && req.shapeOk
    && 0 <= req.job.meta.issuedAt < req.job.meta.expiresAt <= req.job.meta.issuedAt + MAX_TTL_MS
  }

  ghost predicate OneExpiry(pool: set<Request>) {
    forall a, b :: a in pool && b in pool && Valid(a) && Valid(b) && a.job.id == b.job.id
                   ==> a.job.meta.expiresAt == b.job.meta.expiresAt
  }

  /** Every request of the run is one of the pool. */
  ghost predicate RunOver(steps: seq<Step>, pool: set<Request>) {
    forall step :: step in steps && step.Enqueue? ==> step.req in pool
  }

  /** Whatever D1 marked as expired was due by the expiry D1 itself holds. */
  ghost predicate NoneEarly(d1: Database) {
    forall id, attempts, at :: JobExpired(id, attempts, at) in d1.audit
                               ==> id in d1.jobs && d1.jobs[id].meta.expiresAt <= at
  }

  /** The same for the jobs whose `enqueue` returned ok and not `duplicate`. */
  ghost predicate NoAcceptedEarly(s: System) {
    forall id, attempts, at :: Accepted(id, false) in s.replies && JobExpired(id, attempts, at) in s.d1.audit
                               ==> id in s.d1.jobs && s.d1.jobs[id].meta.expiresAt <= at
  }

  // ---- One expiry for each id ------------------------------------------------------------------------

  ghost predicate JobTimed(job: Job, expiry: JobId -> int) {
    job.meta.expiresAt == expiry(job.id)
  }

  ghost predicate DueTimed(due: map<JobId, Row>, expiry: JobId -> int) {
    forall id :: id in due ==> due[id].job.meta.expiresAt == expiry(id)
  }

  ghost predicate PcTimed(pc: Pc, expiry: JobId -> int) {
    match pc
    case Started(req, _) => Valid(req) ==> JobTimed(req.job, expiry)
    case Hashing(job, _) => JobTimed(job, expiry)
    case Refusing(_, _) => true
    case RefusalAudited(_, _) => true
    case Expiring(_, now, due) => DueTimed(due, expiry) && forall id :: id in due ==> expiry(id) <= now
    case Marked(_, _) => true
    case Unmarked(_, _) => true
    case _ => JobTimed(pc.row.job, expiry)
  }

  ghost predicate D1Timed(d1: Database, expiry: JobId -> int) {
    && (forall id :: id in d1.jobs ==> d1.jobs[id].meta.expiresAt == expiry(id))
    && (forall id, attempts, at :: JobExpired(id, attempts, at) in d1.audit ==> id in d1.jobs && expiry(id) <= at)
  }

  ghost predicate Timed(s: System, expiry: JobId -> int) {
    && DueTimed(s.hub.queue, expiry)
    && (forall c :: c in s.calls ==> PcTimed(s.calls[c].pc, expiry))
    && D1Timed(s.d1, expiry)
  }

  ghost predicate StepTimed(step: Step, expiry: JobId -> int) {
    step.Enqueue? && Valid(step.req) ==> JobTimed(step.req.job, expiry)
  }

  lemma ResumedTimed(hub: Hub, pc: Pc, answer: Answer, expiry: JobId -> int)
    requires DueTimed(hub.queue, expiry) && PcTimed(pc, expiry) && WaitsForHub(pc)
    ensures var (after, out) := Resumed(hub, pc, answer);
            DueTimed(after.queue, expiry) && (out.Wait? ==> PcTimed(out.pc, expiry))
  {
    ResumedQueue(hub, pc, answer);
  }

  lemma ExpiredAllTimed(d1: Database, due: map<JobId, Row>, now: int, expiry: JobId -> int)
    requires D1Timed(d1, expiry) && DueTimed(due, expiry) && forall id :: id in due ==> expiry(id) <= now
    ensures D1Timed(ExpiredAll(d1, due, now), expiry)
  {
    var after := ExpiredAll(d1, due, now);
    forall id, attempts, at | JobExpired(id, attempts, at) in after.audit
      ensures id in after.jobs && expiry(id) <= at
    {
      assert JobExpired(id, attempts, at) in d1.audit || JobExpired(id, attempts, at) in Expiries(due, now);
    }
  }

  lemma ExecutedTimed(d1: Database, pc: Pc, up: bool, expiry: JobId -> int)
    requires D1Timed(d1, expiry) && PcTimed(pc, expiry) && WaitsForD1(pc)
    ensures var (after, next) := Executed(d1, pc, up);
            D1Timed(after, expiry) && (next.Some? ==> PcTimed(next.value, expiry))
  {
    if pc.Expiring? {
      ExpiredAllTimed(d1, pc.due, pc.now, expiry);
    }
  }

  /** A call moves to where its part of the invariant holds; the others stay. */
  lemma PutTimed(s: System, c: CallId, hub: Hub, d1: Database, alive: bool, out: Outcome, expiry: JobId -> int)
    requires Timed(s, expiry) && DueTimed(hub.queue, expiry) && D1Timed(d1, expiry)
    requires out.Wait? ==> PcTimed(out.pc, expiry)
    ensures Timed(Put(s.(hub := hub, d1 := d1), c, alive, out), expiry)
  {
    var t := Put(s.(hub := hub, d1 := d1), c, alive, out);
    forall d | d in t.calls
      ensures PcTimed(t.calls[d].pc, expiry)
    {
      assert d != c ==> t.calls[d] == s.calls[d];
    }
  }

  lemma FiredTimed(hub: Hub, at: int, now: int, expiry: JobId -> int)
    requires DueTimed(hub.queue, expiry)
    ensures var (after, out) := Fired(hub, at, now);
            DueTimed(after.queue, expiry) && (out.Wait? ==> PcTimed(out.pc, expiry))
  {
  }

  lemma TimedResume(s: System, c: CallId, answer: Answer, expiry: JobId -> int)
    requires Timed(s, expiry) && c in s.calls && s.calls[c].alive && WaitsForHub(s.calls[c].pc)
    ensures Timed(Apply(s, Resume(c, answer)), expiry)
  {
    var (hub, out) := Resumed(s.hub, s.calls[c].pc, answer);
    ResumedTimed(s.hub, s.calls[c].pc, answer, expiry);
    PutTimed(s, c, hub, s.d1, true, out, expiry);
  }

  lemma TimedExecute(s: System, c: CallId, up: bool, expiry: JobId -> int)
    requires Timed(s, expiry) && c in s.calls && WaitsForD1(s.calls[c].pc)
    ensures Timed(Apply(s, Execute(c, up)), expiry)
  {
    var (d1, next) := Executed(s.d1, s.calls[c].pc, up);
    ExecutedTimed(s.d1, s.calls[c].pc, up, expiry);
    PutTimed(s, c, s.hub, d1, s.calls[c].alive, After(next), expiry);
  }

  lemma TimedAlarm(s: System, c: CallId, now: int, expiry: JobId -> int)
    requires Timed(s, expiry) && c !in s.calls && s.hub.alarm.Some? && s.hub.alarm.value <= now
    ensures Timed(Apply(s, Alarm(c, now)), expiry)
  {
    var (hub, out) := Fired(s.hub, s.hub.alarm.value, now);
    FiredTimed(s.hub, s.hub.alarm.value, now, expiry);
    PutTimed(s, c, hub, s.d1, true, out, expiry);
  }

  lemma TimedStep(s: System, step: Step, expiry: JobId -> int)
    requires Timed(s, expiry) && StepTimed(step, expiry)
    ensures Timed(Apply(s, step), expiry)
  {
    match step
    case Resume(c, answer) =>
      if c in s.calls && s.calls[c].alive && WaitsForHub(s.calls[c].pc) {
        TimedResume(s, c, answer, expiry);
      }
    case Execute(c, up) =>
      if c in s.calls && WaitsForD1(s.calls[c].pc) {
        TimedExecute(s, c, up, expiry);
      }
    case Alarm(c, now) =>
      if c !in s.calls && s.hub.alarm.Some? && s.hub.alarm.value <= now {
        TimedAlarm(s, c, now, expiry);
      }
    case Enqueue(c, req, now) =>
      if c !in s.calls {
        PutTimed(s, c, s.hub, s.d1, true, Wait(Started(req, now)), expiry);
      }
    case _ =>
  }

  lemma {:induction false} TimedRun(s: System, steps: seq<Step>, expiry: JobId -> int)
    requires Timed(s, expiry) && forall step :: step in steps ==> StepTimed(step, expiry)
    ensures Timed(Run(s, steps), expiry)
    decreases |steps|
  {
    if steps != [] {
      TimedStep(s, steps[0], expiry);
      TimedRun(Apply(s, steps[0]), steps[1..], expiry);
    }
  }

  ghost function ExpiryIn(pool: set<Request>, id: JobId): int {
    if exists req :: req in pool && Valid(req) && req.job.id == id then
      var req :| req in pool && Valid(req) && req.job.id == id;
      req.job.meta.expiresAt
    else 0
  }

  lemma ExpiredOnlyWhenDue(pool: set<Request>, steps: seq<Step>)
    requires OneExpiry(pool) && RunOver(steps, pool)
    ensures NoneEarly(Run(EMPTY, steps).d1)
  {
    var expiry := (id: JobId) => ExpiryIn(pool, id);
    forall step | step in steps
      ensures StepTimed(step, expiry)
    {
    }
    TimedRun(EMPTY, steps, expiry);
  }

  /** A job whose `enqueue` returned ok and not `duplicate` is in the Hub's queue with a matching D1 row, or marked
      expired in D1, audited, and was due then. */
  lemma NeverLostNorEarly(pool: set<Request>, steps: seq<Step>, id: JobId)
    requires OneExpiry(pool) && RunOver(steps, pool)
    ensures var s := Run(EMPTY, steps);
            Accepted(id, false) in s.replies ==>
              && WasEnqueued(s.d1, id)
              && ((IsQueued(s.d1, id) && id in s.hub.queue && Describes(s.d1.jobs[id], s.hub.queue[id]))
                  || (IsExpired(s.d1, id) && WasExpired(s.d1, id)
                      && forall attempts, at :: JobExpired(id, attempts, at) in s.d1.audit
                                                ==> s.d1.jobs[id].meta.expiresAt <= at))
  {
    NeverLost(steps, id);
    ExpiredOnlyWhenDue(pool, steps);
  }

  // ---- Two expiries for one id -----------------------------------------------------------------------

  /** The first call inserts its Hub row and waits for D1. */
  function FirstOffer(a: Request, answer: Answer): seq<Step> {
    [Enqueue(0, a, a.job.meta.expiresAt - 1), Resume(0, answer), Resume(0, answer), Execute(0, true), Resume(0, answer)]
  }

  /** A device connects, the job falls due while D1 refuses the first call, and the row is taken back. */
  function DueMeanwhile(a: Request, answer: Answer): seq<Step> {
    [Connect, Alarm(1, a.job.meta.expiresAt), Execute(0, false), Resume(0, answer)]
  }

  /** The id is offered again and stored. */
  function SecondOffer(a: Request, b: Request, answer: Answer): seq<Step> {
    EnqueueSteps(2, b, a.job.meta.expiresAt, answer, true) + [Resume(2, answer), Resume(2, answer)]
  }

  /** Only now the batch of the alarm reaches D1. */
  function LateBatch(answer: Answer): seq<Step> {
    [Execute(1, true), Resume(1, answer)]
  }

  function EarlySteps(a: Request, b: Request, answer: Answer): seq<Step> {
    FirstOffer(a, answer) + DueMeanwhile(a, answer) + SecondOffer(a, b, answer) + LateBatch(answer)
  }

  lemma FirstOfferWaits(a: Request, answer: Answer)
    requires Valid(a) && answer.enabled
    ensures var row := Row(a.job, answer.hash, 0);
            Run(EMPTY, FirstOffer(a, answer))
            == System(Hub(map[a.job.id := row], None), EMPTY.d1,
                      map[0 := Call(Recording(row, a.job.meta.expiresAt - 1), true)], [])
  {
    var row, now := Row(a.job, answer.hash, 0), a.job.meta.expiresAt - 1;
    var front := [Enqueue(0, a, now), Resume(0, answer), Resume(0, answer)];
    EnqueueReads(EMPTY, 0, a, now, answer);
    var s3 := EMPTY.(calls := map[0 := Call(Reading(row, now), true)]);
    assert Run(EMPTY, front) == s3;
    EnqueueInserts(s3, 0, row, now, answer);
    RunTwo(s3, Execute(0, true), Resume(0, answer));
    RunAppend(EMPTY, front, [Execute(0, true), Resume(0, answer)]);
    assert FirstOffer(a, answer) == front + [Execute(0, true), Resume(0, answer)];
  }

  /** Alone in the queue, a row sets the alarm to its own expiry. */
  lemma AloneIsEarliest(id: JobId, row: Row)
    ensures Earliest(map[id := row]) == Some(row.job.meta.expiresAt)
  {
    var queue := map[id := row];
    assert id in queue;
    assert IsEarliest(queue, Earliest(queue));
  }

  /** A connection arms the alarm for the row, and the alarm takes it up when it is due. */
  lemma AloneFallsDue(s: System, c: CallId, id: JobId, row: Row)
    requires s.hub == Hub(map[id := row], None) && c !in s.calls
    ensures var at := row.job.meta.expiresAt;
            Apply(Apply(s, Connect), Alarm(c, at))
            == s.(calls := s.calls[c := Call(Expiring(at, at, map[id := row]), true)])
  {
    var at := row.job.meta.expiresAt;
    AloneIsEarliest(id, row);
    var s1 := s.(hub := Hub(map[id := row], Some(at)));
    assert Apply(s, Connect) == s1;
    assert Due(s1.hub.queue, at) == map[id := row];
    AlarmRings(s1, c, at);
  }

  lemma TakenBackMeanwhile(a: Request, answer: Answer)
    requires Valid(a) && answer.enabled
    ensures var row, at := Row(a.job, answer.hash, 0), a.job.meta.expiresAt;
            Run(EMPTY, FirstOffer(a, answer) + DueMeanwhile(a, answer))
            == System(Hub(map[], None), EMPTY.d1, map[1 := Call(Expiring(at, at, map[a.job.id := row]), true)],
                      [Refused(Some(a.job.id), Internal)])
  {
    var id, row, at := a.job.id, Row(a.job, answer.hash, 0), a.job.meta.expiresAt;
    var rings, refuses := [Connect, Alarm(1, at)], [Execute(0, false), Resume(0, answer)];
    FirstOfferWaits(a, answer);
    var s0 := Run(EMPTY, FirstOffer(a, answer));
    AloneFallsDue(s0, 1, id, row);
    RunTwo(s0, Connect, Alarm(1, at));
    var s2 := Run(s0, rings);
    RefusedIsTakenBack(s2, 0, answer);
    RunTwo(s2, Execute(0, false), Resume(0, answer));
    assert s2.calls - {0} == map[1 := s2.calls[1]];
    assert s2.hub.queue - {id} == map[];
    RunAppend(s0, rings, refuses);
    assert DueMeanwhile(a, answer) == rings + refuses;
    RunAppend(EMPTY, FirstOffer(a, answer), DueMeanwhile(a, answer));
  }

  /** The batch of an alarm that read an id's row before another job with that id was stored. */
  lemma LateBatchExpires(s: System, c: CallId, id: JobId, row: Row, now: int, answer: Answer)
    requires c in s.calls && s.calls[c] == Call(Expiring(now, now, map[id := row]), true) && id in s.d1.jobs
    ensures var t := Run(s, [Execute(c, true), Resume(c, answer)]);
            && t.replies == s.replies && id !in t.hub.queue && IsExpired(t.d1, id)
            && JobExpired(id, row.attempts, now) in t.d1.audit && t.d1.jobs[id].meta == s.d1.jobs[id].meta
  {
    var due := map[id := row];
    AlarmCommits(s, c, answer);
    RunTwo(s, Execute(c, true), Resume(c, answer));
    ExpiredAllMarks(s.d1, due, now);
    assert id in due && due[id].attempts == row.attempts;
  }

  /** The alarm had seen the first offer's expiry: the job stored by the second one is marked expired, and forgotten by
      the Hub, before it is due. */
  lemma SecondOfferExpiresEarly(a: Request, b: Request, answer: Answer)
    requires Valid(a) && Valid(b) && answer.enabled
    requires a.job.id == b.job.id && a.job.meta.expiresAt < b.job.meta.expiresAt
    ensures var s, id := Run(EMPTY, EarlySteps(a, b, answer)), b.job.id;
            && Accepted(id, false) in s.replies && id !in s.hub.queue && IsExpired(s.d1, id)
            && JobExpired(id, 0, a.job.meta.expiresAt) in s.d1.audit && s.d1.jobs[id].meta == b.job.meta
  {
    var id, row, at := a.job.id, Row(a.job, answer.hash, 0), a.job.meta.expiresAt;
    var front := FirstOffer(a, answer) + DueMeanwhile(a, answer);
    TakenBackMeanwhile(a, answer);
    var s0 := Run(EMPTY, front);
    EnqueueStores(s0, 2, b, at, answer);
    var s1 := Run(s0, SecondOffer(a, b, answer));
    assert s1.replies[|s1.replies| - 1] == Accepted(id, false);
    LateBatchExpires(s1, 1, id, row, at, answer);
    RunAppend(EMPTY, front, SecondOffer(a, b, answer));
    RunAppend(EMPTY, front + SecondOffer(a, b, answer), LateBatch(answer));
  }

  lemma EarlyRunOver(a: Request, b: Request, answer: Answer, pool: set<Request>)
    requires a in pool && b in pool
    ensures RunOver(EarlySteps(a, b, answer), pool)
  {
  }

  /** Over all runs, no accepted job is marked expired before it is due, exactly when the valid requests for one id
      name one expiry. */
  lemma NoneEarlyIffOneExpiry(pool: set<Request>)
    ensures OneExpiry(pool) <==> forall steps :: RunOver(steps, pool) ==> NoAcceptedEarly(Run(EMPTY, steps))
  {
    if OneExpiry(pool) {
      forall steps | RunOver(steps, pool)
        ensures NoAcceptedEarly(Run(EMPTY, steps))
      {
        ExpiredOnlyWhenDue(pool, steps);
      }
    } else {
      var a, b :| a in pool && b in pool && Valid(a) && Valid(b) && a.job.id == b.job.id
                  && a.job.meta.expiresAt < b.job.meta.expiresAt;
      var answer := Answer(true, "");
      SecondOfferExpiresEarly(a, b, answer);
      EarlyRunOver(a, b, answer, pool);
      assert !NoAcceptedEarly(Run(EMPTY, EarlySteps(a, b, answer)));
    }
  }
}
