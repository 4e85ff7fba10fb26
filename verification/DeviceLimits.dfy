/** The device's hourly limit: how many rate-limited jobs can start within an hour, over every run. */
module DeviceLimits {
  import opened DeviceJobs
  import opened Options
  import opened Ulids

  /** The start of a rate-limited job, with the time its handling read from the clock. */
  datatype LimitedStart = LimitedStart(id: JobId, at: int)

  predicate StartsLimited(d: Device, step: Step) {
    && step.Admit? && d.entries.Some? && d.place.Received?
    && step.action.Some? && step.action.value.rateLimited
    && Admitted(d, step.action, step.env).place.Executing?
  }

  function StartIn(d: Device, step: Step): seq<LimitedStart> {
    if StartsLimited(d, step) then [LimitedStart(d.place.job.id, d.place.entry.receivedAt)] else []
  }

  /** The rate-limited starts of a run, in order. */
  function Limited(d: Device, steps: seq<Step>): seq<LimitedStart>
    decreases |steps|
  {
    if steps == [] then [] else StartIn(d, steps[0]) + Limited(Apply(d, steps[0]), steps[1..])
  }

  predicate Ascending(starts: seq<LimitedStart>) {
    forall i, j :: 0 <= i <= j < |starts| ==> starts[i].at <= starts[j].at
  }

  /** Starts that lie within one hour number at most `limit`. */
  predicate WithinLimit(starts: seq<LimitedStart>, limit: nat) {
    forall i, j :: 0 <= i <= j < |starts| && starts[j].at - starts[i].at <= HOUR_MS ==> j - i < limit
  }

  /** What may go wrong in a run: the record of a started job is lost, a crash falls between start and record, the clock
      goes back. */
  datatype Lapses = Lapses(lost: bool, crash: bool, back: bool)

  const NONE := Lapses(false, false, false)

  /** A job was started, and the journal does not say so yet. */
  predicate Unrecorded(d: Device) {
    d.place.Executing? || (d.place.Ran? && d.place.entry.executed)
  }

  /** Nothing goes wrong but what `lapses` allows, the limit stays the same, and pausing is not limited. */
  predicate Allowed(d: Device, step: Step, limit: nat, lapses: Lapses) {
    match step
    case Clock(now) => lapses.back || d.clock <= now
    case Crash => lapses.crash || !Unrecorded(d)
    case Finish(written) => lapses.lost || written || !Unrecorded(d)
    case Admit(action, env) =>
      && env.jobsPerHour == limit
      && (d.place.Received? && action.Some? && action.value.rateLimited ==> d.place.job.kind != PAUSE_KIND)
    case _ => true
  }

  predicate RunWith(d: Device, steps: seq<Step>, limit: nat, lapses: Lapses)
    decreases |steps|
  {
    steps == [] || (Allowed(d, steps[0], limit, lapses) && RunWith(Apply(d, steps[0]), steps[1..], limit, lapses))
  }

  // ---- What the journal knows of the starts --------------------------------------------------------------

  /** The time that counts: the clock, or what the job in hand read from it. */
  function Reading(d: Device): int {
    if d.place.Received? then d.place.entry.receivedAt else d.clock
  }

  /** The journal's record of the job in hand, which nothing else touches. */
  ghost predicate InHand(d: Device) {
    match d.place
    case Received(job, entry) =>
      && job.id in d.disk && d.disk[job.id] == entry && entry.jobId == job.id && entry.kind == job.kind
      && !entry.executed && entry.receivedAt <= d.clock
    case Executing(entry) => entry.jobId in d.disk && d.disk[entry.jobId] == entry && !entry.executed
    case Ran(entry, _) => entry.jobId in d.disk && d.disk[entry.jobId] == entry.(executed := false)
    case _ => true
  }

  /** The job is about to be recorded as executed. */
  predicate Pending(d: Device, id: JobId) {
    || (d.place.Executing? && d.place.entry.jobId == id)
    || (d.place.Ran? && d.place.entry.jobId == id && d.place.entry.executed)
  }

  /** The journal counts the start, or will when the job in hand is recorded. */
  ghost predicate Counted(d: Device, s: LimitedStart) {
    && s.id in d.disk && d.disk[s.id].receivedAt == s.at && d.disk[s.id].kind != PAUSE_KIND
    && (d.disk[s.id].executed || Pending(d, s.id))
  }

  /** Starts of one id are further apart than the retention, since its record was forgotten in between. */
  predicate Apart(starts: seq<LimitedStart>) {
    forall i, j :: 0 <= i < j < |starts| && starts[i].id == starts[j].id ==> starts[j].at - starts[i].at > RETENTION_MS
  }

  ghost predicate Tracked(d: Device, starts: seq<LimitedStart>) {
    && DiskOk(d) && InHand(d) && Ascending(starts) && Apart(starts)
    && forall s :: s in starts ==> s.at <= Reading(d) && (Reading(d) - s.at <= RETENTION_MS ==> Counted(d, s))
  }

  // ---- The gate keeps the limit --------------------------------------------------------------------------

  lemma {:induction false} DistinctAtMost(starts: seq<LimitedStart>, ids: set<JobId>)
    requires forall s :: s in starts ==> s.id in ids
    requires forall i, j :: 0 <= i < j < |starts| ==> starts[i].id != starts[j].id
    ensures |starts| <= |ids|
    decreases |starts|
  {
    if starts != [] {
      var last := |starts| - 1;
      assert starts[last] in starts;
      DistinctAtMost(starts[..last], ids - {starts[last].id});
    }
  }

  /** When a job is let through, fewer than `limit` starts lie in the hour before it. */
  lemma GateCounts(d: Device, step: Step, starts: seq<LimitedStart>, limit: nat, i: nat)
    requires Tracked(d, starts) && Allowed(d, step, limit, NONE) && StartsLimited(d, step)
    requires i <= |starts| && forall s :: s in starts[i..] ==> Reading(d) - s.at <= HOUR_MS
    ensures |starts| - i < limit
  {
    var recent := starts[i..];
    var counted := Executed(d.entries.value, Reading(d) - HOUR_MS);
    forall s | s in recent
      ensures s.id in counted
    {
      assert Counted(d, s);
    }
    forall k, l | 0 <= k < l < |recent|
      ensures recent[k].id != recent[l].id
    {
      assert recent[k] == starts[i + k] && recent[l] == starts[i + l];
      assert recent[k] in recent;
    }
    DistinctAtMost(recent, counted);
  }

  lemma ApartNext(d: Device, starts: seq<LimitedStart>)
    requires Tracked(d, starts) && d.place.Received?
    ensures var more := starts + [LimitedStart(d.place.job.id, Reading(d))]; Ascending(more) && Apart(more)
  {
    forall s | s in starts
      ensures s.at <= Reading(d) && (s.id == d.place.job.id ==> Reading(d) - s.at > RETENTION_MS)
    {
      assert s.id == d.place.job.id ==> !Counted(d, s);
    }
  }

  lemma WithinNext(d: Device, step: Step, starts: seq<LimitedStart>, limit: nat)
    requires Tracked(d, starts) && Allowed(d, step, limit, NONE) && StartsLimited(d, step) && WithinLimit(starts, limit)
    ensures WithinLimit(starts + [LimitedStart(d.place.job.id, Reading(d))], limit)
  {
    var more := starts + [LimitedStart(d.place.job.id, Reading(d))];
    forall i, j | 0 <= i <= j < |more| && more[j].at - more[i].at <= HOUR_MS
      ensures j - i < limit
    {
      if j == |starts| {
        forall s | s in starts[i..]
          ensures Reading(d) - s.at <= HOUR_MS
        {
          var k :| 0 <= k < |starts[i..]| && starts[i..][k] == s;
          assert s == starts[i + k];
        }
        GateCounts(d, step, starts, limit, i);
      }
    }
  }

  lemma TrackedAdmit(d: Device, action: Option<Action>, env: Surroundings, starts: seq<LimitedStart>, limit: nat)
    requires Tracked(d, starts) && Allowed(d, Admit(action, env), limit, NONE) && WithinLimit(starts, limit)
    ensures var step := Admit(action, env);
            Tracked(Apply(d, step), starts + StartIn(d, step)) && WithinLimit(starts + StartIn(d, step), limit)
  {
    var step := Admit(action, env);
    var more, t := starts + StartIn(d, step), Apply(d, step);
    if StartsLimited(d, step) {
      ApartNext(d, starts);
      WithinNext(d, step, starts, limit);
    } else {
      assert more == starts;
    }
    forall s | s in more
      ensures s.at <= Reading(t) && (Reading(t) - s.at <= RETENTION_MS ==> Counted(t, s))
    {
      assert s in starts || (StartsLimited(d, step) && s == LimitedStart(d.place.job.id, Reading(d)));
      if s in starts && Reading(t) - s.at <= RETENTION_MS {
        assert Counted(d, s);
      }
    }
  }

  /** A step that keeps every count keeps track. */
  lemma CountsKept(d: Device, t: Device, starts: seq<LimitedStart>)
    requires Tracked(d, starts) && DiskOk(t) && InHand(t) && Reading(d) <= Reading(t)
    requires forall s :: s in starts && Reading(t) - s.at <= RETENTION_MS && Counted(d, s) ==> Counted(t, s)
    ensures Tracked(t, starts)
  {
  }

  lemma TrackedDeliver(d: Device, body: Body, written: bool, starts: seq<LimitedStart>)
    requires Tracked(d, starts)
    ensures Tracked(Apply(d, Deliver(body, written)), starts)
  {
    if d.entries.Some? && d.place.Idle? && !FromBody(body).Unanswerable? {
      var id := EntryFor(body, d.clock).jobId;
      if id in d.entries.value {
        TrackedDuplicate(d, id, written, starts);
      } else if written {
        TrackedNew(d, body, starts);
      }
    }
  }

  lemma TrackedDuplicate(d: Device, id: JobId, written: bool, starts: seq<LimitedStart>)
    requires Tracked(d, starts) && d.entries.Some? && d.place.Idle? && id in d.entries.value
    ensures Tracked(Duplicate(d, id, written), starts)
  {
    CountsKept(d, Duplicate(d, id, written), starts);
  }

  lemma TrackedNew(d: Device, body: Body, starts: seq<LimitedStart>)
    requires Tracked(d, starts) && d.entries.Some? && d.place.Idle?
    requires !FromBody(body).Unanswerable? && EntryFor(body, d.clock).jobId !in d.entries.value
    ensures Tracked(Delivered(d, body, true), starts)
  {
    CountsKept(d, Delivered(d, body, true), starts);
  }

  lemma TrackedFinish(d: Device, written: bool, starts: seq<LimitedStart>)
    requires Tracked(d, starts) && (written || !Unrecorded(d))
    ensures Tracked(Apply(d, Finish(written)), starts)
  {
    CountsKept(d, Apply(d, Finish(written)), starts);
  }

  lemma TrackedForget(d: Device, id: JobId, starts: seq<LimitedStart>)
    requires Tracked(d, starts)
    ensures Tracked(Apply(d, Forget(id)), starts)
  {
    CountsKept(d, Apply(d, Forget(id)), starts);
  }

  lemma TrackedStep(d: Device, step: Step, starts: seq<LimitedStart>, limit: nat)
    requires Tracked(d, starts) && Allowed(d, step, limit, NONE) && !step.Admit?
    ensures Tracked(Apply(d, step), starts)
  {
    match step
    case Deliver(body, written) => TrackedDeliver(d, body, written, starts);
    case Finish(written) => TrackedFinish(d, written, starts);
    case Forget(id) => TrackedForget(d, id, starts);
    case _ => CountsKept(d, Apply(d, step), starts);
  }

  lemma {:induction false} TrackedRun(d: Device, steps: seq<Step>, starts: seq<LimitedStart>, limit: nat)
    requires Tracked(d, starts) && RunWith(d, steps, limit, NONE) && WithinLimit(starts, limit)
    ensures Ascending(starts + Limited(d, steps)) && WithinLimit(starts + Limited(d, steps), limit)
    decreases |steps|
  {
    if steps == [] {
      assert starts + [] == starts;
    } else {
      var more := starts + StartIn(d, steps[0]);
      if steps[0].Admit? {
        TrackedAdmit(d, steps[0].action, steps[0].env, starts, limit);
      } else {
        assert more == starts;
        TrackedStep(d, steps[0], starts, limit);
      }
      TrackedRun(Apply(d, steps[0]), steps[1..], more, limit);
      assert starts + Limited(d, steps) == more + Limited(Apply(d, steps[0]), steps[1..]);
    }
  }

  /** In any hour at most `limit` rate-limited jobs start, over every run in which every started job is recorded as
      executed and the clock does not go back. */
  lemma HourlyLimit(clock: int, steps: seq<Step>, limit: nat)
    requires RunWith(Fresh(clock), steps, limit, NONE)
    ensures var starts := Limited(Fresh(clock), steps); Ascending(starts) && WithinLimit(starts, limit)
  {
    TrackedRun(Fresh(clock), steps, [], limit);
    assert [] + Limited(Fresh(clock), steps) == Limited(Fresh(clock), steps);
  }

  // ---- What the limit needs ------------------------------------------------------------------------------

  /** One step and then a run. */
  lemma Cons(d: Device, step: Step, rest: seq<Step>, limit: nat, lapses: Lapses)
    ensures Run(d, [step] + rest) == Run(Apply(d, step), rest)
    ensures Limited(d, [step] + rest) == StartIn(d, step) + Limited(Apply(d, step), rest)
    ensures RunWith(d, [step] + rest, limit, lapses)
       <==> Allowed(d, step, limit, lapses) && RunWith(Apply(d, step), rest, limit, lapses)
  {
    assert ([step] + rest)[1..] == rest;
  }

  /** One run and then another. */
  lemma {:induction false} Append(d: Device, front: seq<Step>, back: seq<Step>, limit: nat, lapses: Lapses)
    ensures Run(d, front + back) == Run(Run(d, front), back)
    ensures Limited(d, front + back) == Limited(d, front) + Limited(Run(d, front), back)
    ensures RunWith(d, front + back, limit, lapses)
       <==> RunWith(d, front, limit, lapses) && RunWith(Run(d, front), back, limit, lapses)
    decreases |front|
  {
    if front == [] {
      assert front + back == back;
    } else {
      assert (front + back)[1..] == front[1..] + back;
      Append(Apply(d, front[0]), front[1..], back, limit, lapses);
    }
  }

  /** A limited action, under a limit of one job an hour. */
  const LIMITED := Admit(Some(Action(true, false, true)), Surroundings(false, true, 1))

  predicate Limitable(body: Body) {
    FromBody(body).Valid? && FromBody(body).job.kind != PAUSE_KIND
  }

  function Frame(body: Body): seq<Step> {
    [Deliver(body, true), LIMITED]
  }

  lemma FrameStarts(d: Device, body: Body, lapses: Lapses)
    requires d.entries == Some(d.disk) && d.place.Idle? && Limitable(body)
    requires FromBody(body).job.id !in d.disk && d.clock < FromBody(body).job.expiresAt
    requires forall id :: id in d.disk ==> !d.disk[id].executed
    ensures var job := FromBody(body).job;
            var entry := NewEntry(job.id, job.kind, d.clock, Some(job.expiresAt));
            && Limited(d, Frame(body)) == [LimitedStart(job.id, d.clock)] && RunWith(d, Frame(body), 1, lapses)
            && Run(d, Frame(body))
               == Recorded(d, entry).(place := Executing(entry), log := d.log + [Started(job.id)])
  {
    var job := FromBody(body).job;
    var entry := NewEntry(job.id, job.kind, d.clock, Some(job.expiresAt));
    var d1 := Apply(d, Deliver(body, true));
    assert d1 == Recorded(d, entry).(place := Received(job, entry));
    assert Executed(d1.entries.value, d.clock - HOUR_MS) == {};
    Cons(d, Deliver(body, true), [LIMITED], 1, lapses);
    Cons(d1, LIMITED, [], 1, lapses);
    assert [LIMITED] + [] == [LIMITED] && Frame(body) == [Deliver(body, true)] + [LIMITED];
  }

  /** The device in the middle of its first job. */
  function Busy(clock: int, a: Body): Device
    requires FromBody(a).Valid?
  {
    var job := FromBody(a).job;
    var entry := NewEntry(job.id, job.kind, clock, Some(job.expiresAt));
    Device(map[job.id := entry], Some(map[job.id := entry]), Executing(entry), clock, [Started(job.id)])
  }

  /** The lapse leaves no count of the first job, at the time when it started. */
  ghost predicate Uncounts(clock: int, a: Body, b: Body, lapse: seq<Step>, lapses: Lapses)
    requires FromBody(a).Valid? && FromBody(b).Valid?
  {
    var after := Run(Busy(clock, a), lapse);
    && Limited(Busy(clock, a), lapse) == [] && RunWith(Busy(clock, a), lapse, 1, lapses)
    && after.entries == Some(after.disk) && after.place.Idle? && after.clock == clock
    && FromBody(b).job.id !in after.disk && forall id :: id in after.disk ==> !after.disk[id].executed
  }

  /** Two jobs around a lapse, from the first start of the device. */
  function Around(a: Body, lapse: seq<Step>, b: Body): seq<Step> {
    [Restart] + (Frame(a) + (lapse + Frame(b)))
  }

  /** After a lapse that leaves no count, a second job starts at the moment of the first. */
  lemma LapseExceeds(clock: int, a: Body, b: Body, lapse: seq<Step>, lapses: Lapses)
    requires Limitable(a) && Limitable(b) && Uncounts(clock, a, b, lapse, lapses)
    requires clock < FromBody(a).job.expiresAt && clock < FromBody(b).job.expiresAt
    ensures RunWith(Fresh(clock), Around(a, lapse, b), 1, lapses)
    ensures !WithinLimit(Limited(Fresh(clock), Around(a, lapse, b)), 1)
  {
    var up := Apply(Fresh(clock), Restart);
    var after := Run(Busy(clock, a), lapse);
    FrameStarts(up, a, lapses);
    assert Run(up, Frame(a)) == Busy(clock, a);
    FrameStarts(after, b, lapses);
    Append(Busy(clock, a), lapse, Frame(b), 1, lapses);
    Append(up, Frame(a), lapse + Frame(b), 1, lapses);
    Cons(Fresh(clock), Restart, Frame(a) + (lapse + Frame(b)), 1, lapses);
    TwoAtOnce(LimitedStart(FromBody(a).job.id, clock), LimitedStart(FromBody(b).job.id, clock));
  }

  lemma TwoAtOnce(s: LimitedStart, t: LimitedStart)
    requires s.at == t.at
    ensures !WithinLimit([] + ([s] + ([] + [t])), 1)
  {
    var starts := [] + ([s] + ([] + [t]));
    assert starts[1].at - starts[0].at == 0;
  }

  /** The result of a started job is not recorded. */
  function Lost(result: JobResult): seq<Step> {
    [Complete(result)] + ([Finish(false)] + ([Answer] + []))
  }

  /** A job whose result is lost is not counted, so a second one starts at the same moment. */
  lemma LostResultExceedsLimit(clock: int, a: Body, b: Body, result: JobResult, lapses: Lapses)
    requires Limitable(a) && Limitable(b) && FromBody(a).job.id != FromBody(b).job.id && lapses.lost
    requires clock < FromBody(a).job.expiresAt && clock < FromBody(b).job.expiresAt
    ensures RunWith(Fresh(clock), Around(a, Lost(result), b), 1, lapses)
    ensures !WithinLimit(Limited(Fresh(clock), Around(a, Lost(result), b)), 1)
  {
    var d := Busy(clock, a);
    var d1 := Apply(d, Complete(result));
    var d2 := Apply(d1, Finish(false));
    Cons(d, Complete(result), [Finish(false)] + ([Answer] + []), 1, lapses);
    Cons(d1, Finish(false), [Answer] + [], 1, lapses);
    Cons(d2, Answer, [], 1, lapses);
    LapseExceeds(clock, a, b, Lost(result), lapses);
  }

  /** The device stops while the job runs, and starts again. */
  function Stopped(): seq<Step> {
    [Crash] + ([Restart] + [])
  }

  lemma CrashExceedsLimit(clock: int, a: Body, b: Body, lapses: Lapses)
    requires Limitable(a) && Limitable(b) && FromBody(a).job.id != FromBody(b).job.id && lapses.crash
    requires clock < FromBody(a).job.expiresAt && clock < FromBody(b).job.expiresAt
    ensures RunWith(Fresh(clock), Around(a, Stopped(), b), 1, lapses)
    ensures !WithinLimit(Limited(Fresh(clock), Around(a, Stopped(), b)), 1)
  {
    var d := Busy(clock, a);
    Cons(d, Crash, [Restart] + [], 1, lapses);
    Cons(Apply(d, Crash), Restart, [], 1, lapses);
    LapseExceeds(clock, a, b, Stopped(), lapses);
  }

  function Kept(result: JobResult): seq<Step> {
    [Complete(result)] + ([Finish(true)] + ([Answer] + []))
  }

  /** The clock runs past the job's expiry and the retention, the record is pruned, and the clock is set back. */
  function PrunedAndBack(clock: int, a: Body): seq<Step>
    requires FromBody(a).Valid?
  {
    var job := FromBody(a).job;
    [Clock(job.expiresAt + RETENTION_MS)] + ([Forget(job.id)] + ([Clock(clock)] + []))
  }

  /** The job is recorded, its record pruned, and then the clock set back to when it started. */
  function SetBack(clock: int, a: Body, result: JobResult): seq<Step>
    requires FromBody(a).Valid?
  {
    Kept(result) + PrunedAndBack(clock, a)
  }

  /** The device after its first job. */
  function Done(clock: int, a: Body, result: JobResult): Device
    requires FromBody(a).Valid?
  {
    var job := FromBody(a).job;
    var done := Entry(job.id, job.kind, clock, Some(job.expiresAt), true, Some(result));
    Device(map[job.id := done], Some(map[job.id := done]), Idle, clock,
           [Started(job.id)] + [AckSent(job.id), ResultSent(job.id, result)])
  }

  lemma KeptIsDone(clock: int, a: Body, result: JobResult, lapses: Lapses)
    requires FromBody(a).Valid?
    ensures var d := Busy(clock, a);
            && Run(d, Kept(result)) == Done(clock, a, result)
            && Limited(d, Kept(result)) == [] && RunWith(d, Kept(result), 1, lapses)
  {
    var d, id := Busy(clock, a), FromBody(a).job.id;
    var d1 := Apply(d, Complete(result));
    var d2 := Apply(d1, Finish(true));
    assert d.disk[id := Done(clock, a, result).disk[id]] == Done(clock, a, result).disk;
    Cons(d, Complete(result), [Finish(true)] + ([Answer] + []), 1, lapses);
    Cons(d1, Finish(true), [Answer] + [], 1, lapses);
    Cons(d2, Answer, [], 1, lapses);
  }

  lemma PrunedIsEmpty(clock: int, a: Body, result: JobResult)
    requires FromBody(a).Valid? && clock < FromBody(a).job.expiresAt
    ensures var job := FromBody(a).job;
            var d := Apply(Apply(Done(clock, a, result), Clock(job.expiresAt + RETENTION_MS)), Forget(job.id));
            d.disk == map[] && d.entries == Some(map[]) && d.place.Idle?
  {
    var id := FromBody(a).job.id;
    assert Done(clock, a, result).disk - {id} == map[];
  }

  lemma BackWithoutRecord(clock: int, a: Body, result: JobResult, lapses: Lapses)
    requires FromBody(a).Valid? && clock < FromBody(a).job.expiresAt && lapses.back
    ensures var d := Done(clock, a, result);
            var t := Run(d, PrunedAndBack(clock, a));
            && Limited(d, PrunedAndBack(clock, a)) == [] && RunWith(d, PrunedAndBack(clock, a), 1, lapses)
            && t.disk == map[] && t.entries == Some(map[]) && t.place.Idle? && t.clock == clock
  {
    var d, job := Done(clock, a, result), FromBody(a).job;
    var d1 := Apply(d, Clock(job.expiresAt + RETENTION_MS));
    var d2 := Apply(d1, Forget(job.id));
    PrunedIsEmpty(clock, a, result);
    Cons(d, Clock(job.expiresAt + RETENTION_MS), [Forget(job.id)] + ([Clock(clock)] + []), 1, lapses);
    Cons(d1, Forget(job.id), [Clock(clock)] + [], 1, lapses);
    Cons(d2, Clock(clock), [], 1, lapses);
  }

  lemma ClockBackExceedsLimit(clock: int, a: Body, b: Body, result: JobResult, lapses: Lapses)
    requires Limitable(a) && Limitable(b) && lapses.back
    requires clock < FromBody(a).job.expiresAt && clock < FromBody(b).job.expiresAt
    ensures RunWith(Fresh(clock), Around(a, SetBack(clock, a, result), b), 1, lapses)
    ensures !WithinLimit(Limited(Fresh(clock), Around(a, SetBack(clock, a, result), b)), 1)
  {
    KeptIsDone(clock, a, result, lapses);
    BackWithoutRecord(clock, a, result, lapses);
    Append(Busy(clock, a), Kept(result), PrunedAndBack(clock, a), 1, lapses);
    LapseExceeds(clock, a, b, SetBack(clock, a, result), lapses);
  }

  // ---- Exactly then ----------------------------------------------------------------------------------------

  const SOME_ID := "00000000000000000000000000"
  const OTHER_ID := "00000000000000000000000001"

  function SomeBody(id: JobId): Body {
    Body(Some(id), Some("demo"), Some(0), Some(1), true)
  }

  lemma SomeBodies()
    ensures Limitable(SomeBody(SOME_ID)) && FromBody(SomeBody(SOME_ID)).job.id == SOME_ID
    ensures Limitable(SomeBody(OTHER_ID)) && FromBody(SomeBody(OTHER_ID)).job.id == OTHER_ID
    ensures SOME_ID != OTHER_ID
    ensures FromBody(SomeBody(SOME_ID)).job.expiresAt == FromBody(SomeBody(OTHER_ID)).job.expiresAt == 1
  {
    assert IsUlid(SOME_ID) && IsUlid(OTHER_ID);
    assert SOME_ID[25] != OTHER_ID[25];
  }

  /** The limit holds over all runs of a kind exactly when in that kind of run every started job is recorded before
      anything else can happen to it, and the clock does not go back. */
  lemma LimitHoldsExactly(lapses: Lapses)
    ensures (forall clock, steps, limit :: RunWith(Fresh(clock), steps, limit, lapses)
                                          ==> WithinLimit(Limited(Fresh(clock), steps), limit))
       <==> lapses == NONE
  {
    var a, b := SomeBody(SOME_ID), SomeBody(OTHER_ID);
    SomeBodies();
    if lapses == NONE {
      forall clock, steps, limit | RunWith(Fresh(clock), steps, limit, lapses)
        ensures WithinLimit(Limited(Fresh(clock), steps), limit)
      {
        HourlyLimit(clock, steps, limit);
      }
    } else if lapses.lost {
      LostResultExceedsLimit(0, a, b, INTERRUPTED, lapses);
    } else if lapses.crash {
      CrashExceedsLimit(0, a, b, lapses);
    } else {
      ClockBackExceedsLimit(0, a, b, INTERRUPTED, lapses);
    }
  }
}
