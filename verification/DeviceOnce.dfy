/** A job is executed at most once, over every run of the device. */
module DeviceOnce {
  import opened DeviceHandling
  import opened DeviceJobs
  import opened Options

  function Starts(log: seq<Event>, id: JobId): nat {
    if log == [] then 0
    else Starts(log[..|log| - 1], id) + (if log[|log| - 1] == Started(id) then 1 else 0)
  }

  /** When a valid job may be received: its id, the clock at its delivery, its expiry. */
  type Offers = (JobId, int, int) -> bool

  /** The job received at `at` is still recorded so, or is past both its expiry and the retention. */
  predicate Recalled(d: Device, id: JobId, at: int, expiry: int) {
    || (id in d.disk && d.disk[id].receivedAt == at && d.disk[id].expiresAt == Some(expiry))
    || (d.clock - at > RETENTION_MS && d.clock >= expiry)
  }

  ghost predicate Guarded(d: Device, id: JobId, offers: Offers) {
    exists at, expiry :: offers(id, at, expiry) && at < expiry && Recalled(d, id, at, expiry)
  }

  predicate PlaceOk(d: Device, offers: Offers) {
    match d.place
    case Received(job, entry) =>
      && job.id in d.disk && d.disk[job.id] == entry && entry.result.None?
      && entry.expiresAt == Some(job.expiresAt) && offers(job.id, entry.receivedAt, job.expiresAt)
      && (Started(job.id) in d.log ==> job.expiresAt <= entry.receivedAt)
    case Executing(entry) => entry.jobId in d.disk && d.disk[entry.jobId] == entry
    case Ran(entry, _) =>
      entry.jobId in d.disk && d.disk[entry.jobId] == entry.(executed := d.disk[entry.jobId].executed)
    case _ => true
  }

  ghost predicate Once(d: Device, offers: Offers) {
    && DiskOk(d)
    && PlaceOk(d, offers)
    && (forall id :: Started(id) in d.log ==> Guarded(d, id, offers))
    && (forall id :: Starts(d.log, id) <= 1)
  }

  /** The clock does not go back; a delivery is one of the offers, and one of a job that was started and forgotten comes
      too late. */
  predicate Permitted(d: Device, step: Step, offers: Offers) {
    match step
    case Clock(now) => d.clock <= now
    case Deliver(body, _) =>
      FromBody(body).Valid? ==>
        var job := FromBody(body).job;
        && offers(job.id, d.clock, job.expiresAt)
        && (job.id !in d.disk && Started(job.id) in d.log ==> job.expiresAt <= d.clock)
    case _ => true
  }

  lemma StartsAppend(log: seq<Event>, e: Event, id: JobId)
    ensures Starts(log + [e], id) == Starts(log, id) + (if e == Started(id) then 1 else 0)
  {
    assert (log + [e])[..|log|] == log;
  }

  lemma {:induction false} StartsMembers(log: seq<Event>, id: JobId)
    ensures Starts(log, id) == 0 <==> Started(id) !in log
  {
    if log != [] {
      StartsMembers(log[..|log| - 1], id);
      assert log == log[..|log| - 1] + [log[|log| - 1]];
    }
  }

  /** A step that writes nothing to the log keeps the invariant when it keeps what is recalled. */
  lemma OnceQuiet(d: Device, t: Device, offers: Offers)
    requires Once(d, offers) && DiskOk(t) && PlaceOk(t, offers) && t.log == d.log
    requires forall id, at, expiry :: Recalled(d, id, at, expiry) ==> Recalled(t, id, at, expiry)
    ensures Once(t, offers)
  {
    forall id | Started(id) in t.log
      ensures Guarded(t, id, offers)
    {
      var at, expiry :| offers(id, at, expiry) && at < expiry && Recalled(d, id, at, expiry);
      assert Recalled(t, id, at, expiry);
    }
  }

  lemma OnceDuplicate(d: Device, id: JobId, written: bool, offers: Offers)
    requires Once(d, offers) && d.entries.Some? && d.place.Idle? && id in d.entries.value
    ensures Once(Duplicate(d, id, written), offers)
  {
    OnceQuiet(d, Duplicate(d, id, written), offers);
  }

  lemma OnceNew(d: Device, body: Body, offers: Offers)
    requires Once(d, offers) && d.entries.Some? && d.place.Idle? && Permitted(d, Deliver(body, true), offers)
    requires !FromBody(body).Unanswerable? && EntryFor(body, d.clock).jobId !in d.entries.value
    ensures Once(Delivered(d, body, true), offers)
  {
    OnceQuiet(d, Delivered(d, body, true), offers);
  }

  lemma OnceDeliver(d: Device, body: Body, written: bool, offers: Offers)
    requires Once(d, offers) && Permitted(d, Deliver(body, written), offers)
    ensures Once(Apply(d, Deliver(body, written)), offers)
  {
    if d.entries.Some? && d.place.Idle? && !FromBody(body).Unanswerable? {
      var id := EntryFor(body, d.clock).jobId;
      if id in d.entries.value {
        OnceDuplicate(d, id, written, offers);
      } else if written {
        OnceNew(d, body, offers);
      }
    }
  }

  lemma OnceAdmit(d: Device, action: Option<Action>, env: Surroundings, offers: Offers)
    requires Once(d, offers) && d.entries.Some? && d.place.Received?
    ensures Once(Admitted(d, action, env), offers)
  {
    var job, entry, t := d.place.job, d.place.entry, Admitted(d, action, env);
    if t.place.Executing? {
      assert Started(job.id) !in d.log;
      forall id
        ensures Starts(t.log, id) <= 1
      {
        StartsAppend(d.log, Started(job.id), id);
        StartsMembers(d.log, id);
      }
      forall id | Started(id) in t.log
        ensures Guarded(t, id, offers)
      {
        if id == job.id {
          assert Recalled(t, id, entry.receivedAt, job.expiresAt);
        } else {
          assert Started(id) in d.log;
          var at, expiry :| offers(id, at, expiry) && at < expiry && Recalled(d, id, at, expiry);
          assert Recalled(t, id, at, expiry);
        }
      }
    } else {
      OnceQuiet(d, t, offers);
    }
  }

  /** A step that logs anything but a start. */
  lemma OnceLogged(d: Device, t: Device, e: Event, offers: Offers)
    requires Once(d, offers) && t == d.(log := d.log + [e]) && !e.Started?
    ensures Once(t, offers)
  {
    forall id
      ensures Starts(t.log, id) <= 1 && (Started(id) in t.log ==> Guarded(t, id, offers))
    {
      StartsAppend(d.log, e, id);
      if Started(id) in t.log {
        assert Started(id) in d.log;
        var at, expiry :| offers(id, at, expiry) && at < expiry && Recalled(d, id, at, expiry);
        assert Recalled(t, id, at, expiry);
      }
    }
  }

  lemma OnceAnswer(d: Device, offers: Offers)
    requires Once(d, offers)
    ensures Once(Apply(d, Answer), offers)
  {
    if d.entries.Some? && d.place.Answering? {
      var ack, res := AckSent(d.place.id), ResultSent(d.place.id, d.place.result);
      var acked := d.(log := d.log + [ack]);
      var answered := acked.(log := acked.log + [res]);
      OnceLogged(d, acked, ack, offers);
      OnceLogged(acked, answered, res, offers);
      assert Answered(d).log == answered.log;
      OnceQuiet(answered, Answered(d), offers);
    }
  }

  lemma OnceForget(d: Device, gone: JobId, offers: Offers)
    requires Once(d, offers)
    ensures Once(Apply(d, Forget(gone)), offers)
  {
    var t := Apply(d, Forget(gone));
    if t != d {
      var less := t.(log := d.log);
      OnceQuiet(d, less, offers);
      OnceLogged(less, t, Forgotten(gone), offers);
    }
  }

  lemma OnceStep(d: Device, step: Step, offers: Offers)
    requires Once(d, offers) && Permitted(d, step, offers)
    ensures Once(Apply(d, step), offers)
  {
    match step
    case Deliver(body, written) => OnceDeliver(d, body, written, offers);
    case Admit(action, env) => if d.entries.Some? && d.place.Received? { OnceAdmit(d, action, env, offers); }
    case Answer => OnceAnswer(d, offers);
    case Forget(id) => OnceForget(d, id, offers);
    case _ => OnceQuiet(d, Apply(d, step), offers);
  }

  // ---- One expiry for every job ------------------------------------------------------------------------

  /** The clock never goes back, and every delivery of a valid job repeats the same expiry. */
  predicate Faithful(d: Device, step: Step, expiry: JobId -> int) {
    match step
    case Clock(now) => d.clock <= now
    case Deliver(body, _) => FromBody(body).Valid? ==> FromBody(body).job.expiresAt == expiry(FromBody(body).job.id)
    case _ => true
  }

  predicate FaithfulRun(d: Device, steps: seq<Step>, expiry: JobId -> int)
    decreases |steps|
  {
    steps == [] || (Faithful(d, steps[0], expiry) && FaithfulRun(Apply(d, steps[0]), steps[1..], expiry))
  }

  /** At any time, under its one expiry. */
  function Until(expiry: JobId -> int): Offers {
    (id, at, due) => due == expiry(id)
  }

  lemma {:induction false} OnceRun(d: Device, steps: seq<Step>, expiry: JobId -> int)
    requires Once(d, Until(expiry)) && FaithfulRun(d, steps, expiry)
    ensures Once(Run(d, steps), Until(expiry))
    decreases |steps|
  {
    if steps != [] {
      OnceStep(d, steps[0], Until(expiry));
      OnceRun(Apply(d, steps[0]), steps[1..], expiry);
    }
  }

  /** The executor starts at most once per job, over every run of deliveries and redeliveries, failed writes, crashes
      at any point, restarts and prunes: pruning waits for the job's expiry, and an expired job is refused. */
  lemma AtMostOnce(clock: int, steps: seq<Step>, expiry: JobId -> int, id: JobId)
    requires FaithfulRun(Fresh(clock), steps, expiry)
    ensures Starts(Run(Fresh(clock), steps).log, id) <= 1
  {
    OnceRun(Fresh(clock), steps, expiry);
  }

  // ---- What the guarantee needs of the deliveries ------------------------------------------------------

  /** The clock never goes back. */
  predicate Forward(clock: int, steps: seq<Step>)
    decreases |steps|
  {
    steps == [] ||
    if steps[0].Clock? then clock <= steps[0].now && Forward(steps[0].now, steps[1..])
    else Forward(clock, steps[1..])
  }

  /** Every job frame of the run carries one of the bodies. */
  ghost predicate RunOver(steps: seq<Step>, pool: set<Body>) {
    forall step :: step in steps && step.Deliver? ==> step.body in pool
  }

  ghost predicate OneExpiry(pool: set<Body>) {
    forall a, b :: a in pool && b in pool && FromBody(a).Valid? && FromBody(b).Valid?
                   && FromBody(a).job.id == FromBody(b).job.id
                   ==> FromBody(a).job.expiresAt == FromBody(b).job.expiresAt
  }

  ghost function ExpiryIn(pool: set<Body>, id: JobId): int {
    if exists body :: body in pool && FromBody(body).Valid? && FromBody(body).job.id == id then
      var body :| body in pool && FromBody(body).Valid? && FromBody(body).job.id == id;
      FromBody(body).job.expiresAt
    else 0
  }

  lemma {:induction false} ForwardIsFaithful(d: Device, steps: seq<Step>, expiry: JobId -> int)
    requires Forward(d.clock, steps)
    requires forall step :: step in steps && step.Deliver? && FromBody(step.body).Valid?
                            ==> FromBody(step.body).job.expiresAt == expiry(FromBody(step.body).job.id)
    ensures FaithfulRun(d, steps, expiry)
    decreases |steps|
  {
    if steps != [] {
      assert steps[0] in steps;
      ForwardIsFaithful(Apply(d, steps[0]), steps[1..], expiry);
    }
  }

  lemma OneExpirySuffices(pool: set<Body>, clock: int, steps: seq<Step>, id: JobId)
    requires OneExpiry(pool) && Forward(clock, steps) && RunOver(steps, pool)
    ensures Starts(Run(Fresh(clock), steps).log, id) <= 1
  {
    var expiry := (id: JobId) => ExpiryIn(pool, id);
    ForwardIsFaithful(Fresh(clock), steps, expiry);
    AtMostOnce(clock, steps, expiry, id);
  }

  // ---- A job that runs twice ---------------------------------------------------------------------------

  /** How often a run starts a job. */
  function StartsIn(d: Device, steps: seq<Step>, id: JobId): nat {
    Starts(Run(d, steps).log, id)
  }

  /** An action that every gate lets through until the job expires. */
  const FREE := Admit(Some(Action(true, false, false)), Surroundings(false, true, 0))

  /** A job is run, its record forgotten at `pruned`, and its id delivered and admitted again at `again`. */
  function TwiceSteps(a: Body, result: JobResult, pruned: int, again: int, b: Body): seq<Step>
    requires FromBody(a).Valid?
  {
    OnJobSteps(a, true, FREE, result, true)
    + [Clock(pruned), Forget(FromBody(a).job.id), Clock(again), Deliver(b, true), FREE]
  }

  lemma RunsTwice(start: int, a: Body, result: JobResult, pruned: int, again: int, b: Body)
    requires FromBody(a).Valid? && FromBody(b).Valid? && FromBody(a).job.id == FromBody(b).job.id
    requires start < FromBody(a).job.expiresAt <= pruned && pruned - start > RETENTION_MS
    requires again < FromBody(b).job.expiresAt
    ensures StartsIn(Apply(Fresh(start), Restart), TwiceSteps(a, result, pruned, again, b), FromBody(a).job.id) == 2
  {
    var id := FromBody(a).job.id;
    var later := [Clock(pruned), Forget(id), Clock(again), Deliver(b, true), FREE];
    var up := Apply(Fresh(start), Restart);
    ValidHandled(up, a, FREE.action, FREE.env, result, true);
    var d := Run(up, OnJobSteps(a, true, FREE, result, true));
    assert d.log == [Started(id), AckSent(id), ResultSent(id, result)];
    RunAppend(up, OnJobSteps(a, true, FREE, result, true), later);
    RunsAgain(d, pruned, again, b);
    TwoStarts(id, result);
  }

  lemma RunsAgain(d: Device, pruned: int, again: int, b: Body)
    requires FromBody(b).Valid? && d.entries == Some(d.disk) && d.place.Idle?
    requires var id := FromBody(b).job.id;
             id in d.disk && d.disk[id].expiresAt.Some? && Forgettable(d.disk[id], pruned)
    requires again < FromBody(b).job.expiresAt
    ensures var id := FromBody(b).job.id;
            Run(d, [Clock(pruned), Forget(id), Clock(again), Deliver(b, true), FREE]).log
            == d.log + [Forgotten(id)] + [Started(id)]
  {
    var job := FromBody(b).job;
    var id := job.id;
    RunFive(d, Clock(pruned), Forget(id), Clock(again), Deliver(b, true), FREE);
    var gone := Device(d.disk - {id}, Some(d.disk - {id}), Idle, again, d.log + [Forgotten(id)]);
    assert Apply(Apply(Apply(d, Clock(pruned)), Forget(id)), Clock(again)) == gone;
    var back := Apply(gone, Deliver(b, true));
    assert back.place == Received(job, NewEntry(id, job.kind, again, Some(job.expiresAt))) && back.log == gone.log;
  }

  lemma TwoStarts(id: JobId, result: JobResult)
    ensures Starts([Started(id), AckSent(id), ResultSent(id, result)] + [Forgotten(id)] + [Started(id)], id) == 2
  {
    var log := [Started(id), AckSent(id), ResultSent(id, result)];
    StartsAppend(log + [Forgotten(id)], Started(id), id);
    StartsAppend(log, Forgotten(id), id);
    assert log == [] + [Started(id)] + [AckSent(id)] + [ResultSent(id, result)];
    StartsAppend([] + [Started(id)] + [AckSent(id)], ResultSent(id, result), id);
    StartsAppend([] + [Started(id)], AckSent(id), id);
    StartsAppend([], Started(id), id);
  }

  /** The clock assumption is needed: after a clock that goes back across a pruned job's expiry, a redelivery of the
      same body runs the job again. */
  lemma ClockGoingBackRunsTwice(body: Body, result: JobResult)
    requires FromBody(body).Valid?
    ensures var job := FromBody(body).job;
            var start, pruned := job.expiresAt - 1, job.expiresAt + RETENTION_MS;
            StartsIn(Apply(Fresh(start), Restart), TwiceSteps(body, result, pruned, start, body), job.id) == 2
  {
    var job := FromBody(body).job;
    RunsTwice(job.expiresAt - 1, body, result, job.expiresAt + RETENTION_MS, job.expiresAt - 1, body);
  }

  /** Two expiries for one id: with the clock going forward, the job runs once under each. */
  lemma TwoExpiriesRunTwice(a: Body, b: Body, result: JobResult)
    requires FromBody(a).Valid? && FromBody(b).Valid? && FromBody(a).job.id == FromBody(b).job.id
    requires FromBody(a).job.expiresAt < FromBody(b).job.expiresAt
    ensures var due := FromBody(a).job.expiresAt;
            var start := due - RETENTION_MS - 1;
            var steps := [Restart] + TwiceSteps(a, result, due, due, b);
            && Forward(start, steps) && RunOver(steps, {a, b})
            && Starts(Run(Fresh(start), steps).log, FromBody(a).job.id) == 2
  {
    var due := FromBody(a).job.expiresAt;
    var start := due - RETENTION_MS - 1;
    var twice := TwiceSteps(a, result, due, due, b);
    RunsTwice(start, a, result, due, due, b);
    RunCons(Fresh(start), Restart, twice);
    ForwardTwice(start, a, result, due, b);
  }

  lemma ForwardTwice(start: int, a: Body, result: JobResult, due: int, b: Body)
    requires FromBody(a).Valid? && start <= due
    ensures var steps := [Restart] + TwiceSteps(a, result, due, due, b);
            Forward(start, steps) && RunOver(steps, {a, b})
  {
    var id := FromBody(a).job.id;
    var tail := [Clock(due), Forget(id), Clock(due), Deliver(b, true), FREE];
    var last := [Deliver(b, true), FREE];
    assert last + [] == last;
    ForwardFront(due, last, []);
    assert [Clock(due)] + last == [Clock(due), Deliver(b, true), FREE];
    assert ([Clock(due)] + last)[1..] == last;
    assert Forward(due, [Clock(due)] + last);
    ForwardFront(due, [Forget(id)], [Clock(due)] + last);
    assert tail[1..] == [Forget(id)] + ([Clock(due)] + last);
    var steps := [Restart] + TwiceSteps(a, result, due, due, b);
    assert steps == [Restart, Deliver(a, true), FREE, Complete(result), Finish(true), Answer] + tail;
    ForwardFront(start, [Restart, Deliver(a, true), FREE, Complete(result), Finish(true), Answer], tail);
  }

  lemma {:induction false} ForwardFront(clock: int, front: seq<Step>, tail: seq<Step>)
    requires forall step :: step in front ==> !step.Clock?
    ensures Forward(clock, front + tail) == Forward(clock, tail)
    decreases |front|
  {
    if front == [] {
      assert front + tail == tail;
    } else {
      assert front[0] in front && (front + tail)[1..] == front[1..] + tail;
      ForwardFront(clock, front[1..], tail);
    }
  }

  /** Over all runs whose clock does not go back, no job starts twice, exactly when the valid bodies for one job id
      carry one expiry. */
  lemma OnceIffOneExpiry(pool: set<Body>)
    ensures OneExpiry(pool)
       <==> forall clock, steps, id :: Forward(clock, steps) && RunOver(steps, pool)
                                       ==> Starts(Run(Fresh(clock), steps).log, id) <= 1
  {
    if OneExpiry(pool) {
      forall clock, steps, id | Forward(clock, steps) && RunOver(steps, pool)
        ensures Starts(Run(Fresh(clock), steps).log, id) <= 1
      {
        OneExpirySuffices(pool, clock, steps, id);
      }
    } else {
      var a, b :| a in pool && b in pool && FromBody(a).Valid? && FromBody(b).Valid?
                  && FromBody(a).job.id == FromBody(b).job.id
                  && FromBody(a).job.expiresAt < FromBody(b).job.expiresAt;
      var due := FromBody(a).job.expiresAt;
      var start, steps := due - RETENTION_MS - 1, [Restart] + TwiceSteps(a, INTERRUPTED, due, due, b);
      TwoExpiriesRunTwice(a, b, INTERRUPTED);
      assert RunOver(steps, pool);
      assert Starts(Run(Fresh(start), steps).log, FromBody(a).job.id) == 2;
    }
  }
}
