/** A job can start twice exactly when one of its frames outlives another: the run in which it does. */
module FrameReruns {
  import opened DeviceFrames
  import opened DeviceHandling
  import opened DeviceJobs
  import opened DeviceOnce
  import opened FrameStarts
  import opened Integers
  import opened Options
  import opened Verdicts

  /** The rest of the first job's handling, and then pruning. */
  function Between(id: JobId, again: int): seq<Step> {
    [FREE, Complete(INTERRUPTED), Finish(true), Answer, Clock(again), Forget(id)]
  }

  function FirstSteps(a: Body): seq<Step> {
    OnJobSteps(a, true, FREE, INTERRUPTED, true)
  }

  /** The device when the first job is handled, and forgotten at `again`. */
  function PrunedAfter(up: Device, a: Body, id: JobId, again: int): Device {
    Run(Apply(up, Deliver(a, true)), Between(id, again))
  }

  lemma FirstIsBetween(up: Device, a: Body, id: JobId, again: int)
    ensures PrunedAfter(up, a, id, again)
         == Apply(Apply(Run(up, FirstSteps(a)), Clock(again)), Forget(id))
  {
    var front := [FREE, Complete(INTERRUPTED), Finish(true), Answer];
    assert Between(id, again) == front + [Clock(again), Forget(id)];
    RunAppend(Apply(up, Deliver(a, true)), front, [Clock(again), Forget(id)]);
    assert FirstSteps(a) == [Deliver(a, true)] + front;
    RunCons(up, Deliver(a, true), front);
    RunTwo(Run(up, FirstSteps(a)), Clock(again), Forget(id));
  }

  /** Setting the clock to what it is changes nothing, so the second job follows on the pruned first. */
  lemma PrunedThen(up: Device, a: Body, b: Body, id: JobId, again: int)
    ensures Run(Run(up, FirstSteps(a)), [Clock(again), Forget(id), Clock(again), Deliver(b, true), FREE])
         == Run(Apply(PrunedAfter(up, a, id, again), Deliver(b, true)), [FREE])
  {
    var done := Run(up, FirstSteps(a));
    FirstIsBetween(up, a, id, again);
    RunFive(done, Clock(again), Forget(id), Clock(again), Deliver(b, true), FREE);
    var pruned := PrunedAfter(up, a, id, again);
    assert Apply(pruned, Clock(again)) == pruned;
    RunOne(Apply(pruned, Deliver(b, true)), FREE);
  }

  lemma TwiceInParts(up: Device, a: Body, b: Body, again: int)
    requires FromBody(a).Valid? && FromBody(b).Valid?
    ensures Run(up, TwiceSteps(a, INTERRUPTED, again, again, b))
         == Run(Apply(PrunedAfter(up, a, FromBody(a).job.id, again), Deliver(b, true)), [FREE])
  {
    var id := FromBody(a).job.id;
    PrunedThen(up, a, b, id, again);
    RunAppend(up, FirstSteps(a), [Clock(again), Forget(id), Clock(again), Deliver(b, true), FREE]);
  }

  lemma StaysIdle(d: Device, again: int, id: JobId)
    requires d.entries.Some? && d.place.Idle?
    ensures var pruned := Apply(Apply(d, Clock(again)), Forget(id));
            pruned.entries.Some? && pruned.place.Idle? && pruned.clock == again
  {
  }

  /** After the first job the device is idle again, at the later clock. */
  lemma IdleAgain(start: int, a: Body, again: int)
    requires FromBody(a).Valid?
    ensures var pruned := PrunedAfter(Apply(Fresh(start), Restart), a, FromBody(a).job.id, again);
            pruned.entries.Some? && pruned.place.Idle? && pruned.clock == again
  {
    var up, id := Apply(Fresh(start), Restart), FromBody(a).job.id;
    var done := Run(up, FirstSteps(a));
    assert done.entries.Some? && done.place.Idle? by {
      ValidHandled(up, a, FREE.action, FREE.env, INTERRUPTED, true);
    }
    FirstIsBetween(up, a, id, again);
    StaysIdle(done, again, id);
  }

  function BodyFor(raw: string, screen: string -> Verdict): Body
    requires OfferIn(raw, screen).Some?
  {
    BodyIn(screen(raw).env).value
  }

  lemma BodyIsOffer(raw: string, screen: string -> Verdict)
    requires OfferIn(raw, screen).Some?
    ensures FromBody(BodyFor(raw, screen)) == Valid(OfferIn(raw, screen).value.job)
  {
  }

  /** A frame in its window is taken when the verifier's memory is past. */
  lemma FrameTaken(s: Endpoint, raw: string, screen: string -> Verdict)
    requires OfferIn(raw, screen).Some? && -WINDOW_MS <= s.device.clock - OfferIn(raw, screen).value.ts <= WINDOW_MS
    requires s.device.entries.Some? && s.device.place.Idle?
    requires forall k :: k in s.seen ==> s.device.clock - s.seen[k] > REPLAY_MEMORY_MS
    ensures FromBody(BodyFor(raw, screen)) == Valid(OfferIn(raw, screen).value.job)
    ensures var t := Next(s, Receive(raw, s.device.clock, true), screen);
            && t.device == Apply(s.device, Deliver(BodyFor(raw, screen), true))
            && forall k :: k in t.seen ==> t.seen[k] == s.device.clock
  {
    assert Retained(s.seen, s.device.clock, REPLAY_MEMORY_MS) == map[];
    assert s.device.(clock := s.device.clock) == s.device;
  }

  lemma BetweenForward(clock: int, id: JobId, again: int)
    requires clock <= again
    ensures Forward(clock, Between(id, again))
    ensures forall step :: step in Between(id, again) ==> !step.Deliver? && !step.Crash?
  {
    var front, pruning := [FREE, Complete(INTERRUPTED), Finish(true), Answer], [Clock(again), Forget(id)];
    assert Between(id, again) == front + pruning;
    ForwardFront(clock, front, pruning);
    ForwardFront(again, [Forget(id)], []);
    assert pruning[1..] == [Forget(id)] + [];
  }

  /** From the second frame to its start. */
  function Last(b: string, again: int): seq<FrameStep> {
    [Receive(b, again, true)] + (Insides([FREE]) + [])
  }

  lemma LastRun(s: Endpoint, b: string, screen: string -> Verdict)
    requires OfferIn(b, screen).Some? && -WINDOW_MS <= s.device.clock - OfferIn(b, screen).value.ts <= WINDOW_MS
    requires forall k :: k in s.seen ==> s.device.clock - s.seen[k] > REPLAY_MEMORY_MS
    requires s.device.entries.Some? && s.device.place.Idle?
    ensures Onward(s, Last(b, s.device.clock), screen)
    ensures RunFrames(s, Last(b, s.device.clock), screen).device
         == Run(Apply(s.device, Deliver(BodyFor(b, screen), true)), [FREE])
  {
    var receive := Receive(b, s.device.clock, true);
    FrameRun(s, receive, Insides([FREE]) + [], screen);
    FrameTaken(s, b, screen);
    InsideRun(Next(s, receive, screen), [FREE], [], screen);
  }

  lemma SecondHalf(s: Endpoint, b: string, id: JobId, again: int, screen: string -> Verdict)
    requires OfferIn(b, screen).Some? && -WINDOW_MS <= again - OfferIn(b, screen).value.ts <= WINDOW_MS
    requires forall k :: k in s.seen ==> again - s.seen[k] > REPLAY_MEMORY_MS
    requires s.device.clock <= again
    requires var d := Run(s.device, Between(id, again)); d.entries.Some? && d.place.Idle? && d.clock == again
    ensures var steps := Insides(Between(id, again)) + Last(b, again);
            && Onward(s, steps, screen)
            && RunFrames(s, steps, screen).device
               == Run(Apply(Run(s.device, Between(id, again)), Deliver(BodyFor(b, screen), true)), [FREE])
  {
    BetweenForward(s.device.clock, id, again);
    InsideRun(s, Between(id, again), Last(b, again), screen);
    LastRun(s.(device := Run(s.device, Between(id, again))), b, screen);
  }

  /** The first frame at its earliest, the second once the journal has forgotten the job. */
  function Rerun(a: string, b: string, id: JobId, start: int, again: int): seq<FrameStep> {
    Insides([Restart]) + ([Receive(a, start, true)] + (Insides(Between(id, again)) + Last(b, again)))
  }

  /** Up to the first frame: the device is up, idle, and has the job in hand. */
  lemma FirstHalf(a: string, start: int, later: seq<FrameStep>, screen: string -> Verdict) returns (s: Endpoint)
    requires OfferIn(a, screen).Some? && -WINDOW_MS <= start - OfferIn(a, screen).value.ts <= WINDOW_MS
    ensures var steps := Insides([Restart]) + ([Receive(a, start, true)] + later);
            && RunFrames(FreshEndpoint(start), steps, screen) == RunFrames(s, later, screen)
            && Onward(FreshEndpoint(start), steps, screen) == Onward(s, later, screen)
    ensures s.device == Apply(Apply(Fresh(start), Restart), Deliver(BodyFor(a, screen), true))
    ensures s.device.clock == start && forall k :: k in s.seen ==> s.seen[k] == start
  {
    var up := Endpoint(Apply(Fresh(start), Restart), map[]);
    RunOne(Fresh(start), Restart);
    assert [Restart][1..] == [];
    InsideRun(FreshEndpoint(start), [Restart], [Receive(a, start, true)] + later, screen);
    FrameRun(up, Receive(a, start, true), later, screen);
    FrameTaken(up, a, screen);
    s := Next(up, Receive(a, start, true), screen);
  }

  lemma RerunInParts(a: string, b: string, start: int, again: int, screen: string -> Verdict)
    requires OfferIn(a, screen).Some? && OfferIn(b, screen).Some?
    requires -WINDOW_MS <= start - OfferIn(a, screen).value.ts <= WINDOW_MS
    requires -WINDOW_MS <= again - OfferIn(b, screen).value.ts <= WINDOW_MS
    requires again - start > RETENTION_MS
    ensures var id := OfferIn(a, screen).value.job.id;
            var pruned := PrunedAfter(Apply(Fresh(start), Restart), BodyFor(a, screen), id, again);
            && Onward(FreshEndpoint(start), Rerun(a, b, id, start, again), screen)
            && RunFrames(FreshEndpoint(start), Rerun(a, b, id, start, again), screen).device
               == Run(Apply(pruned, Deliver(BodyFor(b, screen), true)), [FREE])
  {
    var id := OfferIn(a, screen).value.job.id;
    BodyIsOffer(a, screen);
    var s := FirstHalf(a, start, Insides(Between(id, again)) + Last(b, again), screen);
    IdleAgain(start, BodyFor(a, screen), again);
    SecondHalf(s, b, id, again, screen);
  }

  lemma {:induction false} InsidesInside(steps: seq<Step>)
    ensures forall step :: step in Insides(steps) ==> step.Inside?
    decreases |steps|
  {
    if steps != [] {
      InsidesInside(steps[1..]);
    }
  }

  lemma RerunOver(a: string, b: string, id: JobId, start: int, again: int)
    ensures Over(Rerun(a, b, id, start, again), {a, b})
  {
    InsidesInside([Restart]);
    InsidesInside(Between(id, again));
    InsidesInside([FREE]);
  }

  /** Times for the first frame and the second. */
  lemma OutlivesTimes(first: Offer, second: Offer) returns (start: int, again: int)
    requires Outlives(first, second)
    ensures start == first.ts - WINDOW_MS && start < first.job.expiresAt <= again && again - start > RETENTION_MS
    ensures -WINDOW_MS <= again - second.ts <= WINDOW_MS && again < second.job.expiresAt
  {
    start, again := first.ts - WINDOW_MS, Max(GoneBy(first), second.ts - WINDOW_MS);
  }

  lemma RerunStartsTwice(a: string, b: string, first: Offer, second: Offer, start: int, again: int,
                         screen: string -> Verdict)
    requires OfferIn(a, screen) == Some(first) && OfferIn(b, screen) == Some(second)
    requires first.job.id == second.job.id && start == first.ts - WINDOW_MS
    requires start < first.job.expiresAt <= again && again - start > RETENTION_MS
    requires -WINDOW_MS <= again - second.ts <= WINDOW_MS && again < second.job.expiresAt
    ensures var steps := Rerun(a, b, first.job.id, start, again);
            && Onward(FreshEndpoint(start), steps, screen)
            && DeviceOnce.Starts(RunFrames(FreshEndpoint(start), steps, screen).device.log, first.job.id) == 2
  {
    var up, bodyA, bodyB := Apply(Fresh(start), Restart), BodyFor(a, screen), BodyFor(b, screen);
    assert FromBody(bodyA) == Valid(first.job) && FromBody(bodyB) == Valid(second.job) by {
      BodyIsOffer(a, screen);
      BodyIsOffer(b, screen);
    }
    var twice := Run(up, TwiceSteps(bodyA, INTERRUPTED, again, again, bodyB));
    assert DeviceOnce.Starts(twice.log, first.job.id) == 2 by {
      RunsTwice(start, bodyA, INTERRUPTED, again, again, bodyB);
    }
    RerunInParts(a, b, start, again, screen);
    TwiceInParts(up, bodyA, bodyB, again);
  }

  /** When one frame outlives another, their job can run once under each. */
  lemma OutlivingStartsTwice(texts: set<string>, a: string, b: string, screen: string -> Verdict)
    returns (clock: int, steps: seq<FrameStep>)
    requires a in texts && b in texts && OfferIn(a, screen).Some? && OfferIn(b, screen).Some?
    requires Outlives(OfferIn(a, screen).value, OfferIn(b, screen).value)
    ensures Onward(FreshEndpoint(clock), steps, screen) && Over(steps, texts)
    ensures var log := RunFrames(FreshEndpoint(clock), steps, screen).device.log;
            DeviceOnce.Starts(log, OfferIn(a, screen).value.job.id) == 2
  {
    var first, second := OfferIn(a, screen).value, OfferIn(b, screen).value;
    var start, again := OutlivesTimes(first, second);
    clock, steps := start, Rerun(a, b, first.job.id, start, again);
    RerunStartsTwice(a, b, first, second, start, again, screen);
    RerunOver(a, b, first.job.id, start, again);
  }

  /** No run that receives some texts, under a clock that does not go back, starts a job twice. */
  ghost predicate StartsOnce(texts: set<string>, screen: string -> Verdict) {
    forall clock, steps, id ::
      Onward(FreshEndpoint(clock), steps, screen) && Over(steps, texts)
      ==> DeviceOnce.Starts(RunFrames(FreshEndpoint(clock), steps, screen).device.log, id) <= 1
  }

  lemma NoneOutlivesSuffices(texts: set<string>, screen: string -> Verdict)
    requires NoneOutlives(texts, screen)
    ensures StartsOnce(texts, screen)
  {
    forall clock, steps, id | Onward(FreshEndpoint(clock), steps, screen) && Over(steps, texts)
      ensures DeviceOnce.Starts(RunFrames(FreshEndpoint(clock), steps, screen).device.log, id) <= 1
    {
      OnceFrames(FreshEndpoint(clock), steps, texts, screen);
    }
  }

  lemma OneOutlives(texts: set<string>, a: string, b: string, screen: string -> Verdict)
    requires a in texts && b in texts && OfferIn(a, screen).Some? && OfferIn(b, screen).Some?
    requires Outlives(OfferIn(a, screen).value, OfferIn(b, screen).value)
    ensures !StartsOnce(texts, screen)
  {
    var clock, steps := OutlivingStartsTwice(texts, a, b, screen);
  }

  /** From frames to the executor: no run on some texts starts a job twice exactly when no frame among them outlives
      another of the same job. */
  lemma OnceIffNoneOutlives(texts: set<string>, screen: string -> Verdict)
    ensures StartsOnce(texts, screen) <==> NoneOutlives(texts, screen)
  {
    if NoneOutlives(texts, screen) {
      NoneOutlivesSuffices(texts, screen);
    } else {
      var a, b :| a in texts && b in texts && OfferIn(a, screen).Some? && OfferIn(b, screen).Some?
                  && Outlives(OfferIn(a, screen).value, OfferIn(b, screen).value);
      OneOutlives(texts, a, b, screen);
    }
  }
}
