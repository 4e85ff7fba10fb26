/** From raw text to execution: runs of frames through the verifier into the job path.

    The checks in front of the clock are a parameter, `screen`; `DeviceEndpoint` puts the agent's in its place. */
module DeviceFrames {
  import opened CanonicalJson
  import opened DeviceJobs
  import opened DeviceOnce
  import opened Options
  import opened Verdicts

  // ---- The body of a job frame -----------------------------------------------------------------------------

  function TextIn(fields: map<string, Json>, name: string): Option<string> {
    match Field(fields, name)
    case Some(Str(s)) => Some(s)
    case _ => None
  }

  predicate HasOrigin(fields: map<string, Json>) {
    match Field(fields, "origin")
    case Some(Obj(origin)) => TextIn(origin, "provider").Some? && TextIn(origin, "ref").Some?
    case _ => false
  }

  function BodyOf(fields: map<string, Json>): Body {
    var params := Field(fields, "params");
    Body(TextIn(fields, "job_id"), TextIn(fields, "kind"),
         SafeInteger(Field(fields, "issued_at")), SafeInteger(Field(fields, "expires_at")),
         SafeInteger(Field(fields, "attempt")).Some? && HasOrigin(fields) && params.Some? && params.value.Obj?)
  }

  /** The job a verified frame is about; the other types of frame carry none. */
  function BodyIn(env: Envelope): Option<Body> {
    if Field(env.fields, "type") != Some(Str("job")) then None
    else
      match Field(env.fields, "body")
      case Some(Obj(fields)) => Some(BodyOf(fields))
      case _ => None
  }

  // ---- Runs of frames --------------------------------------------------------------------------------------

  /** The device, and the frames its verifier remembers. */
  datatype Endpoint = Endpoint(device: Device, seen: map<string, int>)

  /** A frame comes in, and `now` is the clock when its job is looked at; or something happens inside the device. */
  datatype FrameStep =
    | Receive(raw: string, now: int, written: bool)
    | Inside(step: Step)

  function Verified(s: Endpoint, raw: string, screen: string -> Verdict): Verdict {
    AgentVerdict(screen(raw), s.device.clock, s.seen, REPLAY_MEMORY_MS)
  }

  /** The job the device takes from a frame. */
  function TakenFrom(s: Endpoint, raw: string, screen: string -> Verdict): Option<Body> {
    if Verified(s, raw, screen).Accepted? then BodyIn(Verified(s, raw, screen).env) else None
  }

  /** `on_frame` up to the gates. */
  function OnFrame(s: Endpoint, raw: string, now: int, written: bool, screen: string -> Verdict): Endpoint {
    var body := TakenFrom(s, raw, screen);
    Endpoint(if body.None? then s.device else Apply(s.device.(clock := now), Deliver(body.value, written)),
             AgentSeen(screen(raw), s.device.clock, s.seen, REPLAY_MEMORY_MS))
  }

  /** One step. Jobs come in frames only, and a crash loses what the verifier remembers. */
  function Next(s: Endpoint, step: FrameStep, screen: string -> Verdict): Endpoint {
    match step
    case Receive(raw, now, written) =>
      if s.device.entries.Some? && s.device.place.Idle? then OnFrame(s, raw, now, written, screen) else s
    case Inside(Deliver(_, _)) => s
    case Inside(Crash) => Endpoint(Apply(s.device, Crash), map[])
    case Inside(inner) => s.(device := Apply(s.device, inner))
  }

  function RunFrames(s: Endpoint, steps: seq<FrameStep>, screen: string -> Verdict): Endpoint
    decreases |steps|
  {
    if steps == [] then s else RunFrames(Next(s, steps[0], screen), steps[1..], screen)
  }

  function FreshEndpoint(clock: int): Endpoint {
    Endpoint(Fresh(clock), map[])
  }

  /** No reading of the clock is below the one before. */
  predicate Later(s: Endpoint, step: FrameStep) {
    match step
    case Receive(_, now, _) => s.device.clock <= now
    case Inside(Clock(now)) => s.device.clock <= now
    case _ => true
  }

  predicate Onward(s: Endpoint, steps: seq<FrameStep>, screen: string -> Verdict)
    decreases |steps|
  {
    steps == [] || (Later(s, steps[0]) && Onward(Next(s, steps[0], screen), steps[1..], screen))
  }

  ghost predicate Over(steps: seq<FrameStep>, texts: set<string>) {
    forall step :: step in steps && step.Receive? ==> step.raw in texts
  }

  /** The steps of the job path that a run of frames amounts to. */
  function JobSteps(s: Endpoint, steps: seq<FrameStep>, screen: string -> Verdict): seq<Step>
    decreases |steps|
  {
    if steps == [] then []
    else JobStep(s, steps[0], screen) + JobSteps(Next(s, steps[0], screen), steps[1..], screen)
  }

  function JobStep(s: Endpoint, step: FrameStep, screen: string -> Verdict): seq<Step> {
    match step
    case Receive(raw, now, written) =>
      if s.device.entries.Some? && s.device.place.Idle? && TakenFrom(s, raw, screen).Some?
      then [Clock(now), Deliver(TakenFrom(s, raw, screen).value, written)]
      else []
    case Inside(Deliver(_, _)) => []
    case Inside(inner) => [inner]
  }

  lemma RunOne(d: Device, a: Step)
    ensures Run(d, [a]) == Apply(d, a)
  {
    RunCons(d, a, []);
    assert [a] == [a] + [];
  }

  lemma RunTwo(d: Device, a: Step, b: Step)
    ensures Run(d, [a, b]) == Apply(Apply(d, a), b)
  {
    RunCons(d, a, [b]);
    RunOne(Apply(d, a), b);
    assert [a, b] == [a] + [b];
  }

  lemma DeliveryRuns(d: Device, now: int, body: Body, written: bool)
    ensures Run(d, [Clock(now), Deliver(body, written)]) == Apply(d.(clock := now), Deliver(body, written))
  {
    RunTwo(d, Clock(now), Deliver(body, written));
  }

  lemma JobStepRuns(s: Endpoint, step: FrameStep, screen: string -> Verdict)
    ensures Run(s.device, JobStep(s, step, screen)) == Next(s, step, screen).device
  {
    if step.Receive? {
      var body := TakenFrom(s, step.raw, screen);
      if body.Some? {
        DeliveryRuns(s.device, step.now, body.value, step.written);
      }
    } else if !step.step.Deliver? {
      RunOne(s.device, step.step);
    }
  }

  /** Every run of frames is a run of the job path: what holds of all runs of the job path holds behind the verifier. */
  lemma {:induction false} FramesAreJobs(s: Endpoint, steps: seq<FrameStep>, screen: string -> Verdict)
    ensures RunFrames(s, steps, screen).device == Run(s.device, JobSteps(s, steps, screen))
    decreases |steps|
  {
    if steps != [] {
      var t := Next(s, steps[0], screen);
      JobStepRuns(s, steps[0], screen);
      FramesAreJobs(t, steps[1..], screen);
      RunAppend(s.device, JobStep(s, steps[0], screen), JobSteps(t, steps[1..], screen));
    }
  }

  // ---- The handling of one frame ---------------------------------------------------------------------------

  function Insides(steps: seq<Step>): seq<FrameStep> {
    if steps == [] then [] else [Inside(steps[0])] + Insides(steps[1..])
  }

  lemma FrameRun(s: Endpoint, step: FrameStep, rest: seq<FrameStep>, screen: string -> Verdict)
    ensures RunFrames(s, [step] + rest, screen) == RunFrames(Next(s, step, screen), rest, screen)
    ensures Onward(s, [step] + rest, screen) == (Later(s, step) && Onward(Next(s, step, screen), rest, screen))
  {
    assert ([step] + rest)[1..] == rest;
  }

  lemma InsideNext(s: Endpoint, step: Step, screen: string -> Verdict)
    requires !step.Deliver? && !step.Crash?
    ensures Next(s, Inside(step), screen) == s.(device := Apply(s.device, step))
    ensures Apply(s.device, step).clock == if step.Clock? then step.now else s.device.clock
  {
  }

  lemma InsideCons(s: Endpoint, steps: seq<Step>, rest: seq<FrameStep>, screen: string -> Verdict)
    requires steps != []
    ensures var t, more := Next(s, Inside(steps[0]), screen), Insides(steps[1..]) + rest;
            && RunFrames(s, Insides(steps) + rest, screen) == RunFrames(t, more, screen)
            && Onward(s, Insides(steps) + rest, screen)
               == (Later(s, Inside(steps[0])) && Onward(t, more, screen))
  {
    assert Insides(steps) + rest == [Inside(steps[0])] + (Insides(steps[1..]) + rest);
    FrameRun(s, Inside(steps[0]), Insides(steps[1..]) + rest, screen);
  }

  lemma {:induction false} InsideRun(s: Endpoint, steps: seq<Step>, rest: seq<FrameStep>, screen: string -> Verdict)
    requires forall step :: step in steps ==> !step.Deliver? && !step.Crash?
    ensures var t := s.(device := Run(s.device, steps));
            && RunFrames(s, Insides(steps) + rest, screen) == RunFrames(t, rest, screen)
            && Onward(s, Insides(steps) + rest, screen) == (Forward(s.device.clock, steps) && Onward(t, rest, screen))
    decreases |steps|
  {
    if steps == [] {
      assert Insides(steps) + rest == rest;
    } else {
      assert steps[0] in steps;
      InsideCons(s, steps, rest, screen);
      InsideNext(s, steps[0], screen);
      InsideRun(Next(s, Inside(steps[0]), screen), steps[1..], rest, screen);
    }
  }

  /** The segments of a job frame's handling behind the first. */
  function Rest(admit: Step, result: JobResult, finished: bool): seq<Step> {
    [admit, Complete(result), Finish(finished), Answer]
  }

  /** The segments of one frame's handling in order. */
  function OnFrameSteps(raw: string, now: int, written: bool, admit: Step, result: JobResult, finished: bool)
    : seq<FrameStep>
  {
    [Receive(raw, now, written)] + (Insides(Rest(admit, result, finished)) + [])
  }

  lemma IdleRests(d: Device, admit: Step, result: JobResult, finished: bool)
    requires d.place.Idle? && admit.Admit?
    ensures Run(d, Rest(admit, result, finished)) == d
  {
    var answer := [Answer] + [];
    assert Rest(admit, result, finished) == [admit] + ([Complete(result)] + ([Finish(finished)] + answer));
    RunCons(d, admit, [Complete(result)] + ([Finish(finished)] + answer));
    RunCons(d, Complete(result), [Finish(finished)] + answer);
    RunCons(d, Finish(finished), answer);
    RunCons(d, Answer, []);
  }

  lemma JobHandled(d: Device, body: Body, written: bool, admit: Step, result: JobResult, finished: bool)
    ensures Run(Apply(d, Deliver(body, written)), Rest(admit, result, finished))
         == Run(d, OnJobSteps(body, written, admit, result, finished))
  {
    RunCons(d, Deliver(body, written), Rest(admit, result, finished));
    assert OnJobSteps(body, written, admit, result, finished)
        == [Deliver(body, written)] + Rest(admit, result, finished);
  }

  lemma FrameThenRest(s: Endpoint, step: FrameStep, rest: seq<Step>, screen: string -> Verdict)
    requires forall inner :: inner in rest ==> !inner.Deliver? && !inner.Crash?
    ensures var t := Next(s, step, screen);
            RunFrames(s, [step] + (Insides(rest) + []), screen) == t.(device := Run(t.device, rest))
  {
    FrameRun(s, step, Insides(rest) + [], screen);
    InsideRun(Next(s, step, screen), rest, [], screen);
  }

  /** A job frame that passes is handled as its job; any other frame leaves the job path as it is. */
  lemma HandledFrame(s: Endpoint, raw: string, now: int, written: bool, admit: Step, result: JobResult,
                     finished: bool, t: Endpoint, screen: string -> Verdict)
    requires s.device.entries.Some? && s.device.place.Idle? && admit.Admit?
    requires var body := TakenFrom(s, raw, screen);
             t.device == if body.None? then s.device
                         else Run(s.device.(clock := now), OnJobSteps(body.value, written, admit, result, finished))
    requires t.seen == AgentSeen(screen(raw), s.device.clock, s.seen, REPLAY_MEMORY_MS)
    ensures RunFrames(s, OnFrameSteps(raw, now, written, admit, result, finished), screen) == t
  {
    var body := TakenFrom(s, raw, screen);
    FrameThenRest(s, Receive(raw, now, written), Rest(admit, result, finished), screen);
    if body.Some? {
      JobHandled(s.device.(clock := now), body.value, written, admit, result, finished);
    } else {
      IdleRests(s.device, admit, result, finished);
    }
  }
}
