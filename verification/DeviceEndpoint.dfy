/** The device as an object: its verifier and its job path, moved by one frame at a time as `DeviceFrames` says. */
module DeviceEndpoint {
  import opened CanonicalJson
  import opened DeviceFrames
  import opened DeviceJobs
  import opened DeviceObjects
  import opened FrameReruns
  import opened FrameStarts
  import opened Frames
  import opened Options
  import opened Verdicts

  /** All checks of the agent's verifier before the clock. */
  function Screening(r: Receiver): string -> Verdict {
    raw => AgentScreen(raw, r)
  }

  // ---- The agent's checks in front of the job path -----------------------------------------------------------

  /** The agent starts no job twice, over all runs on some raw texts and every clock that does not go back, exactly when
      no text among them outlives another of the same job. */
  lemma TextsStartOnce(texts: set<string>, r: Receiver)
    ensures StartsOnce(texts, Screening(r)) <==> NoneOutlives(texts, Screening(r))
  {
    OnceIffNoneOutlives(texts, Screening(r));
  }

  /** The text is what a trusted key signed, for this receiver. */
  predicate SignedFor(raw: string, r: Receiver) {
    var screened := AgentScreen(raw, r);
    screened.Accepted? &&
    var env := screened.env;
    && Canonicalize(Obj(env.fields)) == Some(raw) && env.to == r.me
    && env.kid in r.keys && r.keys[env.kid].owner == env.from
    && r.verifies(r.keys[env.kid].publicKey, SigningInput(env.fields), env.sig)
  }

  lemma ScreenedIsSigned(raw: string, r: Receiver)
    requires AgentScreen(raw, r).Accepted?
    ensures SignedFor(raw, r)
  {
    SameScreen(raw, r);
    var env := AgentScreen(raw, r).env;
    assert InWindow(env, env.ts);
    AcceptedIsGenuine(raw, r, env.ts, {});
  }

  /** Nothing is started but what a trusted key signed for this device. */
  lemma StartedIsSigned(texts: set<string>, r: Receiver, clock: int, steps: seq<FrameStep>, id: JobId)
    requires Onward(FreshEndpoint(clock), steps, Screening(r)) && Over(steps, texts)
    requires Started(id) in RunFrames(FreshEndpoint(clock), steps, Screening(r)).device.log
    ensures exists raw | raw in texts && SignedFor(raw, r) && OfferIn(raw, Screening(r)).Some? ::
              OfferIn(raw, Screening(r)).value.job.id == id && Timely(OfferIn(raw, Screening(r)).value)
  {
    var screen := Screening(r);
    StartedWasAsked(texts, screen, clock, steps, id);
    var raw :| raw in texts && OfferIn(raw, screen).Some?
               && OfferIn(raw, screen).value.job.id == id && Timely(OfferIn(raw, screen).value);
    OfferIsScreened(raw, r);
    ScreenedIsSigned(raw, r);
  }

  lemma OfferIsScreened(raw: string, r: Receiver)
    requires OfferIn(raw, Screening(r)).Some?
    ensures AgentScreen(raw, r).Accepted?
  {
  }

  // ---- The object ------------------------------------------------------------------------------------------

  class FrameHandler {
    const verifier: Verifier
    const agent: Agent

    ghost predicate Valid()
      reads this, agent, agent.journal
    {
      agent.Valid()
    }

    ghost function State(): Endpoint
      reads this, agent, agent.journal, verifier
    {
      Endpoint(agent.State(), verifier.seen)
    }

    constructor (verifier: Verifier, agent: Agent)
      requires agent.Valid()
      ensures Valid() && this.verifier == verifier && this.agent == agent
    {
      this.verifier, this.agent := verifier, agent;
    }

    /** What the verifier lets through to the job path. */
    method TakeFrom(raw: string) returns (body: Option<Body>)
      requires Valid()
      modifies verifier
      ensures body == TakenFrom(old(State()), raw, Screening(verifier.receiver))
      ensures verifier.seen == AgentSeen(Screening(verifier.receiver)(raw), agent.clock, old(verifier.seen),
                                         REPLAY_MEMORY_MS)
    {
      var verdict := verifier.Verify(raw, agent.clock);
      body := if verdict.Accepted? then BodyIn(verdict.env) else None;
    }

    /** The clock is read again, and the job is handled. */
    method TakeJob(body: Body, now: int, written: bool, action: Option<Action>, env: Surroundings, result: JobResult,
                   finished: bool)
      returns (out: seq<Event>)
      requires Valid()
      modifies agent, agent.journal
      ensures Valid()
      ensures agent.State() == Run(old(agent.State()).(clock := now),
                                   OnJobSteps(body, written, Admit(action, env), result, finished))
      ensures EndsWith(agent.log, out)
    {
      agent.clock := now;
      out := agent.OnJob(body, written, action, env, result, finished);
    }

    /** One frame from the socket. `now` is what the clock says when its job is looked at. */
    method OnFrame(raw: string, now: int, written: bool, action: Option<Action>, env: Surroundings, result: JobResult,
                   finished: bool)
      returns (out: seq<Event>)
      requires Valid()
      modifies agent, agent.journal, verifier
      ensures Valid()
      ensures State() == RunFrames(old(State()), OnFrameSteps(raw, now, written, Admit(action, env), result, finished),
                                   Screening(verifier.receiver))
      ensures EndsWith(agent.log, out)
    {
      ghost var s := State();
      var body := TakeFrom(raw);
      if body.Some? {
        out := TakeJob(body.value, now, written, action, env, result, finished);
      } else {
        out := [];
        assert EndsWith(agent.log, out);
      }
      HandledFrame(s, raw, now, written, Admit(action, env), result, finished, State(),
                   Screening(verifier.receiver));
    }
  }
}
