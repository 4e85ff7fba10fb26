/** Which jobs can start behind the verifier: what every start goes back to, and which frames keep a job from starting
    twice. */
module FrameStarts {
  import opened DeviceFrames
  import opened DeviceJobs
  import opened DeviceOnce
  import opened Integers
  import opened Options
  import opened Verdicts

  // ---- When a job can start twice --------------------------------------------------------------------------

  /** What an authentic frame with a valid job says about time. */
  datatype Offer = Offer(ts: int, job: Job)

  function OfferIn(raw: string, screen: string -> Verdict): Option<Offer> {
    var screened := screen(raw);
    if screened.Rejected? || BodyIn(screened.env).None? then None
    else
      match FromBody(BodyIn(screened.env).value)
      case Valid(job) => Some(Offer(screened.env.ts, job))
      case _ => None
  }

  /** The frame can be accepted before its job expires. */
  predicate Timely(offer: Offer) {
    offer.ts - WINDOW_MS < offer.job.expiresAt
  }

  /** The earliest moment at which the journal may have forgotten the job, when this frame brought it. */
  function GoneBy(offer: Offer): int {
    Max(offer.job.expiresAt, offer.ts - WINDOW_MS + RETENTION_MS + 1)
  }

  /** The second frame can still be accepted, and its job is not yet expired, when the job may be forgotten. Never so
      when both frames name one expiry. */
  predicate Outlives(first: Offer, second: Offer) {
    && first.job.id == second.job.id && Timely(first) && Timely(second)
    && GoneBy(first) <= second.ts + WINDOW_MS && GoneBy(first) < second.job.expiresAt
  }

  ghost predicate NoneOutlives(texts: set<string>, screen: string -> Verdict) {
    forall a, b | a in texts && b in texts && OfferIn(a, screen).Some? && OfferIn(b, screen).Some? ::
      !Outlives(OfferIn(a, screen).value, OfferIn(b, screen).value)
  }

  predicate Brings(raw: string, screen: string -> Verdict, id: JobId, at: int, expiry: int) {
    && OfferIn(raw, screen).Some?
    && var offer := OfferIn(raw, screen).value;
       offer.job.id == id && offer.job.expiresAt == expiry && offer.ts - WINDOW_MS <= at
  }

  /** The offers some texts can make. */
  function OffersOf(texts: set<string>, screen: string -> Verdict): Offers {
    (id, at, expiry) => exists raw :: raw in texts && Brings(raw, screen, id, at, expiry)
  }

  /** What a job frame says when the device takes it. */
  lemma TakenIsOffered(s: Endpoint, raw: string, screen: string -> Verdict)
    requires TakenFrom(s, raw, screen).Some?
    ensures var parsed := FromBody(TakenFrom(s, raw, screen).value);
            if parsed.Valid? then
              && OfferIn(raw, screen).Some? && OfferIn(raw, screen).value.job == parsed.job
              && -WINDOW_MS <= s.device.clock - OfferIn(raw, screen).value.ts <= WINDOW_MS
            else OfferIn(raw, screen).None?
  {
  }

  /** A job received at `at` is forgotten by `clock`, and not yet expired at `now` in its second frame. */
  lemma LateFrameOutlives(first: Offer, second: Offer, at: int, clock: int, now: int)
    requires first.job.id == second.job.id && first.ts - WINDOW_MS <= at < first.job.expiresAt <= clock
    requires clock - at > RETENTION_MS && -WINDOW_MS <= clock - second.ts <= WINDOW_MS
    requires clock <= now < second.job.expiresAt
    ensures Outlives(first, second)
  {
  }

  lemma ForgottenIsLate(d: Device, second: Offer, now: int, texts: set<string>, screen: string -> Verdict)
    requires Once(d, OffersOf(texts, screen)) && second.job.id !in d.disk && Started(second.job.id) in d.log
    requires forall a | a in texts && OfferIn(a, screen).Some? :: !Outlives(OfferIn(a, screen).value, second)
    requires d.clock <= now && -WINDOW_MS <= d.clock - second.ts <= WINDOW_MS
    ensures second.job.expiresAt <= now
  {
    var id := second.job.id;
    var at, expiry :| OffersOf(texts, screen)(id, at, expiry) && at < expiry && Recalled(d, id, at, expiry);
    var raw :| raw in texts && Brings(raw, screen, id, at, expiry);
    if now < second.job.expiresAt {
      LateFrameOutlives(OfferIn(raw, screen).value, second, at, d.clock, now);
      assert false;
    }
  }

  lemma FramePermitted(s: Endpoint, raw: string, now: int, written: bool, texts: set<string>, screen: string -> Verdict)
    requires Once(s.device, OffersOf(texts, screen)) && raw in texts && NoneOutlives(texts, screen)
    requires s.device.clock <= now && TakenFrom(s, raw, screen).Some?
    ensures var deliver := Deliver(TakenFrom(s, raw, screen).value, written);
            Permitted(s.device.(clock := now), deliver, OffersOf(texts, screen))
  {
    TakenIsOffered(s, raw, screen);
    if OfferIn(raw, screen).Some? {
      var second := OfferIn(raw, screen).value;
      assert Brings(raw, screen, second.job.id, now, second.job.expiresAt);
      if second.job.id !in s.device.disk && Started(second.job.id) in s.device.log {
        ForgottenIsLate(s.device, second, now, texts, screen);
      }
    }
  }

  lemma OnceNext(s: Endpoint, step: FrameStep, texts: set<string>, screen: string -> Verdict)
    requires Once(s.device, OffersOf(texts, screen)) && NoneOutlives(texts, screen) && Later(s, step)
    requires step.Receive? ==> step.raw in texts
    ensures Once(Next(s, step, screen).device, OffersOf(texts, screen))
  {
    var d, offers := s.device, OffersOf(texts, screen);
    match step
    case Receive(raw, now, written) =>
      if d.entries.Some? && d.place.Idle? && TakenFrom(s, raw, screen).Some? {
        FramePermitted(s, raw, now, written, texts, screen);
        OnceStep(d, Clock(now), offers);
        OnceStep(d.(clock := now), Deliver(TakenFrom(s, raw, screen).value, written), offers);
      }
    case Inside(inner) =>
      if !inner.Deliver? {
        OnceStep(d, inner, offers);
      }
  }

  lemma {:induction false} OnceFrames(s: Endpoint, steps: seq<FrameStep>, texts: set<string>, screen: string -> Verdict)
    requires Once(s.device, OffersOf(texts, screen)) && NoneOutlives(texts, screen)
    requires Onward(s, steps, screen) && Over(steps, texts)
    ensures Once(RunFrames(s, steps, screen).device, OffersOf(texts, screen))
    decreases |steps|
  {
    if steps != [] {
      assert steps[0] in steps;
      OnceNext(s, steps[0], texts, screen);
      OnceFrames(Next(s, steps[0], screen), steps[1..], texts, screen);
    }
  }

  // ---- What is started at all ------------------------------------------------------------------------------

  /** A job that was started had been offered in time. */
  ghost predicate Asked(d: Device, offers: Offers) {
    && (d.place.Received? ==>
          && d.place.entry.expiresAt == Some(d.place.job.expiresAt)
          && offers(d.place.job.id, d.place.entry.receivedAt, d.place.job.expiresAt))
    && forall id :: Started(id) in d.log ==> exists at, expiry :: offers(id, at, expiry) && at < expiry
  }

  lemma AskedStep(d: Device, step: Step, offers: Offers)
    requires Asked(d, offers)
    requires step.Deliver? && FromBody(step.body).Valid? ==>
               var job := FromBody(step.body).job; offers(job.id, d.clock, job.expiresAt)
    ensures Asked(Apply(d, step), offers)
  {
    var t := Apply(d, step);
    forall id | Started(id) in t.log && Started(id) !in d.log
      ensures exists at, expiry :: offers(id, at, expiry) && at < expiry
    {
      assert step.Admit? && id == d.place.job.id;
    }
  }

  lemma AskedNext(s: Endpoint, step: FrameStep, texts: set<string>, screen: string -> Verdict)
    requires Asked(s.device, OffersOf(texts, screen)) && Later(s, step) && (step.Receive? ==> step.raw in texts)
    ensures Asked(Next(s, step, screen).device, OffersOf(texts, screen))
  {
    var d, offers := s.device, OffersOf(texts, screen);
    match step
    case Receive(raw, now, written) =>
      if d.entries.Some? && d.place.Idle? && TakenFrom(s, raw, screen).Some? {
        TakenIsOffered(s, raw, screen);
        if OfferIn(raw, screen).Some? {
          var job := OfferIn(raw, screen).value.job;
          assert Brings(raw, screen, job.id, now, job.expiresAt);
        }
        AskedStep(d.(clock := now), Deliver(TakenFrom(s, raw, screen).value, written), offers);
      }
    case Inside(inner) =>
      if !inner.Deliver? {
        AskedStep(d, inner, offers);
      }
  }

  lemma {:induction false} AskedFrames(s: Endpoint, steps: seq<FrameStep>, texts: set<string>,
                                       screen: string -> Verdict)
    requires Asked(s.device, OffersOf(texts, screen)) && Onward(s, steps, screen) && Over(steps, texts)
    ensures Asked(RunFrames(s, steps, screen).device, OffersOf(texts, screen))
    decreases |steps|
  {
    if steps != [] {
      assert steps[0] in steps;
      AskedNext(s, steps[0], texts, screen);
      AskedFrames(Next(s, steps[0], screen), steps[1..], texts, screen);
    }
  }

  /** Nothing is started but what a frame past every check asked for, and not before that frame's window or after the
      job's expiry. */
  lemma StartedWasAsked(texts: set<string>, screen: string -> Verdict, clock: int, steps: seq<FrameStep>, id: JobId)
    requires Onward(FreshEndpoint(clock), steps, screen) && Over(steps, texts)
    requires Started(id) in RunFrames(FreshEndpoint(clock), steps, screen).device.log
    ensures exists raw | raw in texts && OfferIn(raw, screen).Some? ::
              OfferIn(raw, screen).value.job.id == id && Timely(OfferIn(raw, screen).value)
  {
    AskedFrames(FreshEndpoint(clock), steps, texts, screen);
    var at, expiry :| OffersOf(texts, screen)(id, at, expiry) && at < expiry;
    var raw :| raw in texts && Brings(raw, screen, id, at, expiry);
    assert Timely(OfferIn(raw, screen).value);
  }
}
