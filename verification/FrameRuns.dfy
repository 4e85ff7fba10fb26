/** Runs of the two verifiers on raw frames: `Replays`, with the checks of `Frames` in front. */
module FrameRuns {
  import opened Frames
  import opened JsonText
  import opened Options
  import opened Replays
  import opened Verdicts

  /** A frame's text and the receiver's clock when it comes in. */
  datatype Frame = Frame(raw: string, now: int)

  /** The frames of a run as the checks before the clock leave them. */
  function Through(run: seq<Frame>, screen: string -> Verdict): (arrivals: seq<Arrival>)
    ensures |arrivals| == |run|
    ensures forall i :: 0 <= i < |run| ==> arrivals[i] == Arrival(screen(run[i].raw), run[i].now)
  {
    seq(|run|, i requires 0 <= i < |run| => Arrival(screen(run[i].raw), run[i].now))
  }

  function Screened(run: seq<Frame>, r: Receiver): seq<Arrival> {
    Through(run, raw => ReferenceScreen(raw, r))
  }

  function AgentScreened(run: seq<Frame>, r: Receiver): seq<Arrival> {
    Through(run, raw => AgentScreen(raw, r))
  }

  lemma SameScreened(run: seq<Frame>, r: Receiver)
    ensures AgentScreened(run, r) == Screened(run, r)
  {
    forall i | 0 <= i < |run|
      ensures AgentScreened(run, r)[i] == Screened(run, r)[i]
    {
      SameScreen(run[i].raw, r);
    }
  }

  lemma ScreensAreScreened(run: seq<Frame>, r: Receiver)
    ensures AllScreened(Screened(run, r))
  {
    forall i | 0 <= i < |run|
      ensures IsScreened(Screened(run, r)[i].screened)
    {
      ScreenIsScreened(run[i].raw, r);
    }
  }

  lemma ScreenIsScreened(raw: string, r: Receiver)
    ensures IsScreened(ReferenceScreen(raw, r))
  {
    ScreenedFrom(raw, ReadJson(raw, None, r.num), r);
    ScreenedCode(raw, ReadJson(raw, None, r.num), r);
  }

  // ---- The objects, fed with a run -------------------------------------------------------------------------

  /** A verifying context answers a run of frames as `VerdictAt` says. */
  method ReferenceVerdicts(run: seq<Frame>, r: Receiver) returns (verdicts: seq<Verdict>)
    ensures |verdicts| == |run|
    ensures forall i :: 0 <= i < |run| ==> verdicts[i] == VerdictAt(Screened(run, r), i)
  {
    var ctx := new VerifyContext(r, 0);
    var i := 0;
    verdicts := [];
    ghost var all := Screened(run, r);
    while i < |run|
      invariant 0 <= i <= |run| && |verdicts| == i && ctx.receiver == r && fresh(ctx)
      invariant ctx.seen == Seen(all[..i])
      invariant forall k :: 0 <= k < i ==> verdicts[k] == VerdictAt(all, k)
    {
      ctx.now := run[i].now;
      var verdict := ctx.VerifyFrame(run[i].raw);
      assert verdict == VerdictAt(all, i);
      SeenStep(all, i);
      verdicts := verdicts + [verdict];
      i := i + 1;
    }
  }

  /** The agent's verifier answers a run of frames as `AgentVerdictAt` says. */
  method AgentVerdicts(run: seq<Frame>, r: Receiver) returns (verdicts: seq<Verdict>)
    ensures |verdicts| == |run|
    ensures forall i :: 0 <= i < |run| ==> verdicts[i] == AgentVerdictAt(AgentScreened(run, r), i, REPLAY_MEMORY_MS)
  {
    var verifier := new Verifier(r);
    var i := 0;
    verdicts := [];
    ghost var all := AgentScreened(run, r);
    while i < |run|
      invariant 0 <= i <= |run| && |verdicts| == i && verifier.receiver == r && fresh(verifier)
      invariant verifier.seen == Remembered(all[..i], REPLAY_MEMORY_MS)
      invariant forall k :: 0 <= k < i ==> verdicts[k] == AgentVerdictAt(all, k, REPLAY_MEMORY_MS)
    {
      var verdict := verifier.Verify(run[i].raw, run[i].now);
      assert verdict == AgentVerdictAt(all, i, REPLAY_MEMORY_MS);
      RememberedStep(all, i, REPLAY_MEMORY_MS);
      verdicts := verdicts + [verdict];
      i := i + 1;
    }
  }

  // ---- What holds of every run -----------------------------------------------------------------------------

  /** The reference accepts no sender's id twice. */
  lemma FrameAcceptedOnce(run: seq<Frame>, i: nat, j: nat, r: Receiver)
    requires i < j < |run|
    ensures var a, b := VerdictAt(Screened(run, r), i), VerdictAt(Screened(run, r), j);
            a.Accepted? && b.Accepted? ==> (a.env.from, a.env.id) != (b.env.from, b.env.id)
  {
    var all := Screened(run, r);
    if VerdictAt(all, i).Accepted? && VerdictAt(all, j).Accepted? {
      ScreensAreScreened(run, r);
      AcceptedOnce(all, i, j);
    }
  }

  /** The agent accepts no frame twice while its clock does not go back, although it forgets. */
  lemma AgentFrameAcceptedOnce(run: seq<Frame>, i: nat, j: nat, r: Receiver)
    requires Ordered(AgentScreened(run, r)) && i < j < |run| && run[i].raw == run[j].raw
    ensures
      || AgentVerdictAt(AgentScreened(run, r), i, REPLAY_MEMORY_MS).Rejected?
      || AgentVerdictAt(AgentScreened(run, r), j, REPLAY_MEMORY_MS).Rejected?
  {
    AgentAcceptsOnce(AgentScreened(run, r), i, j, REPLAY_MEMORY_MS);
  }

  ghost predicate RunOver(run: seq<Frame>, texts: set<string>) {
    && (forall f :: f in run ==> f.raw in texts)
    && forall i, j :: 0 <= i <= j < |run| ==> run[i].now <= run[j].now
  }

  function Pool(texts: set<string>, screen: string -> Verdict): set<Verdict> {
    set t | t in texts :: screen(t)
  }

  lemma RunInPool(run: seq<Frame>, texts: set<string>, screen: string -> Verdict)
    requires RunOver(run, texts)
    ensures Ordered(Through(run, screen)) && Within(Through(run, screen), Pool(texts, screen))
  {
    forall i | 0 <= i < |run|
      ensures Through(run, screen)[i].screened in Pool(texts, screen)
    {
      assert run[i] in run;
    }
  }

  lemma DividedOnTexts(s: string, t: string, screen: string -> Verdict) returns (run: seq<Frame>)
    requires SameId(screen(s), screen(t)) && screen(s).env.ts < screen(t).env.ts
    ensures RunOver(run, {s, t}) && !SameVerdicts(Through(run, screen))
  {
    var a, b := screen(s), screen(t);
    run := [Frame(s, a.env.ts - WINDOW_MS), Frame(t, b.env.ts + WINDOW_MS)];
    ReusedIdDivides(a, b);
    assert Through(run, screen) == Divided(a, b);
  }

  lemma AgreeThrough(texts: set<string>, screen: string -> Verdict)
    ensures (forall run | RunOver(run, texts) :: SameVerdicts(Through(run, screen))) <==> DatedOnce(Pool(texts, screen))
  {
    if DatedOnce(Pool(texts, screen)) {
      forall run | RunOver(run, texts)
        ensures SameVerdicts(Through(run, screen))
      {
        RunInPool(run, texts, screen);
        VerdictsAgree(Through(run, screen), Pool(texts, screen));
      }
    } else {
      var a, b :| a in Pool(texts, screen) && b in Pool(texts, screen) && SameId(a, b) && a.env.ts < b.env.ts;
      var s :| s in texts && screen(s) == a;
      var t :| t in texts && screen(t) == b;
      var run := DividedOnTexts(s, t, screen);
      assert RunOver(run, texts);
    }
  }

  /** Reference and agent give every frame of a run the same verdict. */
  ghost predicate AgreeOn(run: seq<Frame>, r: Receiver) {
    forall i :: 0 <= i < |run| ==>
      AgentVerdictAt(AgentScreened(run, r), i, REPLAY_MEMORY_MS) == VerdictAt(Screened(run, r), i)
  }

  lemma AgreeIsSame(run: seq<Frame>, r: Receiver)
    ensures AgreeOn(run, r) <==> SameVerdicts(Screened(run, r))
  {
    SameScreened(run, r);
  }

  /** Reference and agent agree on every run over some texts under a clock that does not go back, exactly when no
      sender dates one id twice among those texts. */
  lemma SameVerdictsOnTexts(texts: set<string>, r: Receiver)
    ensures (forall run | RunOver(run, texts) :: AgreeOn(run, r))
       <==> DatedOnce(Pool(texts, raw => ReferenceScreen(raw, r)))
  {
    forall run: seq<Frame>
      ensures AgreeOn(run, r) <==> SameVerdicts(Screened(run, r))
    {
      AgreeIsSame(run, r);
    }
    AgreeThrough(texts, raw => ReferenceScreen(raw, r));
  }
}
