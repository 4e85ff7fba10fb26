/** What an `enqueue` answers: every refusal, and that nothing enters the queue past the kill switch. */
module HubAnswers {
  import opened HubCalls
  import opened HubQueue
  import opened Options

  // ---- Refusals ----------------------------------------------------------------------------------------

  /** From the answer that refuses to the caller: the refusal is audited; without its audit row the call throws. */
  function RefusalSteps(c: CallId, up: bool, answer: Answer): seq<Step> {
    [Execute(c, up), Resume(c, answer)]
  }

  /** The refusal leaves an audit row and a reply, and nothing else. */
  function RefusedWith(s: System, ref: Option<JobId>, code: RefusalCode, up: bool): System {
    if up then s.(d1 := s.d1.(audit := s.d1.audit + multiset{JobRefused(ref, code)}),
                  replies := s.replies + [Refused(ref, code)])
    else s
  }

  lemma RefusalEnds(s: System, c: CallId, ref: Option<JobId>, code: RefusalCode, up: bool, answer: Answer)
    requires c !in s.calls
    ensures Run(s.(calls := s.calls[c := Call(Refusing(ref, code), true)]), RefusalSteps(c, up, answer))
         == RefusedWith(s, ref, code, up)
  {
    var t := s.(calls := s.calls[c := Call(Refusing(ref, code), true)]);
    RunTwo(t, Execute(c, up), Resume(c, answer));
    var d1 := s.d1.(audit := s.d1.audit + multiset{JobRefused(ref, code)});
    if up {
      var u := s.(d1 := d1, calls := s.calls[c := Call(RefusalAudited(ref, code), true)]);
      assert t.calls[c := Call(RefusalAudited(ref, code), true)] == u.calls;
      assert Apply(t, Execute(c, true)) == u;
      assert u.calls - {c} == s.calls;
    } else {
      assert t.calls - {c} == s.calls;
    }
  }

  /** While jobs are switched off every request is refused for that reason, whatever it says and whatever is queued. */
  lemma DisabledIsRefused(s: System, c: CallId, req: Request, now: int, answer: Answer, up: bool)
    requires c !in s.calls && !answer.enabled
    ensures Run(s, [Enqueue(c, req, now), Resume(c, answer)] + RefusalSteps(c, up, answer))
         == RefusedWith(s, req.ref, JobsDisabled, up)
  {
    var s1 := Apply(s, Enqueue(c, req, now));
    assert s1.calls[c := Call(Refusing(req.ref, JobsDisabled), true)]
        == s.calls[c := Call(Refusing(req.ref, JobsDisabled), true)];
    RunTwo(s, Enqueue(c, req, now), Resume(c, answer));
    RunAppend(s, [Enqueue(c, req, now), Resume(c, answer)], RefusalSteps(c, up, answer));
    RefusalEnds(s, c, req.ref, JobsDisabled, up, answer);
  }

  /** A request is refused as invalid when its shape is wrong, a time is negative, it expires before it is issued, more
      than 24 hours after that, or not after now. */
  lemma InvalidIsRefused(s: System, c: CallId, req: Request, now: int, answer: Answer, up: bool)
    requires c !in s.calls && answer.enabled
    requires var m := req.job.meta;
             || !req.shapeOk || m.issuedAt < 0 || m.expiresAt < 0 || m.expiresAt <= m.issuedAt
             || m.expiresAt > m.issuedAt + 24 * 60 * 60 * 1000 || m.expiresAt <= now
    ensures Run(s, [Enqueue(c, req, now), Resume(c, answer)] + RefusalSteps(c, up, answer))
         == RefusedWith(s, req.ref, InvalidJob, up)
  {
    var s1 := Apply(s, Enqueue(c, req, now));
    assert s1.calls[c := Call(Refusing(req.ref, InvalidJob), true)]
        == s.calls[c := Call(Refusing(req.ref, InvalidJob), true)];
    RunTwo(s, Enqueue(c, req, now), Resume(c, answer));
    RunAppend(s, [Enqueue(c, req, now), Resume(c, answer)], RefusalSteps(c, up, answer));
    RefusalEnds(s, c, req.ref, InvalidJob, up, answer);
  }

  /** When the duplicate SELECT fails, the call ends without a reply and leaves everything as it was. */
  lemma UnreadIsSilent(s: System, c: CallId, req: Request, now: int, answer: Answer)
    requires c !in s.calls && answer.enabled && IsJob(req, now)
    ensures Run(s, [Enqueue(c, req, now), Resume(c, answer), Resume(c, answer)] + [Execute(c, false)]) == s
  {
    var asked := s.(calls := s.calls[c := Call(Reading(Row(req.job, answer.hash, 0), now), true)]);
    EnqueueReads(s, c, req, now, answer);
    RunAppend(s, [Enqueue(c, req, now), Resume(c, answer), Resume(c, answer)], [Execute(c, false)]);
    RunOne(asked, Execute(c, false));
    assert asked.calls - {c} == s.calls;
  }

  /** Up to the answer of the duplicate SELECT. */
  function AskSteps(c: CallId, req: Request, now: int, answer: Answer): seq<Step> {
    [Enqueue(c, req, now), Resume(c, answer), Resume(c, answer)] + [Execute(c, true), Resume(c, answer)]
  }

  lemma AskedIs(s: System, c: CallId, req: Request, now: int, answer: Answer)
    requires c !in s.calls && answer.enabled && IsJob(req, now)
    ensures var row := Row(req.job, answer.hash, 0);
            Run(s, AskSteps(c, req, now, answer))
            == Apply(s.(calls := s.calls[c := Call(Known(row, now, req.job.id in s.d1.jobs), true)]), Resume(c, answer))
  {
    var row := Row(req.job, answer.hash, 0);
    var asked := s.(calls := s.calls[c := Call(Reading(row, now), true)]);
    EnqueueReads(s, c, req, now, answer);
    RunAppend(s, [Enqueue(c, req, now), Resume(c, answer), Resume(c, answer)], [Execute(c, true), Resume(c, answer)]);
    RunTwo(asked, Execute(c, true), Resume(c, answer));
    var known := Call(Known(row, now, req.job.id in s.d1.jobs), true);
    assert asked.calls[c := known] == s.calls[c := known];
  }

  /** A job that D1 or the Hub already knows is accepted as a duplicate, and nothing changes. */
  lemma KnownIsDuplicate(s: System, c: CallId, req: Request, now: int, answer: Answer)
    requires c !in s.calls && answer.enabled && IsJob(req, now)
    requires req.job.id in s.d1.jobs || req.job.id in s.hub.queue
    ensures Run(s, AskSteps(c, req, now, answer)) == s.(replies := s.replies + [Accepted(req.job.id, true)])
  {
    var row := Row(req.job, answer.hash, 0);
    AskedIs(s, c, req, now, answer);
    var known := Call(Known(row, now, req.job.id in s.d1.jobs), true);
    assert s.calls[c := known] - {c} == s.calls;
  }

  /** A new job is refused when a hundred are pending. */
  lemma FullIsRefused(s: System, c: CallId, req: Request, now: int, answer: Answer, up: bool)
    requires c !in s.calls && answer.enabled && IsJob(req, now)
    requires req.job.id !in s.d1.jobs && req.job.id !in s.hub.queue && |s.hub.queue| >= 100
    ensures Run(s, AskSteps(c, req, now, answer) + RefusalSteps(c, up, answer))
         == RefusedWith(s, Some(req.job.id), QueueFull, up)
  {
    var row := Row(req.job, answer.hash, 0);
    AskedIs(s, c, req, now, answer);
    var known := Call(Known(row, now, false), true);
    var full := Call(Refusing(Some(req.job.id), QueueFull), true);
    assert s.calls[c := known][c := full] == s.calls[c := full];
    RunAppend(s, AskSteps(c, req, now, answer), RefusalSteps(c, up, answer));
    RefusalEnds(s, c, Some(req.job.id), QueueFull, up, answer);
  }

  // ---- Nothing gets past the switch ----------------------------------------------------------------------

  /** The job that a call of `enqueue` carries once it is past its first checks. */
  function JobOf(pc: Pc): Option<Job> {
    match pc
    case Hashing(job, _) => Some(job)
    case Reading(row, _) => Some(row.job)
    case Known(row, _, _) => Some(row.job)
    case Recording(row, _) => Some(row.job)
    case Recorded(row) => Some(row.job)
    case Unrecorded(row) => Some(row.job)
    case Settled(row) => Some(row.job)
    case _ => None
  }

  ghost predicate Carries(s: System, c: CallId, job: Job) {
    c in s.calls && JobOf(s.calls[c].pc) == Some(job)
  }

  /** The step answers a call that jobs are switched on, and the call's request is no more than the job. */
  ghost predicate LetsIn(s: System, step: Step, c: CallId, job: Job) {
    && step.Resume? && step.c == c && step.answer.enabled
    && c in s.calls && s.calls[c].alive && s.calls[c].pc.Started?
    && s.calls[c].pc.req.job == job && IsJob(s.calls[c].pc.req, s.calls[c].pc.now)
  }

  lemma StepCarries(s: System, step: Step, c: CallId, job: Job)
    requires Carries(Apply(s, step), c, job)
    ensures Carries(s, c, job) || LetsIn(s, step, c, job)
  {
  }

  lemma RunLast(steps: seq<Step>)
    requires steps != []
    ensures Run(EMPTY, steps) == Apply(Run(EMPTY, steps[..|steps| - 1]), steps[|steps| - 1])
  {
    var front, last := steps[..|steps| - 1], steps[|steps| - 1];
    assert steps == front + [last];
    RunAppend(EMPTY, front, [last]);
    RunOne(Run(EMPTY, front), last);
  }

  /** The job was let in for this call by step `i`, and the call has carried it since. */
  ghost predicate LetInAt(steps: seq<Step>, i: int, c: CallId, job: Job) {
    && 0 <= i < |steps| && LetsIn(Run(EMPTY, steps[..i]), steps[i], c, job)
    && forall j :: i < j <= |steps| ==> Carries(Run(EMPTY, steps[..j]), c, job)
  }

  lemma {:induction false} CarriedWasLetIn(steps: seq<Step>, c: CallId, job: Job) returns (i: nat)
    requires Carries(Run(EMPTY, steps), c, job)
    ensures LetInAt(steps, i, c, job)
    decreases |steps|
  {
    var last := |steps| - 1;
    var front := steps[..last];
    RunLast(steps);
    StepCarries(Run(EMPTY, front), steps[last], c, job);
    if Carries(Run(EMPTY, front), c, job) {
      i := CarriedWasLetIn(front, c, job);
      assert front[..i] == steps[..i];
      forall j | i < j <= |steps|
        ensures Carries(Run(EMPTY, steps[..j]), c, job)
      {
        assert if j <= last then steps[..j] == front[..j] else steps[..j] == steps;
      }
    } else {
      i := last;
      assert steps[..|steps|] == steps;
    }
  }

  lemma InsertedByCarrier(s: System, step: Step, id: JobId)
    requires id !in s.hub.queue && id in Apply(s, step).hub.queue
    ensures step.Resume? && step.c in s.calls && Carries(s, step.c, Apply(s, step).hub.queue[id].job)
    ensures Apply(s, step).hub.queue[id].job.id == id
  {
    assert step.Resume? && step.c in s.calls;
    ResumeInserts(s, step.c, step.answer, id);
  }

  lemma ResumeInserts(s: System, c: CallId, answer: Answer, id: JobId)
    requires id !in s.hub.queue && id in ResumeCall(s, c, answer).hub.queue && c in s.calls
    ensures s.calls[c].pc.Known? && s.calls[c].pc.row.job.id == id
    ensures ResumeCall(s, c, answer).hub.queue[id] == s.calls[c].pc.row
  {
  }

  lemma RecordedByCarrier(s: System, step: Step, id: JobId)
    requires id !in s.d1.jobs && IsQueued(Apply(s, step).d1, id)
    ensures step.Execute? && step.c in s.calls && s.calls[step.c].pc.Recording?
    ensures s.calls[step.c].pc.row.job.id == id && s.calls[step.c].pc.row.job.meta == Apply(s, step).d1.jobs[id].meta
  {
  }

  /** Over every run a row enters the Hub's queue only for a call that was told that jobs are switched on, whose request
      was valid then, and that has carried that very job since. */
  lemma RowsAreLetIn(steps: seq<Step>, step: Step, id: JobId) returns (i: nat)
    requires id !in Run(EMPTY, steps).hub.queue && id in Apply(Run(EMPTY, steps), step).hub.queue
    ensures step.Resume?
    ensures var job := Apply(Run(EMPTY, steps), step).hub.queue[id].job;
            job.id == id && LetInAt(steps, i, step.c, job)
  {
    var s := Run(EMPTY, steps);
    InsertedByCarrier(s, step, id);
    i := CarriedWasLetIn(steps, step.c, Apply(s, step).hub.queue[id].job);
  }

  /** The same for a job that D1 comes to call queued. */
  lemma RecordsAreLetIn(steps: seq<Step>, step: Step, id: JobId) returns (i: nat, job: Job)
    requires id !in Run(EMPTY, steps).d1.jobs && IsQueued(Apply(Run(EMPTY, steps), step).d1, id)
    ensures step.Execute? && job.id == id && job.meta == Apply(Run(EMPTY, steps), step).d1.jobs[id].meta
    ensures LetInAt(steps, i, step.c, job)
  {
    var s := Run(EMPTY, steps);
    RecordedByCarrier(s, step, id);
    job := s.calls[step.c].pc.row.job;
    i := CarriedWasLetIn(steps, step.c, job);
  }
}
