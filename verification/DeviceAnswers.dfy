/** What the device tells the cloud: nothing is acknowledged before it is durable, and a job has one answer. */
module DeviceAnswers {
  import opened DeviceHandling
  import opened DeviceJobs
  import opened Options

  // ---- Durable before acknowledged --------------------------------------------------------------------

  /** The entry of `id` has not been forgotten since position `i` of the log. */
  ghost predicate Kept(log: seq<Event>, i: int, id: JobId) {
    forall k :: 0 <= i <= k < |log| ==> log[k] != Forgotten(id)
  }

  /** Every acknowledged job that was not forgotten since is on disk. */
  ghost predicate LogKept(d: Device) {
    forall i :: 0 <= i < |d.log| && d.log[i].AckSent? && Kept(d.log, i, d.log[i].id) ==> d.log[i].id in d.disk
  }

  ghost predicate AcksKept(d: Device) {
    && DiskOk(d)
    && (d.place.Received? ==> d.place.entry.jobId in d.disk && d.place.entry.jobId == d.place.job.id)
    && (d.place.Executing? || d.place.Ran? ==> d.place.entry.jobId in d.disk)
    && (d.place.Answering? ==> d.place.id in d.disk)
    && LogKept(d)
  }

  lemma KeptPrefix(log: seq<Event>, more: seq<Event>, i: int, id: JobId)
    requires 0 <= i <= |log|
    ensures Kept(log + more, i, id) <==> Kept(log, i, id) && Forgotten(id) !in more
  {
    assert forall k :: 0 <= k < |log| ==> (log + more)[k] == log[k];
    assert forall k :: 0 <= k < |more| ==> (log + more)[|log| + k] == more[k];
  }

  /** Acknowledged jobs stay on disk while steps forget only what they say they forget. */
  lemma AcksStay(d: Device, t: Device, more: seq<Event>, i: nat)
    requires AcksKept(d) && t.log == d.log + more
    requires forall id :: id in d.disk && Forgotten(id) !in more ==> id in t.disk
    requires forall e :: e in more && e.AckSent? ==> e.id in t.disk
    requires i < |t.log| && t.log[i].AckSent? && Kept(t.log, i, t.log[i].id)
    ensures t.log[i].id in t.disk
  {
    if i < |d.log| {
      assert t.log[i] == d.log[i];
      KeptPrefix(d.log, more, i, d.log[i].id);
    } else {
      assert t.log[i] == more[i - |d.log|];
    }
  }

  lemma AcksAllStay(d: Device, t: Device, more: seq<Event>)
    requires AcksKept(d) && t.log == d.log + more
    requires forall id :: id in d.disk && Forgotten(id) !in more ==> id in t.disk
    requires forall e :: e in more && e.AckSent? ==> e.id in t.disk
    ensures LogKept(t)
  {
    forall i: nat | i < |t.log| && t.log[i].AckSent? && Kept(t.log, i, t.log[i].id)
      ensures t.log[i].id in t.disk
    {
      AcksStay(d, t, more, i);
    }
  }

  lemma AcksKeptAnswer(d: Device)
    requires AcksKept(d) && d.place.Answering?
    ensures AcksKept(Answered(d))
  {
    AcksAllStay(d, Answered(d), [AckSent(d.place.id), ResultSent(d.place.id, d.place.result)]);
  }

  lemma AcksKeptForget(d: Device, id: JobId)
    requires AcksKept(d) && d.entries.Some? && d.place.Idle?
    ensures AcksKept(Forgets(d, id))
  {
    AcksAllStay(d, Forgets(d, id), [Forgotten(id)]);
  }

  lemma AcksKeptAdmit(d: Device, action: Option<Action>, env: Surroundings)
    requires AcksKept(d) && d.entries.Some? && d.place.Received?
    ensures AcksKept(Admitted(d, action, env))
  {
    var t := Admitted(d, action, env);
    AcksAllStay(d, t, if t.place.Executing? then [Started(d.place.job.id)] else []);
  }

  /** The other steps log nothing and take nothing off the disk. */
  lemma AcksKeptQuietly(d: Device, step: Step)
    requires AcksKept(d) && !step.Answer? && !step.Forget? && !step.Admit? && !step.Deliver?
    ensures AcksKept(Apply(d, step))
  {
    AcksAllKept(d, Apply(d, step));
  }

  lemma AcksKeptDeliver(d: Device, body: Body, written: bool)
    requires AcksKept(d)
    ensures AcksKept(Apply(d, Deliver(body, written)))
  {
    AcksAllKept(d, Apply(d, Deliver(body, written)));
  }

  lemma AcksAllKept(d: Device, t: Device)
    requires AcksKept(d) && t.log == d.log && forall id :: id in d.disk ==> id in t.disk
    ensures LogKept(t)
  {
  }

  lemma AcksKeptStep(d: Device, step: Step)
    requires AcksKept(d)
    ensures AcksKept(Apply(d, step))
  {
    match step
    case Answer => if d.entries.Some? && d.place.Answering? { AcksKeptAnswer(d); }
    case Forget(id) => if Apply(d, step) != d { AcksKeptForget(d, id); }
    case Admit(action, env) => if d.entries.Some? && d.place.Received? { AcksKeptAdmit(d, action, env); }
    case Deliver(body, written) => AcksKeptDeliver(d, body, written);
    case _ => AcksKeptQuietly(d, step);
  }

  lemma {:induction false} AcksKeptRun(d: Device, steps: seq<Step>)
    requires AcksKept(d)
    ensures AcksKept(Run(d, steps))
    decreases |steps|
  {
    if steps != [] {
      AcksKeptStep(d, steps[0]);
      AcksKeptRun(Apply(d, steps[0]), steps[1..]);
    }
  }

  /** Every acknowledged job has its entry on disk, from the ack on until the entry is pruned, across crashes,
      restarts and failed writes. */
  lemma DurableBeforeAcknowledged(clock: int, steps: seq<Step>, i: nat)
    requires var log := Run(Fresh(clock), steps).log;
             i < |log| && log[i].AckSent? && Kept(log, i, log[i].id)
    ensures Run(Fresh(clock), steps).log[i].id in Run(Fresh(clock), steps).disk
  {
    AcksKeptRun(Fresh(clock), steps);
  }

  // ---- One answer --------------------------------------------------------------------------------------

  /** What is on disk gives the same answer again. */
  ghost predicate Agrees(result: Option<JobResult>, sent: JobResult) {
    result == Some(sent) || (result == None && sent == INTERRUPTED)
  }

  ghost predicate Unanswered(log: seq<Event>, id: JobId) {
    forall i :: 0 <= i < |log| && log[i].ResultSent? && log[i].id == id ==> !Kept(log, i, id)
  }

  ghost predicate OneAnswer(log: seq<Event>) {
    forall i, j | 0 <= i < j < |log| && log[i].ResultSent? && log[j].ResultSent? && log[i].id == log[j].id
                  && Kept(log[..j], i, log[i].id) :: log[i].result == log[j].result
  }

  ghost predicate AnswersOk(d: Device) {
    && AcksKept(d)
    && (d.place.Received? || d.place.Executing? || d.place.Ran? ==>
          && d.place.entry.result.None?
          && d.disk[d.place.entry.jobId].result.None?
          && Unanswered(d.log, d.place.entry.jobId))
    && (d.place.Answering? ==> Agrees(d.disk[d.place.id].result, d.place.result))
    && (forall i :: 0 <= i < |d.log| && d.log[i].ResultSent? && Kept(d.log, i, d.log[i].id) ==>
          d.log[i].id in d.disk && Agrees(d.disk[d.log[i].id].result, d.log[i].result))
    && OneAnswer(d.log)
  }

  predicate ResultsRecorded(step: Step) {
    step.Finish? ==> step.written
  }

  lemma AnswersAnswer(d: Device)
    requires AnswersOk(d) && d.entries.Some? && d.place.Answering?
    ensures AnswersOk(Apply(d, Answer))
  {
    var id, result := d.place.id, d.place.result;
    var more := [AckSent(id), ResultSent(id, result)];
    var t := Apply(d, Answer);
    AcksKeptStep(d, Answer);
    forall i | 0 <= i < |t.log| && t.log[i].ResultSent? && Kept(t.log, i, t.log[i].id)
      ensures t.log[i].id in t.disk && Agrees(t.disk[t.log[i].id].result, t.log[i].result)
    {
      if i < |d.log| {
        KeptPrefix(d.log, more, i, d.log[i].id);
      }
    }
    forall i, j | 0 <= i < j < |t.log| && t.log[i].ResultSent? && t.log[j].ResultSent? && t.log[i].id == t.log[j].id
                  && Kept(t.log[..j], i, t.log[i].id)
      ensures t.log[i].result == t.log[j].result
    {
      if j < |d.log| {
        assert t.log[..j] == d.log[..j];
      } else {
        assert t.log[..j] == d.log + [AckSent(id)];
        KeptPrefix(d.log, [AckSent(id)], i, id);
      }
    }
  }

  lemma AnswersForget(d: Device, gone: JobId)
    requires AnswersOk(d)
    ensures AnswersOk(Apply(d, Forget(gone)))
  {
    var t := Apply(d, Forget(gone));
    AcksKeptStep(d, Forget(gone));
    if t != d {
      forall i | 0 <= i < |t.log| && t.log[i].ResultSent? && Kept(t.log, i, t.log[i].id)
        ensures t.log[i].id in t.disk && Agrees(t.disk[t.log[i].id].result, t.log[i].result)
      {
        KeptPrefix(d.log, [Forgotten(gone)], i, d.log[i].id);
      }
      forall i, j | 0 <= i < j < |t.log| && t.log[i].ResultSent? && t.log[j].ResultSent?
                    && t.log[i].id == t.log[j].id && Kept(t.log[..j], i, t.log[i].id)
        ensures t.log[i].result == t.log[j].result
      {
        assert t.log[..j] == d.log[..j];
      }
    }
  }

  lemma AnswersAdmit(d: Device, action: Option<Action>, env: Surroundings)
    requires AnswersOk(d) && d.entries.Some? && d.place.Received?
    ensures AnswersOk(Apply(d, Admit(action, env)))
  {
    var step := Admit(action, env);
    var t := Apply(d, step);
    AcksKeptStep(d, step);
    if t.log != d.log {
      var more := [Started(d.place.job.id)];
      forall i | 0 <= i < |d.log|
        ensures t.log[i] == d.log[i]
        ensures d.log[i].ResultSent? ==> (Kept(t.log, i, d.log[i].id) <==> Kept(d.log, i, d.log[i].id))
      {
        if d.log[i].ResultSent? {
          KeptPrefix(d.log, more, i, d.log[i].id);
        }
      }
      forall i, j | 0 <= i < j < |t.log| && t.log[i].ResultSent? && t.log[j].ResultSent?
                    && t.log[i].id == t.log[j].id && Kept(t.log[..j], i, t.log[i].id)
        ensures t.log[i].result == t.log[j].result
      {
        assert t.log[..j] == d.log[..j];
      }
    }
  }

  lemma AnswersDuplicate(d: Device, id: JobId, written: bool)
    requires AnswersOk(d) && d.entries.Some? && d.place.Idle? && id in d.entries.value
    requires AcksKept(Duplicate(d, id, written))
    ensures AnswersOk(Duplicate(d, id, written))
  {
  }

  lemma AnswersNew(d: Device, body: Body)
    requires AnswersOk(d) && d.entries.Some? && d.place.Idle? && AcksKept(Delivered(d, body, true))
    requires !FromBody(body).Unanswerable? && EntryFor(body, d.clock).jobId !in d.entries.value
    ensures AnswersOk(Delivered(d, body, true))
  {
  }

  lemma AnswersDeliver(d: Device, body: Body, written: bool)
    requires AnswersOk(d)
    ensures AnswersOk(Apply(d, Deliver(body, written)))
  {
    AcksKeptDeliver(d, body, written);
    if d.entries.Some? && d.place.Idle? && !FromBody(body).Unanswerable? {
      var id := EntryFor(body, d.clock).jobId;
      if id in d.entries.value {
        AnswersDuplicate(d, id, written);
      } else if written {
        AnswersNew(d, body);
      }
    }
  }

  lemma AnswersQuietly(d: Device, step: Step)
    requires AnswersOk(d) && ResultsRecorded(step)
    requires !step.Answer? && !step.Forget? && !step.Admit? && !step.Deliver?
    ensures AnswersOk(Apply(d, step))
  {
    AcksKeptQuietly(d, step);
  }

  lemma AnswersStep(d: Device, step: Step)
    requires AnswersOk(d) && ResultsRecorded(step)
    ensures AnswersOk(Apply(d, step))
  {
    match step
    case Answer => if d.entries.Some? && d.place.Answering? { AnswersAnswer(d); }
    case Forget(id) => AnswersForget(d, id);
    case Admit(action, env) => if d.entries.Some? && d.place.Received? { AnswersAdmit(d, action, env); }
    case Deliver(body, written) => AnswersDeliver(d, body, written);
    case _ => AnswersQuietly(d, step);
  }

  lemma {:induction false} AnswersRun(d: Device, steps: seq<Step>)
    requires AnswersOk(d) && forall step :: step in steps ==> ResultsRecorded(step)
    ensures AnswersOk(Run(d, steps))
    decreases |steps|
  {
    if steps != [] {
      AnswersStep(d, steps[0]);
      AnswersRun(Apply(d, steps[0]), steps[1..]);
    }
  }

  /** When no result write fails, all results sent for a job while its entry is retained are the same, across crashes
      and restarts, and whatever the clock does. */
  lemma SameAnswerEveryTime(clock: int, steps: seq<Step>, i: nat, j: nat)
    requires forall step :: step in steps ==> ResultsRecorded(step)
    requires var log := Run(Fresh(clock), steps).log;
             && i < j < |log| && log[i].ResultSent? && log[j].ResultSent? && log[i].id == log[j].id
             && Kept(log[..j], i, log[i].id)
    ensures Run(Fresh(clock), steps).log[i].result == Run(Fresh(clock), steps).log[j].result
  {
    AnswersRun(Fresh(clock), steps);
  }

  /** The assumption is needed: a result that could not be recorded is answered "interrupted" the next time. */
  lemma LostResultChangesAnswer(d: Device, body: Body, admit: Step, result: JobResult)
    requires d.entries == Some(d.disk) && d.place.Idle? && FromBody(body).Valid? && admit.Admit?
    requires FromBody(body).job.id !in d.disk && GateFor(d, FromBody(body).job, admit.action, admit.env).None?
    ensures var id := FromBody(body).job.id;
            Run(d, OnJobSteps(body, true, admit, result, false) + OnJobSteps(body, true, admit, result, true)).log
            == d.log + [Started(id)] + [AckSent(id), ResultSent(id, result)]
               + [AckSent(id), ResultSent(id, INTERRUPTED)]
  {
    ValidHandled(d, body, admit.action, admit.env, result, false);
    RunAppend(d, OnJobSteps(body, true, admit, result, false), OnJobSteps(body, true, admit, result, true));
    RedeliveryAnswers(Run(d, OnJobSteps(body, true, admit, result, false)), body, true, admit, result, true);
  }
}
