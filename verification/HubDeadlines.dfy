/** Every queued job is woken for in time: each row is covered by the alarm, or by a call that will see to it. */
module HubDeadlines {
  import opened HubConservation
  import opened HubQueue
  import opened Options

  ghost predicate IsAlarmPc(pc: Pc) {
    pc.Expiring? || pc.Marked? || pc.Unmarked?
  }

  /** A call in flight that will take the row back, or arm the alarm, or put back an alarm no later than the row's
      expiry. */
  ghost predicate Guards(call: Call, row: Row) {
    && call.alive
    && ((Inserted(call.pc) && call.pc.row.job.id == row.job.id)
        || (IsAlarmPc(call.pc) && call.pc.at <= row.job.meta.expiresAt))
  }

  ghost predicate RowCovered(s: System, id: JobId)
    requires id in s.hub.queue
  {
    || (s.hub.alarm.Some? && s.hub.alarm.value <= s.hub.queue[id].job.meta.expiresAt)
    || (exists c :: c in s.calls && Guards(s.calls[c], s.hub.queue[id]))
  }

  ghost predicate Covered(s: System) {
    forall id :: id in s.hub.queue ==> s.hub.queue[id].job.id == id && RowCovered(s, id)
  }

  predicate Benign(step: Step) {
    !step.Crash? && !step.LoseAlarm?
  }

  lemma ArmedCovers(s: System)
    requires forall id :: id in s.hub.queue ==> s.hub.queue[id].job.id == id
    ensures Covered(s.(hub := Armed(s.hub)))
  {
  }

  /** The row of a resumed call that was there before. */
  lemma OldRowCovered(s: System, c: CallId, answer: Answer, id: JobId)
    requires Covered(s) && c in s.calls && s.calls[c].alive && WaitsForHub(s.calls[c].pc) && id in s.hub.queue
    requires var t := Apply(s, Resume(c, answer)); id in t.hub.queue && t.hub.queue[id] == s.hub.queue[id]
    ensures RowCovered(Apply(s, Resume(c, answer)), id)
  {
    var t := Apply(s, Resume(c, answer));
    if exists d :: d in s.calls && d != c && Guards(s.calls[d], s.hub.queue[id]) {
      var d :| d in s.calls && d != c && Guards(s.calls[d], s.hub.queue[id]);
      assert d in t.calls && Guards(t.calls[d], t.hub.queue[id]);
    }
  }

  lemma CoveredResume(s: System, c: CallId, answer: Answer)
    requires Covered(s) && c in s.calls && s.calls[c].alive && WaitsForHub(s.calls[c].pc)
    ensures Covered(Apply(s, Resume(c, answer)))
  {
    var t := Apply(s, Resume(c, answer));
    forall id | id in t.hub.queue
      ensures t.hub.queue[id].job.id == id && RowCovered(t, id)
    {
      if id in s.hub.queue && t.hub.queue[id] == s.hub.queue[id] {
        OldRowCovered(s, c, answer, id);
      } else {
        ResumedQueue(s.hub, s.calls[c].pc, answer);
        assert Guards(t.calls[c], t.hub.queue[id]);
      }
    }
  }

  lemma CoveredExecute(s: System, c: CallId, up: bool)
    requires Covered(s) && c in s.calls && WaitsForD1(s.calls[c].pc)
    ensures Covered(Apply(s, Execute(c, up)))
  {
    var t := Apply(s, Execute(c, up));
    forall id | id in t.hub.queue
      ensures t.hub.queue[id].job.id == id && RowCovered(t, id)
    {
      if exists d :: d in s.calls && Guards(s.calls[d], s.hub.queue[id]) {
        var d :| d in s.calls && Guards(s.calls[d], s.hub.queue[id]);
        assert d in t.calls && Guards(t.calls[d], t.hub.queue[id]);
      }
    }
  }

  lemma CoveredAlarm(s: System, c: CallId, now: int)
    requires Covered(s) && c !in s.calls && s.hub.alarm.Some? && s.hub.alarm.value <= now
    ensures Covered(Apply(s, Alarm(c, now)))
  {
    var t := Apply(s, Alarm(c, now));
    if Due(s.hub.queue, now) != map[] {
      forall id | id in t.hub.queue
        ensures t.hub.queue[id].job.id == id && RowCovered(t, id)
      {
        if s.hub.alarm.value <= s.hub.queue[id].job.meta.expiresAt {
          assert Guards(t.calls[c], t.hub.queue[id]);
        } else {
          var d :| d in s.calls && Guards(s.calls[d], s.hub.queue[id]);
          assert d in t.calls && Guards(t.calls[d], t.hub.queue[id]);
        }
      }
    }
  }

  lemma CoveredStep(s: System, step: Step)
    requires Covered(s) && Benign(step)
    ensures Covered(Apply(s, step))
  {
    match step
    case Resume(c, answer) =>
      if c in s.calls && s.calls[c].alive && WaitsForHub(s.calls[c].pc) {
        CoveredResume(s, c, answer);
      }
    case Execute(c, up) =>
      if c in s.calls && WaitsForD1(s.calls[c].pc) {
        CoveredExecute(s, c, up);
      }
    case Alarm(c, now) =>
      if c !in s.calls && s.hub.alarm.Some? && s.hub.alarm.value <= now {
        CoveredAlarm(s, c, now);
      }
    case Enqueue(c, req, now) =>
      var t := Apply(s, step);
      forall id | id in t.hub.queue
        ensures t.hub.queue[id].job.id == id && RowCovered(t, id)
      {
        if exists d :: d in s.calls && Guards(s.calls[d], s.hub.queue[id]) {
          var d :| d in s.calls && Guards(s.calls[d], s.hub.queue[id]);
          assert d in t.calls && Guards(t.calls[d], t.hub.queue[id]);
        }
      }
    case Connect =>
      ArmedCovers(s);
  }

  lemma {:induction false} CoveredRun(s: System, steps: seq<Step>)
    requires Covered(s) && forall step :: step in steps ==> Benign(step)
    ensures Covered(Run(s, steps))
    decreases |steps|
  {
    if steps != [] {
      CoveredStep(s, steps[0]);
      CoveredRun(Apply(s, steps[0]), steps[1..]);
    }
  }

  ghost predicate Quiescent(s: System) {
    forall c :: c in s.calls ==> !s.calls[c].alive
  }

  ghost predicate DeadlineMet(s: System) {
    forall id :: id in s.hub.queue ==>
      s.hub.alarm.Some? && s.hub.alarm.value <= s.hub.queue[id].job.meta.expiresAt
  }

  lemma CoveredAtRest(s: System)
    requires Covered(s)
    ensures Quiescent(s) ==> DeadlineMet(s)
  {
    forall id | Quiescent(s) && id in s.hub.queue
      ensures s.hub.alarm.Some? && s.hub.alarm.value <= s.hub.queue[id].job.meta.expiresAt
    {
      assert RowCovered(s, id);
    }
  }

  /** With no handler in flight, a non-empty queue has an alarm no later than its earliest expiry: in every run
      without a crash or an abandoned alarm. */
  lemma DeadlineKept(steps: seq<Step>)
    requires forall step :: step in steps ==> Benign(step)
    ensures Quiescent(Run(EMPTY, steps)) ==> DeadlineMet(Run(EMPTY, steps))
  {
    CoveredRun(EMPTY, steps);
    CoveredAtRest(Run(EMPTY, steps));
  }

  lemma ConnectCovers(before: seq<Step>)
    ensures Covered(Apply(Run(EMPTY, before), Connect))
  {
    var s := Run(EMPTY, before);
    assert forall id :: id in s.hub.queue ==> s.hub.queue[id].job.id == id by {
      ConservedRun(EMPTY, before);
    }
    ArmedCovers(s);
  }

  /** After any crashes and abandoned alarms, the next connection of the device restores the deadline for good. */
  lemma DeadlineRestored(before: seq<Step>, after: seq<Step>)
    requires forall step :: step in after ==> Benign(step)
    ensures var t := Run(Apply(Run(EMPTY, before), Connect), after);
            Quiescent(t) ==> DeadlineMet(t)
  {
    var s := Run(EMPTY, before);
    ConnectCovers(before);
    CoveredRun(Apply(s, Connect), after);
    CoveredAtRest(Run(Apply(s, Connect), after));
  }

  /** The deadline needs its assumption: a crash between the Hub insert and the arming leaves a queued row that no
      alarm will wake for, until a device connects. */
  lemma CrashLeavesRowUnarmed(job: Job, answer: Answer)
    requires job.meta.issuedAt == 0 && job.meta.expiresAt == 10 && answer.enabled
    ensures var s := Run(EMPTY, [Enqueue(0, Request(Some(job.id), true, job), 1), Resume(0, answer), Resume(0, answer),
                                 Execute(0, true), Resume(0, answer), Crash]);
            Quiescent(s) && job.id in s.hub.queue && s.hub.alarm.None? && !DeadlineMet(s)
  {
    var row := Row(job, answer.hash, 0);
    var s1 := Apply(EMPTY, Enqueue(0, Request(Some(job.id), true, job), 1));
    var s2 := Apply(s1, Resume(0, answer));
    assert s2.calls[0].pc == Hashing(job, 1);
    var s3 := Apply(s2, Resume(0, answer));
    var s4 := Apply(s3, Execute(0, true));
    assert s4.calls[0].pc == Known(row, 1, false);
    var s5 := Apply(s4, Resume(0, answer));
    assert s5.hub.queue == map[job.id := row];
    var s6 := Apply(s5, Crash);
    assert s6.hub == s5.hub;
    RunSix(EMPTY, Enqueue(0, Request(Some(job.id), true, job), 1), Resume(0, answer), Resume(0, answer),
           Execute(0, true), Resume(0, answer), Crash);
  }

  /** So is the alarm that the runtime keeps: once it is lost, no queued row has one, until a device connects. */
  lemma LostAlarmLeavesRows(s: System, id: JobId)
    requires id in s.hub.queue
    ensures var t := Apply(s, LoseAlarm);
            t.hub.queue == s.hub.queue && t.hub.alarm.None? && t.calls == s.calls && !DeadlineMet(t)
  {
    assert id in Apply(s, LoseAlarm).hub.queue;
  }
}
