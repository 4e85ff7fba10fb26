/** What an `enqueue` and an `alarm` achieve when nothing interferes. */
module HubCalls {
  import opened HubQueue
  import opened Options

  /** A request that is a job: well shaped, its times in order, at most 24 hours to live, and not expired. */
  predicate IsJob(req: Request, now: int) {
    && req.shapeOk && 0 <= req.job.meta.issuedAt < req.job.meta.expiresAt
    && req.job.meta.expiresAt - req.job.meta.issuedAt <= 24 * 60 * 60 * 1000 && now < req.job.meta.expiresAt
  }

  /** The steps of an enqueue up to its D1 batch, which then commits or fails. */
  function EnqueueSteps(c: CallId, req: Request, now: int, answer: Answer, up: bool): seq<Step> {
    [Enqueue(c, req, now), Resume(c, answer), Resume(c, answer), Execute(c, true), Resume(c, answer), Execute(c, up)]
  }

  lemma EnqueueReads(s: System, c: CallId, req: Request, now: int, answer: Answer)
    requires c !in s.calls && IsJob(req, now) && answer.enabled
    ensures Run(s, [Enqueue(c, req, now), Resume(c, answer), Resume(c, answer)])
            == s.(calls := s.calls[c := Call(Reading(Row(req.job, answer.hash, 0), now), true)])
  {
    var s1 := Apply(s, Enqueue(c, req, now));
    var s2 := Apply(s1, Resume(c, answer));
    assert s2.calls[c].pc == Hashing(req.job, now);
    var s3 := Apply(s2, Resume(c, answer));
    assert s3.calls == s.calls[c := s3.calls[c]];
    RunThree(s, Enqueue(c, req, now), Resume(c, answer), Resume(c, answer));
  }

  lemma EnqueueInserts(s: System, c: CallId, row: Row, now: int, answer: Answer)
    requires c in s.calls && s.calls[c] == Call(Reading(row, now), true)
    requires row.job.id !in s.d1.jobs && row.job.id !in s.hub.queue && |s.hub.queue| < MAX_PENDING_JOBS
    ensures Apply(Apply(s, Execute(c, true)), Resume(c, answer))
            == s.(hub := s.hub.(queue := s.hub.queue[row.job.id := row]),
                  calls := s.calls[c := Call(Recording(row, now), true)])
  {
    var s4 := Apply(s, Execute(c, true));
    assert s4 == s.(calls := s.calls[c := Call(Known(row, now, false), true)]);
    var s5 := Apply(s4, Resume(c, answer));
    assert s5.calls == s.calls[c := s5.calls[c]];
  }

  lemma EnqueueWrites(s: System, c: CallId, row: Row, now: int, answer: Answer, up: bool)
    requires c in s.calls && s.calls[c] == Call(Reading(row, now), true)
    requires row.job.id !in s.d1.jobs && row.job.id !in s.hub.queue && |s.hub.queue| < MAX_PENDING_JOBS
    ensures Run(s, [Execute(c, true), Resume(c, answer), Execute(c, up)])
            == System(s.hub.(queue := s.hub.queue[row.job.id := row]),
                      if up then Enqueued(s.d1, row, now).value else s.d1,
                      s.calls[c := Call(if up then Recorded(row) else Unrecorded(row), true)], s.replies)
  {
    EnqueueInserts(s, c, row, now, answer);
    var s5 := s.(hub := s.hub.(queue := s.hub.queue[row.job.id := row]),
                 calls := s.calls[c := Call(Recording(row, now), true)]);
    var s6 := Apply(s5, Execute(c, up));
    assert s6.calls == s.calls[c := s6.calls[c]];
    RunThree(s, Execute(c, true), Resume(c, answer), Execute(c, up));
  }

  lemma UnrecordedReturns(s: System, c: CallId, answer: Answer)
    requires c in s.calls && s.calls[c].alive && s.calls[c].pc.Unrecorded?
    ensures var id := s.calls[c].pc.row.job.id;
            Apply(s, Resume(c, answer))
            == System(TakeBack(s.hub, id), s.d1, s.calls - {c}, s.replies + [Refused(Some(id), Internal)])
  {
  }

  /** A batch that D1 refuses: the row is taken back and the caller told so. */
  lemma RefusedIsTakenBack(s: System, c: CallId, answer: Answer)
    requires c in s.calls && s.calls[c].alive && s.calls[c].pc.Recording?
    ensures var id := s.calls[c].pc.row.job.id;
            Apply(Apply(s, Execute(c, false)), Resume(c, answer))
            == System(TakeBack(s.hub, id), s.d1, s.calls - {c}, s.replies + [Refused(Some(id), Internal)])
  {
    var row := s.calls[c].pc.row;
    var t := s.(calls := s.calls[c := Call(Unrecorded(row), true)]);
    assert Apply(s, Execute(c, false)) == t;
    UnrecordedReturns(t, c, answer);
    assert t.calls - {c} == s.calls - {c};
  }

  lemma EnqueueReaches(s: System, c: CallId, req: Request, now: int, answer: Answer, up: bool)
    requires c !in s.calls && IsJob(req, now) && answer.enabled
    requires req.job.id !in s.d1.jobs && req.job.id !in s.hub.queue && |s.hub.queue| < MAX_PENDING_JOBS
    ensures var row := Row(req.job, answer.hash, 0);
            Run(s, EnqueueSteps(c, req, now, answer, up))
            == System(s.hub.(queue := s.hub.queue[req.job.id := row]),
                      if up then Enqueued(s.d1, row, now).value else s.d1,
                      s.calls[c := Call(if up then Recorded(row) else Unrecorded(row), true)], s.replies)
  {
    var row := Row(req.job, answer.hash, 0);
    var asks := [Enqueue(c, req, now), Resume(c, answer), Resume(c, answer)];
    var writes := [Execute(c, true), Resume(c, answer), Execute(c, up)];
    EnqueueReads(s, c, req, now, answer);
    var s3 := s.(calls := s.calls[c := Call(Reading(row, now), true)]);
    EnqueueWrites(s3, c, row, now, answer, up);
    var last := Call(if up then Recorded(row) else Unrecorded(row), true);
    assert s3.calls[c := last] == s.calls[c := last];
    RunAppend(s, asks, writes);
    assert EnqueueSteps(c, req, now, answer, up) == asks + writes;
  }

  lemma EnqueueReturns(s: System, c: CallId, answer: Answer)
    requires c in s.calls && s.calls[c].alive && s.calls[c].pc.Recorded?
    ensures Apply(Apply(s, Resume(c, answer)), Resume(c, answer))
            == System(Armed(s.hub), s.d1, s.calls - {c}, s.replies + [Accepted(s.calls[c].pc.row.job.id, false)])
  {
    var row := s.calls[c].pc.row;
    var t := s.(hub := Armed(s.hub), calls := s.calls[c := Call(Settled(row), true)]);
    assert Apply(s, Resume(c, answer)) == t;
    assert t.calls - {c} == s.calls - {c};
  }

  /** A valid new job is stored in both places, audited, covered by the alarm and acknowledged. */
  lemma EnqueueStores(s: System, c: CallId, req: Request, now: int, answer: Answer)
    requires c !in s.calls && IsJob(req, now) && answer.enabled
    requires req.job.id !in s.d1.jobs && req.job.id !in s.hub.queue && |s.hub.queue| < MAX_PENDING_JOBS
    ensures var t := Run(s, EnqueueSteps(c, req, now, answer, true) + [Resume(c, answer), Resume(c, answer)]);
            var row := Row(req.job, answer.hash, 0);
            && t.hub.queue == s.hub.queue[req.job.id := row]
            && IsEarliest(t.hub.queue, t.hub.alarm)
            && t.d1.jobs == s.d1.jobs[req.job.id := JobRecord(req.job.meta, answer.hash, 0, Queued, now)]
            && t.d1.audit == s.d1.audit + multiset{JobEnqueued(req.job.id, now)}
            && t.calls == s.calls
            && t.replies == s.replies + [Accepted(req.job.id, false)]
  {
    var ends := [Resume(c, answer), Resume(c, answer)];
    EnqueueReaches(s, c, req, now, answer, true);
    RunAppend(s, EnqueueSteps(c, req, now, answer, true), ends);
    var s6 := Run(s, EnqueueSteps(c, req, now, answer, true));
    EnqueueReturns(s6, c, answer);
    RunTwo(s6, Resume(c, answer), Resume(c, answer));
    assert s6.calls - {c} == s.calls;
  }

  lemma RowTakenBack(s: System, c: CallId, row: Row)
    requires row.job.id !in s.hub.queue && c !in s.calls
    ensures TakeBack(s.hub.(queue := s.hub.queue[row.job.id := row]), row.job.id) == s.hub
    ensures s.calls[c := Call(Unrecorded(row), true)] - {c} == s.calls
  {
    assert s.hub.queue[row.job.id := row] - {row.job.id} == s.hub.queue;
  }

  lemma RunOne(s: System, step: Step)
    ensures Run(s, [step]) == Apply(s, step)
  {
    assert [step][1..] == [];
  }

  /** When D1 refuses the batch, both stores are exactly as before, so the caller can simply retry. */
  lemma EnqueueUndone(s: System, c: CallId, req: Request, now: int, answer: Answer)
    requires c !in s.calls && IsJob(req, now) && answer.enabled
    requires req.job.id !in s.d1.jobs && req.job.id !in s.hub.queue && |s.hub.queue| < MAX_PENDING_JOBS
    ensures Run(s, EnqueueSteps(c, req, now, answer, false) + [Resume(c, answer)])
            == s.(replies := s.replies + [Refused(Some(req.job.id), Internal)])
  {
    EnqueueReaches(s, c, req, now, answer, false);
    RunAppend(s, EnqueueSteps(c, req, now, answer, false), [Resume(c, answer)]);
    var s6 := Run(s, EnqueueSteps(c, req, now, answer, false));
    UnrecordedReturns(s6, c, answer);
    RunOne(s6, Resume(c, answer));
    RowTakenBack(s, c, Row(req.job, answer.hash, 0));
  }

  lemma AlarmRings(s: System, c: CallId, now: int)
    requires c !in s.calls && s.hub.alarm.Some? && s.hub.alarm.value <= now
    requires Due(s.hub.queue, now) != map[]
    ensures Apply(s, Alarm(c, now))
            == s.(hub := s.hub.(alarm := None),
                  calls := s.calls[c := Call(Expiring(s.hub.alarm.value, now, Due(s.hub.queue, now)), true)])
  {
  }

  lemma AlarmCommits(s: System, c: CallId, answer: Answer)
    requires c in s.calls && s.calls[c].alive && s.calls[c].pc.Expiring?
    ensures var pc := s.calls[c].pc;
            Apply(Apply(s, Execute(c, true)), Resume(c, answer))
            == System(Forget(s.hub, pc.due), ExpiredAll(s.d1, pc.due, pc.now), s.calls - {c}, s.replies)
  {
    var pc := s.calls[c].pc;
    var t := s.(d1 := ExpiredAll(s.d1, pc.due, pc.now), calls := s.calls[c := Call(Marked(pc.at, pc.due), true)]);
    assert Apply(s, Execute(c, true)) == t;
    assert t.calls - {c} == s.calls - {c};
  }

  lemma AlarmRuns(s: System, c: CallId, now: int, answer: Answer)
    requires c !in s.calls && s.hub.alarm.Some? && s.hub.alarm.value <= now
    requires Due(s.hub.queue, now) != map[]
    ensures var due := Due(s.hub.queue, now);
            Run(s, [Alarm(c, now), Execute(c, true), Resume(c, answer)])
            == System(Armed(Hub(s.hub.queue - due.Keys, None)), ExpiredAll(s.d1, due, now), s.calls, s.replies)
  {
    AlarmRings(s, c, now);
    var s1 := Apply(s, Alarm(c, now));
    AlarmCommits(s1, c, answer);
    assert s1.calls - {c} == s.calls;
    RunThree(s, Alarm(c, now), Execute(c, true), Resume(c, answer));
  }

  /** A job marked as expired: what D1 held of it stays, but for its status, attempts and time; a job D1 did not know is
      taken from the Hub's row. */
  predicate MarkedFrom(before: map<JobId, JobRecord>, after: map<JobId, JobRecord>, id: JobId, row: Row, now: int) {
    && id in after && after[id].status == Expired && after[id].attempts == row.attempts && after[id].updatedAt == now
    && after[id].meta == (if id in before then before[id].meta else row.job.meta)
    && after[id].paramsSha256 == if id in before then before[id].paramsSha256 else row.paramsSha256
  }

  lemma ExpiredAllMarks(d1: Database, due: map<JobId, Row>, now: int)
    ensures var after := ExpiredAll(d1, due, now);
            && (forall id :: id in due ==> MarkedFrom(d1.jobs, after.jobs, id, due[id], now))
            && (forall id :: id in d1.jobs && id !in due ==> id in after.jobs && after.jobs[id] == d1.jobs[id])
            && forall x :: after.audit[x] == d1.audit[x] + if IsExpiryOf(x, due, now) then 1 else 0
  {
    forall x
      ensures Expiries(due, now)[x] == if IsExpiryOf(x, due, now) then 1 else 0
    {
      var all := set id | id in due :: JobExpired(id, due[id].attempts, now);
      assert x in all <==> IsExpiryOf(x, due, now);
    }
  }

  /** The audit row that a due job gets. */
  predicate IsExpiryOf(x: AuditRow, due: map<JobId, Row>, now: int) {
    x.JobExpired? && x.id in due && x.attempts == due[x.id].attempts && x.at == now
  }

  /** One undisturbed alarm: every job due is marked in D1, gets one audit row and leaves the Hub; every other row is
      untouched; and the alarm is set again for exactly the earliest of those. */
  lemma AlarmExpiresDue(s: System, c: CallId, now: int, answer: Answer)
    requires c !in s.calls && s.hub.alarm.Some? && s.hub.alarm.value <= now
    requires exists id :: id in s.hub.queue && s.hub.queue[id].job.meta.expiresAt <= now
    ensures var t := Run(s, [Alarm(c, now), Execute(c, true), Resume(c, answer)]);
            var due := map id | id in s.hub.queue && s.hub.queue[id].job.meta.expiresAt <= now :: s.hub.queue[id];
            && (forall id :: id in t.hub.queue <==> id in s.hub.queue && now < s.hub.queue[id].job.meta.expiresAt)
            && (forall id :: id in t.hub.queue ==> t.hub.queue[id] == s.hub.queue[id])
            && (forall id :: id in due ==> MarkedFrom(s.d1.jobs, t.d1.jobs, id, due[id], now))
            && (forall id :: id in s.d1.jobs && id !in due ==> id in t.d1.jobs && t.d1.jobs[id] == s.d1.jobs[id])
            && t.d1.jobs.Keys == s.d1.jobs.Keys + due.Keys
            && (forall x :: t.d1.audit[x] == s.d1.audit[x] + if IsExpiryOf(x, due, now) then 1 else 0)
            && IsEarliest(t.hub.queue, t.hub.alarm) && t.calls == s.calls && t.replies == s.replies
  {
    var due := map id | id in s.hub.queue && s.hub.queue[id].job.meta.expiresAt <= now :: s.hub.queue[id];
    var late :| late in s.hub.queue && s.hub.queue[late].job.meta.expiresAt <= now;
    assert due == Due(s.hub.queue, now) && late in due;
    AlarmRuns(s, c, now, answer);
    ExpiredAllMarks(s.d1, due, now);
  }

  /** An alarm whose batch D1 refuses changes nothing: the runtime keeps it pending. */
  lemma AlarmUndone(s: System, c: CallId, now: int, answer: Answer)
    requires c !in s.calls && s.hub.alarm.Some? && s.hub.alarm.value <= now
    requires exists id :: id in s.hub.queue && s.hub.queue[id].job.meta.expiresAt <= now
    ensures Run(s, [Alarm(c, now), Execute(c, false), Resume(c, answer)]) == s
  {
    var late :| late in s.hub.queue && s.hub.queue[late].job.meta.expiresAt <= now;
    var due := Due(s.hub.queue, now);
    assert late in due;
    AlarmRings(s, c, now);
    var s1 := Apply(s, Alarm(c, now));
    var s2 := s1.(calls := s.calls[c := Call(Unmarked(s.hub.alarm.value, due), true)]);
    assert s1.calls[c := Call(Unmarked(s.hub.alarm.value, due), true)] == s2.calls;
    assert Apply(s1, Execute(c, false)) == s2;
    assert s2.calls - {c} == s.calls;
    RunThree(s, Alarm(c, now), Execute(c, false), Resume(c, answer));
  }

  /** An alarm that finds nothing due only sets itself again. */
  lemma AlarmFindsNothing(s: System, c: CallId, now: int)
    requires c !in s.calls && s.hub.alarm.Some? && s.hub.alarm.value <= now
    requires forall id :: id in s.hub.queue ==> now < s.hub.queue[id].job.meta.expiresAt
    ensures var t := Apply(s, Alarm(c, now));
            t == s.(hub := s.hub.(alarm := t.hub.alarm)) && IsEarliest(t.hub.queue, t.hub.alarm)
  {
    assert Due(s.hub.queue, now) == map[];
  }
}
