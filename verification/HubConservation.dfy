/** No job is lost between the Hub and D1 without a trace: the invariant of the two stores, the calls in flight and
    the replies. When a job may be marked expired is the subject of `HubExpiry`. */
module HubConservation {
  import opened HubQueue
  import opened Options

  /** The record carries the row's metadata and hash. */
  ghost predicate Describes(rec: JobRecord, row: Row) {
    rec == RecordOf(row, rec.status, rec.updatedAt)
  }

  ghost predicate WasEnqueued(d1: Database, id: JobId) {
    exists at :: JobEnqueued(id, at) in d1.audit
  }

  ghost predicate WasExpired(d1: Database, id: JobId) {
    exists attempts, at :: JobExpired(id, attempts, at) in d1.audit
  }

  /** The call has inserted a Hub row that D1 has not confirmed to it yet. */
  ghost predicate Inserted(pc: Pc) {
    pc.Recording? || pc.Unrecorded? || pc.Recorded?
  }

  /** The call's own INSERT committed. */
  ghost predicate Won(pc: Pc) {
    pc.Recorded? || pc.Settled?
  }

  ghost predicate CallOk(hub: Hub, d1: Database, pc: Pc) {
    && (Inserted(pc) ==>
          IsExpired(d1, pc.row.job.id)
          || (pc.row.job.id in hub.queue && hub.queue[pc.row.job.id] == pc.row))
    && (pc.Recording? || pc.Unrecorded? ==> !IsQueued(d1, pc.row.job.id))
    && (Won(pc) ==> pc.row.job.id in d1.jobs && WasEnqueued(d1, pc.row.job.id))
    && (pc.Marked? ==> forall id :: id in pc.due ==> IsExpired(d1, id))
    && ((pc.Expiring? || pc.Marked? || pc.Unmarked?) ==> forall id :: id in pc.due ==> pc.due[id].job.id == id)
  }

  ghost predicate StoresOk(hub: Hub, d1: Database) {
    && |hub.queue| <= MAX_PENDING_JOBS
    && (forall id :: id in hub.queue ==> hub.queue[id].job.id == id)
    && (forall id :: IsQueued(d1, id) ==> id in hub.queue && Describes(d1.jobs[id], hub.queue[id]))
    && (forall id :: IsQueued(d1, id) ==> WasEnqueued(d1, id))
    && (forall id :: IsExpired(d1, id) ==> WasExpired(d1, id))
  }

  /** No two calls in flight inserted the same job, unless the job has expired meanwhile; and at most one of all calls
      ever made is told that it queued the job. */
  ghost predicate CallsApart(s: System) {
    && (forall c, d :: c in s.calls && d in s.calls && c != d && Inserted(s.calls[c].pc) && Inserted(s.calls[d].pc)
                       && s.calls[c].pc.row.job.id == s.calls[d].pc.row.job.id
                       ==> IsExpired(s.d1, s.calls[c].pc.row.job.id))
    && (forall c, d :: c in s.calls && d in s.calls && c != d && Won(s.calls[c].pc) && Won(s.calls[d].pc)
                       ==> s.calls[c].pc.row.job.id != s.calls[d].pc.row.job.id)
  }

  ghost predicate RepliesOk(s: System) {
    && (forall i :: 0 <= i < |s.replies| && s.replies[i].Accepted? && !s.replies[i].duplicate
                    ==> s.replies[i].id in s.d1.jobs && WasEnqueued(s.d1, s.replies[i].id))
    && (forall i, c :: 0 <= i < |s.replies| && c in s.calls && Won(s.calls[c].pc)
                       ==> s.replies[i] != Accepted(s.calls[c].pc.row.job.id, false))
    && (forall i, j :: 0 <= i < j < |s.replies| && s.replies[i].Accepted? && !s.replies[i].duplicate
                       ==> s.replies[j] != s.replies[i])
  }

  ghost predicate AllCallsOk(s: System) {
    forall c :: c in s.calls ==> CallOk(s.hub, s.d1, s.calls[c].pc)
  }

  ghost predicate Conserved(s: System) {
    && StoresOk(s.hub, s.d1)
    && AllCallsOk(s)
    && CallsApart(s)
    && RepliesOk(s)
  }

  /** D1 only moves forward: rows stay, an expired row stays expired, audit rows stay. */
  ghost predicate Advances(d1: Database, after: Database) {
    && (forall id :: id in d1.jobs ==> id in after.jobs)
    && (forall id :: IsExpired(d1, id) ==> IsExpired(after, id))
    && d1.audit <= after.audit
  }

  lemma ExecutedAdvances(d1: Database, pc: Pc, up: bool)
    requires WaitsForD1(pc)
    ensures Advances(d1, Executed(d1, pc, up).0)
  {
  }

  lemma AuditKept(d1: Database, after: Database, id: JobId)
    requires Advances(d1, after)
    ensures WasEnqueued(d1, id) ==> WasEnqueued(after, id)
    ensures WasExpired(d1, id) ==> WasExpired(after, id)
  {
    if WasEnqueued(d1, id) {
      var at :| JobEnqueued(id, at) in d1.audit;
      assert JobEnqueued(id, at) in after.audit;
    }
    if WasExpired(d1, id) {
      var attempts, at :| JobExpired(id, attempts, at) in d1.audit;
      assert JobExpired(id, attempts, at) in after.audit;
    }
  }

  /** A call that is not the one moving keeps its part of the invariant. */
  lemma CallOkKept(hub: Hub, d1: Database, hub': Hub, d1': Database, pc: Pc)
    requires CallOk(hub, d1, pc) && Advances(d1, d1')
    requires Inserted(pc) && !IsExpired(d1', pc.row.job.id) && pc.row.job.id in hub.queue
             ==> pc.row.job.id in hub'.queue && hub'.queue[pc.row.job.id] == hub.queue[pc.row.job.id]
    requires pc.Recording? || pc.Unrecorded? ==> !IsQueued(d1', pc.row.job.id)
    ensures CallOk(hub', d1', pc)
  {
    if Won(pc) {
      AuditKept(d1, d1', pc.row.job.id);
    }
  }

  lemma PutApart(s: System, c: CallId, hub: Hub, d1: Database, alive: bool, out: Outcome)
    requires CallsApart(s) && Advances(s.d1, d1)
    requires out.Wait? && Inserted(out.pc) ==>
               || (c in s.calls && Inserted(s.calls[c].pc) && s.calls[c].pc.row == out.pc.row)
               || (forall d | d in s.calls && d != c && Inserted(s.calls[d].pc)
                              && s.calls[d].pc.row.job.id == out.pc.row.job.id :: IsExpired(d1, out.pc.row.job.id))
    requires out.Wait? && Won(out.pc) ==>
               || (c in s.calls && Won(s.calls[c].pc) && s.calls[c].pc.row == out.pc.row)
               || (forall d :: d in s.calls && d != c && Won(s.calls[d].pc)
                               ==> s.calls[d].pc.row.job.id != out.pc.row.job.id)
    ensures CallsApart(Put(s.(hub := hub, d1 := d1), c, alive, out))
  {
    var t := Put(s.(hub := hub, d1 := d1), c, alive, out);
    assert forall d :: d in t.calls && d != c ==> d in s.calls && t.calls[d] == s.calls[d];
  }

  lemma PutReplies(s: System, c: CallId, hub: Hub, d1: Database, alive: bool, out: Outcome)
    requires RepliesOk(s) && CallsApart(s) && Advances(s.d1, d1)
    requires c in s.calls ==> CallOk(s.hub, s.d1, s.calls[c].pc)
    requires out.Wait? && Won(out.pc) ==>
               || (c in s.calls && Won(s.calls[c].pc) && s.calls[c].pc.row == out.pc.row)
               || out.pc.row.job.id !in s.d1.jobs
    requires out.Return? && out.reply.Accepted? && !out.reply.duplicate ==>
               c in s.calls && Won(s.calls[c].pc) && s.calls[c].pc.row.job.id == out.reply.id
    ensures RepliesOk(Put(s.(hub := hub, d1 := d1), c, alive, out))
  {
    var t := Put(s.(hub := hub, d1 := d1), c, alive, out);
    assert forall d :: d in t.calls && d != c ==> d in s.calls && t.calls[d] == s.calls[d];
    forall i | 0 <= i < |t.replies| && t.replies[i].Accepted? && !t.replies[i].duplicate
      ensures t.replies[i].id in t.d1.jobs && WasEnqueued(t.d1, t.replies[i].id)
    {
      AuditKept(s.d1, d1, t.replies[i].id);
    }
  }

  /** Who has inserted a row that the Hub does not hold had its job expired. */
  lemma NotYetInserted(s: System, id: JobId)
    requires Conserved(s) && id !in s.hub.queue
    ensures forall d :: d in s.calls && Inserted(s.calls[d].pc) && s.calls[d].pc.row.job.id == id
                        ==> IsExpired(s.d1, id)
  {
    forall d | d in s.calls && Inserted(s.calls[d].pc) && s.calls[d].pc.row.job.id == id
      ensures IsExpired(s.d1, id)
    {
      assert CallOk(s.hub, s.d1, s.calls[d].pc);
    }
  }

  lemma PutCalls(s: System, c: CallId, hub: Hub, d1: Database, alive: bool, out: Outcome)
    requires OthersOk(s, c, hub, d1) && (out.Wait? ==> CallOk(hub, d1, out.pc))
    ensures AllCallsOk(Put(s.(hub := hub, d1 := d1), c, alive, out))
  {
    var t := Put(s.(hub := hub, d1 := d1), c, alive, out);
    forall d | d in t.calls
      ensures CallOk(hub, d1, t.calls[d].pc)
    {
      assert d != c ==> d in s.calls && t.calls[d] == s.calls[d];
    }
  }

  /** Where a call goes when the Hub moves it. */
  ghost predicate HubGoes(s: System, c: CallId, out: Outcome) {
    && (out.Wait? ==> !out.pc.Recorded? && !out.pc.Unrecorded?)
    && (out.Wait? && out.pc.Settled? ==> c in s.calls && s.calls[c].pc == Recorded(out.pc.row))
    && (out.Wait? && out.pc.Recording? ==> out.pc.row.job.id !in s.hub.queue)
    && (out.Return? && out.reply.Accepted? && !out.reply.duplicate ==>
          c in s.calls && s.calls[c].pc.Settled? && s.calls[c].pc.row.job.id == out.reply.id)
  }

  ghost predicate OthersOk(s: System, c: CallId, hub: Hub, d1: Database) {
    forall d :: d in s.calls && d != c ==> CallOk(hub, d1, s.calls[d].pc)
  }

  /** The moves of the Hub alone: D1 does not change. */
  lemma HubMoves(s: System, c: CallId, hub: Hub, out: Outcome)
    requires Conserved(s) && StoresOk(hub, s.d1) && OthersOk(s, c, hub, s.d1) && HubGoes(s, c, out)
    requires out.Wait? ==> CallOk(hub, s.d1, out.pc)
    ensures Conserved(Put(s.(hub := hub), c, true, out))
  {
    if out.Wait? && out.pc.Recording? {
      NotYetInserted(s, out.pc.row.job.id);
    }
    PutApart(s, c, hub, s.d1, true, out);
    PutReplies(s, c, hub, s.d1, true, out);
    PutCalls(s, c, hub, s.d1, true, out);
    assert s.(hub := hub) == s.(hub := hub, d1 := s.d1);
  }

  lemma KeepStores(hub: Hub, d1: Database, after: Hub)
    requires StoresOk(hub, d1) && after.queue == hub.queue
    ensures StoresOk(after, d1)
  {
  }

  lemma InsertStores(hub: Hub, d1: Database, after: Hub, row: Row)
    requires StoresOk(hub, d1) && row.job.id !in hub.queue && |hub.queue| < MAX_PENDING_JOBS
    requires after.queue == hub.queue[row.job.id := row]
    ensures StoresOk(after, d1)
  {
  }

  lemma RemoveStores(hub: Hub, d1: Database, after: Hub, ids: set<JobId>)
    requires StoresOk(hub, d1) && forall id :: id in ids ==> !IsQueued(d1, id)
    requires after.queue == hub.queue - ids
    ensures StoresOk(after, d1)
  {
    assert hub.queue.Keys == after.queue.Keys + (hub.queue.Keys * ids);
  }

  /** What a resumed call does to the queue: nothing, one insert, or the removal of its own rows. */
  lemma ResumedQueue(hub: Hub, pc: Pc, answer: Answer)
    requires WaitsForHub(pc)
    ensures var queue := Resumed(hub, pc, answer).0.queue;
            || queue == hub.queue
            || (pc.Known? && pc.row.job.id !in hub.queue && |hub.queue| < MAX_PENDING_JOBS
                && queue == hub.queue[pc.row.job.id := pc.row])
            || (pc.Unrecorded? && queue == hub.queue - {pc.row.job.id})
            || (pc.Marked? && queue == hub.queue - pc.due.Keys)
  {
  }

  lemma ResumedStores(hub: Hub, d1: Database, pc: Pc, answer: Answer)
    requires StoresOk(hub, d1) && CallOk(hub, d1, pc) && WaitsForHub(pc)
    ensures StoresOk(Resumed(hub, pc, answer).0, d1)
  {
    var after := Resumed(hub, pc, answer).0;
    ResumedQueue(hub, pc, answer);
    if after.queue == hub.queue {
      KeepStores(hub, d1, after);
    } else if pc.Known? {
      InsertStores(hub, d1, after, pc.row);
    } else if pc.Unrecorded? {
      RemoveStores(hub, d1, after, {pc.row.job.id});
    } else {
      RemoveStores(hub, d1, after, pc.due.Keys);
    }
  }

  lemma ResumedPlace(hub: Hub, d1: Database, pc: Pc, answer: Answer)
    requires StoresOk(hub, d1) && CallOk(hub, d1, pc) && WaitsForHub(pc)
    ensures var (after, out) := Resumed(hub, pc, answer); out.Wait? ==> CallOk(after, d1, out.pc)
  {
  }

  lemma ResumedOthers(s: System, c: CallId, answer: Answer, d: CallId)
    requires Conserved(s) && c in s.calls && WaitsForHub(s.calls[c].pc) && d in s.calls && d != c
    ensures CallOk(Resumed(s.hub, s.calls[c].pc, answer).0, s.d1, s.calls[d].pc)
  {
    var pc := s.calls[c].pc;
    var hub := Resumed(s.hub, pc, answer).0;
    assert CallOk(s.hub, s.d1, pc);
    assert CallOk(s.hub, s.d1, s.calls[d].pc);
    CallOkKept(s.hub, s.d1, hub, s.d1, s.calls[d].pc);
  }

  lemma ResumedGoes(s: System, c: CallId, answer: Answer)
    requires c in s.calls && WaitsForHub(s.calls[c].pc)
    ensures HubGoes(s, c, Resumed(s.hub, s.calls[c].pc, answer).1)
  {
  }

  lemma ResumedAll(s: System, c: CallId, answer: Answer)
    requires Conserved(s) && c in s.calls && WaitsForHub(s.calls[c].pc)
    ensures OthersOk(s, c, Resumed(s.hub, s.calls[c].pc, answer).0, s.d1)
  {
    forall d | d in s.calls && d != c
      ensures CallOk(Resumed(s.hub, s.calls[c].pc, answer).0, s.d1, s.calls[d].pc)
    {
      ResumedOthers(s, c, answer, d);
    }
  }

  lemma ConservedResume(s: System, c: CallId, answer: Answer)
    requires Conserved(s) && c in s.calls && s.calls[c].alive && WaitsForHub(s.calls[c].pc)
    ensures Conserved(Apply(s, Resume(c, answer)))
  {
    var pc := s.calls[c].pc;
    var (hub, out) := Resumed(s.hub, pc, answer);
    assert CallOk(s.hub, s.d1, pc);
    ResumedStores(s.hub, s.d1, pc, answer);
    ResumedPlace(s.hub, s.d1, pc, answer);
    ResumedAll(s, c, answer);
    ResumedGoes(s, c, answer);
    HubMoves(s, c, hub, out);
  }

  lemma ConservedAlarm(s: System, c: CallId, now: int)
    requires Conserved(s) && c !in s.calls && s.hub.alarm.Some? && s.hub.alarm.value <= now
    ensures Conserved(Apply(s, Alarm(c, now)))
  {
    var (hub, out) := Fired(s.hub, s.hub.alarm.value, now);
    assert hub.queue == s.hub.queue && StoresOk(hub, s.d1);
    forall d | d in s.calls && d != c
      ensures CallOk(hub, s.d1, s.calls[d].pc)
    {
      CallOkKept(s.hub, s.d1, hub, s.d1, s.calls[d].pc);
    }
    HubMoves(s, c, hub, out);
  }

  lemma EnqueuedStores(hub: Hub, d1: Database, row: Row, now: int)
    requires StoresOk(hub, d1) && CallOk(hub, d1, Recording(row, now)) && row.job.id !in d1.jobs
    ensures StoresOk(hub, Enqueued(d1, row, now).value)
  {
    var after := Enqueued(d1, row, now).value;
    ExecutedAdvances(d1, Recording(row, now), true);
    assert JobEnqueued(row.job.id, now) in after.audit;
    forall id | id in after.jobs
      ensures IsQueued(after, id) ==>
                id in hub.queue && Describes(after.jobs[id], hub.queue[id]) && WasEnqueued(after, id)
      ensures IsExpired(after, id) ==> WasExpired(after, id)
    {
      if id != row.job.id {
        AuditKept(d1, after, id);
      }
    }
  }

  lemma ExpiredStoresOne(hub: Hub, d1: Database, due: map<JobId, Row>, now: int, id: JobId)
    requires StoresOk(hub, d1)
    ensures var after := ExpiredAll(d1, due, now);
            && (IsQueued(after, id) ==>
                  id in hub.queue && Describes(after.jobs[id], hub.queue[id]) && WasEnqueued(after, id))
            && (IsExpired(after, id) ==> WasExpired(after, id))
  {
    if id in due {
      DueIsExpired(d1, due, now, id);
    } else if id in d1.jobs {
      NotDueIsKept(d1, due, now, id);
    }
  }

  lemma DueIsExpired(d1: Database, due: map<JobId, Row>, now: int, id: JobId)
    requires id in due
    ensures !IsQueued(ExpiredAll(d1, due, now), id) && WasExpired(ExpiredAll(d1, due, now), id)
  {
    assert JobExpired(id, due[id].attempts, now) in ExpiredAll(d1, due, now).audit;
  }

  lemma NotDueIsKept(d1: Database, due: map<JobId, Row>, now: int, id: JobId)
    requires id !in due && id in d1.jobs
    ensures var after := ExpiredAll(d1, due, now);
            && id in after.jobs && after.jobs[id] == d1.jobs[id]
            && (WasEnqueued(d1, id) ==> WasEnqueued(after, id)) && (WasExpired(d1, id) ==> WasExpired(after, id))
  {
    ExecutedAdvances(d1, Expiring(0, now, due), true);
    AuditKept(d1, ExpiredAll(d1, due, now), id);
  }

  lemma ExpiredStores(hub: Hub, d1: Database, due: map<JobId, Row>, now: int)
    requires StoresOk(hub, d1)
    ensures StoresOk(hub, ExpiredAll(d1, due, now))
  {
    var after := ExpiredAll(d1, due, now);
    forall id | id in after.jobs
      ensures IsQueued(after, id) ==>
                id in hub.queue && Describes(after.jobs[id], hub.queue[id]) && WasEnqueued(after, id)
      ensures IsExpired(after, id) ==> WasExpired(after, id)
    {
      ExpiredStoresOne(hub, d1, due, now, id);
    }
  }

  lemma ExecutedStores(hub: Hub, d1: Database, pc: Pc, up: bool)
    requires StoresOk(hub, d1) && CallOk(hub, d1, pc) && WaitsForD1(pc)
    ensures StoresOk(hub, Executed(d1, pc, up).0)
  {
    match pc
    case Reading(_, _) =>
    case Recording(row, now) =>
      if row.job.id !in d1.jobs {
        EnqueuedStores(hub, d1, row, now);
      }
    case Refusing(ref, code) =>
      var after := d1.(audit := d1.audit + multiset{JobRefused(ref, code)});
      forall id | id in d1.jobs
        ensures WasEnqueued(d1, id) ==> WasEnqueued(after, id)
        ensures WasExpired(d1, id) ==> WasExpired(after, id)
      {
        AuditKept(d1, after, id);
      }
    case Expiring(_, now, due) => ExpiredStores(hub, d1, due, now);
  }

  lemma ExecutedPlace(hub: Hub, d1: Database, pc: Pc, up: bool)
    requires CallOk(hub, d1, pc) && WaitsForD1(pc)
    ensures var (after, next) := Executed(d1, pc, up); next.Some? ==> CallOk(hub, after, next.value)
  {
    var (after, next) := Executed(d1, pc, up);
    match pc
    case Reading(_, _) =>
    case Refusing(_, _) =>
    case Recording(row, now) =>
      if row.job.id !in d1.jobs && up {
        assert JobEnqueued(row.job.id, now) in after.audit;
      }
    case Expiring(_, _, due) =>
  }

  lemma ExecutedOthers(s: System, c: CallId, up: bool, d: CallId)
    requires Conserved(s) && c in s.calls && WaitsForD1(s.calls[c].pc) && d in s.calls && d != c
    ensures CallOk(s.hub, Executed(s.d1, s.calls[c].pc, up).0, s.calls[d].pc)
  {
    var pc := s.calls[c].pc;
    var d1 := Executed(s.d1, pc, up).0;
    ExecutedAdvances(s.d1, pc, up);
    assert CallOk(s.hub, s.d1, pc);
    assert CallOk(s.hub, s.d1, s.calls[d].pc);
    CallOkKept(s.hub, s.d1, s.hub, d1, s.calls[d].pc);
  }

  /** Only a plain INSERT can win, so the job was unknown to D1 and nobody had won it before. */
  lemma ExecutedWins(s: System, c: CallId, up: bool)
    requires Conserved(s) && c in s.calls && WaitsForD1(s.calls[c].pc)
    ensures var (d1, next) := Executed(s.d1, s.calls[c].pc, up);
            next.Some? && Won(next.value) ==>
              && next.value.row.job.id !in s.d1.jobs
              && forall d | d in s.calls && d != c && Won(s.calls[d].pc) ::
                   s.calls[d].pc.row.job.id != next.value.row.job.id
  {
    var (d1, next) := Executed(s.d1, s.calls[c].pc, up);
    if next.Some? && Won(next.value) {
      forall d | d in s.calls && d != c && Won(s.calls[d].pc)
        ensures s.calls[d].pc.row.job.id != next.value.row.job.id
      {
        assert CallOk(s.hub, s.d1, s.calls[d].pc);
      }
    }
  }

  /** Where a call goes when D1 moves it. */
  ghost predicate DatabaseGoes(s: System, c: CallId, out: Outcome)
    requires c in s.calls
  {
    && !out.Return?
    && (out.Wait? && Inserted(out.pc) ==> Inserted(s.calls[c].pc) && s.calls[c].pc.row == out.pc.row)
    && (out.Wait? && Won(out.pc) ==>
          && out.pc.row.job.id !in s.d1.jobs
          && forall d | d in s.calls && d != c && Won(s.calls[d].pc) ::
               s.calls[d].pc.row.job.id != out.pc.row.job.id)
  }

  lemma ExecutedGoes(s: System, c: CallId, up: bool)
    requires Conserved(s) && c in s.calls && WaitsForD1(s.calls[c].pc)
    ensures DatabaseGoes(s, c, After(Executed(s.d1, s.calls[c].pc, up).1))
  {
    ExecutedWins(s, c, up);
  }

  lemma ExecutedAll(s: System, c: CallId, up: bool)
    requires Conserved(s) && c in s.calls && WaitsForD1(s.calls[c].pc)
    ensures OthersOk(s, c, s.hub, Executed(s.d1, s.calls[c].pc, up).0)
  {
    forall d | d in s.calls && d != c
      ensures CallOk(s.hub, Executed(s.d1, s.calls[c].pc, up).0, s.calls[d].pc)
    {
      ExecutedOthers(s, c, up, d);
    }
  }

  /** The moves of D1 alone: the Hub does not change. */
  lemma DatabaseMoves(s: System, c: CallId, d1: Database, out: Outcome)
    requires Conserved(s) && StoresOk(s.hub, d1) && Advances(s.d1, d1) && c in s.calls
    requires OthersOk(s, c, s.hub, d1) && DatabaseGoes(s, c, out)
    requires out.Wait? ==> CallOk(s.hub, d1, out.pc)
    ensures Conserved(Put(s.(d1 := d1), c, s.calls[c].alive, out))
  {
    PutApart(s, c, s.hub, d1, s.calls[c].alive, out);
    PutReplies(s, c, s.hub, d1, s.calls[c].alive, out);
    PutCalls(s, c, s.hub, d1, s.calls[c].alive, out);
    assert s.(d1 := d1) == s.(hub := s.hub, d1 := d1);
  }

  lemma ConservedExecute(s: System, c: CallId, up: bool)
    requires Conserved(s) && c in s.calls && WaitsForD1(s.calls[c].pc)
    ensures Conserved(Apply(s, Execute(c, up)))
  {
    var pc := s.calls[c].pc;
    var (d1, next) := Executed(s.d1, pc, up);
    assert CallOk(s.hub, s.d1, pc);
    ExecutedAdvances(s.d1, pc, up);
    ExecutedStores(s.hub, s.d1, pc, up);
    ExecutedPlace(s.hub, s.d1, pc, up);
    ExecutedGoes(s, c, up);
    ExecutedAll(s, c, up);
    DatabaseMoves(s, c, d1, After(next));
  }

  /** The invariant does not speak of the alarm. */
  lemma ConservedAlarmSet(s: System, alarm: Option<int>)
    requires Conserved(s)
    ensures Conserved(s.(hub := s.hub.(alarm := alarm)))
  {
    var t := s.(hub := s.hub.(alarm := alarm));
    forall c | c in s.calls
      ensures CallOk(t.hub, t.d1, t.calls[c].pc)
    {
      assert CallOk(s.hub, s.d1, s.calls[c].pc);
    }
  }

  lemma ConservedCrash(s: System)
    requires Conserved(s)
    ensures Conserved(Apply(s, Crash))
  {
    var t := Apply(s, Crash);
    forall c | c in t.calls
      ensures CallOk(t.hub, t.d1, t.calls[c].pc)
    {
      assert CallOk(s.hub, s.d1, s.calls[c].pc);
    }
  }

  lemma ConservedStep(s: System, step: Step)
    requires Conserved(s)
    ensures Conserved(Apply(s, step))
  {
    match step
    case Resume(c, answer) =>
      if c in s.calls && s.calls[c].alive && WaitsForHub(s.calls[c].pc) {
        ConservedResume(s, c, answer);
      }
    case Execute(c, up) =>
      if c in s.calls && WaitsForD1(s.calls[c].pc) {
        ConservedExecute(s, c, up);
      }
    case Alarm(c, now) =>
      if c !in s.calls && s.hub.alarm.Some? && s.hub.alarm.value <= now {
        ConservedAlarm(s, c, now);
      }
    case Enqueue(c, req, now) =>
      if c !in s.calls {
        HubMoves(s, c, s.hub, Wait(Started(req, now)));
      }
    case Connect => ConservedAlarmSet(s, Armed(s.hub).alarm);
    case Crash => ConservedCrash(s);
    case LoseAlarm => ConservedAlarmSet(s, None);
  }

  lemma {:induction false} ConservedRun(s: System, steps: seq<Step>)
    requires Conserved(s)
    ensures Conserved(Run(s, steps))
    decreases |steps|
  {
    if steps != [] {
      ConservedStep(s, steps[0]);
      ConservedRun(Apply(s, steps[0]), steps[1..]);
    }
  }

  /** Over every interleaving, with D1 failing and the object crashing at any point: a job whose `enqueue` returned ok
      and not `duplicate` is in the Hub's queue with a matching D1 row, or marked expired in D1 with its audit row. */
  lemma NeverLost(steps: seq<Step>, id: JobId)
    ensures var s := Run(EMPTY, steps);
            Accepted(id, false) in s.replies ==>
              && WasEnqueued(s.d1, id)
              && ((IsQueued(s.d1, id) && id in s.hub.queue && Describes(s.d1.jobs[id], s.hub.queue[id]))
                  || (IsExpired(s.d1, id) && WasExpired(s.d1, id)))
  {
    ConservedRun(EMPTY, steps);
  }

  /** D1 never says `queued` about a job the Hub does not hold, and never `expired` without the audit row. */
  lemma StoresAgree(steps: seq<Step>, id: JobId)
    ensures var s := Run(EMPTY, steps);
            && (IsQueued(s.d1, id) ==> id in s.hub.queue && Describes(s.d1.jobs[id], s.hub.queue[id]))
            && (IsExpired(s.d1, id) ==> WasExpired(s.d1, id))
  {
    ConservedRun(EMPTY, steps);
  }

  /** Of all the calls that ever offered a job, at most one is told that it queued it. */
  lemma OneWinner(steps: seq<Step>, i: nat, j: nat)
    ensures var replies := Run(EMPTY, steps).replies;
            i < j < |replies| && replies[i].Accepted? && !replies[i].duplicate ==> replies[j] != replies[i]
  {
    ConservedRun(EMPTY, steps);
  }

  lemma QueueBounded(steps: seq<Step>)
    ensures |Run(EMPTY, steps).hub.queue| <= MAX_PENDING_JOBS
  {
    ConservedRun(EMPTY, steps);
  }
}
