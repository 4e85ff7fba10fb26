/** The Durable Object and D1, updated in place: every segment of `HubQueue` as a method on the object's fields. */
module HubObjects {
  import opened HubQueue
  import opened Options

  lemma EarliestUnique(queue: map<JobId, Row>, alarm: Option<int>)
    requires IsEarliest(queue, alarm)
    ensures alarm == Earliest(queue)
  {
  }

  lemma ExpiriesOneMore(done: map<JobId, Row>, id: JobId, row: Row, now: int)
    requires id !in done
    ensures Expiries(done[id := row], now) == Expiries(done, now) + multiset{JobExpired(id, row.attempts, now)}
  {
    var more := done[id := row];
    var rows := set k | k in done :: JobExpired(k, done[k].attempts, now);
    var one := JobExpired(id, row.attempts, now);
    assert (set k | k in more :: JobExpired(k, more[k].attempts, now)) == rows + {one} by {
      forall k | k in done
        ensures k in more && more[k] == done[k]
      {
      }
      assert id in more && more[id] == row;
    }
    assert one !in rows;
  }

  lemma NoneExpired(d1: Database, now: int)
    ensures ExpiredAll(d1, map[], now) == d1
  {
    assert Expiries(map[], now) == multiset{};
    assert UpsertedAll(d1.jobs, map[], now) == d1.jobs;
  }

  lemma UpsertedOneMore(jobs: map<JobId, JobRecord>, done: map<JobId, Row>, id: JobId, row: Row, now: int)
    requires id !in done
    ensures var before := UpsertedAll(jobs, done, now);
            UpsertedAll(jobs, done[id := row], now) == before[id := Upserted(before, id, row, now)]
  {
    assert Upserted(UpsertedAll(jobs, done, now), id, row, now) == Upserted(jobs, id, row, now);
  }

  function ExpiredOne(d1: Database, id: JobId, row: Row, now: int): Database {
    Database(d1.jobs[id := Upserted(d1.jobs, id, row, now)],
             d1.audit + multiset{JobExpired(id, row.attempts, now)})
  }

  lemma ExpiredOneMore(d1: Database, done: map<JobId, Row>, id: JobId, row: Row, now: int)
    requires id !in done
    ensures ExpiredAll(d1, done[id := row], now) == ExpiredOne(ExpiredAll(d1, done, now), id, row, now)
  {
    ExpiriesOneMore(done, id, row, now);
    UpsertedOneMore(d1.jobs, done, id, row, now);
  }

  /** An order of some of the due jobs, none twice. */
  ghost predicate IsOrder(order: seq<JobId>, due: map<JobId, Row>) {
    order != [] ==>
      var last := |order| - 1;
      order[last] in due && order[last] !in order[..last] && IsOrder(order[..last], due)
  }

  ghost function Chosen(order: seq<JobId>, due: map<JobId, Row>): map<JobId, Row>
    requires IsOrder(order, due)
  {
    if order == [] then map[]
    else
      var last := |order| - 1;
      Chosen(order[..last], due)[order[last] := due[order[last]]]
  }

  lemma {:induction false} ChosenKeys(order: seq<JobId>, due: map<JobId, Row>)
    requires IsOrder(order, due)
    ensures forall id :: id in Chosen(order, due) <==> id in order
    ensures forall id :: id in order ==> id in due && Chosen(order, due)[id] == due[id]
  {
    if order != [] {
      var last := |order| - 1;
      assert order == order[..last] + [order[last]];
      ChosenKeys(order[..last], due);
    }
  }

  /** The statements of the expiry batch, one job after the other. */
  ghost function ExpiredInTurn(d1: Database, order: seq<JobId>, due: map<JobId, Row>, now: int): Database
    requires IsOrder(order, due)
  {
    if order == [] then d1
    else
      var last := |order| - 1;
      ExpiredOne(ExpiredInTurn(d1, order[..last], due, now), order[last], due[order[last]], now)
  }

  lemma {:induction false} InTurnIsChosen(d1: Database, order: seq<JobId>, due: map<JobId, Row>, now: int)
    requires IsOrder(order, due)
    ensures ExpiredInTurn(d1, order, due, now) == ExpiredAll(d1, Chosen(order, due), now)
  {
    if order == [] {
      NoneExpired(d1, now);
    } else {
      var front, id := order[..|order| - 1], order[|order| - 1];
      InTurnIsChosen(d1, front, due, now);
      ChosenKeys(front, due);
      ExpiredOneMore(d1, Chosen(front, due), id, due[id], now);
    }
  }

  /** In whatever order the statements stand, they expire all the jobs. */
  lemma InTurnIsAll(d1: Database, order: seq<JobId>, due: map<JobId, Row>, now: int)
    requires IsOrder(order, due) && forall id :: id in due ==> id in order
    ensures ExpiredInTurn(d1, order, due, now) == ExpiredAll(d1, due, now)
  {
    ChosenKeys(order, due);
    InTurnIsChosen(d1, order, due, now);
    assert Chosen(order, due) == due;
  }

  lemma InTurnOneMore(d1: Database, order: seq<JobId>, due: map<JobId, Row>, id: JobId, now: int)
    requires IsOrder(order, due) && id in due && id !in order
    ensures IsOrder(order + [id], due)
    ensures ExpiredInTurn(d1, order + [id], due, now)
         == ExpiredOne(ExpiredInTurn(d1, order, due, now), id, due[id], now)
  {
    assert (order + [id])[..|order|] == order;
  }

  /** The Durable Object's own storage and the await-free segments that change it. */
  class DeviceHub {
    var queue: map<JobId, Row>
    var alarm: Option<int>

    ghost function State(): Hub
      reads this
    {
      Hub(queue, alarm)
    }

    constructor ()
      ensures State() == EMPTY.hub
    {
      queue, alarm := map[], None;
    }

    /** `enqueue` from the answer of the duplicate SELECT to its next await. */
    method EnqueueKnown(row: Row, now: int, known: bool) returns (out: Outcome)
      modifies this
      ensures (State(), out) == Resumed(old(State()), Known(row, now, known), Answer(true, ""))
    {
      if known {
        return Return(Accepted(row.job.id, true));
      }
      if row.job.id in queue {
        return Return(Accepted(row.job.id, true));
      }
      var pending := |queue|;
      if pending >= MAX_PENDING_JOBS {
        return Wait(Refusing(Some(row.job.id), QueueFull));
      }
      queue := queue[row.job.id := row];
      out := Wait(Recording(row, now));
    }

    /** `enqueue` after its D1 batch. */
    method EnqueueBatched(row: Row, committed: bool) returns (out: Outcome)
      modifies this
      ensures (State(), out)
              == Resumed(old(State()), if committed then Recorded(row) else Unrecorded(row), Answer(true, ""))
    {
      if !committed {
        queue := queue - {row.job.id};
        return Return(Refused(Some(row.job.id), Internal));
      }
      ArmAlarm();
      out := Wait(Settled(row));
    }

    /** `alarm` up to its D1 batch; the runtime has taken the alarm. */
    method AlarmFires(now: int) returns (out: Outcome)
      requires alarm.Some?
      modifies this
      ensures (State(), out) == Fired(old(State()), old(alarm.value), now)
    {
      var at := alarm.value;
      alarm := None;
      var due := map id | id in queue && queue[id].job.meta.expiresAt <= now :: queue[id];
      if due != map[] {
        return Wait(Expiring(at, now, due));
      }
      ArmAlarm();
      out := End;
    }

    /** `alarm` after its batch committed: forget the bodies one by one, then arm. */
    method AlarmMarked(due: map<JobId, Row>)
      modifies this
      ensures State() == Forget(old(State()), due)
    {
      var left := due.Keys;
      while left != {}
        invariant left <= due.Keys
        invariant queue == old(queue) - (due.Keys - left)
        invariant alarm == old(alarm)
        decreases |left|
      {
        var id :| id in left;
        queue := queue - {id};
        left := left - {id};
      }
      assert queue == old(queue) - due.Keys;
      ArmAlarm();
    }

    /** SELECT MIN(expires_at), then setAlarm or deleteAlarm. */
    method ArmAlarm()
      modifies this`alarm
      ensures State() == Armed(old(State()))
    {
      var next: Option<int> := None;
      var left := queue.Keys;
      while left != {}
        invariant left <= queue.Keys
        invariant next.None? <==> left == queue.Keys
        invariant next.Some? ==> exists id :: id in queue && id !in left && queue[id].job.meta.expiresAt == next.value
        invariant forall id :: id in queue && id !in left ==> next.Some? && next.value <= queue[id].job.meta.expiresAt
        decreases |left|
      {
        var id :| id in left;
        if next.None? || queue[id].job.meta.expiresAt < next.value {
          next := Some(queue[id].job.meta.expiresAt);
        }
        left := left - {id};
      }
      alarm := next;
      EarliestUnique(queue, next);
    }
  }

  /** D1: each batch is one transaction. */
  class JobsDatabase {
    var jobs: map<JobId, JobRecord>
    var audit: multiset<AuditRow>

    ghost function State(): Database
      reads this
    {
      Database(jobs, audit)
    }

    method EnqueueBatch(row: Row, now: int, up: bool) returns (committed: bool)
      modifies this
      ensures var (after, next) := Executed(old(State()), Recording(row, now), up);
              State() == after && committed == (next == Some(Recorded(row)))
    {
      if !up || row.job.id in jobs {
        return false;
      }
      jobs := jobs[row.job.id := RecordOf(row, Queued, now)];
      audit := audit + multiset{JobEnqueued(row.job.id, now)};
      committed := true;
    }

    /** One upsert and one audit row for each due job, in any order, or nothing at all. */
    method ExpireBatch(due: map<JobId, Row>, now: int, up: bool) returns (committed: bool)
      modifies this
      ensures State() == if up then ExpiredAll(old(State()), due, now) else old(State())
      ensures committed == up
    {
      if !up {
        return false;
      }
      ghost var before := State();
      ghost var order: seq<JobId> := [];
      var left := due.Keys;
      while left != {}
        invariant left <= due.Keys
        invariant IsOrder(order, due)
        invariant forall id :: id in due ==> (id in left <==> id !in order)
        invariant State() == ExpiredInTurn(before, order, due, now)
        decreases |left|
      {
        var id :| id in left;
        InTurnOneMore(before, order, due, id, now);
        jobs := jobs[id := Upserted(jobs, id, due[id], now)];
        audit := audit + multiset{JobExpired(id, due[id].attempts, now)};
        order := order + [id];
        left := left - {id};
      }
      InTurnIsAll(before, order, due, now);
      committed := true;
    }
  }
}
