/** Over every run of the device, events reach the cloud at least once and no connection repeats them. */
module SpoolRuns {
  import opened EventSpool
  import opened Integers
  import opened TextOrder
  import opened Ulids

  // ---- Names and times ------------------------------------------------------------------------------

  /** Two spooled items of different milliseconds are listed in the order of their time. */
  lemma ListedInTimeOrder(names: set<Id>, ms1: nat, random1: seq<Byte>, ms2: nat, random2: seq<Byte>, i: nat, j: nat)
    requires |random1| == |random2| == 10 && ms1 < ms2 < MS_LIMIT
    requires i < |Listing(names)| && Listing(names)[i] == Digits(Shifted(ms1, random1), DIGITS)
    requires j < |Listing(names)| && Listing(names)[j] == Digits(Shifted(ms2, random2), DIGITS)
    ensures i < j
  {
    var ids := Listing(names);
    NameOrderIsTimeOrder(ms1, random1, ms2, random2);
    LessIsStrict(ids[i]);
    if j < i {
      LessIsTransitive(ids[i], ids[j], ids[i]);
    }
  }

  // ---- Facts about pending events --------------------------------------------------------------------

  lemma {:induction false} EventsInMembers(files: Files, ids: seq<Id>, e: EventBody)
    requires forall id :: id in ids ==> id in files
    ensures e in EventsIn(files, ids) <==> exists id :: id in ids && files[id] == Readable(Event(e))
    decreases |ids|
  {
    if ids != [] {
      var front, last := ids[..|ids| - 1], ids[|ids| - 1];
      assert ids == front + [last];
      EventsInMembers(files, front, e);
      assert forall id :: id in ids <==> id == last || id in front;
    }
  }

  lemma EventsMembers(files: Files, e: EventBody)
    ensures e in Events(files) <==> exists id :: id in files && files[id] == Readable(Event(e))
  {
    EventsInMembers(files, Listing(files.Keys), e);
  }

  // ---- Nothing is lost before its ack ----------------------------------------------------------------

  /** Since position `i` the event was neither acknowledged nor pushed again. */
  ghost predicate Waiting(log: seq<Happening>, i: int, id: Id) {
    forall k :: 0 <= i < k < |log| ==> log[k] != Acked(id) && !(log[k].Pushed? && log[k].event.id == id)
  }

  ghost predicate Stored(d: Device) {
    && |d.files| <= d.limit
    && (forall id :: id in d.files && d.files[id].Readable? && d.files[id].item.Event?
                     ==> d.files[id].item.event.id == id)
    && (forall i :: 0 <= i < |d.log| && d.log[i].Pushed? && Waiting(d.log, i, d.log[i].event.id) ==>
          d.log[i].event.id in d.files && d.files[d.log[i].event.id] == Readable(Event(d.log[i].event)))
  }

  lemma WaitingPrefix(log: seq<Happening>, more: seq<Happening>, i: int, id: Id)
    requires 0 <= i < |log| && Waiting(log + more, i, id)
    ensures Waiting(log, i, id)
    ensures Acked(id) !in more && forall h :: h in more && h.Pushed? ==> h.event.id != id
  {
    assert forall k :: 0 <= k < |log| ==> (log + more)[k] == log[k];
    forall h | h in more
      ensures h != Acked(id) && !(h.Pushed? && h.event.id == id)
    {
      var k :| 0 <= k < |more| && more[k] == h;
      assert (log + more)[|log| + k] == h;
    }
  }

  /** Steps that only add openings and sends to the log. */
  lemma StoredSends(d: Device, files: Files, sent: set<Id>, connected: bool, more: seq<Happening>)
    requires Stored(d) && forall k :: 0 <= k < |more| ==> more[k].Opened? || more[k].Sent?
    requires |files| <= |d.files|
    requires forall id :: id in files ==> id in d.files && files[id] == d.files[id]
    requires forall id :: id in d.files && d.files[id].Readable? && d.files[id].item.Event? ==> id in files
    ensures Stored(Device(files, d.limit, sent, connected, d.log + more))
  {
    var log := d.log + more;
    forall i | 0 <= i < |log| && log[i].Pushed? && Waiting(log, i, log[i].event.id)
      ensures log[i].event.id in files && files[log[i].event.id] == Readable(Event(log[i].event))
    {
      if i < |d.log| {
        WaitingPrefix(d.log, more, i, log[i].event.id);
      }
    }
  }

  lemma StoredPush(d: Device, item: Item, newId: Id, written: bool)
    requires Stored(d) && (item.Hook? ==> newId !in d.files)
    ensures Stored(PushItem(d, item, newId, written))
  {
    var t := PushItem(d, item, newId, written);
    forall i | 0 <= i < |t.log| && t.log[i].Pushed? && Waiting(t.log, i, t.log[i].event.id)
      ensures t.log[i].event.id in t.files && t.files[t.log[i].event.id] == Readable(Event(t.log[i].event))
    {
      if i < |d.log| && t.log != d.log {
        WaitingPrefix(d.log, [Pushed(item.event)], i, t.log[i].event.id);
        assert Pushed(item.event) in [Pushed(item.event)];
      }
    }
  }

  lemma StoredAck(d: Device, key: Id)
    requires Stored(d)
    ensures Stored(AckKey(d, key))
  {
    var t := AckKey(d, key);
    assert t.files.Keys <= d.files.Keys;
    Smaller(t.files.Keys, d.files.Keys);
    forall i | 0 <= i < |t.log| && t.log[i].Pushed? && Waiting(t.log, i, t.log[i].event.id)
      ensures t.log[i].event.id in t.files && t.files[t.log[i].event.id] == Readable(Event(t.log[i].event))
    {
      WaitingPrefix(d.log, [Acked(key)], i, t.log[i].event.id);
      assert Acked(key) in [Acked(key)];
    }
  }

  lemma Smaller(a: set<Id>, b: set<Id>)
    requires a <= b
    ensures |a| <= |b|
  {
    assert b == a + (b - a);
  }

  lemma StoredFlush(d: Device)
    requires Stored(d)
    ensures Stored(Flushed(d))
  {
    var out := Pending(Events(d.files), d.sent);
    StoredSends(d, d.files, d.sent + IdsOf(out), d.connected, SentOf(out));
  }

  lemma StoredStep(d: Device, step: Step)
    requires Stored(d)
    ensures Stored(Apply(d, step))
  {
    assert d.log + [] == d.log;
    match step
    case Push(item, newId, written) =>
      if item.Event? || newId !in d.files {
        StoredPush(d, item, newId, written);
      }
    case Open =>
      StoredSends(d, d.files, {}, true, [Opened]);
      StoredFlush(d.(sent := {}, connected := true, log := d.log + [Opened]));
    case Flush => if d.connected { StoredFlush(d); }
    case Ack(key) => if d.connected { StoredAck(d, key); }
    case DrainHooks =>
      Smaller(WithoutHooks(d.files).Keys, d.files.Keys);
      StoredSends(d, WithoutHooks(d.files), d.sent, d.connected, []);
    case Disconnect => StoredSends(d, d.files, d.sent, false, []);
    case Crash => StoredSends(d, d.files, {}, false, []);
  }

  lemma {:induction false} StoredRun(d: Device, steps: seq<Step>)
    requires Stored(d)
    ensures Stored(Run(d, steps)) && Run(d, steps).limit == d.limit
    decreases |steps|
  {
    if steps != [] {
      StoredStep(d, steps[0]);
      StoredRun(Apply(d, steps[0]), steps[1..]);
    }
  }

  /** An event stays in the spool, whole, until an ack names it; across crashes and reconnects. */
  lemma KeptUntilAcked(limit: nat, steps: seq<Step>, i: nat)
    requires var log := Run(Empty(limit), steps).log;
             i < |log| && log[i].Pushed? && Waiting(log, i, log[i].event.id)
    ensures var d := Run(Empty(limit), steps);
            var e := d.log[i].event;
            e.id in d.files && d.files[e.id] == Readable(Event(e))
  {
    StoredRun(Empty(limit), steps);
  }

  lemma SpoolBounded(limit: nat, steps: seq<Step>)
    ensures |Run(Empty(limit), steps).files| <= limit
  {
    StoredRun(Empty(limit), steps);
  }

  /** Opening a connection sends every event in the spool exactly once, oldest first. */
  lemma OpenSendsAll(d: Device)
    requires Stored(d)
    ensures Apply(d, Open).log == d.log + [Opened] + SentOf(Events(d.files))
    ensures Apply(d, Open).sent == IdsOf(Events(d.files))
  {
    NewlyPending(d);
    assert {} + IdsOf(Events(d.files)) == IdsOf(Events(d.files));
  }

  lemma {:induction false} EventsInOrder(files: Files, ids: seq<Id>)
    requires forall id :: id in ids ==> id in files
    requires forall id :: id in files && files[id].Readable? && files[id].item.Event? ==> files[id].item.event.id == id
    requires Sorted(ids)
    ensures forall e :: e in EventsIn(files, ids) ==> e.id in ids
    ensures forall i, j :: 0 <= i < j < |EventsIn(files, ids)| ==>
              Less(EventsIn(files, ids)[i].id, EventsIn(files, ids)[j].id)
    decreases |ids|
  {
    if ids != [] {
      var front, last := ids[..|ids| - 1], ids[|ids| - 1];
      assert ids == front + [last];
      EventsInOrder(files, front);
      var before := EventsIn(files, front);
      forall i | 0 <= i < |before|
        ensures Less(before[i].id, last)
      {
        assert before[i] in before;
        var k :| 0 <= k < |front| && front[k] == before[i].id;
        assert ids[k] == before[i].id;
      }
    }
  }

  lemma EventsAreDistinct(d: Device)
    requires Stored(d)
    ensures var events := Events(d.files);
            && (forall i, j :: 0 <= i < j < |events| ==> Less(events[i].id, events[j].id))
            && (forall i, j :: 0 <= i < j < |events| ==> events[i].id != events[j].id)
  {
    EventsInOrder(d.files, Listing(d.files.Keys));
    var events := Events(d.files);
    forall i, j | 0 <= i < j < |events|
      ensures events[i].id != events[j].id
    {
      LessIsStrict(events[i].id);
    }
  }

  lemma {:induction false} PendingAll(events: seq<EventBody>, sent: set<Id>)
    requires forall i, j :: 0 <= i < j < |events| ==> events[i].id != events[j].id
    requires forall e :: e in events ==> e.id !in sent
    ensures Pending(events, sent) == events
    decreases |events|
  {
    if events != [] {
      var front, last := events[..|events| - 1], events[|events| - 1];
      assert events == front + [last];
      PendingAll(front, sent);
      assert last in events;
    }
  }

  /** On a new connection every event in the spool is pending. */
  lemma NewlyPending(d: Device)
    requires Stored(d)
    ensures Pending(Events(d.files), {}) == Events(d.files)
  {
    EventsAreDistinct(d);
    PendingAll(Events(d.files), {});
  }

  /** At least once: whatever happened before, the next connection sends every event not yet acknowledged. */
  lemma UnackedSentOnOpen(limit: nat, steps: seq<Step>, i: nat)
    requires var log := Run(Empty(limit), steps).log;
             i < |log| && log[i].Pushed? && Waiting(log, i, log[i].event.id)
    ensures var d := Run(Empty(limit), steps);
            Sent(d.log[i].event) in Apply(d, Open).log[|d.log|..]
  {
    var d := Run(Empty(limit), steps);
    StoredRun(Empty(limit), steps);
    StoredSentOnOpen(d, d.log[i].event);
  }

  lemma StoredSentOnOpen(d: Device, e: EventBody)
    requires Stored(d) && e.id in d.files && d.files[e.id] == Readable(Event(e))
    ensures Sent(e) in Apply(d, Open).log[|d.log|..]
  {
    OpenSendsAll(d);
    EventsMembers(d.files, e);
    SentAtTheEnd(d.log, Events(d.files), e);
  }

  lemma SentAtTheEnd(log: seq<Happening>, events: seq<EventBody>, e: EventBody)
    requires e in events
    ensures Sent(e) in (log + [Opened] + SentOf(events))[|log|..]
  {
    var k :| 0 <= k < |events| && events[k] == e;
    var whole := log + [Opened] + SentOf(events);
    assert whole[|log| + 1 + k] == SentOf(events)[k] == Sent(e);
    assert whole[|log|..][1 + k] == Sent(e);
  }

  // ---- Not twice before its ack ----------------------------------------------------------------------

  /** Nothing after position `i` allows the event to be sent again. */
  ghost predicate Quiet(log: seq<Happening>, i: int, id: Id) {
    forall k :: 0 <= i < k < |log| ==> log[k] != Opened && log[k] != Acked(id)
  }

  ghost predicate NoRepeat(log: seq<Happening>) {
    forall i, j | 0 <= i < j < |log| && log[i].Sent? && log[j].Sent? && log[i].event.id == log[j].event.id ::
      !Quiet(log[..j], i, log[i].event.id)
  }

  ghost predicate Tracked(d: Device) {
    && NoRepeat(d.log)
    && (d.connected ==> forall i :: 0 <= i < |d.log| && d.log[i].Sent? && Quiet(d.log, i, d.log[i].event.id) ==>
          d.log[i].event.id in d.sent)
  }

  lemma QuietPrefix(log: seq<Happening>, more: seq<Happening>, i: int, id: Id)
    requires 0 <= i < |log| && Quiet(log + more, i, id)
    ensures Quiet(log, i, id) && Opened !in more && Acked(id) !in more
  {
    assert forall k :: 0 <= k < |log| ==> (log + more)[k] == log[k];
    forall h | h in more
      ensures h != Opened && h != Acked(id)
    {
      var k :| 0 <= k < |more| && more[k] == h;
      assert (log + more)[|log| + k] == h;
    }
  }

  /** Appending happenings that are not sends. */
  lemma TrackedQuietly(d: Device, files: Files, sent: set<Id>, connected: bool, h: Happening)
    requires Tracked(d) && !h.Sent?
    requires connected ==> h.Opened? || (d.connected && forall id :: id in d.sent && h != Acked(id) ==> id in sent)
    ensures Tracked(Device(files, d.limit, sent, connected, d.log + [h]))
  {
    var log := d.log + [h];
    forall i, j | 0 <= i < j < |log| && log[i].Sent? && log[j].Sent? && log[i].event.id == log[j].event.id
      ensures !Quiet(log[..j], i, log[i].event.id)
    {
      assert log[..j] == d.log[..j];
    }
    forall i | 0 <= i < |log| && log[i].Sent? && Quiet(log, i, log[i].event.id) && connected
      ensures log[i].event.id in sent
    {
      QuietPrefix(d.log, [h], i, log[i].event.id);
      assert h in [h];
    }
  }

  lemma TrackedSend(d: Device, e: EventBody)
    requires Tracked(d) && d.connected && e.id !in d.sent
    ensures Tracked(d.(sent := d.sent + {e.id}, log := d.log + [Sent(e)]))
  {
    var log := d.log + [Sent(e)];
    forall i, j | 0 <= i < j < |log| && log[i].Sent? && log[j].Sent? && log[i].event.id == log[j].event.id
      ensures !Quiet(log[..j], i, log[i].event.id)
    {
      assert log[..j] == d.log[..j];
      if j == |d.log| {
        assert log[..j] == d.log;
      }
    }
    forall i | 0 <= i < |log| && log[i].Sent? && Quiet(log, i, log[i].event.id)
      ensures log[i].event.id in d.sent + {e.id}
    {
      if i < |d.log| {
        QuietPrefix(d.log, [Sent(e)], i, log[i].event.id);
      }
    }
  }

  lemma {:induction false} TrackedSends(d: Device, events: seq<EventBody>)
    requires Tracked(d) && d.connected
    ensures var out := Pending(events, d.sent);
            Tracked(d.(sent := d.sent + IdsOf(out), log := d.log + SentOf(out)))
    decreases |events|
  {
    var out := Pending(events, d.sent);
    if events == [] {
      assert d.sent + IdsOf(out) == d.sent && d.log + SentOf(out) == d.log;
    } else {
      var front, last := events[..|events| - 1], events[|events| - 1];
      TrackedSends(d, front);
      var before := Pending(front, d.sent);
      if out != before {
        var d1 := d.(sent := d.sent + IdsOf(before), log := d.log + SentOf(before));
        TrackedSend(d1, last);
        assert IdsOf(out) == IdsOf(before) + {last.id};
        assert d.sent + IdsOf(out) == d1.sent + {last.id};
        assert SentOf(out) == SentOf(before) + [Sent(last)];
        assert d.log + SentOf(out) == d1.log + [Sent(last)];
      }
    }
  }

  lemma TrackedStep(d: Device, step: Step)
    requires Tracked(d)
    ensures Tracked(Apply(d, step))
  {
    match step
    case Push(item, newId, written) =>
      if (item.Event? || newId !in d.files) && PushItem(d, item, newId, written).log != d.log {
        TrackedQuietly(d, PushItem(d, item, newId, written).files, d.sent, d.connected, Pushed(item.event));
      }
    case Open =>
      var d1 := d.(sent := {}, connected := true, log := d.log + [Opened]);
      TrackedQuietly(d, d.files, {}, true, Opened);
      TrackedSends(d1, Events(d1.files));
    case Flush =>
      if d.connected {
        TrackedSends(d, Events(d.files));
      }
    case Ack(key) =>
      if d.connected {
        TrackedQuietly(d, AckKey(d, key).files, d.sent - {key}, true, Acked(key));
      }
    case DrainHooks =>
    case Disconnect =>
    case Crash =>
  }

  lemma {:induction false} TrackedRun(d: Device, steps: seq<Step>)
    requires Tracked(d)
    ensures Tracked(Run(d, steps))
    decreases |steps|
  {
    if steps != [] {
      TrackedStep(d, steps[0]);
      TrackedRun(Apply(d, steps[0]), steps[1..]);
    }
  }

  /** Between two sends of one event there is an ack for it or a new connection. */
  lemma NotTwiceBeforeAck(limit: nat, steps: seq<Step>, i: nat, j: nat)
    requires var log := Run(Empty(limit), steps).log;
             && i < j < |log| && log[i].Sent? && log[j].Sent? && log[i].event.id == log[j].event.id
    ensures var log := Run(Empty(limit), steps).log;
            exists k :: i < k < j && (log[k] == Opened || log[k] == Acked(log[i].event.id))
  {
    TrackedRun(Empty(limit), steps);
    var log := Run(Empty(limit), steps).log;
    var k :| i < k < |log[..j]| && (log[..j][k] == Opened || log[..j][k] == Acked(log[i].event.id));
    assert log[k] == log[..j][k];
  }
}
