/** What each step does to the spool and to the connection, event by event, and that an acknowledged event is gone. */
module SpoolSteps {
  import opened EventSpool
  import opened Sequences
  import opened SpoolRuns
  import opened TextOrder
  import opened Ulids

  ghost predicate Holds(files: Files, e: EventBody) {
    exists id :: id in files && files[id] == Readable(Event(e))
  }

  ghost predicate HoldsHook(c: Content) {
    exists report :: c == Readable(Hook(report))
  }

  // ---- Pushing and acknowledging ---------------------------------------------------------------------------

  /** An event is stored under its id, and nothing else changes, when there is room, the id is a ULID and the write
      succeeds; otherwise it is refused. */
  lemma PushStores(d: Device, e: EventBody, newId: Id, written: bool)
    ensures Apply(d, Push(Event(e), newId, written))
         == if |d.files| < d.limit && IdText(e.id) && written
            then d.(files := d.files[e.id := Readable(Event(e))], log := d.log + [Pushed(e)])
            else d
  {
    IdTextIs(e.id);
  }

  /** A hook report is stored under the fresh id. */
  lemma HookStores(d: Device, report: string, newId: Id, written: bool)
    requires newId !in d.files
    ensures Apply(d, Push(Hook(report), newId, written))
         == if |d.files| < d.limit && IdText(newId) && written
            then d.(files := d.files[newId := Readable(Hook(report))])
            else d
  {
    IdTextIs(newId);
  }

  /** An ack that arrives deletes the file it names, if that could be the spool's own, and forgets the send. */
  lemma AckDeletes(d: Device, key: Id)
    ensures var t := Apply(d, Ack(key));
            if !d.connected then t == d
            else
              && t.log == d.log + [Acked(key)] && t.limit == d.limit && t.connected
              && (forall id :: id in t.files <==> id in d.files && (id != key || !IdText(key)))
              && (forall id :: id in t.files ==> t.files[id] == d.files[id])
              && (forall id :: id in t.sent <==> id in d.sent && id != key)
  {
    IdTextIs(key);
  }

  /** Draining takes the hook reports and leaves everything else. */
  lemma DrainTakesHooks(d: Device)
    ensures var t := Apply(d, DrainHooks);
            && t == d.(files := t.files)
            && (forall id :: id in t.files <==> id in d.files && !HoldsHook(d.files[id]))
            && forall id :: id in t.files ==> t.files[id] == d.files[id]
  {
    forall id | id in d.files
      ensures HoldsHook(d.files[id]) <==> d.files[id].Readable? && d.files[id].item.Hook?
    {
      if d.files[id].Readable? && d.files[id].item.Hook? {
        assert d.files[id] == Readable(Hook(d.files[id].item.report));
      }
    }
  }

  // ---- Sending ---------------------------------------------------------------------------------------------

  predicate Ascending(events: seq<EventBody>) {
    forall i, j :: 0 <= i < j < |events| ==> Less(events[i].id, events[j].id) && events[i].id != events[j].id
  }

  lemma {:induction false} PendingIs(events: seq<EventBody>, sent: set<Id>)
    requires Ascending(events)
    ensures forall e :: e in Pending(events, sent) <==> e in events && e.id !in sent
    decreases |events|
  {
    if events != [] {
      var front, last := events[..|events| - 1], events[|events| - 1];
      PendingIs(front, sent);
      assert events == front + [last];
      forall e | e in front
        ensures e.id != last.id
      {
        var i :| 0 <= i < |front| && front[i] == e;
        assert events[i] == e;
      }
    }
  }

  lemma {:induction false} PendingAscends(events: seq<EventBody>, sent: set<Id>)
    requires Ascending(events)
    ensures Ascending(Pending(events, sent))
    decreases |events|
  {
    if events != [] {
      var front, last := events[..|events| - 1], events[|events| - 1];
      var before := Pending(front, sent);
      PendingAscends(front, sent);
      PendingIs(front, sent);
      forall i | 0 <= i < |before|
        ensures Less(before[i].id, last.id) && before[i].id != last.id
      {
        assert before[i] in before;
        var k :| 0 <= k < |front| && front[k] == before[i];
        assert events[k] == front[k];
      }
      AscendingThen(before, last);
    }
  }

  lemma AscendingThen(before: seq<EventBody>, last: EventBody)
    requires Ascending(before)
    requires forall i :: 0 <= i < |before| ==> Less(before[i].id, last.id) && before[i].id != last.id
    ensures Ascending(before + [last])
  {
  }

  /** The log grew by the sends of some events, oldest first. */
  ghost predicate Sends(before: seq<Happening>, after: seq<Happening>, out: seq<EventBody>) {
    && |after| == |before| + |out| && (forall k :: 0 <= k < |before| ==> after[k] == before[k])
    && (forall k :: 0 <= k < |out| ==> after[|before| + k] == Sent(out[k]))
    && Ascending(out)
  }

  lemma SendsOut(before: seq<Happening>, out: seq<EventBody>)
    requires Ascending(out)
    ensures Sends(before, before + SentOf(out), out)
  {
  }

  /** While connected, what was not sent on this connection is sent and remembered; not connected, nothing is. */
  lemma FlushSends(d: Device) returns (out: seq<EventBody>)
    requires Stored(d)
    ensures var t := Apply(d, Flush);
            && Sends(d.log, t.log, out) && t == d.(sent := t.sent, log := t.log)
            && (forall e :: e in out <==> d.connected && Holds(d.files, e) && e.id !in d.sent)
            && (forall id :: id in t.sent <==> id in d.sent || exists e :: e in out && e.id == id)
  {
    out := [];
    if d.connected {
      out := Pending(Events(d.files), d.sent);
      EventsAreDistinct(d);
      PendingIs(Events(d.files), d.sent);
      PendingAscends(Events(d.files), d.sent);
      forall e
        ensures e in Events(d.files) <==> Holds(d.files, e)
      {
        EventsMembers(d.files, e);
      }
      SendsOut(d.log, out);
    } else {
      assert d.log + SentOf(out) == d.log;
    }
  }

  /** A new connection sends whatever is stored, sent before or not. */
  lemma OpenSends(d: Device) returns (out: seq<EventBody>)
    requires Stored(d)
    ensures var t := Apply(d, Open);
            && Sends(d.log + [Opened], t.log, out) && t == d.(sent := t.sent, log := t.log, connected := true)
            && (forall e :: e in out <==> Holds(d.files, e))
            && (forall id :: id in t.sent <==> exists e :: e in out && e.id == id)
  {
    out := Events(d.files);
    OpenSendsAll(d);
    EventsAreDistinct(d);
    forall e
      ensures e in Events(d.files) <==> Holds(d.files, e)
    {
      EventsMembers(d.files, e);
    }
    SendsOut(d.log + [Opened], out);
  }

  /** A disconnection or a crash ends the connection; a crash also forgets what was sent. The files stay. */
  lemma ConnectionEnds(d: Device)
    ensures var t := Apply(d, Disconnect); !t.connected && t.files == d.files && t.log == d.log && t.sent == d.sent
    ensures var t := Apply(d, Crash); !t.connected && t.files == d.files && t.log == d.log && t.sent == {}
  {
  }

  // ---- An acknowledged event is gone -------------------------------------------------------------------------

  /** Since the ack at `i` the event was not pushed again. */
  ghost predicate Over(log: seq<Happening>, i: int, id: Id) {
    && 0 <= i < |log| && log[i] == Acked(id)
    && forall k :: i < k < |log| ==> !(log[k].Pushed? && log[k].event.id == id)
  }

  /** Whatever is over is not stored, and was not sent since. */
  ghost predicate Gone(d: Device) {
    forall i, id :: Over(d.log, i, id) && IdText(id) ==>
      && !(id in d.files && d.files[id].Readable? && d.files[id].item.Event?)
      && forall k :: i < k < |d.log| && d.log[k].Sent? ==> d.log[k].event.id != id
  }

  lemma OverBefore(before: seq<Happening>, after: seq<Happening>, i: int, id: Id)
    requires before <= after && Over(after, i, id) && i < |before|
    ensures Over(before, i, id)
  {
    assert forall k :: 0 <= k < |before| ==> before[k] == after[k];
  }

  lemma GoneSends(d: Device, t: Device, more: seq<Happening>)
    requires Gone(d) && Stored(d) && t.files == d.files && t.log == d.log + more
    requires forall k :: 0 <= k < |more| ==> more[k].Opened? || (more[k].Sent? && Holds(d.files, more[k].event))
    ensures Gone(t)
  {
    assert forall k :: |d.log| <= k < |t.log| ==> t.log[k] == more[k - |d.log|];
    forall i, id | Over(t.log, i, id) && IdText(id)
      ensures !(id in t.files && t.files[id].Readable? && t.files[id].item.Event?)
      ensures forall k :: i < k < |t.log| && t.log[k].Sent? ==> t.log[k].event.id != id
    {
      OverBefore(d.log, t.log, i, id);
      forall k | i < k < |t.log| && t.log[k].Sent?
        ensures t.log[k].event.id != id
      {
        if k >= |d.log| {
          assert t.log[k] == more[k - |d.log|];
        } else {
          assert t.log[k] == d.log[k];
        }
      }
    }
  }

  /** A step that only takes files away, and may log an ack of one that is gone. */
  lemma GoneLess(d: Device, t: Device, more: seq<Happening>)
    requires Gone(d) && t.log == d.log + more
    requires forall id :: id in t.files ==> id in d.files && t.files[id] == d.files[id]
    requires more == [] || (|more| == 1 && more[0].Acked? && (IdText(more[0].id) ==> more[0].id !in t.files))
    ensures Gone(t)
  {
    forall i, id | Over(t.log, i, id) && IdText(id)
      ensures !(id in t.files && t.files[id].Readable? && t.files[id].item.Event?)
      ensures forall k :: i < k < |t.log| && t.log[k].Sent? ==> t.log[k].event.id != id
    {
      if i < |d.log| {
        OverBefore(d.log, t.log, i, id);
        assert forall k :: 0 <= k < |d.log| ==> t.log[k] == d.log[k];
      }
    }
  }

  lemma GonePush(d: Device, item: Item, newId: Id, written: bool)
    requires Gone(d) && (item.Hook? ==> newId !in d.files)
    ensures Gone(PushItem(d, item, newId, written))
  {
    var t := PushItem(d, item, newId, written);
    if t != d {
      assert forall k :: |d.log| <= k < |t.log| ==> t.log[k].Pushed?;
      forall i, id | Over(t.log, i, id) && IdText(id)
        ensures !(id in t.files && t.files[id].Readable? && t.files[id].item.Event?)
        ensures forall k :: i < k < |t.log| && t.log[k].Sent? ==> t.log[k].event.id != id
      {
        OverBefore(d.log, t.log, i, id);
        assert forall k :: 0 <= k < |d.log| ==> t.log[k] == d.log[k];
        if item.Event? {
          assert t.log[|d.log|] == Pushed(item.event);
          assert item.event.id != id;
        }
      }
    }
  }

  lemma GoneSent(d: Device, events: seq<EventBody>, front: seq<Happening>, t: Device)
    requires Gone(d) && Stored(d) && t.files == d.files && t.log == d.log + (front + SentOf(events))
    requires (front == [] || front == [Opened]) && forall e :: e in events ==> Holds(d.files, e)
    ensures Gone(t)
  {
    var more := front + SentOf(events);
    forall k | 0 <= k < |more|
      ensures more[k].Opened? || (more[k].Sent? && Holds(d.files, more[k].event))
    {
      if k >= |front| {
        assert more[k] == Sent(events[k - |front|]) && events[k - |front|] in events;
      }
    }
    GoneSends(d, t, more);
  }

  lemma GoneFlush(d: Device)
    requires Gone(d) && Stored(d) && d.connected
    ensures Gone(Apply(d, Flush))
  {
    var out := Pending(Events(d.files), d.sent);
    assert [] + SentOf(out) == SentOf(out);
    EventsAreDistinct(d);
    PendingIs(Events(d.files), d.sent);
    AllHeld(d);
    GoneSent(d, out, [], Apply(d, Flush));
  }

  lemma OpenLogs(d: Device)
    requires Stored(d)
    ensures var t := Apply(d, Open);
            t.files == d.files && t.log == d.log + ([Opened] + SentOf(Events(d.files)))
  {
    OpenSendsAll(d);
    assert d.log + [Opened] + SentOf(Events(d.files)) == d.log + ([Opened] + SentOf(Events(d.files)));
  }

  lemma GoneOpen(d: Device)
    requires Gone(d) && Stored(d)
    ensures Gone(Apply(d, Open))
  {
    OpenLogs(d);
    AllHeld(d);
    GoneSent(d, Events(d.files), [Opened], Apply(d, Open));
  }

  lemma AllHeld(d: Device)
    ensures forall e :: e in Events(d.files) ==> Holds(d.files, e)
  {
    forall e | e in Events(d.files)
      ensures Holds(d.files, e)
    {
      EventsMembers(d.files, e);
    }
  }

  lemma GoneStep(d: Device, step: Step)
    requires Gone(d) && Stored(d)
    ensures Gone(Apply(d, step))
  {
    assert d.log + [] == d.log;
    match step
    case Push(item, newId, written) =>
      if item.Event? || newId !in d.files {
        GonePush(d, item, newId, written);
      }
    case Open => GoneOpen(d);
    case Flush => if d.connected { GoneFlush(d); }
    case Ack(key) =>
      AckDeletes(d, key);
      if d.connected {
        GoneLess(d, Apply(d, step), [Acked(key)]);
      }
    case DrainHooks => GoneLess(d, Apply(d, step), []);
    case _ => GoneLess(d, Apply(d, step), []);
  }

  lemma {:induction false} GoneRun(d: Device, steps: seq<Step>)
    requires Gone(d) && Stored(d)
    ensures Gone(Run(d, steps))
    decreases |steps|
  {
    if steps != [] {
      GoneStep(d, steps[0]);
      StoredStep(d, steps[0]);
      GoneRun(Apply(d, steps[0]), steps[1..]);
    }
  }

  /** Over every run, an event that was acknowledged is not stored and not sent any more, unless it is pushed again. */
  lemma AckedIsGone(limit: nat, steps: seq<Step>, i: nat, id: Id)
    requires IdText(id) && Over(Run(Empty(limit), steps).log, i, id)
    ensures var d := Run(Empty(limit), steps);
            && (forall e :: Holds(d.files, e) ==> e.id != id)
            && forall k :: i < k < |d.log| && d.log[k].Sent? ==> d.log[k].event.id != id
  {
    var d := Run(Empty(limit), steps);
    StoredRun(Empty(limit), steps);
    GoneRun(Empty(limit), steps);
    assert Stored(d) && Gone(d);
  }

  /** A run is its steps, one after the other. */
  lemma {:induction false} RunThen(d: Device, steps: seq<Step>, step: Step)
    ensures Run(d, []) == d && Run(d, steps + [step]) == Apply(Run(d, steps), step)
    decreases |steps|
  {
    if steps == [] {
      assert [] + [step] == [step] && [step][1..] == [];
    } else {
      RunThen(Apply(d, steps[0]), steps[1..], step);
      assert (steps + [step])[1..] == steps[1..] + [step];
    }
  }

  // ---- Nothing without a connection --------------------------------------------------------------------------

  /** Every send follows an opening, and the device is connected only after one. */
  ghost predicate Opens(d: Device) {
    && (d.connected ==> Opened in d.log)
    && forall k :: 0 <= k < |d.log| && d.log[k].Sent? ==> Opened in d.log[..k]
  }

  lemma OpensGrow(d: Device, t: Device, more: seq<Happening>)
    requires Opens(d) && t.log == d.log + more && (t.connected ==> Opened in t.log)
    requires (exists h :: h in more && h.Sent?) ==> Opened in d.log || (more != [] && more[0] == Opened)
    ensures Opens(t)
  {
    forall k | 0 <= k < |t.log| && t.log[k].Sent?
      ensures Opened in t.log[..k]
    {
      if k < |d.log| {
        assert t.log[..k] == d.log[..k];
      } else {
        assert t.log[k] in more;
        if Opened in d.log {
          assert t.log[..k] == d.log + more[..k - |d.log|];
        } else {
          assert t.log[|d.log|] == Opened && k > |d.log|;
          assert t.log[..k][|d.log|] == Opened;
        }
      }
    }
  }

  /** A step that sends nothing and opens nothing. */
  lemma OpensQuiet(d: Device, t: Device, more: seq<Happening>)
    requires Opens(d) && t.log == d.log + more && (t.connected ==> d.connected)
    requires forall h :: h in more ==> !h.Sent?
    ensures Opens(t)
  {
    OpensGrow(d, t, more);
  }

  lemma OpensOpen(d: Device)
    requires Opens(d)
    ensures Opens(Apply(d, Open))
  {
    var sends := SentOf(Pending(Events(d.files), {}));
    var t := Apply(d, Open);
    Regroup(d.log, [Opened], sends);
    assert t.log[|d.log|] == Opened;
    OpensGrow(d, t, [Opened] + sends);
  }

  lemma OpensFlush(d: Device)
    requires Opens(d) && d.connected
    ensures Opens(Apply(d, Flush))
  {
    OpensGrow(d, Apply(d, Flush), SentOf(Pending(Events(d.files), d.sent)));
  }

  lemma OpensPush(d: Device, item: Item, newId: Id, written: bool)
    requires Opens(d)
    ensures Opens(PushItem(d, item, newId, written))
  {
    var t := PushItem(d, item, newId, written);
    OpensQuiet(d, t, if t.log == d.log || item.Hook? then [] else [Pushed(item.event)]);
  }

  lemma OpensStep(d: Device, step: Step)
    requires Opens(d)
    ensures Opens(Apply(d, step))
  {
    assert d.log + [] == d.log;
    match step
    case Push(item, newId, written) => OpensPush(d, item, newId, written);
    case Open => OpensOpen(d);
    case Flush => if d.connected { OpensFlush(d); }
    case Ack(key) => if d.connected { OpensQuiet(d, Apply(d, step), [Acked(key)]); }
    case _ => OpensQuiet(d, Apply(d, step), []);
  }

  lemma {:induction false} OpensRun(d: Device, steps: seq<Step>)
    requires Opens(d)
    ensures Opens(Run(d, steps))
    decreases |steps|
  {
    if steps != [] {
      OpensStep(d, steps[0]);
      OpensRun(Apply(d, steps[0]), steps[1..]);
    }
  }

  /** Over every run, nothing is sent before a connection opened. */
  lemma OpenedBeforeSent(limit: nat, steps: seq<Step>, k: nat)
    requires var log := Run(Empty(limit), steps).log; k < |log| && log[k].Sent?
    ensures exists j :: 0 <= j < k && Run(Empty(limit), steps).log[j] == Opened
  {
    OpensRun(Empty(limit), steps);
    var log := Run(Empty(limit), steps).log;
    assert Opened in log[..k];
  }
}
