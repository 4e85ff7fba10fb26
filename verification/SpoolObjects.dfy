/** The spool directory and the sender of its events, updated in place. */
module SpoolObjects {
  import opened EventSpool
  import opened Options
  import opened TextOrder
  import opened Ulids

  method SortNames(names: set<Id>) returns (ids: seq<Id>)
    ensures ids == Listing(names)
  {
    ids := [];
    var left := names;
    while left != {}
      invariant left <= names && IsListing(ids, names - left)
      decreases |left|
    {
      var id :| id in left;
      InsertedInPlace(id, ids);
      ids := Inserted(id, ids);
      left := left - {id};
    }
    assert names - left == names;
    ListingUnique(ids, names);
  }

  /** The spool directory. */
  class Spool {
    var files: Files
    const limit: nat

    constructor (limit: nat)
      ensures files == map[] && this.limit == limit
    {
      this.files, this.limit := map[], limit;
    }

    /** Returns the name the item was stored under, or nothing. */
    method Store(item: Item, newId: Id, written: bool) returns (id: Option<Id>)
      modifies this`files
      ensures forall sent, connected, log ::
                files == PushItem(Device(old(files), limit, sent, connected, log), item, newId, written).files
      ensures id.None? ==> files == old(files)
      ensures id.Some? ==> files == old(files)[id.value := Readable(item)] && IsUlid(id.value)
    {
      if |files| >= limit {
        return None;
      }
      var name: Id;
      match item {
        case Event(e) =>
          if !IsUlid(e.id) {
            return None;
          }
          name := e.id;
        case Hook(_) =>
          name := newId;
      }
      if !written || !IsUlid(name) {
        return None;
      }
      files := files[name := Readable(item)];
      id := Some(name);
    }

    /** Every readable item with its name, oldest first, and the names of the unreadable files. */
    method List() returns (good: seq<(Id, Item)>, bad: seq<Id>)
      ensures good == GoodIn(files, Listing(files.Keys)) && bad == BadIn(files, Listing(files.Keys))
    {
      var stored := files;
      var ids := SortNames(stored.Keys);
      good, bad := [], [];
      for i := 0 to |ids|
        invariant good == GoodIn(stored, ids[..i]) && bad == BadIn(stored, ids[..i])
      {
        ListedNext(stored, ids, i);
        match stored[ids[i]] {
          case Readable(item) => good := good + [(ids[i], item)];
          case Unreadable => bad := bad + [ids[i]];
        }
      }
      assert ids[..|ids|] == ids;
    }

    method ReadEvents() returns (events: seq<EventBody>)
      ensures events == Events(files)
    {
      var good, bad := List();
      events := [];
      for i := 0 to |good|
        invariant events == EventsOf(good[..i])
      {
        EventsNext(good, i);
        if good[i].1.Event? {
          events := events + [good[i].1.event];
        }
      }
      assert good[..|good|] == good;
      EventsOfGood(files, Listing(files.Keys));
    }

    /** Deletes only what could be the spool's own file. */
    method Remove(id: Id) returns (removed: bool)
      modifies this`files
      ensures files == if IsUlid(id) then old(files) - {id} else old(files)
      ensures removed <==> IsUlid(id) && id in old(files)
    {
      if !IsUlid(id) {
        return false;
      }
      removed := id in files;
      files := files - {id};
    }

    /** Every hook report is handed over and deleted. */
    method DrainHooks()
      modifies this`files
      ensures files == WithoutHooks(old(files))
    {
      var left := files.Keys;
      while left != {}
        invariant left <= old(files).Keys
        invariant files == map id | id in old(files) && (id in left || !IsHook(old(files)[id])) :: old(files)[id]
        decreases |left|
      {
        var id :| id in left;
        left := left - {id};
        if IsHook(files[id]) {
          files := files - {id};
        }
      }
    }
  }

  lemma ListedNext(files: Files, ids: seq<Id>, i: nat)
    requires i < |ids| && forall id :: id in ids ==> id in files
    ensures ids[i] in files && forall id :: id in ids[..i + 1] ==> id in files
    ensures GoodIn(files, ids[..i + 1])
         == GoodIn(files, ids[..i]) + if files[ids[i]].Readable? then [(ids[i], files[ids[i]].item)] else []
    ensures BadIn(files, ids[..i + 1])
         == BadIn(files, ids[..i]) + if files[ids[i]].Readable? then [] else [ids[i]]
  {
    assert ids[i] in ids && ids[..i + 1][..i] == ids[..i];
  }

  predicate IsHook(c: Content) {
    c.Readable? && c.item.Hook?
  }

  function GoodIn(files: Files, ids: seq<Id>): seq<(Id, Item)>
    requires forall id :: id in ids ==> id in files
  {
    if ids == [] then []
    else
      var front, last := ids[..|ids| - 1], ids[|ids| - 1];
      assert last in ids;
      if files[last].Readable? then GoodIn(files, front) + [(last, files[last].item)] else GoodIn(files, front)
  }

  function BadIn(files: Files, ids: seq<Id>): seq<Id>
    requires forall id :: id in ids ==> id in files
  {
    if ids == [] then []
    else
      var front, last := ids[..|ids| - 1], ids[|ids| - 1];
      assert last in ids;
      if files[last].Readable? then BadIn(files, front) else BadIn(files, front) + [last]
  }

  function EventsOf(good: seq<(Id, Item)>): seq<EventBody> {
    if good == [] then []
    else
      var last := good[|good| - 1].1;
      if last.Event? then EventsOf(good[..|good| - 1]) + [last.event] else EventsOf(good[..|good| - 1])
  }

  lemma EventsNext(good: seq<(Id, Item)>, i: nat)
    requires i < |good|
    ensures EventsOf(good[..i + 1]) == EventsOf(good[..i]) + if good[i].1.Event? then [good[i].1.event] else []
  {
    assert good[..i + 1][..i] == good[..i];
  }

  lemma {:induction false} EventsOfGood(files: Files, ids: seq<Id>)
    requires forall id :: id in ids ==> id in files
    ensures EventsOf(GoodIn(files, ids)) == EventsIn(files, ids)
    decreases |ids|
  {
    if ids != [] {
      var front, last := ids[..|ids| - 1], ids[|ids| - 1];
      EventsOfGood(files, front);
      assert last in ids;
      if files[last].Readable? {
        assert GoodIn(files, ids)[..|GoodIn(files, front)|] == GoodIn(files, front);
      }
    }
  }

  lemma PendingNext(events: seq<EventBody>, i: nat, sent: set<Id>)
    requires i < |events|
    ensures var before, e := Pending(events[..i], sent), events[i];
            && Pending(events[..i + 1], sent) == (if e.id in sent + IdsOf(before) then before else before + [e])
            && sent + IdsOf(before) + {e.id} == sent + IdsOf(before + [e])
  {
    assert events[..i + 1][..i] == events[..i];
    IdsOfMore(Pending(events[..i], sent), events[i]);
  }

  lemma IdsOfMore(events: seq<EventBody>, e: EventBody)
    ensures IdsOf(events + [e]) == IdsOf(events) + {e.id}
  {
  }

  /** The device's bookkeeping of what it sent on the current connection. */
  class EventSender {
    const spool: Spool
    var sent: set<Id>

    constructor (spool: Spool)
      ensures this.spool == spool && sent == {}
    {
      this.spool, this.sent := spool, {};
    }

    method OnOpen() returns (out: seq<EventBody>)
      modifies this`sent
      ensures out == Pending(Events(spool.files), {}) && sent == IdsOf(out)
    {
      sent := {};
      out := PendingEvents();
    }

    method PendingEvents() returns (out: seq<EventBody>)
      modifies this`sent
      ensures out == Pending(Events(spool.files), old(sent)) && sent == old(sent) + IdsOf(out)
    {
      var events := spool.ReadEvents();
      ghost var before := sent;
      out := [];
      for i := 0 to |events|
        invariant sent == before + IdsOf(out)
        invariant out == Pending(events[..i], before)
      {
        PendingNext(events, i, before);
        var e := events[i];
        if e.id !in sent {
          sent := sent + {e.id};
          out := out + [e];
        }
      }
      assert events[..|events|] == events;
    }

    method OnAck(key: Id)
      modifies this`sent, spool`files
      ensures spool.files == (if IsUlid(key) then old(spool.files) - {key} else old(spool.files))
      ensures sent == old(sent) - {key}
    {
      var _ := spool.Remove(key);
      sent := sent - {key};
    }
  }
}
