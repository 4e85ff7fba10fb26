/** The spool of events waiting for the cloud's acknowledgement, and the part of the device that sends them.

    `Apply` is one step of the device seen from the spool: an event pushed, a connection opened, pending events sent,
    an ack received, a crash. A run is any sequence of steps. */
module EventSpool {
  import opened TextOrder
  import opened Ulids

  type Id = string

  datatype EventBody = EventBody(id: Id, kind: string, at: int, data: string)

  datatype Item = Event(event: EventBody) | Hook(report: string)

  /** What a file named `<ulid>.json` holds. */
  datatype Content = Readable(item: Item) | Unreadable

  type Files = map<Id, Content>

  // ---- Events and pending events ---------------------------------------------------------------------

  function EventAt(files: Files, id: Id): seq<EventBody>
    requires id in files
  {
    if files[id].Readable? && files[id].item.Event? then [files[id].item.event] else []
  }

  function EventsIn(files: Files, ids: seq<Id>): seq<EventBody>
    requires forall id :: id in ids ==> id in files
  {
    if ids == [] then []
    else
      var last := ids[|ids| - 1];
      assert last in ids;
      EventsIn(files, ids[..|ids| - 1]) + EventAt(files, last)
  }

  /** Every readable event, oldest first. */
  ghost function Events(files: Files): seq<EventBody> {
    EventsIn(files, Listing(files.Keys))
  }

  /** The events not yet sent on this connection, each taken once. */
  function Pending(events: seq<EventBody>, sent: set<Id>): seq<EventBody> {
    if events == [] then []
    else
      var before := Pending(events[..|events| - 1], sent);
      var last := events[|events| - 1];
      if last.id in sent || last.id in IdsOf(before) then before else before + [last]
  }

  function IdsOf(events: seq<EventBody>): set<Id> {
    set e | e in events :: e.id
  }

  // ---- The state machine -----------------------------------------------------------------------------

  datatype Happening =
    | Pushed(event: EventBody)
    | Opened
    | Sent(event: EventBody)
    | Acked(id: Id)

  datatype Device = Device(files: Files, limit: nat, sent: set<Id>, connected: bool, log: seq<Happening>)

  datatype Step =
    | Push(item: Item, newId: Id, written: bool)
    | Open
    | Flush
    | Ack(key: Id)
    | DrainHooks
    | Disconnect
    | Crash

  function SentOf(events: seq<EventBody>): seq<Happening> {
    seq(|events|, i requires 0 <= i < |events| => Sent(events[i]))
  }

  /** Store an item under its event id, or a hook report under a fresh id. A full spool refuses; it evicts nothing. */
  function PushItem(d: Device, item: Item, newId: Id, written: bool): Device {
    var id := if item.Event? then item.event.id else newId;
    if |d.files| >= d.limit || !IsUlid(id) || !written then d
    else d.(files := d.files[id := Readable(item)],
            log := if item.Event? then d.log + [Pushed(item.event)] else d.log)
  }

  ghost function Flushed(d: Device): Device {
    var out := Pending(Events(d.files), d.sent);
    d.(sent := d.sent + IdsOf(out), log := d.log + SentOf(out))
  }

  /** An ack deletes only what could be the spool's own file. */
  function AckKey(d: Device, key: Id): Device {
    d.(files := if IsUlid(key) then d.files - {key} else d.files, sent := d.sent - {key}, log := d.log + [Acked(key)])
  }

  function WithoutHooks(files: Files): Files {
    map id | id in files && !(files[id].Readable? && files[id].item.Hook?) :: files[id]
  }

  /** One step. A step that is not possible changes nothing; a hook's fresh id names no file yet. */
  ghost function Apply(d: Device, step: Step): Device {
    match step
    case Push(item, newId, written) => if item.Hook? && newId in d.files then d else PushItem(d, item, newId, written)
    case Open => Flushed(d.(sent := {}, connected := true, log := d.log + [Opened]))
    case Flush => if d.connected then Flushed(d) else d
    case Ack(key) => if d.connected then AckKey(d, key) else d
    case DrainHooks => d.(files := WithoutHooks(d.files))
    case Disconnect => d.(connected := false)
    case Crash => d.(sent := {}, connected := false)
  }

  ghost function Run(d: Device, steps: seq<Step>): Device
    decreases |steps|
  {
    if steps == [] then d else Run(Apply(d, steps[0]), steps[1..])
  }

  function Empty(limit: nat): Device {
    Device(map[], limit, {}, false, [])
  }
}
