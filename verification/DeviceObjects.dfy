/** The journal and the agent, updated in place: every method moves them as the segments of `DeviceJobs` do. */
module DeviceObjects {
  import opened DeviceHandling
  import opened DeviceJobs
  import opened Options
  import opened Ulids

  /** What pruning leaves: the files of `stuck` cannot be deleted. */
  function Kept(files: map<JobId, Entry>, now: int, stuck: set<JobId>): map<JobId, Entry> {
    map id | id in files && (id in stuck || !Forgettable(files[id], now)) :: files[id]
  }

  /** At most 24 hours old, or a job that has not expired yet. */
  predicate Outlasts(e: Entry, now: int) {
    now - e.receivedAt <= 24 * 3600 * 1000 || (e.expiresAt.Some? && now < e.expiresAt.value)
  }

  predicate EndsWith(log: seq<Event>, out: seq<Event>) {
    |out| <= |log| && log[|log| - |out|..] == out
  }

  /** `disk` is the journal directory, `entries` the map in memory. */
  class Journal {
    var disk: map<JobId, Entry>
    var entries: map<JobId, Entry>

    ghost predicate Valid()
      reads this
    {
      entries == disk && forall id :: id in disk ==> disk[id].jobId == id && IsUlid(id)
    }

    /** Read the directory back, one file after the other, then prune. */
    constructor Open(files: map<JobId, Entry>, now: int, stuck: set<JobId>)
      requires forall id :: id in files ==> files[id].jobId == id && IsUlid(id)
      ensures Valid() && disk == Kept(files, now, stuck)
      ensures forall id :: id in disk <==> id in files && (id in stuck || Outlasts(files[id], now))
    {
      disk, entries := files, map[];
      new;
      var left := disk.Keys;
      while left != {}
        invariant left <= disk.Keys && disk == files
        invariant entries == disk - left
        decreases |left|
      {
        var id :| id in left;
        entries := entries[id := disk[id]];
        left := left - {id};
      }
      Prune(now, stuck);
    }

    /** Durable first, then remembered; a failed write leaves both as they were. */
    method Record(entry: Entry, written: bool) returns (ok: bool)
      requires Valid()
      modifies this
      ensures Valid() && ok == (IsUlid(entry.jobId) && written)
      ensures disk == if ok then old(disk)[entry.jobId := entry] else old(disk)
    {
      if !IsUlid(entry.jobId) {
        return false;
      }
      if !written {
        return false;
      }
      disk := disk[entry.jobId := entry];
      entries := entries[entry.jobId := entry];
      ok := true;
    }

    /** Forget every entry that is forgettable, except those whose file cannot be deleted. */
    method Prune(now: int, stuck: set<JobId>)
      requires Valid()
      modifies this
      ensures Valid()
      ensures disk == Kept(old(disk), now, stuck)
      ensures forall id :: id in disk <==> id in old(disk) && (id in stuck || Outlasts(old(disk)[id], now))
    {
      var left := set id | id in entries && Forgettable(entries[id], now);
      ghost var due := left;
      assert forall id :: id in old(disk) ==> (id in due <==> Forgettable(old(disk)[id], now));
      while left != {}
        invariant left <= due && Valid()
        invariant disk == map id | id in old(disk) && (id !in due || id in left || id in stuck) :: old(disk)[id]
        decreases |left|
      {
        var id :| id in left;
        left := left - {id};
        if id !in stuck {
          disk := disk - {id};
          entries := entries - {id};
        }
      }
    }
  }

  class Agent {
    const journal: Journal
    var clock: int
    /** What left the device so far. */
    ghost var log: seq<Event>

    ghost predicate Valid()
      reads this, journal
    {
      journal.Valid()
    }

    ghost function State(): Device
      reads this, journal
    {
      Device(journal.disk, Some(journal.entries), Idle, clock, log)
    }

    constructor (journal: Journal, clock: int)
      requires journal.Valid()
      ensures Valid() && this.journal == journal && State() == Device(journal.disk, Some(journal.disk), Idle, clock, [])
    {
      this.journal, this.clock, this.log := journal, clock, [];
    }

    /** The job is known: the frame gets an ack and the journal's answer, or the answer "interrupted". */
    method AnswerAgain(id: JobId, written: bool) returns (out: seq<Event>)
      requires Valid() && id in journal.entries
      modifies this`log, journal
      ensures Valid()
      ensures var entry := old(journal.disk)[id];
              && out == [AckSent(id), ResultSent(id, if entry.result.Some? then entry.result.value else INTERRUPTED)]
              && log == old(log) + out
              && journal.disk == (if entry.result.Some? || !written then old(journal.disk)
                                  else old(journal.disk)[id := entry.(result := Some(INTERRUPTED))])
    {
      var entry := journal.entries[id];
      var reply := INTERRUPTED;
      if entry.result.Some? {
        reply := entry.result.value;
      } else {
        var _ := journal.Record(entry.(result := Some(reply)), written);
      }
      out := [AckSent(id), ResultSent(id, reply)];
      log := log + out;
    }

    /** The gates, the executor, the result's record, and the frames to send. */
    method RunJournaled(entry: Entry, job: Option<Job>, action: Option<Action>, env: Surroundings, result: JobResult,
                        finished: bool)
      returns (out: seq<Event>)
      requires Valid() && entry.jobId in journal.entries && journal.entries[entry.jobId] == entry
      requires entry == NewEntry(entry.jobId, entry.kind, clock, entry.expiresAt)
      modifies this`log, journal
      ensures Valid()
      ensures var refusal := if job.None? then Some(MALFORMED)
                             else Gate(action, env, clock, job.value.expiresAt,
                                       ExecutedSince(old(journal.disk), clock - HOUR_MS));
              var reply := if refusal.Some? then refusal.value else result;
              && out == [AckSent(entry.jobId), ResultSent(entry.jobId, reply)]
              && State() == JobDone(old(State()), entry, refusal.None?, reply, finished)
    {
      var reply, executed := MALFORMED, false;
      if job.Some? {
        var recent := ExecutedSince(journal.entries, clock - HOUR_MS);
        var refusal := Gate(action, env, clock, job.value.expiresAt, recent);
        if refusal.Some? {
          reply := refusal.value;
        } else {
          log := log + [Started(entry.jobId)];
          reply, executed := result, true;
        }
      }
      assert log == old(log) + (if executed then [Started(entry.jobId)] else []);
      var _ := journal.Record(entry.(executed := executed, result := Some(reply)), finished);
      out := [AckSent(entry.jobId), ResultSent(entry.jobId, reply)];
      log := log + out;
      assert old(journal.disk)[entry.jobId := entry] == old(journal.disk);
    }

    /** One job frame. `action` and `env` are what the gates see, `result` what the executor returns; `written` and
        `finished` say whether the two journal writes succeed. */
    method OnJob(body: Body, written: bool, action: Option<Action>, env: Surroundings, result: JobResult,
                 finished: bool)
      returns (out: seq<Event>)
      requires Valid()
      modifies this`log, journal
      ensures Valid()
      ensures State() == Run(old(State()), OnJobSteps(body, written, Admit(action, env), result, finished))
      ensures EndsWith(log, out)
    {
      ghost var d := State();
      var parsed := FromBody(body);
      if parsed.Unanswerable? {
        UnansweredIgnored(d, body, written, Admit(action, env), result, finished);
        return [];
      }
      var id := if parsed.Valid? then parsed.job.id else parsed.id;
      if id in journal.entries {
        RedeliveryAnswers(d, body, written, Admit(action, env), result, finished);
        out := AnswerAgain(id, written);
        return;
      }
      out := OnNewJob(body, written, action, env, result, finished);
    }

    /** A job the journal does not know: durable before acknowledged. */
    method OnNewJob(body: Body, written: bool, action: Option<Action>, env: Surroundings, result: JobResult,
                    finished: bool)
      returns (out: seq<Event>)
      requires Valid() && !FromBody(body).Unanswerable? && body.jobId.value !in journal.entries
      modifies this`log, journal
      ensures Valid()
      ensures State() == Run(old(State()), OnJobSteps(body, written, Admit(action, env), result, finished))
      ensures EndsWith(log, out)
    {
      ghost var d := State();
      var parsed := FromBody(body);
      var entry := EntryFor(body, clock);
      var recorded := journal.Record(entry, written);
      if !recorded {
        UnjournaledIgnored(d, body, Admit(action, env), result, finished);
        return [];
      }
      ghost var journaled := State();
      assert journaled == Recorded(d, entry);
      out := RunJournaled(entry, if parsed.Valid? then Some(parsed.job) else None, action, env, result, finished);
      ghost var refusal := Refusal(d, body, action, env);
      ghost var reply := if refusal.Some? then refusal.value else result;
      assert State() == JobDone(journaled, entry, refusal.None?, reply, finished);
      JobDoneAgain(d, entry, refusal.None?, reply, finished);
      NewJobHandled(d, body, action, env, result, finished);
    }
  }
}
