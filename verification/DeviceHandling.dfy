/** What the frame of one job achieves, when it is handled without interruption. */
module DeviceHandling {
  import opened DeviceJobs
  import opened Options

  /** The device once the frame of a newly journaled job is handled. */
  function JobDone(d: Device, entry: Entry, started: bool, reply: JobResult, finished: bool): Device {
    var disk := d.disk[entry.jobId := if finished then entry.(executed := started, result := Some(reply)) else entry];
    Device(disk, Some(disk), Idle, d.clock,
           d.log + (if started then [Started(entry.jobId)] else [])
           + [AckSent(entry.jobId), ResultSent(entry.jobId, reply)])
  }

  ghost function GateFor(d: Device, job: Job, action: Option<Action>, env: Surroundings): Option<JobResult> {
    var before := d.disk[job.id := NewEntry(job.id, job.kind, d.clock, Some(job.expiresAt))];
    Gate(action, env, d.clock, job.expiresAt, ExecutedSince(before, d.clock - HOUR_MS))
  }

  lemma FinishAndAnswer(d: Device, finished: bool)
    requires d.entries == Some(d.disk) && d.place.Ran? && d.place.entry.jobId in d.disk
    ensures var entry, reply := d.place.entry, d.place.result;
            var disk := if finished then d.disk[entry.jobId := entry.(result := Some(reply))] else d.disk;
            Apply(Apply(d, Finish(finished)), Answer)
            == Device(disk, Some(disk), Idle, d.clock,
                      d.log + [AckSent(entry.jobId), ResultSent(entry.jobId, reply)])
  {
  }

  /** Admitted, executed, or refused: the device before the result is recorded. */
  lemma GatePassed(d: Device, job: Job, entry: Entry, action: Option<Action>, env: Surroundings, result: JobResult)
    requires d.entries.Some? && d.place == Received(job, entry)
    ensures var refusal := Gate(action, env, entry.receivedAt, job.expiresAt,
                                ExecutedSince(d.entries.value, entry.receivedAt - HOUR_MS));
            Apply(Apply(d, Admit(action, env)), Complete(result))
            == if refusal.Some? then d.(place := Ran(entry, refusal.value))
               else d.(place := Ran(entry.(executed := true), result), log := d.log + [Started(job.id)])
  {
  }

  /** A new valid job is run once or refused by a gate, acknowledged and answered. */
  lemma ValidHandled(d: Device, body: Body, action: Option<Action>, env: Surroundings, result: JobResult,
                     finished: bool)
    requires d.entries == Some(d.disk) && d.place.Idle? && FromBody(body).Valid?
    requires FromBody(body).job.id !in d.disk
    ensures var job := FromBody(body).job;
            var refusal := GateFor(d, job, action, env);
            Run(d, OnJobSteps(body, true, Admit(action, env), result, finished))
            == JobDone(d, EntryFor(body, d.clock), refusal.None?,
                       if refusal.Some? then refusal.value else result, finished)
  {
    var job := FromBody(body).job;
    var entry := NewEntry(job.id, job.kind, d.clock, Some(job.expiresAt));
    var refusal := GateFor(d, job, action, env);
    var d1 := Recorded(d, entry).(place := Received(job, entry));
    assert Apply(d, Deliver(body, true)) == d1;
    GatePassed(d1, job, entry, action, env, result);
    var d3 := Apply(Apply(d1, Admit(action, env)), Complete(result));
    FinishAndAnswer(d3, finished);
    RanIsDone(d, d3, entry, refusal.None?, finished);
    RunFive(d, Deliver(body, true), Admit(action, env), Complete(result), Finish(finished), Answer);
  }

  /** Recording the entry first and then its result is recording the result. */
  lemma RanIsDone(d: Device, ran: Device, entry: Entry, started: bool, finished: bool)
    requires ran.place.Ran? && ran.place.entry == entry.(executed := started) && ran.clock == d.clock
    requires !entry.executed && ran.disk == d.disk[entry.jobId := entry]
    requires ran.log == d.log + if started then [Started(entry.jobId)] else []
    ensures var reply := ran.place.result;
            var disk := if finished then ran.disk[entry.jobId := ran.place.entry.(result := Some(reply))] else ran.disk;
            Device(disk, Some(disk), Idle, ran.clock,
                   ran.log + [AckSent(entry.jobId), ResultSent(entry.jobId, reply)])
            == JobDone(d, entry, started, reply, finished)
  {
    var done := entry.(executed := started, result := Some(ran.place.result));
    assert ran.disk[entry.jobId := done] == d.disk[entry.jobId := done];
  }

  /** A job with a usable id and a broken body is acknowledged and rejected, and nothing runs. */
  lemma InvalidHandled(d: Device, body: Body, admit: Step, result: JobResult, finished: bool)
    requires d.entries == Some(d.disk) && d.place.Idle? && FromBody(body).Invalid? && admit.Admit?
    requires FromBody(body).id !in d.disk
    ensures Run(d, OnJobSteps(body, true, admit, result, finished))
            == JobDone(d, EntryFor(body, d.clock), false, MALFORMED, finished)
  {
    var id := FromBody(body).id;
    var entry := EntryFor(body, d.clock);
    var d1 := Recorded(d, entry).(place := Ran(entry, MALFORMED));
    assert Apply(d, Deliver(body, true)) == d1;
    assert Apply(Apply(d1, admit), Complete(result)) == d1;
    FinishAndAnswer(d1, finished);
    var done := entry.(result := Some(MALFORMED));
    assert d1.disk[id := done] == d.disk[id := done] && d.log + [] == d.log;
    RunFive(d, Deliver(body, true), admit, Complete(result), Finish(finished), Answer);
  }

  ghost function Refusal(d: Device, body: Body, action: Option<Action>, env: Surroundings): Option<JobResult> {
    if FromBody(body).Valid? then GateFor(d, FromBody(body).job, action, env) else Some(MALFORMED)
  }

  lemma NewJobHandled(d: Device, body: Body, action: Option<Action>, env: Surroundings, result: JobResult,
                      finished: bool)
    requires d.entries == Some(d.disk) && d.place.Idle? && !FromBody(body).Unanswerable?
    requires body.jobId.value !in d.disk
    ensures var refusal := Refusal(d, body, action, env);
            Run(d, OnJobSteps(body, true, Admit(action, env), result, finished))
            == JobDone(d, EntryFor(body, d.clock), refusal.None?,
                       if refusal.Some? then refusal.value else result, finished)
  {
    if FromBody(body).Valid? {
      ValidHandled(d, body, action, env, result, finished);
    } else {
      InvalidHandled(d, body, Admit(action, env), result, finished);
    }
  }

  lemma UnansweredIgnored(d: Device, body: Body, written: bool, admit: Step, result: JobResult, finished: bool)
    requires d.entries == Some(d.disk) && d.place.Idle? && admit.Admit? && FromBody(body).Unanswerable?
    ensures Run(d, OnJobSteps(body, written, admit, result, finished)) == d
  {
    RunFive(d, Deliver(body, written), admit, Complete(result), Finish(finished), Answer);
  }

  /** Without a durable entry there is no acknowledgement: the frame leaves no trace, and the cloud redelivers. */
  lemma UnjournaledIgnored(d: Device, body: Body, admit: Step, result: JobResult, finished: bool)
    requires d.entries == Some(d.disk) && d.place.Idle? && admit.Admit?
    requires FromBody(body).Valid? ==> FromBody(body).job.id !in d.disk
    requires FromBody(body).Invalid? ==> FromBody(body).id !in d.disk
    ensures Run(d, OnJobSteps(body, false, admit, result, finished)) == d
  {
    RunFive(d, Deliver(body, false), admit, Complete(result), Finish(finished), Answer);
  }

  /** A redelivery is acknowledged and answered from the journal -- "interrupted" when the job never finished -- and
      starts nothing, whatever the gates would say. */
  lemma RedeliveryAnswers(d: Device, body: Body, written: bool, admit: Step, result: JobResult, finished: bool)
    requires d.entries == Some(d.disk) && d.place.Idle? && !FromBody(body).Unanswerable? && admit.Admit?
    requires body.jobId.value in d.disk && d.disk[body.jobId.value].jobId == body.jobId.value
    ensures var id := body.jobId.value;
            var entry := d.disk[id];
            var reply := if entry.result.Some? then entry.result.value else INTERRUPTED;
            var t := Run(d, OnJobSteps(body, written, admit, result, finished));
            && t.log == d.log + [AckSent(id), ResultSent(id, reply)]
            && t.place == Idle && t.clock == d.clock && t.entries == Some(t.disk)
            && t.disk == (if entry.result.Some? || !written then d.disk
                          else d.disk[id := entry.(result := Some(INTERRUPTED))])
  {
    var d1 := Apply(d, Deliver(body, written));
    assert d1.place.Answering?;
    RunFive(d, Deliver(body, written), admit, Complete(result), Finish(finished), Answer);
  }

  /** Journaling the entry first makes no difference to the end. */
  lemma JobDoneAgain(d: Device, entry: Entry, started: bool, reply: JobResult, finished: bool)
    ensures JobDone(d.(disk := d.disk[entry.jobId := entry], entries := Some(d.disk[entry.jobId := entry])),
                    entry, started, reply, finished)
            == JobDone(d, entry, started, reply, finished)
  {
    var done := entry.(executed := started, result := Some(reply));
    assert d.disk[entry.jobId := entry][entry.jobId := done] == d.disk[entry.jobId := done];
    assert d.disk[entry.jobId := entry][entry.jobId := entry] == d.disk[entry.jobId := entry];
  }

  /** A crash leaves the disk and what was sent; until the restart nothing is taken and nothing goes on. */
  lemma CrashStops(d: Device, step: Step)
    requires step.Deliver? || step.Admit? || step.Complete? || step.Finish? || step.Answer? || step.Forget?
    ensures var t := Apply(d, Crash);
            && t.disk == d.disk && t.clock == d.clock && t.log == d.log && Apply(t, step) == t
            && Apply(t, Restart) == Device(d.disk, Some(d.disk), Idle, d.clock, d.log)
  {
  }
}
