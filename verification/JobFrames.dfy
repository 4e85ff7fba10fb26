/** From the text of a frame to the job that is journaled, started and answered. */
module JobFrames {
  import opened CanonicalJson
  import opened DeviceEndpoint
  import opened DeviceFrames
  import opened DeviceJobs
  import opened FrameCodes
  import opened Frames
  import opened JobBodies
  import opened Options
  import opened Ulids
  import opened Verdicts

  /** The agent accepts the text: genuine, for it, within five minutes of its clock, and not accepted from this sender
      under this id within the last ten. */
  ghost predicate Accepts(s: Endpoint, raw: string, r: Receiver, f: map<string, Json>) {
    exists ts :: Arrives(raw, r, f, ts) && -300_000 <= s.device.clock - ts <= 300_000
                 && (var key := f["from"].s + "/" + f["id"].s;
                     key in s.seen ==> s.device.clock - s.seen[key] > 600_000)
  }

  lemma ArrivesInTime(s: Endpoint, raw: string, r: Receiver, f: map<string, Json>, ts: int, key: string)
    requires Arrives(raw, r, f, ts) && f["from"].s + "/" + f["id"].s == key
    requires -300_000 <= s.device.clock - ts <= 300_000 && (key in s.seen ==> s.device.clock - s.seen[key] > 600_000)
    ensures Accepts(s, raw, r, f)
  {
  }

  lemma RemembersIs(screened: Verdict, now: int, seen: map<string, int>)
    ensures var verdict := AgentVerdict(screened, now, seen, REPLAY_MEMORY_MS);
            && (verdict.Accepted? <==>
                  screened.Accepted? && -300_000 <= now - screened.env.ts <= 300_000
                  && (SeenKey(screened.env) in seen ==> now - seen[SeenKey(screened.env)] > 600_000))
            && (verdict.Accepted? ==> verdict == screened)
  {
  }

  lemma AcceptedHolds(s: Endpoint, raw: string, r: Receiver, f: map<string, Json>)
    requires Accepts(s, raw, r, f)
    ensures var verdict := Verified(s, raw, Screening(r)); verdict.Accepted? && verdict.env.fields == f
  {
    var ts :| Arrives(raw, r, f, ts) && -300_000 <= s.device.clock - ts <= 300_000
              && (var key := f["from"].s + "/" + f["id"].s;
                  key in s.seen ==> s.device.clock - s.seen[key] > 600_000);
    SameScreen(raw, r);
    ArrivalIs(raw, r, f, ts);
    RemembersIs(Screening(r)(raw), s.device.clock, s.seen);
  }

  lemma VerifiedIsAccepted(s: Endpoint, raw: string, r: Receiver)
    requires Verified(s, raw, Screening(r)).Accepted?
    ensures Accepts(s, raw, r, Verified(s, raw, Screening(r)).env.fields)
  {
    var screened := Screening(r)(raw);
    RemembersIs(screened, s.device.clock, s.seen);
    SameScreen(raw, r);
    ScreenedArrives(raw, r);
    ArrivesInTime(s, raw, r, screened.env.fields, screened.env.ts, SeenKey(screened.env));
  }

  ghost predicate IsReady(s: Endpoint) {
    Ready(s.device)
  }

  /** The job frame's body. */
  ghost predicate HoldsJob(f: map<string, Json>, b: map<string, Json>) {
    "type" in f && f["type"] == Str("job") && "body" in f && f["body"] == Obj(b)
  }

  lemma JobIsTaken(s: Endpoint, raw: string, r: Receiver, f: map<string, Json>, b: map<string, Json>)
    requires Accepts(s, raw, r, f) && HoldsJob(f, b)
    ensures TakenFrom(s, raw, Screening(r)) == Some(BodyOf(b))
  {
    AcceptedHolds(s, raw, r, f);
  }

  /** A job frame that is accepted has its job journaled under its id and with its expiry. */
  lemma FrameIsJournaled(s: Endpoint, raw: string, now: int, r: Receiver, f: map<string, Json>, b: map<string, Json>,
                         id: string, kind: string, issued: int, expires: int)
    requires IsReady(s) && Accepts(s, raw, r, f) && HoldsJob(f, b)
    requires IsJobBody(b, id, kind, issued, expires) && id !in s.device.disk
    ensures var entry := Entry(id, kind, now, Some(expires), false, None);
            Next(s, Receive(raw, now, true), Screening(r)).device
            == Device(s.device.disk[id := entry], Some(s.device.disk[id := entry]),
                      Received(Job(id, kind, issued, expires), entry), now, s.device.log)
  {
    JobIsTaken(s, raw, r, f, b);
    JobIsJournaled(s.device.(clock := now), b, id, kind, issued, expires);
  }

  /** It is started exactly when no gate refuses it -- among them: it is not expired yet -- and answered either way. */
  lemma FrameIsAnswered(s: Endpoint, raw: string, now: int, r: Receiver, f: map<string, Json>, b: map<string, Json>,
                        id: string, kind: string, issued: int, expires: int, action: Option<Action>,
                        env: Surroundings, result: JobResult, finished: bool)
    returns (reply: JobResult)
    requires IsReady(s) && Accepts(s, raw, r, f) && HoldsJob(f, b)
    requires IsJobBody(b, id, kind, issued, expires) && id !in s.device.disk
    ensures var refusal := RefusalCode(action, env, now, expires, |Recent(s.device.disk, now)|);
            var t := RunFrames(s, OnFrameSteps(raw, now, true, Admit(action, env), result, finished), Screening(r));
            var entry := Entry(id, kind, now, Some(expires), refusal.None? && finished,
                               if finished then Some(reply) else None);
            && (if refusal.None? then reply == result
                else reply.status == Status.Rejected && reply.code == refusal.value)
            && t.device.log
               == s.device.log + (if refusal.None? then [Started(id)] else []) + [AckSent(id), ResultSent(id, reply)]
            && t.device.disk == s.device.disk[id := entry]
  {
    var d := s.device.(clock := now);
    JobIsTaken(s, raw, r, f, b);
    reply := JobIsAnswered(d, b, id, kind, issued, expires, action, env, result, finished);
    FrameLeadsTo(s, raw, now, true, Admit(action, env), result, finished, r);
  }

  /** The job path after the handling of one frame. */
  lemma FrameLeadsTo(s: Endpoint, raw: string, now: int, written: bool, admit: Step, result: JobResult, finished: bool,
                     r: Receiver)
    requires IsReady(s) && admit.Admit?
    ensures var body := TakenFrom(s, raw, Screening(r));
            RunFrames(s, OnFrameSteps(raw, now, written, admit, result, finished), Screening(r)).device
            == if body.None? then s.device
               else Run(s.device.(clock := now), OnJobSteps(body.value, written, admit, result, finished))
  {
    var body := TakenFrom(s, raw, Screening(r));
    var device := if body.None? then s.device
                  else Run(s.device.(clock := now), OnJobSteps(body.value, written, admit, result, finished));
    var seen := AgentSeen(Screening(r)(raw), s.device.clock, s.seen, REPLAY_MEMORY_MS);
    HandledFrame(s, raw, now, written, admit, result, finished, Endpoint(device, seen), Screening(r));
  }

  /** A job frame whose body names a job and is otherwise broken is acknowledged and rejected for its parameters. */
  lemma BrokenFrameIsAnswered(s: Endpoint, raw: string, now: int, r: Receiver, f: map<string, Json>,
                              b: map<string, Json>, id: string, admit: Step, result: JobResult, finished: bool)
    returns (reply: JobResult)
    requires IsReady(s) && Accepts(s, raw, r, f) && HoldsJob(f, b) && admit.Admit? && id !in s.device.disk
    requires HoldsText(b, "job_id", id) && IdText(id)
    requires forall kind, issued, expires :: !IsJobBody(b, id, kind, issued, expires)
    ensures var t := RunFrames(s, OnFrameSteps(raw, now, true, admit, result, finished), Screening(r));
            && reply.status == Status.Rejected && reply.code == InvalidParams
            && t.device.log == s.device.log + [AckSent(id), ResultSent(id, reply)]
            && id in t.device.disk && t.device.disk[id].expiresAt == None && !t.device.disk[id].executed
  {
    JobIsTaken(s, raw, r, f, b);
    reply := BrokenIsAnswered(s.device.(clock := now), b, id, admit, result, finished);
    FrameLeadsTo(s, raw, now, true, admit, result, finished, r);
  }

  lemma NothingIsTaken(s: Endpoint, raw: string, r: Receiver)
    requires forall f: map<string, Json>, b :: Accepts(s, raw, r, f) ==> !HoldsJob(f, b)
    ensures TakenFrom(s, raw, Screening(r)) == None
  {
    var verdict := Verified(s, raw, Screening(r));
    if verdict.Accepted? {
      VerifiedIsAccepted(s, raw, r);
      var f := verdict.env.fields;
      if "body" in f && f["body"].Obj? {
        assert !HoldsJob(f, f["body"].fields);
      }
    }
  }

  /** A text that is not accepted, or is not a job frame, leaves the job path as it is. */
  lemma OtherFrameIsIgnored(s: Endpoint, raw: string, now: int, r: Receiver, written: bool, admit: Step,
                            result: JobResult, finished: bool)
    requires IsReady(s) && admit.Admit?
    requires forall f: map<string, Json>, b :: Accepts(s, raw, r, f) ==> !HoldsJob(f, b)
    ensures RunFrames(s, OnFrameSteps(raw, now, written, admit, result, finished), Screening(r)).device == s.device
  {
    NothingIsTaken(s, raw, r);
    FrameLeadsTo(s, raw, now, written, admit, result, finished, r);
  }
}
