/** The drift loop after delivery: ticks that poll a delivered requirement, audit it once and then leave it alone. */
module Drift {
  import opened Options

  datatype IssueState = Open | Closed | Unknown

  /** One issue as GitHub reports it. */
  datatype Row = Row(repo: string, state: IssueState, reason: string)

  datatype Status = Fine | Drifted | Undecided

  datatype Verdict = Verdict(drifted: bool, findings: seq<Status>)

  /** What auditing a session comes to: no contract to audit against, a failure before any verdict is written, a
      verdict, or a verdict whose terminal event is never written, because that write fails or the process dies. */
  datatype Audit = NoContract | Fails | Judges(verdict: Verdict) | CutOff(verdict: Verdict)

  datatype Kind = Polled | Detected | Clean | Reconciled

  datatype Event = Event(kind: Kind, ts: int)

  /** A session in one tick: its issues, and what GitHub and the audit answer if they are asked. `at` is the clock
      when its events are appended. */
  datatype Case = Case(id: string, hasIssues: bool, umbrella: string, rows: Option<seq<Row>>, audit: Audit, at: int)

  datatype Config = Config(every: nat, maxPolls: nat)

  // ---- The pure parts ------------------------------------------------------------------------------------

  predicate AllClosed(rows: seq<Row>) {
    rows != [] && forall r :: r in rows ==> r.state.Closed?
  }

  predicate IsDropped(reason: string) {
    reason == "NOT_PLANNED" || reason == "DUPLICATE"
  }

  /** Abandoned as a whole: every issue was dropped, or the umbrella's was. */
  predicate Abandoned(rows: seq<Row>, umbrella: string) {
    && (exists r :: r in rows && IsDropped(r.reason))
    && ((forall r :: r in rows ==> IsDropped(r.reason))
        || exists r :: r in rows && IsDropped(r.reason) && r.repo == umbrella)
  }

  predicate HasDrift(v: Verdict) {
    v.drifted || Drifted in v.findings
  }

  predicate Has(log: seq<Event>, kind: Kind) {
    exists i :: 0 <= i < |log| && log[i].kind == kind
  }

  function Count(log: seq<Event>, kind: Kind): nat {
    if log == [] then 0
    else Count(log[..|log| - 1], kind) + if log[|log| - 1].kind == kind then 1 else 0
  }

  /** The latest stamp among the events of a kind. */
  function LastTs(log: seq<Event>, kind: Kind): Option<int> {
    if log == [] then None
    else
      var before, last := LastTs(log[..|log| - 1], kind), log[|log| - 1];
      if last.kind == kind && (before.None? || before.value < last.ts) then Some(last.ts) else before
  }

  // ---- One session in one tick -----------------------------------------------------------------------------

  /** Not reconciled, and the polling interval is over. */
  predicate Due(log: seq<Event>, now: int, c: Config) {
    && !Has(log, Reconciled)
    && (LastTs(log, Polled).Some? ==> now - LastTs(log, Polled).value >= c.every)
  }

  function Audited(s: Case): seq<Event> {
    match s.audit
    case NoContract => [Event(Reconciled, s.at)]
    case Fails => []
    case Judges(v) => [Event(if HasDrift(v) then Detected else Clean, s.at), Event(Reconciled, s.at)]
    case CutOff(v) => [Event(if HasDrift(v) then Detected else Clean, s.at)]
  }

  /** A delivered requirement waits until its issues are closed; a shipped one is audited at once. */
  function Answer(s: Case, shipped: bool): seq<Event> {
    if shipped then Audited(s)
    else if s.rows.None? || (exists r :: r in s.rows.value && r.state.Unknown?) || !AllClosed(s.rows.value) then []
    else if Abandoned(s.rows.value, s.umbrella) then [Event(Reconciled, s.at)]
    else Audited(s)
  }

  function Visit(log: seq<Event>, s: Case, shipped: bool, now: int, c: Config): seq<Event> {
    if !(shipped || s.hasIssues) || !Due(log, now, c) then log
    else if Count(log, Polled) >= c.maxPolls then log + [Event(Reconciled, s.at)]
    else log + [Event(Polled, s.at)] + Answer(s, shipped)
  }

  // ---- Runs ------------------------------------------------------------------------------------------------

  /** One tick as a session sees it. */
  datatype Round = Round(s: Case, shipped: bool, now: int)

  function Log(rounds: seq<Round>, c: Config): seq<Event> {
    if rounds == [] then []
    else
      var r := rounds[|rounds| - 1];
      Visit(Log(rounds[..|rounds| - 1], c), r.s, r.shipped, r.now, c)
  }

  /** A session may be polled: it has issues or was shipped, is not reconciled, and was not polled within the
      interval. */
  ghost predicate MayPoll(log: seq<Event>, r: Round, c: Config) {
    && (r.shipped || r.s.hasIssues)
    && (forall j :: 0 <= j < |log| ==> log[j].kind != Reconciled)
    && (forall j :: 0 <= j < |log| && log[j].kind == Polled ==> r.now - log[j].ts >= c.every)
  }

  /** How many rounds found the session due. */
  ghost function DueRounds(rounds: seq<Round>, c: Config): nat {
    if rounds == [] then 0
    else
      var front := rounds[..|rounds| - 1];
      DueRounds(front, c) + if MayPoll(Log(front, c), rounds[|rounds| - 1], c) then 1 else 0
  }

  /** Events are stamped no earlier than the tick that appends them began. */
  predicate Stamped(rounds: seq<Round>) {
    forall i :: 0 <= i < |rounds| ==> rounds[i].s.at >= rounds[i].now
  }

  /** The positions of the events of a kind. */
  function Positions(log: seq<Event>, kind: Kind): set<int> {
    set i | 0 <= i < |log| && log[i].kind == kind
  }

  lemma {:induction false} CountIs(log: seq<Event>, kind: Kind)
    ensures Count(log, kind) == |Positions(log, kind)|
  {
    if log != [] {
      var last := |log| - 1;
      var front := log[..last];
      CountIs(front, kind);
      assert Positions(log, kind) == Positions(front, kind) + if log[last].kind == kind then {last} else {};
    }
  }

  lemma {:induction false} CountAppend(log: seq<Event>, more: seq<Event>, kind: Kind)
    ensures Count(log + more, kind) == Count(log, kind) + Count(more, kind)
    decreases |more|
  {
    if more == [] {
      assert log + more == log;
    } else {
      assert (log + more)[..|log + more| - 1] == log + more[..|more| - 1];
      CountAppend(log, more[..|more| - 1], kind);
    }
  }

  lemma CountOne(e: Event, kind: Kind)
    ensures Count([e], kind) == if e.kind == kind then 1 else 0
  {
    assert Count([e][..0], kind) == 0;
  }

  lemma AnswerCounts(s: Case, shipped: bool)
    ensures Count(Answer(s, shipped), Polled) == 0 && Count(Answer(s, shipped), Reconciled) <= 1
    ensures forall i :: 0 <= i < |Answer(s, shipped)| - 1 ==> !Answer(s, shipped)[i].kind.Reconciled?
  {
    var events := Answer(s, shipped);
    if |events| == 1 {
      CountOne(events[0], Polled);
      CountOne(events[0], Reconciled);
      assert events == [events[0]];
    } else if |events| == 2 {
      CountAppend([events[0]], [events[1]], Polled);
      CountAppend([events[0]], [events[1]], Reconciled);
      CountOne(events[0], Polled);
      CountOne(events[1], Polled);
      CountOne(events[0], Reconciled);
      CountOne(events[1], Reconciled);
      assert events == [events[0]] + [events[1]];
    }
  }

  lemma VisitCounts(log: seq<Event>, s: Case, shipped: bool, now: int, c: Config)
    ensures var log' := Visit(log, s, shipped, now, c);
            && log <= log'
            && (Count(log, Polled) <= c.maxPolls ==> Count(log', Polled) <= c.maxPolls)
            && Count(log', Polled) <= Count(log, Polled) + 1
  {
    AnswerCounts(s, shipped);
    CountOne(Event(Reconciled, s.at), Polled);
    CountOne(Event(Polled, s.at), Polled);
    CountAppend(log, [Event(Reconciled, s.at)], Polled);
    CountAppend(log, [Event(Polled, s.at)], Polled);
    CountAppend(log + [Event(Polled, s.at)], Answer(s, shipped), Polled);
  }

  lemma VisitGrows(log: seq<Event>, s: Case, shipped: bool, now: int, c: Config)
    ensures log <= Visit(log, s, shipped, now, c)
  {
  }

  /** A requirement is polled at most `max_polls` times. */
  lemma {:induction false} PollsBounded(rounds: seq<Round>, c: Config)
    ensures |Positions(Log(rounds, c), Polled)| <= c.maxPolls
    decreases |rounds|
  {
    CountIs(Log(rounds, c), Polled);
    if rounds != [] {
      var r := rounds[|rounds| - 1];
      PollsBounded(rounds[..|rounds| - 1], c);
      CountIs(Log(rounds[..|rounds| - 1], c), Polled);
      VisitCounts(Log(rounds[..|rounds| - 1], c), r.s, r.shipped, r.now, c);
    }
  }

  /** Nothing follows the event that ends the loop, so there is at most one of it. */
  lemma {:induction false} ReconciledIsLast(rounds: seq<Round>, c: Config, i: nat)
    requires i < |Log(rounds, c)| && Log(rounds, c)[i].kind == Reconciled
    ensures i == |Log(rounds, c)| - 1
    decreases |rounds|
  {
    var r := rounds[|rounds| - 1];
    var before := Log(rounds[..|rounds| - 1], c);
    AnswerCounts(r.s, r.shipped);
    if i < |before| {
      VisitCounts(before, r.s, r.shipped, r.now, c);
      assert before[i].kind == Reconciled;
      ReconciledIsLast(rounds[..|rounds| - 1], c, i);
    } else {
      assert Log(rounds, c) == Visit(before, r.s, r.shipped, r.now, c);
      assert i > |before| ==> Log(rounds, c)[i] == Answer(r.s, r.shipped)[i - |before| - 1];
    }
  }

  // ---- Spacing ---------------------------------------------------------------------------------------------

  predicate Spaced(log: seq<Event>, every: nat) {
    forall i, j :: 0 <= i < j < |log| && log[i].kind == log[j].kind == Polled ==> log[j].ts - log[i].ts >= every
  }

  lemma {:induction false} LastIsLatest(log: seq<Event>, i: nat)
    requires i < |log| && log[i].kind == Polled
    ensures LastTs(log, Polled).Some? && log[i].ts <= LastTs(log, Polled).value
    decreases |log|
  {
    if i < |log| - 1 {
      LastIsLatest(log[..|log| - 1], i);
    }
  }

  lemma VisitSpaced(log: seq<Event>, s: Case, shipped: bool, now: int, c: Config)
    requires Spaced(log, c.every) && s.at >= now
    ensures Spaced(Visit(log, s, shipped, now, c), c.every)
  {
    var log' := Visit(log, s, shipped, now, c);
    forall i, j | 0 <= i < j < |log'| && log'[i].kind == log'[j].kind == Polled
      ensures log'[j].ts - log'[i].ts >= c.every
    {
      if j >= |log| {
        if j > |log| {
          assert log'[j] == Answer(s, shipped)[j - |log| - 1];
          AnswerPollsNothing(s, shipped, j - |log| - 1);
        }
        LastIsLatest(log, i);
      }
    }
  }

  lemma AnswerPollsNothing(s: Case, shipped: bool, i: nat)
    requires i < |Answer(s, shipped)|
    ensures Answer(s, shipped)[i].kind != Polled
  {
  }

  /** Two polls of a requirement are at least the polling interval apart, however the ticks fall. */
  lemma {:induction false} PollsSpaced(rounds: seq<Round>, c: Config)
    requires Stamped(rounds)
    ensures Spaced(Log(rounds, c), c.every)
    decreases |rounds|
  {
    if rounds != [] {
      var r := rounds[|rounds| - 1];
      PollsSpaced(rounds[..|rounds| - 1], c);
      VisitSpaced(Log(rounds[..|rounds| - 1], c), r.s, r.shipped, r.now, c);
    }
  }

  /** One round whose events are stamped before its tick began is enough: after a round stamped on time, its poll comes
      too early. */
  lemma EarlyStampUnspaced(r: Round, c: Config)
    requires r.s.hasIssues && r.s.at < r.now && c.maxPolls >= 2
    ensures var first := Round(r.s.(rows := None, at := r.now - c.every), false, r.now - c.every);
            Stamped([first]) && !Spaced(Log([first, r], c), c.every)
  {
    var first := Round(r.s.(rows := None, at := r.now - c.every), false, r.now - c.every);
    var poll := Event(Polled, r.now - c.every);
    assert [first][..0] == [] && [first, r][..1] == [first];
    assert Log([first], c) == [poll];
    CountOne(poll, Polled);
    assert !Has([poll], Reconciled) && Due([poll], r.now, c);
    var log := Log([first, r], c);
    assert log == [poll] + [Event(Polled, r.s.at)] + Answer(r.s, r.shipped);
    assert log[0] == poll && log[1] == Event(Polled, r.s.at);
  }

  // ---- It ends ---------------------------------------------------------------------------------------------

  lemma {:induction false} LatestIsThere(log: seq<Event>, kind: Kind)
    ensures LastTs(log, kind).Some? ==>
              exists j :: 0 <= j < |log| && log[j].kind == kind && log[j].ts == LastTs(log, kind).value
  {
    if log != [] {
      var front := log[..|log| - 1];
      LatestIsThere(front, kind);
      if LastTs(log, kind) == LastTs(front, kind) && LastTs(front, kind).Some? {
        var j :| 0 <= j < |front| && front[j].kind == kind && front[j].ts == LastTs(front, kind).value;
        assert log[j] == front[j];
      } else if LastTs(log, kind).Some? {
        assert log[|log| - 1].kind == kind;
      }
    }
  }

  lemma MayPollIsDue(log: seq<Event>, r: Round, c: Config)
    ensures MayPoll(log, r, c) <==> (r.shipped || r.s.hasIssues) && Due(log, r.now, c)
  {
    LatestIsThere(log, Polled);
    forall j | 0 <= j < |log| && log[j].kind == Polled
      ensures LastTs(log, Polled).Some? && log[j].ts <= LastTs(log, Polled).value
    {
      LastIsLatest(log, j);
    }
  }

  lemma DuePollsOrEnds(log: seq<Event>, s: Case, shipped: bool, now: int, c: Config)
    requires (shipped || s.hasIssues) && Due(log, now, c)
    ensures var log' := Visit(log, s, shipped, now, c);
            Has(log', Reconciled) || Count(log', Polled) == Count(log, Polled) + 1
  {
    AnswerCounts(s, shipped);
    CountOne(Event(Polled, s.at), Polled);
    CountAppend(log, [Event(Polled, s.at)], Polled);
    CountAppend(log + [Event(Polled, s.at)], Answer(s, shipped), Polled);
    if Count(log, Polled) >= c.maxPolls {
      assert (log + [Event(Reconciled, s.at)])[|log|].kind == Reconciled;
    }
  }

  lemma {:induction false} DueRoundsPoll(rounds: seq<Round>, c: Config)
    ensures Has(Log(rounds, c), Reconciled) || Count(Log(rounds, c), Polled) >= DueRounds(rounds, c)
    decreases |rounds|
  {
    if rounds != [] {
      var r := rounds[|rounds| - 1];
      var before := Log(rounds[..|rounds| - 1], c);
      DueRoundsPoll(rounds[..|rounds| - 1], c);
      VisitCounts(before, r.s, r.shipped, r.now, c);
      MayPollIsDue(before, r, c);
      if MayPoll(before, r, c) {
        DuePollsOrEnds(before, r.s, r.shipped, r.now, c);
      }
      if Has(before, Reconciled) {
        var i :| 0 <= i < |before| && before[i].kind == Reconciled;
        assert Log(rounds, c)[i].kind == Reconciled;
      }
    }
  }

  /** Whatever GitHub and the audits answer, `max_polls + 1` rounds in which a requirement is due reconcile it. */
  lemma EndsInTime(rounds: seq<Round>, c: Config)
    requires DueRounds(rounds, c) >= c.maxPolls + 1
    ensures Has(Log(rounds, c), Reconciled)
  {
    DueRoundsPoll(rounds, c);
    PollsBounded(rounds, c);
    CountIs(Log(rounds, c), Polled);
  }

  // ---- What a verdict is about -------------------------------------------------------------------------------

  /** The reasons with which an issue is closed without being done. */
  const DROPPED: set<string> := {"NOT_PLANNED", "DUPLICATE"}

  /** Merged by a human; or every issue is closed, not all of them and not the umbrella's as dropped. */
  ghost predicate Delivered(r: Round) {
    r.shipped ||
    (r.s.rows.Some? &&
     var rows := r.s.rows.value;
     && |rows| > 0 && (forall j :: 0 <= j < |rows| ==> rows[j].state == Closed)
     && (exists j :: 0 <= j < |rows| && rows[j].reason !in DROPPED)
     && (forall j :: 0 <= j < |rows| && rows[j].repo == r.s.umbrella ==> rows[j].reason !in DROPPED))
  }

  /** The audit's own flag says drift, or one of its findings does. */
  ghost predicate SaysDrift(v: Verdict) {
    v.drifted || exists j :: 0 <= j < |v.findings| && v.findings[j] == Drifted
  }

  lemma ByPosition(rows: seq<Row>, umbrella: string)
    requires |rows| > 0
    ensures AllClosed(rows) <==> forall j :: 0 <= j < |rows| ==> rows[j].state == Closed
    ensures (exists x :: x in rows && x.state.Unknown?) ==> exists j :: 0 <= j < |rows| && rows[j].state != Closed
    ensures Abandoned(rows, umbrella)
       <==> || (forall j :: 0 <= j < |rows| ==> rows[j].reason in DROPPED)
            || (exists j :: 0 <= j < |rows| && rows[j].repo == umbrella && rows[j].reason in DROPPED)
  {
    assert forall j :: 0 <= j < |rows| ==> rows[j] in rows;
    assert rows[0] in rows;
    if exists x :: x in rows && x.state.Unknown? {
      var x :| x in rows && x.state.Unknown?;
      var j :| 0 <= j < |rows| && rows[j] == x;
      assert rows[j].state != Closed;
    }
    if exists x :: x in rows && IsDropped(x.reason) && x.repo == umbrella {
      var x :| x in rows && IsDropped(x.reason) && x.repo == umbrella;
      var j :| 0 <= j < |rows| && rows[j] == x;
      assert rows[j].repo == umbrella && rows[j].reason in DROPPED;
    }
    if exists j :: 0 <= j < |rows| && rows[j].repo == umbrella && rows[j].reason in DROPPED {
      var j :| 0 <= j < |rows| && rows[j].repo == umbrella && rows[j].reason in DROPPED;
      assert rows[j] in rows && IsDropped(rows[j].reason);
    }
  }

  lemma DeliveredIsAudited(r: Round)
    ensures Delivered(r) ==> Answer(r.s, r.shipped) == Audited(r.s)
    ensures !Delivered(r) ==> forall e :: e in Answer(r.s, r.shipped) ==> e.kind == Reconciled
  {
    if !r.shipped && r.s.rows.Some? && r.s.rows.value != [] {
      ByPosition(r.s.rows.value, r.s.umbrella);
    }
  }

  /** A requirement is called clean or drifted only once it is delivered, by an audit that ran in that round, and
      called clean exactly when neither the audit's flag nor any of its findings says drift. */
  lemma {:induction false} VerdictIsEarned(rounds: seq<Round>, c: Config, i: nat) returns (k: nat)
    requires i < |Log(rounds, c)| && (Log(rounds, c)[i].kind == Clean || Log(rounds, c)[i].kind == Detected)
    ensures k < |rounds| && Delivered(rounds[k]) && (rounds[k].s.audit.Judges? || rounds[k].s.audit.CutOff?)
    ensures Log(rounds, c)[i].kind == Clean <==> !SaysDrift(rounds[k].s.audit.verdict)
    decreases |rounds|
  {
    k := |rounds| - 1;
    var r := rounds[k];
    var before := Log(rounds[..k], c);
    VisitGrows(before, r.s, r.shipped, r.now, c);
    if i < |before| {
      assert before[i] == Log(rounds, c)[i];
      k := VerdictIsEarned(rounds[..k], c, i);
    } else {
      JudgedInRound(before, r, c, i);
    }
  }

  /** A verdict that a round adds. */
  lemma JudgedInRound(log: seq<Event>, r: Round, c: Config, i: nat)
    requires var t := Visit(log, r.s, r.shipped, r.now, c);
             |log| <= i < |t| && (t[i].kind == Clean || t[i].kind == Detected)
    ensures Delivered(r) && (r.s.audit.Judges? || r.s.audit.CutOff?)
    ensures Visit(log, r.s, r.shipped, r.now, c)[i].kind == Clean <==> !SaysDrift(r.s.audit.verdict)
  {
    var t := Visit(log, r.s, r.shipped, r.now, c);
    assert t == log + [Event(Polled, r.s.at)] + Answer(r.s, r.shipped);
    assert t[i] == Answer(r.s, r.shipped)[i - |log| - 1];
    DeliveredIsAudited(r);
  }

  /** What an audit says of a delivered requirement, in the order of its events. */
  ghost predicate Tells(events: seq<Event>, s: Case) {
    match s.audit
    case NoContract => events == [Event(Reconciled, s.at)]
    case Fails => events == []
    case Judges(v) => events == [Event(if SaysDrift(v) then Detected else Clean, s.at), Event(Reconciled, s.at)]
    case CutOff(v) => events == [Event(if SaysDrift(v) then Detected else Clean, s.at)]
  }

  /** What one round appends, in every case: nothing; the end, when the polls are used up; or a poll, and after it what
      the audit says of a delivered requirement, the end of an abandoned one, or nothing. */
  lemma RoundAppends(rounds: seq<Round>, k: nat, c: Config) returns (more: seq<Event>)
    requires k < |rounds|
    ensures Log(rounds[..k + 1], c) == Log(rounds[..k], c) + more
    ensures var log, r := Log(rounds[..k], c), rounds[k];
            if !MayPoll(log, r, c) then more == []
            else if |Positions(log, Polled)| >= c.maxPolls then more == [Event(Reconciled, r.s.at)]
            else
              && |more| > 0 && more[0] == Event(Polled, r.s.at)
              && if Delivered(r) then Tells(more[1..], r.s)
                 else if AllDone(r) then more[1..] == [Event(Reconciled, r.s.at)]
                 else more[1..] == []
  {
    var log, r := Log(rounds[..k], c), rounds[k];
    assert rounds[..k + 1][..k] == rounds[..k];
    MayPollIsDue(log, r, c);
    CountIs(log, Polled);
    DeliveredIsAudited(r);
    if !Delivered(r) {
      UndeliveredEnds(r);
    }
    VisitGrows(log, r.s, r.shipped, r.now, c);
    more := Visit(log, r.s, r.shipped, r.now, c)[|log|..];
    if MayPoll(log, r, c) && Count(log, Polled) < c.maxPolls {
      assert log + [Event(Polled, r.s.at)] + Answer(r.s, r.shipped)
          == log + ([Event(Polled, r.s.at)] + Answer(r.s, r.shipped));
      assert more == [Event(Polled, r.s.at)] + Answer(r.s, r.shipped);
      assert more[1..] == Answer(r.s, r.shipped);
    }
  }

  /** Every issue of the requirement is closed. */
  ghost predicate AllDone(r: Round) {
    r.s.rows.Some? && |r.s.rows.value| > 0
    && forall j :: 0 <= j < |r.s.rows.value| ==> r.s.rows.value[j].state == Closed
  }

  lemma UndeliveredEnds(r: Round)
    requires !Delivered(r)
    ensures Answer(r.s, r.shipped) == if AllDone(r) then [Event(Reconciled, r.s.at)] else []
  {
    if r.s.rows.Some? && r.s.rows.value != [] {
      ByPosition(r.s.rows.value, r.s.umbrella);
    }
  }

  // ---- The loop over all sessions ----------------------------------------------------------------------------

  function LogOf(logs: map<string, seq<Event>>, id: string): (log: seq<Event>)
    ensures id in logs ==> log == logs[id]
    ensures id !in logs ==> log == []
  {
    if id in logs then logs[id] else []
  }

  predicate DistinctIds(all: seq<Case>) {
    forall i, j :: 0 <= i < j < |all| ==> all[i].id != all[j].id
  }

  predicate Among(id: string, cases: seq<Case>, k: nat)
    requires k <= |cases|
  {
    exists i :: 0 <= i < k && cases[i].id == id
  }

  /** The first `k` sessions were visited, those from `split` on as shipped, and no other log changed. */
  ghost predicate Visited(before: map<string, seq<Event>>, logs: map<string, seq<Event>>, all: seq<Case>, k: nat,
                          split: nat, now: int, c: Config)
    requires k <= |all|
  {
    && (forall i :: 0 <= i < k ==>
         LogOf(logs, all[i].id) == Visit(LogOf(before, all[i].id), all[i], i >= split, now, c))
    && forall id :: !Among(id, all, k) ==> LogOf(logs, id) == LogOf(before, id)
  }

  lemma EarlierStay(logs: map<string, seq<Event>>, logs': map<string, seq<Event>>, all: seq<Case>, k: nat)
    requires k < |all| && DistinctIds(all)
    requires forall id :: id != all[k].id ==> LogOf(logs', id) == LogOf(logs, id)
    ensures !Among(all[k].id, all, k)
    ensures forall i :: 0 <= i < k ==> LogOf(logs', all[i].id) == LogOf(logs, all[i].id)
  {
  }

  lemma OthersStay(before: map<string, seq<Event>>, logs: map<string, seq<Event>>, logs': map<string, seq<Event>>,
                   all: seq<Case>, k: nat)
    requires k < |all| && forall id :: !Among(id, all, k) ==> LogOf(logs, id) == LogOf(before, id)
    requires forall id :: id != all[k].id ==> LogOf(logs', id) == LogOf(logs, id)
    ensures forall id :: !Among(id, all, k + 1) ==> LogOf(logs', id) == LogOf(before, id)
  {
    forall id | !Among(id, all, k + 1)
      ensures LogOf(logs', id) == LogOf(before, id)
    {
      assert id != all[k].id;
      assert !Among(id, all, k);
    }
  }

  lemma VisitOne(before: map<string, seq<Event>>, logs: map<string, seq<Event>>, logs': map<string, seq<Event>>,
                 all: seq<Case>, k: nat, split: nat, now: int, c: Config)
    requires k < |all| && DistinctIds(all) && Visited(before, logs, all, k, split, now, c)
    requires LogOf(logs', all[k].id) == Visit(LogOf(logs, all[k].id), all[k], k >= split, now, c)
    requires forall id :: id != all[k].id ==> LogOf(logs', id) == LogOf(logs, id)
    ensures Visited(before, logs', all, k + 1, split, now, c)
  {
    EarlierStay(logs, logs', all, k);
    OthersStay(before, logs, logs', all, k);
  }

  class Reconciler {
    var logs: map<string, seq<Event>>

    constructor ()
      ensures logs == map[]
    {
      logs := map[];
    }

    method Append(id: string, e: Event)
      modifies this
      ensures logs == old(logs)[id := LogOf(old(logs), id) + [e]]
    {
      logs := logs[id := LogOf(logs, id) + [e]];
    }

    method AuditSession(s: Case)
      modifies this
      ensures LogOf(logs, s.id) == LogOf(old(logs), s.id) + Audited(s)
      ensures forall id :: id != s.id ==> LogOf(logs, id) == LogOf(old(logs), id)
    {
      match s.audit
      case NoContract => Append(s.id, Event(Reconciled, s.at));
      case Fails =>
      case Judges(v) =>
        Append(s.id, Event(if HasDrift(v) then Detected else Clean, s.at));
        Append(s.id, Event(Reconciled, s.at));
      case CutOff(v) =>
        Append(s.id, Event(if HasDrift(v) then Detected else Clean, s.at));
    }

    /** The part of a round that both loops share: nothing to do, the end of the polls, or one poll more. */
    method Poll(s: Case, now: int, c: Config) returns (polled: bool)
      modifies this
      ensures forall id :: id != s.id ==> LogOf(logs, id) == LogOf(old(logs), id)
      ensures polled <==> Due(LogOf(old(logs), s.id), now, c) && Count(LogOf(old(logs), s.id), Polled) < c.maxPolls
      ensures var before := LogOf(old(logs), s.id);
              LogOf(logs, s.id) ==
                if polled then before + [Event(Polled, s.at)]
                else if Due(before, now, c) then before + [Event(Reconciled, s.at)]
                else before
    {
      var log := LogOf(logs, s.id);
      if Has(log, Reconciled) {
        return false;
      }
      var last := LastTs(log, Polled);
      if last.Some? && now - last.value < c.every {
        return false;
      }
      if Count(log, Polled) >= c.maxPolls {
        Append(s.id, Event(Reconciled, s.at));
        return false;
      }
      Append(s.id, Event(Polled, s.at));
      return true;
    }

    method VisitDone(s: Case, now: int, c: Config)
      modifies this
      ensures LogOf(logs, s.id) == Visit(LogOf(old(logs), s.id), s, false, now, c)
      ensures forall id :: id != s.id ==> LogOf(logs, id) == LogOf(old(logs), id)
    {
      if !s.hasIssues {
        return;
      }
      var polled := Poll(s, now, c);
      if !polled || s.rows.None? {
        return;
      }
      var rows := s.rows.value;
      if exists r :: r in rows && r.state.Unknown? {
        return;
      }
      if !AllClosed(rows) {
        return;
      }
      if Abandoned(rows, s.umbrella) {
        Append(s.id, Event(Reconciled, s.at));
        return;
      }
      AuditSession(s);
    }

    method VisitShipped(s: Case, now: int, c: Config)
      modifies this
      ensures LogOf(logs, s.id) == Visit(LogOf(old(logs), s.id), s, true, now, c)
      ensures forall id :: id != s.id ==> LogOf(logs, id) == LogOf(old(logs), id)
    {
      var polled := Poll(s, now, c);
      if polled {
        AuditSession(s);
      }
    }

    /** One tick: every listed session is visited once, and no other one is touched. */
    method ReconcileDrift(now: int, done: seq<Case>, shipped: seq<Case>, c: Config)
      requires DistinctIds(done + shipped)
      modifies this
      ensures Visited(old(logs), logs, done + shipped, |done| + |shipped|, |done|, now, c)
    {
      ghost var all := done + shipped;
      ghost var before := logs;
      var k := 0;
      while k < |done|
        invariant 0 <= k <= |done| && Visited(before, logs, all, k, |done|, now, c)
      {
        ghost var sofar := logs;
        assert all[k] == done[k];
        VisitDone(done[k], now, c);
        VisitOne(before, sofar, logs, all, k, |done|, now, c);
        k := k + 1;
      }
      var m := 0;
      while m < |shipped|
        invariant 0 <= m <= |shipped| && Visited(before, logs, all, |done| + m, |done|, now, c)
      {
        ghost var sofar := logs;
        assert all[|done| + m] == shipped[m];
        VisitShipped(shipped[m], now, c);
        VisitOne(before, sofar, logs, all, |done| + m, |done|, now, c);
        m := m + 1;
      }
    }
  }
}
