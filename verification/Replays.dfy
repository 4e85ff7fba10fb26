/** Whole runs of the two verifiers, from the screened frames on: what a receiver accepts over any sequence of
    verdicts of the other checks and any clock readings. */
module Replays {
  import opened Verdicts

  /** The verdict of the checks before the clock, and the receiver's clock when the frame comes in. */
  datatype Arrival = Arrival(screened: Verdict, now: int)

  /** What the other checks return: never one of the last two codes, and a sender without a slash. */
  predicate IsScreened(v: Verdict) {
    if v.Accepted? then '/' !in v.env.from else v.code != Stale && v.code != Replay
  }

  predicate AllScreened(run: seq<Arrival>) {
    forall i :: 0 <= i < |run| ==> IsScreened(run[i].screened)
  }

  lemma {:induction false} SlashEndsParty(a: string, b: string, x: string, y: string)
    requires '/' !in a && '/' !in b && a + "/" + x == b + "/" + y
    ensures a == b && x == y
    decreases |a|
  {
    var s, t := a + "/" + x, b + "/" + y;
    assert s[0] == if a == [] then '/' else a[0];
    assert t[0] == if b == [] then '/' else b[0];
    assert (a != [] ==> a[0] in a) && (b != [] ==> b[0] in b);
    if a == [] {
      assert s[1..] == x && t[1..] == y;
    } else {
      assert s[1..] == a[1..] + "/" + x && t[1..] == b[1..] + "/" + y;
      SlashEndsParty(a[1..], b[1..], x, y);
      assert a == [a[0]] + a[1..] && b == [b[0]] + b[1..];
    }
  }

  /** The key of the memory stands for sender and id: no two pairs share one. */
  lemma SeenKeyIsPair(a: Envelope, b: Envelope)
    requires '/' !in a.from && '/' !in b.from
    ensures SeenKey(a) == SeenKey(b) <==> a.from == b.from && a.id == b.id
  {
    if SeenKey(a) == SeenKey(b) {
      SlashEndsParty(a.from, b.from, a.id, b.id);
    }
  }

  // ---- The reference -------------------------------------------------------------------------------------

  /** What the reference remembers after a run. */
  function Seen(run: seq<Arrival>): set<string>
    decreases |run|
  {
    if run == [] then {}
    else
      var before := Seen(run[..|run| - 1]);
      var verdict := Timed(run[|run| - 1].screened, run[|run| - 1].now, before);
      before + if verdict.Accepted? then {SeenKey(verdict.env)} else {}
  }

  /** The verdict on the frame at position `i`, after the frames before it. */
  function VerdictAt(run: seq<Arrival>, i: nat): Verdict
    requires i < |run|
  {
    Timed(run[i].screened, run[i].now, Seen(run[..i]))
  }

  lemma SeenStep(run: seq<Arrival>, i: nat)
    requires i < |run|
    ensures Seen(run[..i + 1])
         == Seen(run[..i]) + if VerdictAt(run, i).Accepted? then {SeenKey(VerdictAt(run, i).env)} else {}
  {
    assert run[..i + 1][..i] == run[..i];
  }

  lemma {:induction false} AcceptedIsSeen(run: seq<Arrival>, i: nat)
    requires i < |run| && VerdictAt(run, i).Accepted?
    ensures SeenKey(VerdictAt(run, i).env) in Seen(run)
    decreases |run|
  {
    var front := run[..|run| - 1];
    assert run[..i] == if i < |run| - 1 then front[..i] else front;
    if i < |run| - 1 {
      AcceptedIsSeen(front, i);
    }
  }

  lemma {:induction false} SeenWasAccepted(run: seq<Arrival>, key: string) returns (i: nat)
    requires key in Seen(run)
    ensures i < |run| && VerdictAt(run, i).Accepted? && SeenKey(VerdictAt(run, i).env) == key
    decreases |run|
  {
    var front := run[..|run| - 1];
    var last := VerdictAt(run, |run| - 1);
    if last.Accepted? && SeenKey(last.env) == key {
      i := |run| - 1;
    } else {
      i := SeenWasAccepted(front, key);
      assert front[..i] == run[..i];
    }
  }

  /** No sender's id is accepted twice, whatever the clock does. */
  lemma AcceptedOnce(run: seq<Arrival>, i: nat, j: nat)
    requires AllScreened(run) && i < j < |run| && VerdictAt(run, i).Accepted? && VerdictAt(run, j).Accepted?
    ensures var a, b := VerdictAt(run, i).env, VerdictAt(run, j).env; (a.from, a.id) != (b.from, b.id)
  {
    assert run[..j][..i] == run[..i];
    AcceptedIsSeen(run[..j], i);
    SeenKeyIsPair(run[i].screened.env, run[j].screened.env);
  }

  /** A frame is called a replay only when it is authentic, in the window, and its pair was accepted before. */
  lemma ReplayHasOriginal(run: seq<Arrival>, j: nat)
    requires AllScreened(run) && j < |run| && VerdictAt(run, j) == Rejected(Replay)
    ensures run[j].screened.Accepted? && InWindow(run[j].screened.env, run[j].now)
    ensures exists i ::
      && 0 <= i < j && VerdictAt(run, i).Accepted?
      && VerdictAt(run, i).env.from == run[j].screened.env.from
      && VerdictAt(run, i).env.id == run[j].screened.env.id
  {
    assert IsScreened(run[j].screened);
    var env := run[j].screened.env;
    var i := SeenWasAccepted(run[..j], SeenKey(env));
    assert run[..j][..i] == run[..i];
    assert VerdictAt(run, i) == VerdictAt(run[..j], i);
    assert IsScreened(run[i].screened);
    SeenKeyIsPair(run[i].screened.env, env);
  }

  lemma {:induction false} SeenWithout(front: seq<Arrival>, rejected: Arrival, back: seq<Arrival>)
    requires VerdictAt(front + [rejected], |front|).Rejected?
    ensures Seen(front + [rejected] + back) == Seen(front + back)
    decreases |back|
  {
    var long, short := front + [rejected] + back, front + back;
    if back == [] {
      assert long == front + [rejected] && short == front;
      assert (front + [rejected])[..|front|] == front;
    } else {
      var less := back[..|back| - 1];
      assert long[..|long| - 1] == front + [rejected] + less && short[..|short| - 1] == front + less;
      SeenWithout(front, rejected, less);
    }
  }

  /** A rejected frame leaves no trace: without it, every later frame gets the same verdict and the run is remembered
      the same. */
  lemma RejectedLeavesNoTrace(run: seq<Arrival>, i: nat)
    requires i < |run| && VerdictAt(run, i).Rejected?
    ensures var without := run[..i] + run[i + 1..];
            && Seen(run) == Seen(without)
            && forall j :: i < j < |run| ==> VerdictAt(run, j) == VerdictAt(without, j - 1)
  {
    var without := run[..i] + run[i + 1..];
    assert (run[..i] + [run[i]])[..i] == run[..i];
    assert run == run[..i] + [run[i]] + run[i + 1..];
    SeenWithout(run[..i], run[i], run[i + 1..]);
    forall j | i < j < |run|
      ensures VerdictAt(run, j) == VerdictAt(without, j - 1)
    {
      assert run[..j] == run[..i] + [run[i]] + run[i + 1..j];
      assert without[..j - 1] == run[..i] + run[i + 1..j];
      SeenWithout(run[..i], run[i], run[i + 1..j]);
    }
  }

  // ---- The agent -----------------------------------------------------------------------------------------

  /** What the agent remembers after a run, if it keeps an id for `memory` ms. */
  function Remembered(run: seq<Arrival>, memory: int): map<string, int>
    decreases |run|
  {
    if run == [] then map[]
    else
      var last := run[|run| - 1];
      AgentSeen(last.screened, last.now, Remembered(run[..|run| - 1], memory), memory)
  }

  function AgentVerdictAt(run: seq<Arrival>, i: nat, memory: int): Verdict
    requires i < |run|
  {
    AgentVerdict(run[i].screened, run[i].now, Remembered(run[..i], memory), memory)
  }

  lemma RememberedStep(run: seq<Arrival>, i: nat, memory: int)
    requires i < |run|
    ensures Remembered(run[..i + 1], memory)
         == AgentSeen(run[i].screened, run[i].now, Remembered(run[..i], memory), memory)
  {
    assert run[..i + 1][..i] == run[..i];
  }

  /** The id of a frame that is genuine and in time is looked up. */
  predicate LooksUp(x: Arrival) {
    x.screened.Accepted? && x.now - x.screened.env.ts <= 300_000 && x.screened.env.ts - x.now <= 300_000
  }

  /** The agent accepts the frame, and its sender and id make the key. */
  predicate AcceptsAs(run: seq<Arrival>, i: nat, memory: int, key: string)
    requires i < |run|
  {
    && LooksUp(run[i]) && AgentVerdictAt(run, i, memory).Accepted?
    && run[i].screened.env.from + "/" + run[i].screened.env.id == key
  }

  /** The last frame accepted under the key came at `at`, and no later look-up found that to be too long ago. */
  ghost predicate StillKnows(run: seq<Arrival>, i: nat, memory: int, key: string, at: int)
    requires i < |run|
  {
    && AcceptsAs(run, i, memory, key) && run[i].now == at
    && forall j :: i < j < |run| ==>
         !AcceptsAs(run, j, memory, key) && (LooksUp(run[j]) ==> run[j].now - at <= memory)
  }

  lemma AgentRemembers(run: seq<Arrival>, i: nat, memory: int, key: string, at: int)
    requires i < |run|
    ensures var before, after := Remembered(run[..i], memory), Remembered(run[..i + 1], memory);
            (key in after && after[key] == at)
            <==> if AcceptsAs(run, i, memory, key) then run[i].now == at
                 else key in before && before[key] == at && (LooksUp(run[i]) ==> run[i].now - at <= memory)
  {
    RememberedStep(run, i, memory);
  }

  lemma StillKnowsLess(run: seq<Arrival>, i: nat, memory: int, key: string, at: int)
    requires i < |run| - 1
    ensures var n := |run| - 1;
            StillKnows(run, i, memory, key, at)
            <==> && StillKnows(run[..n], i, memory, key, at) && !AcceptsAs(run, n, memory, key)
                 && (LooksUp(run[n]) ==> run[n].now - at <= memory)
  {
    var n := |run| - 1;
    forall j | 0 <= j < n
      ensures AcceptsAs(run, j, memory, key) <==> AcceptsAs(run[..n], j, memory, key)
    {
      assert run[..n][..j] == run[..j];
    }
  }

  /** What the agent remembers after a run, whatever its clock did: each key that it accepted, with the time of the last
      time, until an id is looked up when that is more than `memory` ms ago. */
  lemma {:induction false} MemoryIs(run: seq<Arrival>, memory: int, key: string, at: int)
    ensures (key in Remembered(run, memory) && Remembered(run, memory)[key] == at)
       <==> exists i :: 0 <= i < |run| && StillKnows(run, i, memory, key, at)
    decreases |run|
  {
    if run != [] {
      var n := |run| - 1;
      MemoryIs(run[..n], memory, key, at);
      assert run[..n + 1] == run;
      AgentRemembers(run, n, memory, key, at);
      forall i | 0 <= i < n
        ensures StillKnows(run, i, memory, key, at)
           <==> && StillKnows(run[..n], i, memory, key, at) && !AcceptsAs(run, n, memory, key)
                && (LooksUp(run[n]) ==> run[n].now - at <= memory)
      {
        StillKnowsLess(run, i, memory, key, at);
      }
      if AcceptsAs(run, n, memory, key) && run[n].now == at {
        assert StillKnows(run, n, memory, key, at);
      }
    }
  }

  /** The receiver's clock never goes back. */
  ghost predicate Ordered(run: seq<Arrival>) {
    forall i, j :: 0 <= i <= j < |run| ==> run[i].now <= run[j].now
  }

  /** An accepted frame stays in memory until it is too old for it. */
  lemma {:induction false} AcceptedIsRemembered(run: seq<Arrival>, i: nat, memory: int)
    requires Ordered(run) && memory >= 0 && i < |run| && AgentVerdictAt(run, i, memory).Accepted?
    requires run[|run| - 1].now - run[i].now <= memory
    ensures var key := SeenKey(AgentVerdictAt(run, i, memory).env);
            key in Remembered(run, memory) && Remembered(run, memory)[key] >= run[i].now
    decreases |run|
  {
    var last := |run| - 1;
    var front := run[..last];
    if i < last {
      assert front[..i] == run[..i];
      assert front[|front| - 1] == run[last - 1] && front[i] == run[i];
      AcceptedIsRemembered(front, i, memory);
    }
  }

  /** With the memory the agent has, no frame is accepted twice while the clock does not go back. */
  lemma AgentAcceptsOnce(run: seq<Arrival>, i: nat, j: nat, memory: int)
    requires Ordered(run) && memory >= 2 * WINDOW_MS
    requires i < j < |run| && run[i].screened == run[j].screened
    ensures AgentVerdictAt(run, i, memory).Rejected? || AgentVerdictAt(run, j, memory).Rejected?
  {
    if AgentVerdictAt(run, i, memory).Accepted? && AgentVerdictAt(run, j, memory).Accepted? {
      var before := run[..j];
      assert before[..i] == run[..i] && before[|before| - 1] == run[j - 1];
      AcceptedIsRemembered(before, i, memory);
      assert false;
    }
  }

  /** A run in which the agent accepts one frame twice. */
  ghost predicate AcceptsTwice(run: seq<Arrival>, v: Verdict, memory: int) {
    exists i, j ::
      && 0 <= i < j < |run| && run[i].screened == run[j].screened == v
      && AgentVerdictAt(run, i, memory).Accepted? && AgentVerdictAt(run, j, memory).Accepted?
  }

  /** Remembering for twice the window is just enough: with any less, every acceptable frame can be replayed. */
  lemma MemoryIsTight(v: Verdict, memory: int)
    requires memory >= 0 && v.Accepted?
    ensures (exists run: seq<Arrival> :: Ordered(run) && AcceptsTwice(run, v, memory)) <==> memory < 2 * WINDOW_MS
  {
    if memory < 2 * WINDOW_MS {
      EdgeReplay(v, memory);
    } else if exists run: seq<Arrival> :: Ordered(run) && AcceptsTwice(run, v, memory) {
      var run: seq<Arrival> :| Ordered(run) && AcceptsTwice(run, v, memory);
      var i: nat, j: nat :|
        && i < j < |run| && run[i].screened == run[j].screened == v
        && AgentVerdictAt(run, i, memory).Accepted? && AgentVerdictAt(run, j, memory).Accepted?;
      AgentAcceptsOnce(run, i, j, memory);
      assert false;
    }
  }

  /** First seen at one edge of the window, again at the other. */
  lemma EdgeReplay(v: Verdict, memory: int)
    requires 0 <= memory < 2 * WINDOW_MS && v.Accepted?
    ensures exists run: seq<Arrival> :: Ordered(run) && AcceptsTwice(run, v, memory)
  {
    var ts := v.env.ts;
    var early, late := Arrival(v, ts - WINDOW_MS), Arrival(v, ts + WINDOW_MS);
    var run := [early, late];
    assert run[..0] == [] && run[..1] == [early];
    assert [early][..0] == [];
    assert AgentVerdictAt(run, 0, memory).Accepted?;
    assert AgentVerdictAt(run, 1, memory).Accepted?;
    assert AcceptsTwice(run, v, memory);
    assert Ordered(run);
  }

  /** When the clock is set back, a frame can be accepted again: another frame, 15 minutes on, empties the memory. */
  lemma ClockBackReplays(v: Verdict, w: Verdict)
    requires v.Accepted? && w.Accepted?
    requires SeenKey(v.env) != SeenKey(w.env)
    requires w.env.ts > v.env.ts + REPLAY_MEMORY_MS
    ensures exists run: seq<Arrival> :: |run| == 3 && AcceptsTwice(run, v, REPLAY_MEMORY_MS)
  {
    var a := Arrival(v, v.env.ts);
    var b := Arrival(w, w.env.ts);
    var run := [a, b, a];
    assert run[..0] == [] && run[..1] == [a] && run[..2] == [a, b];
    assert [a][..0] == [] && [a, b][..1] == [a];
    assert Remembered([a], REPLAY_MEMORY_MS) == map[SeenKey(v.env) := a.now];
    assert Remembered([a, b], REPLAY_MEMORY_MS) == map[SeenKey(w.env) := b.now];
    assert AgentVerdictAt(run, 0, REPLAY_MEMORY_MS).Accepted?;
    assert AgentVerdictAt(run, 2, REPLAY_MEMORY_MS).Accepted?;
    assert AcceptsTwice(run, v, REPLAY_MEMORY_MS);
  }

  // ---- The two agree -------------------------------------------------------------------------------------

  lemma {:induction false} RememberedWasAccepted(run: seq<Arrival>, key: string, memory: int)
    returns (i: nat)
    requires key in Remembered(run, memory)
    ensures i < |run| && AgentVerdictAt(run, i, memory).Accepted?
    ensures SeenKey(AgentVerdictAt(run, i, memory).env) == key
    decreases |run|
  {
    var front := run[..|run| - 1];
    var last := AgentVerdictAt(run, |run| - 1, memory);
    if last.Accepted? && SeenKey(last.env) == key {
      i := |run| - 1;
    } else {
      i := RememberedWasAccepted(front, key, memory);
      assert front[..i] == run[..i];
    }
  }

  predicate SameId(a: Verdict, b: Verdict) {
    a.Accepted? && b.Accepted? && SeenKey(a.env) == SeenKey(b.env)
  }

  /** Senders date an id once: authentic frames with one sender and id carry one `ts`. */
  ghost predicate DatedOnce(pool: set<Verdict>) {
    forall a, b | a in pool && b in pool :: SameId(a, b) ==> a.env.ts == b.env.ts
  }

  predicate Within(run: seq<Arrival>, pool: set<Verdict>) {
    forall i :: 0 <= i < |run| ==> run[i].screened in pool
  }

  predicate SameVerdicts(run: seq<Arrival>) {
    forall i :: 0 <= i < |run| ==> AgentVerdictAt(run, i, REPLAY_MEMORY_MS) == VerdictAt(run, i)
  }

  /** What the agent has not pruned is what the reference has seen, for every id that can still come in. */
  lemma SeenIsRemembered(run: seq<Arrival>, next: Arrival, pool: set<Verdict>)
    requires Ordered(run + [next]) && Within(run, pool) && next.screened in pool && DatedOnce(pool) && SameVerdicts(run)
    requires next.screened.Accepted? && InWindow(next.screened.env, next.now)
    ensures var key := SeenKey(next.screened.env);
            key in Seen(run) <==> key in Retained(Remembered(run, REPLAY_MEMORY_MS), next.now, REPLAY_MEMORY_MS)
  {
    var key, memory := SeenKey(next.screened.env), REPLAY_MEMORY_MS;
    var all := run + [next];
    assert Ordered(run) by {
      assert forall i :: 0 <= i < |run| ==> run[i] == all[i];
    }
    if key in Seen(run) {
      var i := SeenWasAccepted(run, key);
      assert AgentVerdictAt(run, i, memory).Accepted?;
      assert SameId(run[i].screened, next.screened);
      assert all[|run| - 1].now <= all[|run|].now;
      AcceptedIsRemembered(run, i, memory);
    }
    if key in Remembered(run, memory) {
      var i := RememberedWasAccepted(run, key, memory);
      AcceptedIsSeen(run, i);
    }
  }

  lemma {:induction false} VerdictsAgree(run: seq<Arrival>, pool: set<Verdict>)
    requires Ordered(run) && Within(run, pool) && DatedOnce(pool)
    ensures SameVerdicts(run)
    decreases |run|
  {
    if run != [] {
      var last := |run| - 1;
      var front := run[..last];
      VerdictsAgree(front, pool);
      assert run == front + [run[last]];
      if Asks(run[last].screened, run[last].now) {
        SeenIsRemembered(front, run[last], pool);
      }
      forall i | 0 <= i < last
        ensures AgentVerdictAt(run, i, REPLAY_MEMORY_MS) == VerdictAt(run, i)
      {
        assert front[..i] == run[..i] && front[i] == run[i];
        assert AgentVerdictAt(front, i, REPLAY_MEMORY_MS) == VerdictAt(front, i);
      }
    }
  }

  /** The first frame at the early edge of its window, the second at the late edge of its own. */
  function Divided(a: Verdict, b: Verdict): seq<Arrival>
    requires SameId(a, b)
  {
    [Arrival(a, a.env.ts - WINDOW_MS), Arrival(b, b.env.ts + WINDOW_MS)]
  }

  /** An id dated twice divides them: the agent has forgotten it when the later frame comes in. */
  lemma ReusedIdDivides(a: Verdict, b: Verdict)
    requires SameId(a, b) && a.env.ts < b.env.ts
    ensures var run := Divided(a, b);
            && Ordered(run) && VerdictAt(run, 1) == Rejected(Replay)
            && AgentVerdictAt(run, 1, REPLAY_MEMORY_MS) == b
  {
    var first := Arrival(a, a.env.ts - WINDOW_MS);
    var run := Divided(a, b);
    assert run[..1] == [first] && [first][..0] == [];
    assert Seen([first]) == {SeenKey(a.env)};
    assert Remembered([first], REPLAY_MEMORY_MS) == map[SeenKey(a.env) := first.now];
  }

  /** The two verifiers give the same verdicts on every run of some frames under a clock that does not go back,
      exactly when no sender dates one id twice in those frames. */
  lemma VerifiersAgree(pool: set<Verdict>)
    ensures (forall run | Ordered(run) && Within(run, pool) :: SameVerdicts(run)) <==> DatedOnce(pool)
  {
    if DatedOnce(pool) {
      forall run | Ordered(run) && Within(run, pool)
        ensures SameVerdicts(run)
      {
        VerdictsAgree(run, pool);
      }
    } else {
      var a, b :| a in pool && b in pool && SameId(a, b) && a.env.ts != b.env.ts;
      var run := if a.env.ts < b.env.ts then Divided(a, b) else Divided(b, a);
      if a.env.ts < b.env.ts {
        ReusedIdDivides(a, b);
      } else {
        ReusedIdDivides(b, a);
      }
      assert Ordered(run) && Within(run, pool) && !SameVerdicts(run);
    }
  }
}
