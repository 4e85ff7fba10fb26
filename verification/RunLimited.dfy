/** The bounded executor: workers that share one index, in every order in which their tasks settle. */
module RunLimited {
  import opened Integers

  /** A worker waits for the task of an item, has left its loop, or was ended by a task that rejected. */
  datatype Worker = Busy(item: nat) | Ended | Rejected(item: nat)

  datatype Pool = Pool(n: nat, workers: seq<Worker>, idx: nat, started: seq<nat>, finished: seq<nat>)

  /** How many workers a call starts. */
  function WorkerCount(n: nat, limit: int): nat {
    Min(Max(1, limit), n)
  }

  /** The head of a worker's loop: take the next item, or leave. */
  function Take(p: Pool, w: nat): (q: Pool)
    requires w < |p.workers|
    ensures |q.workers| == |p.workers| && q.n == p.n
  {
    if p.idx < p.n then
      p.(workers := p.workers[w := Busy(p.idx)], idx := p.idx + 1, started := p.started + [p.idx])
    else p.(workers := p.workers[w := Ended])
  }

  /** The pool when `k` workers have run up to their first wait. */
  function Launched(n: nat, k: nat): (p: Pool)
    ensures |p.workers| == k && p.n == n
  {
    if k == 0 then Pool(n, [], 0, [], [])
    else
      var p := Launched(n, k - 1);
      Take(p.(workers := p.workers + [Ended]), k - 1)
  }

  /** The task of a worker settles: `ok` tells whether it resolves or rejects. */
  datatype Step = Settle(w: nat, ok: bool)

  predicate Enabled(p: Pool, step: Step) {
    step.w < |p.workers| && p.workers[step.w].Busy?
  }

  function Apply(p: Pool, step: Step): Pool {
    if !Enabled(p, step) then p
    else
      var item := p.workers[step.w].item;
      if step.ok then Take(p.(finished := p.finished + [item]), step.w)
      else p.(workers := p.workers[step.w := Rejected(item)])
  }

  function Run(p: Pool, steps: seq<Step>): Pool {
    if steps == [] then p else Apply(Run(p, steps[..|steps| - 1]), steps[|steps| - 1])
  }

  /** The call resolves when every worker has left its loop by itself. */
  predicate Resolved(p: Pool) {
    forall w :: 0 <= w < |p.workers| ==> p.workers[w].Ended?
  }

  // ---- What every step keeps -------------------------------------------------------------------------------

  predicate Holds(w: Worker, item: nat) {
    !w.Ended? && w.item == item
  }

  predicate Held(p: Pool, item: nat) {
    exists w :: 0 <= w < |p.workers| && Holds(p.workers[w], item)
  }

  ghost predicate Valid(p: Pool) {
    && p.idx <= p.n
    && |p.started| == p.idx && (forall i :: 0 <= i < p.idx ==> p.started[i] == i)
    && (forall w :: 0 <= w < |p.workers| && !p.workers[w].Ended? ==> p.workers[w].item < p.idx)
    && (forall v, w :: 0 <= v < w < |p.workers| && !p.workers[w].Ended? ==> !Holds(p.workers[v], p.workers[w].item))
    && (forall i :: 0 <= i < |p.finished| ==> p.finished[i] < p.idx && !Held(p, p.finished[i]))
    && (forall i, j :: 0 <= i < j < |p.finished| ==> p.finished[i] != p.finished[j])
    && (forall i: nat :: i < p.idx ==> i in p.finished || Held(p, i))
    && ((exists w :: 0 <= w < |p.workers| && p.workers[w].Ended?) ==> p.idx == p.n)
  }

  lemma {:induction false} LaunchedIs(n: nat, k: nat)
    requires k <= n
    ensures var p := Launched(n, k);
            && p.idx == k && |p.started| == k && p.finished == []
            && forall i :: 0 <= i < k ==> p.workers[i] == Busy(i) && p.started[i] == i
  {
    if k > 0 {
      LaunchedIs(n, k - 1);
    }
  }

  lemma LaunchedValid(n: nat, limit: int)
    ensures Valid(Launched(n, WorkerCount(n, limit)))
  {
    var p := Launched(n, WorkerCount(n, limit));
    LaunchedIs(n, WorkerCount(n, limit));
    forall i: nat | i < p.idx
      ensures i in p.finished || Held(p, i)
    {
      assert Holds(p.workers[i], i);
    }
  }

  lemma ResolvedKeepsValid(p: Pool, w: nat)
    requires Valid(p) && w < |p.workers| && p.workers[w].Busy?
    ensures Valid(Take(p.(finished := p.finished + [p.workers[w].item]), w))
  {
    var r := Take(p.(finished := p.finished + [p.workers[w].item]), w);
    forall i: nat | i < r.idx
      ensures i in r.finished || Held(r, i)
    {
      if i == p.idx {
        assert Holds(r.workers[w], i);
      } else if i in p.finished {
        var k :| 0 <= k < |p.finished| && p.finished[k] == i;
        assert r.finished[k] == i;
      } else {
        var v :| 0 <= v < |p.workers| && Holds(p.workers[v], i);
        if v == w {
          assert r.finished[|p.finished|] == i;
        } else {
          assert Holds(r.workers[v], i);
        }
      }
    }
    forall k | 0 <= k < |r.finished|
      ensures r.finished[k] < r.idx && !Held(r, r.finished[k])
    {
      if k < |p.finished| {
        assert !Held(p, p.finished[k]);
      }
    }
  }

  lemma RejectedKeepsValid(p: Pool, w: nat)
    requires Valid(p) && w < |p.workers| && p.workers[w].Busy?
    ensures Valid(p.(workers := p.workers[w := Rejected(p.workers[w].item)]))
  {
    var r := p.(workers := p.workers[w := Rejected(p.workers[w].item)]);
    assert forall v, i :: 0 <= v < |p.workers| ==> (Holds(p.workers[v], i) <==> Holds(r.workers[v], i));
    assert forall i :: Held(p, i) <==> Held(r, i);
  }

  lemma {:induction false} RunKeepsValid(p: Pool, steps: seq<Step>)
    requires Valid(p)
    ensures Valid(Run(p, steps)) && |Run(p, steps).workers| == |p.workers| && Run(p, steps).n == p.n
    decreases |steps|
  {
    if steps != [] {
      var before, step := Run(p, steps[..|steps| - 1]), steps[|steps| - 1];
      RunKeepsValid(p, steps[..|steps| - 1]);
      if Enabled(before, step) {
        ResolvedKeepsValid(before, step.w);
        RejectedKeepsValid(before, step.w);
      }
    }
  }

  // ---- What holds in every schedule ------------------------------------------------------------------------

  /** The pool of a call after some tasks have settled, in any order. */
  function Scheduled(n: nat, limit: int, steps: seq<Step>): Pool {
    Run(Launched(n, WorkerCount(n, limit)), steps)
  }

  lemma ScheduledValid(n: nat, limit: int, steps: seq<Step>)
    ensures Valid(Scheduled(n, limit, steps)) && Scheduled(n, limit, steps).n == n
    ensures |Scheduled(n, limit, steps).workers| == WorkerCount(n, limit)
  {
    LaunchedValid(n, limit);
    RunKeepsValid(Launched(n, WorkerCount(n, limit)), steps);
  }

  /** Items are started once each, in index order. */
  lemma StartedInOrder(n: nat, limit: int, steps: seq<Step>)
    ensures var p := Scheduled(n, limit, steps);
            |p.started| <= n && forall i :: 0 <= i < |p.started| ==> p.started[i] == i
  {
    ScheduledValid(n, limit, steps);
  }

  /** The items whose tasks have been started and have not settled. */
  function InFlight(p: Pool): set<nat> {
    set w | 0 <= w < |p.workers| && p.workers[w].Busy? :: p.workers[w].item
  }

  lemma {:induction false} BusyBound(workers: seq<Worker>)
    ensures |set w | 0 <= w < |workers| && workers[w].Busy? :: workers[w].item| <= |workers|
  {
    var all := set w | 0 <= w < |workers| && workers[w].Busy? :: workers[w].item;
    if workers != [] {
      var front, last := workers[..|workers| - 1], workers[|workers| - 1];
      BusyBound(front);
      var rest := set w | 0 <= w < |front| && front[w].Busy? :: front[w].item;
      assert all <= rest + if last.Busy? then {last.item} else {};
      SubsetSize(all, rest + if last.Busy? then {last.item} else {});
    }
  }

  lemma {:induction false} SubsetSize(a: set<nat>, b: set<nat>)
    requires a <= b
    ensures |a| <= |b|
    decreases |a|
  {
    if a != {} {
      var x :| x in a;
      SubsetSize(a - {x}, b - {x});
    }
  }

  /** At most `max(1, limit)` items are in flight: those started, not finished and not rejected. */
  lemma FlightBounded(n: nat, limit: int, steps: seq<Step>)
    ensures var p := Scheduled(n, limit, steps);
            && |InFlight(p)| <= Max(1, limit)
            && forall i :: i in InFlight(p) ==> i in p.started && i !in p.finished
  {
    var p := Scheduled(n, limit, steps);
    ScheduledValid(n, limit, steps);
    BusyBound(p.workers);
    forall i | i in InFlight(p)
      ensures i in p.started && i !in p.finished
    {
      var w :| 0 <= w < |p.workers| && p.workers[w].Busy? && p.workers[w].item == i;
      assert Holds(p.workers[w], i) && Held(p, i);
      assert p.started[i] == i;
    }
  }

  /** When the call resolves, every item has finished. */
  lemma ResolvesWhenFinished(n: nat, limit: int, steps: seq<Step>)
    requires Resolved(Scheduled(n, limit, steps))
    ensures forall i: nat :: i < n ==> i in Scheduled(n, limit, steps).finished
    ensures |Scheduled(n, limit, steps).started| == n
  {
    var p := Scheduled(n, limit, steps);
    ScheduledValid(n, limit, steps);
    if n > 0 {
      assert p.workers[0].Ended?;
    }
  }

  /** While no task has rejected, no worker rests before the items are out, so the call keeps as many going as it
      may. */
  lemma NoneIdle(n: nat, limit: int, steps: seq<Step>, w: nat)
    requires w < WorkerCount(n, limit)
    ensures var p := Scheduled(n, limit, steps);
            w < |p.workers| && (p.idx < n && !p.workers[w].Rejected? ==> p.workers[w].Busy?)
  {
    ScheduledValid(n, limit, steps);
  }

  /** A task that rejects ends its worker for good: the item never counts as finished and the call never resolves. */
  lemma {:induction false} RejectedForGood(n: nat, limit: int, steps: seq<Step>, k: nat)
    requires k < |steps| && !steps[k].ok && Enabled(Scheduled(n, limit, steps[..k]), steps[k])
    ensures var w, p := steps[k].w, Scheduled(n, limit, steps);
            var item := Scheduled(n, limit, steps[..k]).workers[w].item;
            && w < |p.workers| && p.workers[w] == Rejected(item)
            && item !in p.finished && !Resolved(p)
    decreases |steps|
  {
    var front, w := steps[..|steps| - 1], steps[k].w;
    if k < |front| {
      assert front[..k] == steps[..k];
      RejectedForGood(n, limit, front, k);
    }
    var p := Scheduled(n, limit, steps);
    ScheduledValid(n, limit, steps);
    var item := Scheduled(n, limit, steps[..k]).workers[w].item;
    assert p.workers[w] == Rejected(item);
    assert Holds(p.workers[w], item);
  }

  /** Only tasks that resolve. */
  predicate AllOk(steps: seq<Step>) {
    forall k :: 0 <= k < |steps| ==> steps[k].ok
  }

  lemma {:induction false} NothingRejected(p: Pool, steps: seq<Step>)
    requires AllOk(steps) && forall w :: 0 <= w < |p.workers| ==> !p.workers[w].Rejected?
    ensures forall w :: 0 <= w < |Run(p, steps).workers| ==> !Run(p, steps).workers[w].Rejected?
    decreases |steps|
  {
    if steps != [] {
      assert AllOk(steps[..|steps| - 1]);
      NothingRejected(p, steps[..|steps| - 1]);
      assert steps[|steps| - 1].ok;
    }
  }

  /** Every step of the run settled a task. */
  predicate AllEnabled(p: Pool, steps: seq<Step>)
    decreases |steps|
  {
    steps == [] || (AllEnabled(p, steps[..|steps| - 1]) && Enabled(Run(p, steps[..|steps| - 1]), steps[|steps| - 1]))
  }

  lemma {:induction false} EachStepFinishes(p: Pool, steps: seq<Step>)
    requires AllOk(steps) && AllEnabled(p, steps)
    ensures |Run(p, steps).finished| == |p.finished| + |steps|
    decreases |steps|
  {
    if steps != [] {
      assert AllOk(steps[..|steps| - 1]);
      EachStepFinishes(p, steps[..|steps| - 1]);
      assert steps[|steps| - 1].ok;
    }
  }

  /** As long as tasks resolve, the call neither hangs nor outlives them: it has resolved exactly when `n` tasks
      have settled, and until then one is in flight. */
  lemma ResolvesAfterAll(n: nat, limit: int, steps: seq<Step>)
    requires AllOk(steps) && AllEnabled(Launched(n, WorkerCount(n, limit)), steps)
    ensures |steps| <= n && (Resolved(Scheduled(n, limit, steps)) <==> |steps| == n)
  {
    var p := Scheduled(n, limit, steps);
    ScheduledValid(n, limit, steps);
    LaunchedIs(n, WorkerCount(n, limit));
    NothingRejected(Launched(n, WorkerCount(n, limit)), steps);
    EachStepFinishes(Launched(n, WorkerCount(n, limit)), steps);
    FinishedBound(p);
    if Resolved(p) {
      if n > 0 {
        assert p.workers[0].Ended?;
      }
      assert forall w :: 0 <= w < |p.workers| ==> p.workers[w].Ended?;
      AllFinished(p);
    } else {
      var w :| 0 <= w < |p.workers| && !p.workers[w].Ended?;
      assert Holds(p.workers[w], p.workers[w].item);
      OneMissing(p, p.workers[w].item);
    }
  }

  function Below(n: nat): (r: set<nat>)
    ensures |r| == n && forall i: nat :: i in r <==> i < n
  {
    if n == 0 then {} else Below(n - 1) + {n - 1}
  }

  function Members(s: seq<nat>): set<nat> {
    set x | x in s
  }

  lemma {:induction false} DistinctSize(s: seq<nat>)
    requires forall i, j :: 0 <= i < j < |s| ==> s[i] != s[j]
    ensures |Members(s)| == |s|
  {
    if s != [] {
      var front, last := s[..|s| - 1], s[|s| - 1];
      DistinctSize(front);
      assert Members(s) == Members(front) + {last};
    }
  }

  lemma FinishedBound(p: Pool)
    requires Valid(p)
    ensures |p.finished| <= p.n
  {
    DistinctSize(p.finished);
    SubsetSize(Members(p.finished), Below(p.n));
  }

  lemma AllFinished(p: Pool)
    requires Valid(p) && Resolved(p) && p.idx == p.n
    ensures |p.finished| == p.n
  {
    FinishedBound(p);
    DistinctSize(p.finished);
    assert forall i: nat :: i < p.n ==> !Held(p, i);
    SubsetSize(Below(p.n), Members(p.finished));
  }

  lemma OneMissing(p: Pool, item: nat)
    requires Valid(p) && item < p.n && item !in p.finished
    ensures |p.finished| < p.n
  {
    DistinctSize(p.finished);
    SubsetSize(Members(p.finished), Below(p.n) - {item});
  }

  // ---- The executor ----------------------------------------------------------------------------------------

  class Executor {
    const n: nat
    var workers: seq<Worker>
    var idx: nat
    var started: seq<nat>
    var finished: seq<nat>

    ghost function State(): Pool
      reads this
    {
      Pool(n, workers, idx, started, finished)
    }

    /** The call up to its first wait: every worker has taken one item. */
    constructor (n: nat, limit: int)
      ensures this.n == n && State() == Launched(n, WorkerCount(n, limit))
    {
      this.n := n;
      workers, idx, started, finished := [], 0, [], [];
      new;
      var count := WorkerCount(n, limit);
      var k := 0;
      while k < count
        invariant 0 <= k <= count && State() == Launched(n, k)
      {
        workers := workers + [Ended];
        Advance(k);
        k := k + 1;
      }
    }

    /** One worker from one wait to the next. */
    method Advance(w: nat)
      requires w < |workers|
      modifies this
      ensures State() == Take(old(State()), w)
    {
      if idx < n {
        var i := idx;
        idx := idx + 1;
        started := started + [i];
        workers := workers[w := Busy(i)];
      } else {
        workers := workers[w := Ended];
      }
    }

    method TaskSettles(w: nat, ok: bool)
      requires w < |workers| && workers[w].Busy?
      modifies this
      ensures State() == Apply(old(State()), Settle(w, ok))
    {
      if ok {
        finished := finished + [workers[w].item];
        Advance(w);
      } else {
        workers := workers[w := Rejected(workers[w].item)];
      }
    }
  }
}
