// Injective maps of a finite set into itself.
module Permutations {

  ghost predicate Injective(f: map<nat, nat>) {
    forall a, b :: a in f && b in f && f[a] == f[b] ==> a == b
  }

  ghost predicate MapsIntoKeys(f: map<nat, nat>) {
    f.Values <= f.Keys
  }

  // n steps along f.
  ghost function Follow(f: map<nat, nat>, u: nat, n: nat): (v: nat)
    requires MapsIntoKeys(f) && u in f
    ensures v in f
  {
    if n == 0 then u
    else
      var w := Follow(f, u, n - 1);
      assert f[w] in f.Values;
      f[w]
  }

  lemma {:induction false} InjectiveAt(f: map<nat, nat>, a: nat, b: nat)
    requires Injective(f) && a in f && b in f && f[a] == f[b]
    ensures a == b
  {
  }

  lemma {:induction false} FollowStep(f: map<nat, nat>, u: nat, n: nat)
    requires MapsIntoKeys(f) && u in f
    ensures Follow(f, u, n + 1) == f[Follow(f, u, n)]
  {
  }

  // The points before two equal points of a walk are equal.
  lemma {:induction false} StepBack(f: map<nat, nat>, u: nat, i: nat, j: nat)
    requires MapsIntoKeys(f) && Injective(f) && u in f && Follow(f, u, i + 1) == Follow(f, u, j + 1)
    ensures Follow(f, u, i) == Follow(f, u, j)
  {
    FollowStep(f, u, i);
    FollowStep(f, u, j);
    InjectiveAt(f, Follow(f, u, i), Follow(f, u, j));
  }

  // Equal points of w have equal predecessors.
  predicate BacksUp(w: nat -> nat, k: nat, l: nat) {
    w(k + 1) == w(l + 1) ==> w(k) == w(l)
  }

  lemma {:induction false} BackToStart(w: nat -> nat, i: nat, d: nat)
    requires (forall k: nat, l: nat :: BacksUp(w, k, l)) && w(i) == w(i + d)
    ensures w(0) == w(d)
  {
    if i > 0 {
      assert BacksUp(w, i - 1, i - 1 + d);
      BackToStart(w, i - 1, d);
    }
  }

  // Two equal points of a walk, d steps apart, mean the walk is at its start after d
  // steps.
  lemma {:induction false} WalkReturns(f: map<nat, nat>, u: nat, i: nat, d: nat)
    requires MapsIntoKeys(f) && Injective(f) && u in f && Follow(f, u, i) == Follow(f, u, i + d)
    ensures Follow(f, u, d) == u
  {
    var w := (n: nat) => Follow(f, u, n);
    forall k: nat, l: nat ensures BacksUp(w, k, l) {
      if w(k + 1) == w(l + 1) {
        StepBack(f, u, k, l);
      }
    }
    BackToStart(w, i, d);
  }

  ghost function Trail(f: map<nat, nat>, u: nat, n: nat): set<nat>
    requires MapsIntoKeys(f) && u in f
  {
    if n == 0 then {} else Trail(f, u, n - 1) + {Follow(f, u, n - 1)}
  }

  lemma {:induction false} TrailMember(f: map<nat, nat>, u: nat, n: nat, x: nat) returns (k: nat)
    requires MapsIntoKeys(f) && u in f && x in Trail(f, u, n)
    ensures k < n && Follow(f, u, k) == x
  {
    if x == Follow(f, u, n - 1) {
      k := n - 1;
    } else {
      k := TrailMember(f, u, n - 1, x);
    }
  }

  lemma {:induction false} TrailSubset(f: map<nat, nat>, u: nat, n: nat)
    requires MapsIntoKeys(f) && u in f
    ensures Trail(f, u, n) <= f.Keys
  {
    if n > 0 {
      TrailSubset(f, u, n - 1);
    }
  }

  lemma {:induction false} Revisit(f: map<nat, nat>, u: nat, n: nat) returns (k: nat)
    requires MapsIntoKeys(f) && Injective(f) && u in f && Follow(f, u, n) in Trail(f, u, n)
    ensures 0 < k <= n && Follow(f, u, k) == u
  {
    var i := TrailMember(f, u, n, Follow(f, u, n));
    k := n - i;
    WalkReturns(f, u, i, k);
  }

  // A walk of n points returns to its start (at step k > 0) or visits n points.
  lemma {:induction false} ReturnsOrGrows(f: map<nat, nat>, u: nat, n: nat) returns (k: nat)
    requires MapsIntoKeys(f) && Injective(f) && u in f
    ensures k == 0 ==> |Trail(f, u, n)| == n
    ensures k > 0 ==> k < n && Follow(f, u, k) == u
  {
    if n == 0 {
      k := 0;
    } else {
      k := ReturnsOrGrows(f, u, n - 1);
      if k == 0 && Follow(f, u, n - 1) in Trail(f, u, n - 1) {
        k := Revisit(f, u, n - 1);
      }
    }
  }

  lemma {:induction false} SubsetSize(a: set<nat>, b: set<nat>)
    requires a <= b
    ensures |a| <= |b|
  {
    if a != {} {
      var x :| x in a;
      SubsetSize(a - {x}, b - {x});
    }
  }

  // Every point lies on a cycle, no longer than the set.
  lemma {:induction false} OnCycle(f: map<nat, nat>, u: nat) returns (n: nat)
    requires MapsIntoKeys(f) && Injective(f) && u in f
    ensures 0 < n <= |f| && Follow(f, u, n) == u
  {
    n := ReturnsOrGrows(f, u, |f.Keys| + 1);
    if n == 0 {
      TrailSubset(f, u, |f.Keys| + 1);
      SubsetSize(Trail(f, u, |f.Keys| + 1), f.Keys);
      assert false;
    }
  }

  lemma {:induction false} FollowAdds(f: map<nat, nat>, u: nat, m: nat, n: nat)
    requires MapsIntoKeys(f) && u in f
    ensures Follow(f, Follow(f, u, m), n) == Follow(f, u, m + n)
  {
    if n > 0 {
      FollowAdds(f, u, m, n - 1);
    }
  }

  lemma {:induction false} FollowRepeats(f: map<nat, nat>, u: nat, p: nat, n: nat)
    requires MapsIntoKeys(f) && u in f && Follow(f, u, p) == u
    ensures Follow(f, u, n * p) == u
  {
    if n > 0 {
      FollowRepeats(f, u, p, n - 1);
      FollowAdds(f, u, (n - 1) * p, p);
      assert (n - 1) * p + p == n * p;
    }
  }

  // Cycles do not run into each other: from any point that u reaches, u is reached.
  lemma {:induction false} ReachesBack(f: map<nat, nat>, u: nat, n: nat) returns (m: nat)
    requires MapsIntoKeys(f) && Injective(f) && u in f
    ensures Follow(f, Follow(f, u, n), m) == u
  {
    var p := OnCycle(f, u);
    m := Rest(n, p);
    FollowAdds(f, u, n, m);
    FollowRepeats(f, u, p, n);
  }

  // What n steps lack to n rounds of a cycle of length p.
  function Rest(n: nat, p: nat): (m: nat)
    requires p > 0
    ensures n + m == n * p
  {
    assert n <= n * p;
    n * p - n
  }

  // An injective map into its own keys is onto them.
  lemma {:induction false} Onto(f: map<nat, nat>)
    requires MapsIntoKeys(f) && Injective(f)
    ensures f.Values == f.Keys
  {
    forall t | t in f.Keys ensures t in f.Values {
      var n := OnCycle(f, t);
      var u := Follow(f, t, n - 1);
      assert u in f && f[u] == t;
    }
  }
}

// Deadlocks of the runtime: when nothing can run and no call is in flight, the
// waits-for relation is a permutation of the unfinished uthreads, so the stuck
// uthreads split into join cycles, and the state never changes again.
module Deadlock {
  import opened Words
  import opened Runtime
  import opened RuntimeInvariants
  import opened Permutations

  // The loop found the queue empty and only the signal read is in flight.
  ghost predicate Stuck(r: Rt) {
    && Inv(r)
    && r.sched.phase == Scheduler
    && r.sched.runq == []
    && forall op :: op in r.inflight ==> r.inflight[op] == SIGNAL_SENTINEL
  }

  function Unfinished(s: Sched): set<nat> {
    set i | 0 <= i < |s.threads| && s.threads[i].state != Done
  }

  lemma {:induction false} StuckJoins(r: Rt, u: nat)
    requires Stuck(r) && u in Unfinished(r.sched)
    ensures r.sched.threads[u].state == Blocked && r.sched.threads[u].ctx.InJoin?
    ensures var t := r.sched.threads[u].ctx.target;
            t in Unfinished(r.sched) && t != u && r.sched.threads[t].joinWaiter == Some(u)
  {
    assert ContextOk(r.sched.threads[u]) && JoinerOk(r.sched, u) && CallerOk(r, u);
    assert r.sched.threads[u].id == u + 1;
  }

  // Who each unfinished uthread waits for.
  function WaitsFor(s: Sched): map<nat, nat> {
    map u | 0 <= u < |s.threads| && s.threads[u].state != Done && s.threads[u].ctx.InJoin?
      :: s.threads[u].ctx.target
  }

  lemma {:induction false} StuckKeys(r: Rt)
    requires Stuck(r)
    ensures WaitsFor(r.sched).Keys == Unfinished(r.sched)
  {
    forall u | u in Unfinished(r.sched) ensures u in WaitsFor(r.sched) {
      StuckJoins(r, u);
    }
  }

  lemma {:induction false} StuckInjective(r: Rt)
    requires Stuck(r)
    ensures Injective(WaitsFor(r.sched))
  {
    var f := WaitsFor(r.sched);
    forall a, b | a in f && b in f && f[a] == f[b] ensures a == b {
      StuckJoins(r, a);
      StuckJoins(r, b);
    }
  }

  lemma {:induction false} StuckClosed(r: Rt)
    requires Stuck(r)
    ensures MapsIntoKeys(WaitsFor(r.sched))
  {
    var f := WaitsFor(r.sched);
    StuckKeys(r);
    forall t | t in f.Values ensures t in f.Keys {
      var u :| u in f && f[u] == t;
      StuckJoins(r, u);
    }
  }

  // The waits-for relation of a stuck runtime is a permutation of its unfinished
  // uthreads without fixed points.
  lemma {:induction false} DeadlockIsPermutation(r: Rt)
    requires Stuck(r)
    ensures WaitsFor(r.sched).Keys == Unfinished(r.sched) == WaitsFor(r.sched).Values
    ensures Injective(WaitsFor(r.sched))
    ensures forall u :: u in WaitsFor(r.sched) ==> WaitsFor(r.sched)[u] != u
  {
    StuckKeys(r);
    StuckInjective(r);
    StuckClosed(r);
    Onto(WaitsFor(r.sched));
    forall u | u in WaitsFor(r.sched) ensures WaitsFor(r.sched)[u] != u {
      StuckJoins(r, u);
    }
  }

  // Every stuck uthread lies on a join cycle; it is never merely behind one.
  lemma {:induction false} StuckOnCycle(r: Rt, u: nat) returns (n: nat)
    requires Stuck(r) && u in Unfinished(r.sched)
    ensures var f := WaitsFor(r.sched);
            MapsIntoKeys(f) && u in f && 0 < n <= |Unfinished(r.sched)| && Follow(f, u, n) == u
  {
    StuckKeys(r);
    StuckInjective(r);
    StuckClosed(r);
    n := OnCycle(WaitsFor(r.sched), u);
  }

  // Join cycles are disjoint: whoever u waits for, directly or not, waits for u.
  lemma {:induction false} StuckCyclesDisjoint(r: Rt, u: nat, n: nat) returns (m: nat)
    requires Stuck(r) && u in Unfinished(r.sched)
    ensures var f := WaitsFor(r.sched);
            MapsIntoKeys(f) && u in f && Follow(f, Follow(f, u, n), m) == u
  {
    StuckKeys(r);
    StuckInjective(r);
    StuckClosed(r);
    m := ReachesBack(WaitsFor(r.sched), u, n);
  }

  // A stuck runtime can only reap signals; its uthreads never change again.
  lemma {:induction false} DeadlockIsPermanent(r: Rt, a: Action)
    requires Stuck(r) && Enabled(r, a)
    ensures a.DoReap? && Next(r, a).sched == r.sched && Stuck(Next(r, a))
  {
    SignalReapKeeps(r, a.op, a.result);
  }

  // Any state of a run of either mode where nothing is queued and no in-flight operation
  // carries a uthread's id is stuck, hence such a permutation.
  lemma {:induction false} EmptyQueueIsStuck(rs: seq<Rt>, acts: seq<Action>, n: nat)
    requires IsRun(rs, acts) && (rs[0] == InitRecord() || rs[0] == InitReplay())
    requires |rs[|acts|].sched.threads| <= MAX_THREADS
    requires n < |rs| && rs[n].sched.phase == Scheduler && rs[n].sched.runq == []
    requires forall i, op :: 0 <= i < |rs[n].sched.threads| && op in rs[n].inflight ==>
               rs[n].inflight[op] != rs[n].sched.threads[i].id
    ensures Stuck(rs[n])
  {
    InitialStates();
    RunInvariant(rs, acts, n);
    forall op | op in rs[n].inflight ensures rs[n].inflight[op] == SIGNAL_SENTINEL {
      assert OperationOk(rs[n], op);
    }
  }
}
