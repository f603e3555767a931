// What the runtime guarantees over every run: why a uthread is blocked, that a
// completion and a join deliver the right value, how long a queued uthread waits,
// and what ids the table can hold.
module Guarantees {
  import opened Words
  import opened Calls
  import opened Runtime
  import opened RuntimeInvariants

  // Why a uthread is blocked -------------------------------------------------

  predicate WaitsForOp(r: Rt, i: nat, op: nat)
    requires i < |r.sched.threads|
  {
    op in r.inflight && r.inflight[op] == r.sched.threads[i].id
  }

  predicate WaitsForExit(r: Rt, i: nat, t: nat) {
    && t < |r.sched.threads|
    && r.sched.threads[t].state != Done
    && r.sched.threads[t].joinWaiter == Some(i)
  }

  ghost predicate OneOp(r: Rt, i: nat)
    requires i < |r.sched.threads|
  {
    exists op :: WaitsForOp(r, i, op) && forall o :: WaitsForOp(r, i, o) ==> o == op
  }

  ghost predicate NoOp(r: Rt, i: nat)
    requires i < |r.sched.threads|
  {
    forall o :: !WaitsForOp(r, i, o)
  }

  ghost predicate OneExit(r: Rt, i: nat) {
    exists t :: WaitsForExit(r, i, t) && forall u :: WaitsForExit(r, i, u) ==> u == t
  }

  ghost predicate NoExit(r: Rt, i: nat) {
    forall u :: !WaitsForExit(r, i, u)
  }

  lemma {:induction false} OpWaiter(r: Rt, i: nat, op: nat)
    requires Inv(r) && i < |r.sched.threads| && WaitsForOp(r, i, op)
    ensures r.sched.threads[i].state == Blocked && r.sched.threads[i].ctx.InIo? && r.sched.threads[i].ctx.op == op
  {
  }

  lemma {:induction false} ExitWaiter(r: Rt, i: nat, t: nat)
    requires Inv(r) && WaitsForExit(r, i, t)
    ensures i < |r.sched.threads| && r.sched.threads[i].state == Blocked && r.sched.threads[i].ctx == InJoin(t)
  {
    assert WaiterOk(r.sched, t);
  }

  lemma {:induction false} BlockedForOneReason(r: Rt, i: nat)
    requires Inv(r) && i < |r.sched.threads|
    ensures r.sched.threads[i].state == Blocked ==>
              (OneOp(r, i) && NoExit(r, i)) || (NoOp(r, i) && OneExit(r, i))
    ensures r.sched.threads[i].state != Blocked ==> NoOp(r, i) && NoExit(r, i)
  {
    var t := r.sched.threads[i];
    forall o | WaitsForOp(r, i, o) ensures t.state == Blocked && t.ctx.InIo? && t.ctx.op == o {
      OpWaiter(r, i, o);
    }
    forall u | WaitsForExit(r, i, u) ensures t.state == Blocked && t.ctx == InJoin(u) {
      ExitWaiter(r, i, u);
    }
    assert ContextOk(t) && CallerOk(r, i) && JoinerOk(r.sched, i);
    if t.state == Blocked {
      if t.ctx.InIo? {
        assert WaitsForOp(r, i, t.ctx.op);
      } else {
        assert WaitsForExit(r, i, t.ctx.target);
      }
    }
  }

  // In every state of every run a BLOCKED uthread is either the tag of exactly one
  // in-flight operation or the join_waiter of exactly one unfinished uthread, never
  // both; no other uthread is either.
  lemma {:induction false} BlockedForOneReasonInEveryRun(rs: seq<Rt>, acts: seq<Action>, n: nat, i: nat)
    requires IsRun(rs, acts) && (rs[0] == InitRecord() || rs[0] == InitReplay())
    requires |rs[|acts|].sched.threads| <= MAX_THREADS
    requires n < |rs| && i < |rs[n].sched.threads|
    ensures rs[n].sched.threads[i].state == Blocked ==>
              (OneOp(rs[n], i) && NoExit(rs[n], i)) || (NoOp(rs[n], i) && OneExit(rs[n], i))
    ensures rs[n].sched.threads[i].state != Blocked ==> NoOp(rs[n], i) && NoExit(rs[n], i)
  {
    InitialStates();
    RunInvariant(rs, acts, n);
    BlockedForOneReason(rs[n], i);
  }

  // Who runs, and DONE -------------------------------------------------------

  // Only a RUNNABLE uthread is dispatched (the loop's skip branch is dead), the
  // dispatched uthread is the only RUNNING one, and a DONE uthread stays DONE with
  // its value, its saved context never resumed.
  lemma {:induction false} DispatchChoosesRunnable(r: Rt)
    requires Inv(r) && Enabled(r, DoDispatch)
    ensures var u := r.sched.runq[0]; var s' := Next(r, DoDispatch).sched;
            && u < |r.sched.threads| && r.sched.threads[u].state == Runnable
            && s'.current == u && s'.phase == User
            && forall i :: 0 <= i < |s'.threads| ==> (s'.threads[i].state == Running <==> i == u)
  {
    assert r.sched.runq[0] in r.sched.runq;
    DispatchKeeps(r.sched);
  }

  lemma {:induction false} DoneStays(r: Rt, a: Action, t: nat)
    requires Inv(r) && Enabled(r, a) && t < |r.sched.threads| && r.sched.threads[t].state == Done
    ensures var r' := Next(r, a);
            && r'.sched.threads[t].state == Done
            && r'.sched.threads[t].retval == r.sched.threads[t].retval
            && !(r'.sched.phase == User && r'.sched.current == t)
  {
    match a
    case DoDispatch => assert r.sched.runq[0] in r.sched.runq;
    case DoReap(op, k) =>
      if r.inflight[op] == SIGNAL_SENTINEL { SignalReapKeeps(r, op, k); } else { ReapWakesCaller(r, op, k); }
    case _ =>
  }

  lemma {:induction false} DoneForever(rs: seq<Rt>, acts: seq<Action>, t: nat, i: nat, j: nat)
    requires IsRun(rs, acts) && Inv(rs[0]) && |rs[|acts|].sched.threads| <= MAX_THREADS
    requires i <= j < |rs| && t < |rs[i].sched.threads| && rs[i].sched.threads[t].state == Done
    ensures t < |rs[j].sched.threads|
    ensures rs[j].sched.threads[t].state == Done
    ensures rs[j].sched.threads[t].retval == rs[i].sched.threads[t].retval
    ensures !(rs[j].sched.phase == User && rs[j].sched.current == t)
  {
    if i < j {
      DoneForever(rs, acts, t, i, j - 1);
      RunInvariant(rs, acts, j - 1);
      assert StepAt(rs, acts, j - 1);
      NextGrows(rs[j - 1], acts[j - 1]);
      DoneStays(rs[j - 1], acts[j - 1], t);
    } else {
      RunInvariant(rs, acts, i);
    }
  }

  lemma {:induction false} BecomesDone(r: Rt, a: Action, t: nat)
    requires Inv(r) && Enabled(r, a) && t < |Next(r, a).sched.threads|
    requires Next(r, a).sched.threads[t].state == Done
    ensures t < |r.sched.threads|
    ensures r.sched.threads[t].state != Done ==>
              a.DoExit? && t == r.sched.current && Next(r, a).sched.threads[t].retval == a.retval
  {
    match a
    case DoDispatch => assert r.sched.runq[0] in r.sched.runq;
    case DoReap(op, k) =>
      if r.inflight[op] == SIGNAL_SENTINEL { SignalReapKeeps(r, op, k); } else { ReapWakesCaller(r, op, k); }
    case _ =>
  }

  // An exit wakes the uthread blocked in a join on it: it is queued last.
  lemma {:induction false} ExitWakesJoiner(r: Rt, v: int, u: nat)
    requires Inv(r) && Enabled(r, DoExit(v))
    requires u < |r.sched.threads| && r.sched.threads[u].state == Blocked
    requires r.sched.threads[u].ctx == InJoin(r.sched.current)
    ensures var s' := Next(r, DoExit(v)).sched;
            s'.threads[u].state == Runnable && s'.runq == r.sched.runq + [u]
  {
    assert JoinerOk(r.sched, u);
  }

  // rr_io_wait runs on an empty queue, so the uthread it wakes is alone in it.
  lemma {:induction false} ReapWakesAlone(r: Rt, op: nat, k: KernelResult, u: nat)
    requires Inv(r) && Enabled(r, DoReap(op, k)) && u < |r.sched.threads|
    requires var t := Reap(r, op, k).sched.threads[u]; t.state == Runnable && t.ctx.InIo?
    ensures r.sched.threads[u].ctx.op == op && Reap(r, op, k).sched.runq == [u]
    ensures Reap(r, op, k).sched.threads[u].ctx == r.sched.threads[u].ctx
    ensures Reap(r, op, k).completed[op] == k && Reap(r, op, k).io[u] == k.raw
  {
  }

  lemma {:induction false} StillWaiting(r: Rt, a: Action, u: nat)
    requires Inv(r) && Enabled(r, a) && !a.DoReap?
    requires u < |Next(r, a).sched.threads|
    requires Next(r, a).sched.threads[u].state == Runnable && Next(r, a).sched.threads[u].ctx.InIo?
    ensures u < |r.sched.threads|
    ensures r.sched.threads[u].state == Runnable && r.sched.threads[u].ctx == Next(r, a).sched.threads[u].ctx
    ensures r.sched.phase == Scheduler && r.sched.runq != [] ==> r.sched.runq[0] != u
  {
    if a.DoExit? { assert WaiterOk(r.sched, r.sched.current); }
    if a.DoDispatch? { assert r.sched.runq[0] in r.sched.runq; }
  }

  lemma {:induction false} KeepsWaitContext(r: Rt, a: Action, u: nat)
    requires Inv(r) && Enabled(r, a) && !(a.DoSubmit? && r.sched.current == u)
    requires u < |Next(r, a).sched.threads| && Next(r, a).sched.threads[u].ctx.InIo?
    ensures u < |r.sched.threads| && r.sched.threads[u].ctx == Next(r, a).sched.threads[u].ctx
  {
    match a
    case DoReap(op, k) =>
      if r.inflight[op] == SIGNAL_SENTINEL { SignalReapKeeps(r, op, k); } else { ReapWakesCaller(r, op, k); }
    case _ =>
  }

  lemma {:induction false} KeepsJoinContext(r: Rt, a: Action, u: nat)
    requires Inv(r) && Enabled(r, a) && u < |Next(r, a).sched.threads| && Next(r, a).sched.threads[u].ctx.InJoin?
    ensures var ctx := Next(r, a).sched.threads[u].ctx;
            if a.DoJoin? && r.sched.current == u then a.id == ctx.target + 1
            else u < |r.sched.threads| && r.sched.threads[u].ctx == ctx
  {
    match a
    case DoJoin(id) => FindById(r.sched, id);
    case DoReap(op, k) =>
      if r.inflight[op] == SIGNAL_SENTINEL { SignalReapKeeps(r, op, k); } else { ReapWakesCaller(r, op, k); }
    case _ =>
  }

  // Waiting ------------------------------------------------------------------

  function Dispatches(acts: seq<Action>): nat {
    if acts == [] then 0
    else Dispatches(acts[..|acts| - 1]) + if acts[|acts| - 1] == DoDispatch then 1 else 0
  }

  lemma {:induction false} QueueStep(r: Rt, a: Action)
    requires Inv(r) && Enabled(r, a)
    ensures a == DoDispatch ==> Next(r, a).sched.runq == r.sched.runq[1..]
    ensures a != DoDispatch ==> r.sched.runq <= Next(r, a).sched.runq
  {
  }

  lemma {:induction false} MovesUp(rs: seq<Rt>, acts: seq<Action>, k: nat, i: nat)
    requires IsRun(rs, acts) && Inv(rs[0]) && |rs[|acts|].sched.threads| <= MAX_THREADS
    requires k < |rs[0].sched.runq| && i < |rs| && Dispatches(acts[..i]) <= k
    ensures k - Dispatches(acts[..i]) < |rs[i].sched.runq|
    ensures rs[i].sched.runq[k - Dispatches(acts[..i])] == rs[0].sched.runq[k]
  {
    if i > 0 {
      assert acts[..i][..i - 1] == acts[..i - 1];
      MovesUp(rs, acts, k, i - 1);
      RunInvariant(rs, acts, i - 1);
      assert StepAt(rs, acts, i - 1);
      QueueStep(rs[i - 1], acts[i - 1]);
    }
  }

  // A uthread with k others ahead of it is chosen by the (k+1)-th dispatch from
  // now and by none before, whatever happens in between.
  lemma {:induction false} BoundedWaiting(rs: seq<Rt>, acts: seq<Action>, k: nat, i: nat)
    requires IsRun(rs, acts) && Inv(rs[0]) && |rs[|acts|].sched.threads| <= MAX_THREADS
    requires k < |rs[0].sched.runq| && i < |acts| && acts[i] == DoDispatch
    requires Dispatches(acts[..i]) <= k
    ensures rs[i + 1].sched.phase == User
    ensures rs[i + 1].sched.current == rs[0].sched.runq[k] <==> Dispatches(acts[..i]) == k
  {
    MovesUp(rs, acts, k, i);
    RunInvariant(rs, acts, i);
    assert StepAt(rs, acts, i);
    DispatchChoosesRunnable(rs[i]);
  }

  // Ids ----------------------------------------------------------------------

  predicate IdsWrap(s: Sched) {
    && s.nextId == Wrap(|s.threads| + 1)
    && forall i :: 0 <= i < |s.threads| ==> s.threads[i].id == Wrap(i + 1)
  }

  lemma {:induction false} NextKeepsIds(r: Rt, a: Action)
    requires Enabled(r, a) && a != DoCreate
    ensures var s, s' := r.sched, Next(r, a).sched;
            && |s'.threads| == |s.threads| && s'.nextId == s.nextId
            && forall i :: 0 <= i < |s.threads| ==> s'.threads[i].id == s.threads[i].id
  {
  }

  lemma {:induction false} NextKeepsIdsWrap(r: Rt, a: Action)
    requires Enabled(r, a) && IdsWrap(r.sched)
    ensures IdsWrap(Next(r, a).sched)
  {
    if a == DoCreate {
      WrapSuccessor(|r.sched.threads| + 1);
    } else {
      NextKeepsIds(r, a);
    }
  }

  lemma {:induction false} RunIdsWrap(rs: seq<Rt>, acts: seq<Action>, i: nat)
    requires IsRun(rs, acts) && IdsWrap(rs[0].sched) && i < |rs|
    ensures IdsWrap(rs[i].sched)
  {
    if i > 0 {
      RunIdsWrap(rs, acts, i - 1);
      assert StepAt(rs, acts, i - 1);
      NextKeepsIdsWrap(rs[i - 1], acts[i - 1]);
    }
  }

  predicate GoodIds(s: Sched) {
    && (forall i :: 0 <= i < |s.threads| ==> s.threads[i].id != 0 && s.threads[i].id != SIGNAL_SENTINEL)
    && (forall i, j :: 0 <= i < j < |s.threads| ==> s.threads[i].id != s.threads[j].id)
  }

  // Ids are distinct, non-zero and never the sentinel exactly as long as the table
  // holds at most 2^64 - 2 uthreads, that is after fewer than 2^64 - 2 creates.
  lemma {:induction false} IdsGoodIff(rs: seq<Rt>, acts: seq<Action>, n: nat)
    requires IsRun(rs, acts) && (rs[0] == InitRecord() || rs[0] == InitReplay()) && n < |rs|
    ensures GoodIds(rs[n].sched) <==> |rs[n].sched.threads| <= MAX_THREADS
  {
    RunIdsWrap(rs, acts, n);
    var s := rs[n].sched;
    if |s.threads| > MAX_THREADS {
      assert s.threads[MAX_THREADS].id == SIGNAL_SENTINEL;
    }
  }
}
