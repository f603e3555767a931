// What each action does, seen from outside: who runs, who waits, who is queued, what is
// in flight, and what stays as it was. Then what that means over whole runs: a yield
// lets everybody queued go first, and an exit is final.
module Effects {
  import opened Words
  import opened Calls
  import opened Runtime
  import opened RuntimeInvariants
  import opened Guarantees

  // create -------------------------------------------------------------------

  // The new uthread is last in the table and last in the queue; its creator goes on.
  lemma {:induction false} CreateAddsOne(r: Rt)
    requires Inv(r) && Enabled(r, DoCreate)
    ensures var s, s' := r.sched, Next(r, DoCreate).sched;
            && |s'.threads| == |s.threads| + 1 && s'.phase == User && s'.current == s.current
            && s'.runq == s.runq + [|s.threads|]
            && var t := s'.threads[|s.threads|];
               t.id == s.nextId && t.state == Runnable && t.ctx == Fresh && t.joinWaiter == None
  {
  }

  // yield --------------------------------------------------------------------

  // The caller goes to the end of the queue and the scheduler runs; the next dispatch
  // takes another uthread if one is queued, and the caller again if none is.
  lemma {:induction false} YieldGivesWay(r: Rt)
    requires Inv(r) && Enabled(r, DoYield)
    ensures var s, s' := r.sched, Next(r, DoYield).sched;
            && s'.phase == Scheduler && s'.runq == s.runq + [s.current]
            && s'.threads[s.current].state == Runnable && s'.threads[s.current].ctx == InYield
    ensures Enabled(Next(r, DoYield), DoDispatch)
    ensures var s := r.sched; var next := Next(Next(r, DoYield), DoDispatch).sched.current;
            if s.runq == [] then next == s.current else next == s.runq[0] != s.current
  {
    YieldNextKeeps(r);
    DispatchChoosesRunnable(Next(r, DoYield));
  }

  // A uthread that yields with k others queued runs again with the (k+1)-th dispatch
  // from then on, and not before: each of the k goes first.
  lemma {:induction false} YieldLetsOthersFirst(rs: seq<Rt>, acts: seq<Action>, i: nat)
    requires IsRun(rs, acts) && Inv(rs[0]) && |rs[|acts|].sched.threads| <= MAX_THREADS
    requires 0 < i < |acts| && acts[0] == DoYield && acts[i] == DoDispatch
    requires Dispatches(acts[1..i]) <= |rs[0].sched.runq|
    ensures rs[i + 1].sched.phase == User
    ensures rs[i + 1].sched.current == rs[0].sched.current <==> Dispatches(acts[1..i]) == |rs[0].sched.runq|
  {
    assert StepAt(rs, acts, 0);
    YieldGivesWay(rs[0]);
    RunInvariant(rs, acts, 1);
    TailIsRun(rs, acts);
    assert acts[1..][..i - 1] == acts[1..i];
    BoundedWaiting(rs[1..], acts[1..], |rs[0].sched.runq|, i - 1);
  }

  lemma {:induction false} TailIsRun(rs: seq<Rt>, acts: seq<Action>)
    requires IsRun(rs, acts) && acts != []
    ensures IsRun(rs[1..], acts[1..])
  {
    forall i | 0 <= i < |acts[1..]| ensures StepAt(rs[1..], acts[1..], i) {
      assert StepAt(rs, acts, i + 1);
    }
  }

  // join ---------------------------------------------------------------------

  predicate Carries(s: Sched, t: nat, id: nat) {
    t < |s.threads| && s.threads[t].id == id
  }

  // The five ways a join can go, each exactly when it does. (Under the invariant at
  // most one slot carries an id.)
  lemma {:induction false} JoinOutcomes(r: Rt, id: nat, t: nat)
    requires Inv(r) && Enabled(r, DoJoin(id)) && Carries(r.sched, t, id)
    ensures var s := r.sched; var d, target := DecideJoin(s, id), s.threads[t];
            && (d == JoinFails(EDEADLK) <==> t == s.current)
            && (d.JoinNow? <==> target.state == Done)
            && (d.JoinNow? ==> d.retval == target.retval)
            && (d == JoinFails(EBUSY) <==> t != s.current && target.state != Done && target.joinWaiter.Some?)
            && (d.JoinWaits? <==> t != s.current && target.state != Done && target.joinWaiter.None?)
            && (d.JoinWaits? ==> d.target == t)
            && d != JoinFails(ESRCH)
  {
    FindById(r.sched, id);
    assert WaiterOk(r.sched, t);
  }

  lemma {:induction false} JoinFindsNobody(r: Rt, id: nat)
    requires Inv(r) && Enabled(r, DoJoin(id))
    ensures DecideJoin(r.sched, id) == JoinFails(ESRCH) <==> forall t: nat :: !Carries(r.sched, t, id)
  {
    FindById(r.sched, id);
    if 1 <= id <= |r.sched.threads| {
      assert Carries(r.sched, id - 1, id);
      JoinOutcomes(r, id, id - 1);
    }
  }

  // A join on another uthread that is unfinished and not waited for suspends the caller
  // until that uthread exits; any other join changes nothing.
  lemma {:induction false} JoinSuspends(r: Rt, id: nat, t: nat)
    requires Inv(r) && Enabled(r, DoJoin(id)) && Carries(r.sched, t, id)
    ensures var s, s' := r.sched, Next(r, DoJoin(id)).sched;
            if t != s.current && s.threads[t].state != Done && s.threads[t].joinWaiter.None? then
              && s'.phase == Scheduler && s'.runq == s.runq
              && s'.threads[s.current].state == Blocked && s'.threads[s.current].ctx == InJoin(t)
              && s'.threads[t].joinWaiter == Some(s.current) && s'.threads[t].state == s.threads[t].state
            else Next(r, DoJoin(id)) == r
  {
    JoinOutcomes(r, id, t);
  }

  // exit ---------------------------------------------------------------------

  // The caller is DONE with its value and the scheduler runs, whether or not anybody
  // waits; a waiter, and nobody else, is queued.
  lemma {:induction false} ExitEnds(r: Rt, v: int)
    requires Inv(r) && Enabled(r, DoExit(v))
    ensures var s, s' := r.sched, Next(r, DoExit(v)).sched; var me := s.threads[s.current];
            && s'.phase == Scheduler
            && s'.threads[s.current].state == Done && s'.threads[s.current].retval == v
            && s'.runq == (if me.joinWaiter.Some? then s.runq + [me.joinWaiter.value] else s.runq)
            && (me.joinWaiter.Some? ==>
                  me.joinWaiter.value < |s.threads| && s'.threads[me.joinWaiter.value].state == Runnable)
  {
    assert WaiterOk(r.sched, r.sched.current);
  }

  // From its exit on a uthread is DONE with the value it exited with and never runs
  // again: the point after the exit is not reached.
  lemma {:induction false} ExitIsFinal(rs: seq<Rt>, acts: seq<Action>, i: nat, j: nat)
    requires IsRun(rs, acts) && Inv(rs[0]) && |rs[|acts|].sched.threads| <= MAX_THREADS
    requires i < j < |rs| && acts[i].DoExit?
    ensures var u := rs[i].sched.current; var s := rs[j].sched;
            && u < |s.threads| && s.threads[u].state == Done && s.threads[u].retval == acts[i].retval
            && !(s.phase == User && s.current == u)
  {
    RunInvariant(rs, acts, i);
    assert StepAt(rs, acts, i);
    ExitEnds(rs[i], acts[i].retval);
    DoneForever(rs, acts, rs[i].sched.current, i + 1, j);
  }

  // calls --------------------------------------------------------------------

  lemma {:induction false} NextOpIsNew(r: Rt)
    requires RingOk(r)
    ensures r.nextOp !in r.inflight
  {
    assert forall op :: op in r.inflight ==> OperationOk(r, op);
  }

  // A suspending call puts one operation in flight, tagged with its caller, and blocks
  // the caller on it.
  lemma {:induction false} SubmitBlocks(r: Rt, c: Call)
    requires Inv(r) && Enabled(r, DoSubmit(c))
    ensures var s, r' := r.sched, Next(r, DoSubmit(c));
            && r'.sched.phase == Scheduler && r'.sched.runq == s.runq
            && r'.sched.threads[s.current].state == Blocked && r'.sched.threads[s.current].ctx == InIo(r.nextOp, c)
            && r.nextOp !in r.inflight && r.nextOp in r'.inflight
            && r'.inflight[r.nextOp] == s.threads[s.current].id
            && r'.inflight - {r.nextOp} == r.inflight && r'.completed == r.completed && r'.nextOp == r.nextOp + 1
  {
    NextOpIsNew(r);
  }

  // A completed operation is no longer in flight and is remembered; the signal read is
  // replaced by a new one and wakes nobody.
  lemma {:induction false} CompletionLeaves(r: Rt, op: nat, k: KernelResult)
    requires Inv(r) && Enabled(r, DoReap(op, k))
    ensures var r' := Next(r, DoReap(op, k));
            && op !in r'.inflight && r'.completed == r.completed[op := k]
            && if r.inflight[op] == SIGNAL_SENTINEL then
                 && r.nextOp in r'.inflight && r'.inflight[r.nextOp] == SIGNAL_SENTINEL
                 && r'.inflight - {r.nextOp} == r.inflight - {op} && r'.nextOp == r.nextOp + 1
                 && r'.sched == r.sched && r'.io == r.io
               else r'.inflight == r.inflight - {op} && r'.nextOp == r.nextOp
  {
    assert OperationOk(r, op);
    NextOpIsNew(r);
  }

  // The caller of a completed operation, and nobody else, becomes runnable with the
  // result in its io_result.
  lemma {:induction false} CompletionWakes(r: Rt, op: nat, k: KernelResult, i: nat)
    requires Inv(r) && Enabled(r, DoReap(op, k)) && r.inflight[op] != SIGNAL_SENTINEL && i < |r.sched.threads|
    ensures var s, s' := r.sched, Next(r, DoReap(op, k)).sched;
            if s.threads[i].id == r.inflight[op] then
              && s.threads[i].state == Blocked && s.threads[i].ctx.InIo? && s.threads[i].ctx.op == op
              && s'.threads[i].state == Runnable && s'.threads[i].ctx == s.threads[i].ctx
              && s'.runq == [i] && Next(r, DoReap(op, k)).io[i] == k.raw
            else s'.threads[i] == s.threads[i] && Next(r, DoReap(op, k)).io[i] == r.io[i]
  {
    ReapWakesCaller(r, op, k);
    assert r.sched.threads[i].id == i + 1;
  }

  // What stays ---------------------------------------------------------------

  // The uthreads an action may change.
  predicate Concerns(r: Rt, a: Action, i: nat)
    requires Enabled(r, a) && i < |r.sched.threads|
  {
    var s := r.sched;
    match a
    case DoCreate => false
    case DoYield => i == s.current
    case DoJoin(id) => i == s.current || s.threads[i].id == id
    case DoExit(_) => i == s.current || s.threads[s.current].joinWaiter == Some(i)
    case DoSubmit(_) => i == s.current
    case DoDispatch => i == s.runq[0]
    case DoReap(op, _) => s.threads[i].id == r.inflight[op]
  }

  // Every other uthread stays as it was.
  lemma {:induction false} OthersUntouched(r: Rt, a: Action, i: nat)
    requires Inv(r) && Enabled(r, a) && i < |r.sched.threads| && !Concerns(r, a, i)
    ensures Next(r, a).sched.threads[i] == r.sched.threads[i] && Next(r, a).io[i] == r.io[i]
  {
    match a
    case DoJoin(id) => FindById(r.sched, id);
    case DoReap(op, k) => ReapTouchesCaller(r, op, k, i);
    case _ =>
  }

  lemma {:induction false} ReapTouchesCaller(r: Rt, op: nat, k: KernelResult, i: nat)
    requires Inv(r) && Enabled(r, DoReap(op, k)) && i < |r.sched.threads| && r.sched.threads[i].id != r.inflight[op]
    ensures Reap(r, op, k).sched.threads[i] == r.sched.threads[i] && Reap(r, op, k).io[i] == r.io[i]
  {
    if r.inflight[op] == SIGNAL_SENTINEL { SignalReapKeeps(r, op, k); } else { ReapWakesCaller(r, op, k); }
  }

  // Ids never change; a value changes only in its owner's exit, a join_waiter only in a
  // join, and who is current only in a dispatch.
  lemma {:induction false} FieldsChangeOnlyIn(r: Rt, a: Action, i: nat)
    requires Inv(r) && Enabled(r, a) && i < |r.sched.threads|
    ensures var t, t' := r.sched.threads[i], Next(r, a).sched.threads[i];
            && t'.id == t.id
            && (t'.retval == t.retval || (a.DoExit? && i == r.sched.current))
            && (t'.joinWaiter == t.joinWaiter || a.DoJoin?)
    ensures a != DoDispatch ==> Next(r, a).sched.current == r.sched.current
  {
    match a
    case DoReap(op, k) => ReapKeepsFields(r, op, k, i);
    case _ =>
  }

  lemma {:induction false} ReapKeepsFields(r: Rt, op: nat, k: KernelResult, i: nat)
    requires Inv(r) && Enabled(r, DoReap(op, k)) && i < |r.sched.threads|
    ensures var t, t' := r.sched.threads[i], Reap(r, op, k).sched.threads[i];
            t'.id == t.id && t'.retval == t.retval && t'.joinWaiter == t.joinWaiter
    ensures Reap(r, op, k).sched.current == r.sched.current
  {
    if r.inflight[op] == SIGNAL_SENTINEL { SignalReapKeeps(r, op, k); } else { ReapWakesCaller(r, op, k); }
  }

  // A dispatch takes exactly the front of the queue, which goes on where it left off.
  lemma {:induction false} DispatchTakesFront(r: Rt)
    requires Inv(r) && Enabled(r, DoDispatch)
    ensures var s, s' := r.sched, Next(r, DoDispatch).sched;
            && s'.current == s.runq[0] && s'.runq == s.runq[1..] && s'.phase == User
            && s'.current < |s'.threads| && s'.threads[s'.current].state == Running
  {
    DispatchChoosesRunnable(r);
  }

  // Guards no run needs ------------------------------------------------------

  // The checks that the invariant makes superfluous still do what they say, in any state
  // whatever: only a BLOCKED uthread is woken, by id or as a waiter, only a RUNNABLE one
  // is switched to, and a uthread that already is the join_waiter may wait again.
  lemma {:induction false} StrayWakesIgnored(s: Sched, id: nat, v: int)
    requires WellFormed(s)
    ensures Wake(s, id) != s ==>
              exists w: nat :: Carries(s, w, id) && s.threads[w].state == Blocked && Wake(s, id).runq == s.runq + [w]
    ensures var w := s.threads[s.current].joinWaiter;
            w.Some? && w.value < |s.threads| && w.value != s.current && s.threads[w.value].state != Blocked ==>
              Exit(s, v).runq == s.runq && Exit(s, v).threads[w.value] == s.threads[w.value]
  {
    var w := Find(s.threads, id);
    if w.Some? {
      assert Carries(s, w.value, id);
    }
  }

  lemma {:induction false} StrayEntriesDropped(s: Sched)
    requires WellFormed(s) && s.runq != [] && s.runq[0] < |s.threads| && s.threads[s.runq[0]].state != Runnable
    ensures Dispatch(s) == s.(runq := s.runq[1..])
  {
  }

  lemma {:induction false} WaiterMayWaitAgain(s: Sched, id: nat, t: nat)
    requires WellFormed(s) && Find(s.threads, id) == Some(t) && id != CurrentId(s)
    requires s.threads[t].state != Done && s.threads[t].joinWaiter == Some(s.current)
    ensures DecideJoin(s, id) == JoinWaits(t)
  {
  }
}
