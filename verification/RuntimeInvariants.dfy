// The global invariant of the runtime and its preservation by every action, hence
// over every run of every length.
module RuntimeInvariants {
  import opened Words
  import opened Calls
  import opened Runtime

  predicate IdsOk(s: Sched) {
    && |s.threads| <= MAX_THREADS
    && s.nextId == |s.threads| + 1
    && forall i :: 0 <= i < |s.threads| ==> s.threads[i].id == i + 1
  }

  predicate NoDuplicates(q: seq<nat>) {
    forall i, j :: 0 <= i < j < |q| ==> q[i] != q[j]
  }

  // The queue is duplicate-free and holds exactly the RUNNABLE uthreads.
  predicate QueueOk(s: Sched) {
    && NoDuplicates(s.runq)
    && (forall q :: q in s.runq ==> q < |s.threads| && s.threads[q].state == Runnable)
    && (forall i :: 0 <= i < |s.threads| && s.threads[i].state == Runnable ==> i in s.runq)
  }

  // Exactly the current uthread runs in the User phase, and none in the other.
  predicate PhaseOk(s: Sched) {
    && s.current < |s.threads|
    && forall i :: 0 <= i < |s.threads| ==>
         (s.threads[i].state == Running <==> s.phase == User && i == s.current)
  }

  // State and saved context agree.
  predicate ContextOk(t: Uthread) {
    match t.ctx
    case Active => t.state == Running
    case Finished => t.state == Done
    case Fresh => t.state == Runnable
    case InYield => t.state == Runnable
    case InJoin(_) => t.state == Runnable || t.state == Blocked
    case InIo(_, _) => t.state == Runnable || t.state == Blocked
  }

  // A uthread blocked in join is the join_waiter of its unfinished target; once it
  // is runnable again the target is DONE.
  predicate JoinerOk(s: Sched, i: nat)
    requires i < |s.threads|
  {
    s.threads[i].ctx.InJoin? ==>
      var t := s.threads[i].ctx.target;
      && t < |s.threads|
      && t != i
      && if s.threads[i].state == Blocked
         then s.threads[t].state != Done && s.threads[t].joinWaiter == Some(i)
         else s.threads[t].state == Done
  }

  // The join_waiter of an unfinished uthread is blocked in a join on it.
  predicate WaiterOk(s: Sched, i: nat)
    requires i < |s.threads|
  {
    s.threads[i].joinWaiter.Some? ==>
      var w := s.threads[i].joinWaiter.value;
      && w < |s.threads|
      && (s.threads[i].state != Done ==> s.threads[w].state == Blocked && s.threads[w].ctx == InJoin(i))
  }

  predicate SchedOk(s: Sched) {
    && IdsOk(s)
    && QueueOk(s)
    && PhaseOk(s)
    && (forall i :: 0 <= i < |s.threads| ==> ContextOk(s.threads[i]))
    && (forall i :: 0 <= i < |s.threads| ==> JoinerOk(s, i))
    && (forall i :: 0 <= i < |s.threads| ==> WaiterOk(s, i))
  }

  // A uthread blocked in a call owns the in-flight operation it waits for; once it
  // is runnable again its io_result is the kernel's answer to that operation.
  predicate CallerOk(r: Rt, i: nat)
    requires i < |r.sched.threads| == |r.io|
  {
    var t := r.sched.threads[i];
    t.ctx.InIo? ==>
      && t.ctx.op < r.nextOp
      && if t.state == Blocked
         then t.ctx.op in r.inflight && r.inflight[t.ctx.op] == t.id
         else t.ctx.op !in r.inflight && t.ctx.op in r.completed && r.io[i] == r.completed[t.ctx.op].raw
  }

  // An in-flight operation is the signal read or belongs to the one uthread its
  // tag names, which is blocked on that very operation.
  predicate OperationOk(r: Rt, op: nat)
    requires op in r.inflight
  {
    && op < r.nextOp
    && op !in r.completed
    && (r.inflight[op] != SIGNAL_SENTINEL ==>
          && 1 <= r.inflight[op] <= |r.sched.threads|
          && r.sched.threads[r.inflight[op] - 1].state == Blocked
          && r.sched.threads[r.inflight[op] - 1].ctx.InIo?
          && r.sched.threads[r.inflight[op] - 1].ctx.op == op)
  }

  predicate RingOk(r: Rt) {
    && |r.io| == |r.sched.threads|
    && (forall op :: op in r.completed ==> op < r.nextOp)
    && (forall op :: op in r.inflight ==> OperationOk(r, op))
    && (forall i :: 0 <= i < |r.sched.threads| ==> CallerOk(r, i))
  }

  ghost predicate Inv(r: Rt) {
    SchedOk(r.sched) && RingOk(r)
  }

  // Lookup by id returns the one uthread that carries it.
  lemma {:induction false} FindById(s: Sched, id: nat)
    requires IdsOk(s)
    ensures Find(s.threads, id) == if 1 <= id <= |s.threads| then Some(id - 1) else None
  {
    var r := Find(s.threads, id);
    if 1 <= id <= |s.threads| {
      assert s.threads[id - 1].id == id;
    }
  }

  lemma {:induction false} AppendKeepsQueue(q: seq<nat>, x: nat)
    requires NoDuplicates(q) && x !in q
    ensures NoDuplicates(q + [x])
    ensures forall y :: y in q + [x] <==> y in q || y == x
  {
  }

  lemma {:induction false} CreateKeeps(s: Sched)
    requires SchedOk(s) && s.phase == User && |s.threads| < MAX_THREADS
    ensures SchedOk(Create(s))
  {
    var s' := Create(s);
    AppendKeepsQueue(s.runq, |s.threads|);
    forall i | 0 <= i < |s'.threads| ensures JoinerOk(s', i) && WaiterOk(s', i) {
      if i < |s.threads| { assert JoinerOk(s, i) && WaiterOk(s, i); }
    }
  }

  lemma {:induction false} YieldKeeps(s: Sched)
    requires SchedOk(s) && s.phase == User && WellFormed(s)
    ensures SchedOk(Yield(s))
  {
    var s' := Yield(s);
    AppendKeepsQueue(s.runq, s.current);
    forall i | 0 <= i < |s'.threads| ensures JoinerOk(s', i) && WaiterOk(s', i) {
      assert JoinerOk(s, i) && WaiterOk(s, i);
    }
  }

  lemma {:induction false} BlockForIoKeeps(s: Sched, op: nat, c: Call)
    requires SchedOk(s) && s.phase == User && WellFormed(s)
    ensures SchedOk(Block(s, InIo(op, c)))
  {
    var s' := Block(s, InIo(op, c));
    forall i | 0 <= i < |s'.threads| ensures JoinerOk(s', i) && WaiterOk(s', i) {
      assert JoinerOk(s, i) && WaiterOk(s, i);
    }
  }

  // The branch of join that blocks.
  function Await(s: Sched, target: nat): Sched
    requires WellFormed(s) && target < |s.threads|
  {
    Block(SetThread(s, target, s.threads[target].(joinWaiter := Some(s.current))), InJoin(target))
  }

  lemma {:induction false} AwaitKeepsJoiner(s: Sched, t: nat, i: nat)
    requires SchedOk(s) && s.phase == User && WellFormed(s)
    requires t < |s.threads| && t != s.current && s.threads[t].state != Done
    requires s.threads[t].joinWaiter == None
    requires i < |s.threads|
    ensures JoinerOk(Await(s, t), i) && ContextOk(Await(s, t).threads[i])
  {
    assert JoinerOk(s, i) && ContextOk(s.threads[i]);
    assert ContextOk(s.threads[t]);
  }

  lemma {:induction false} AwaitKeepsWaiter(s: Sched, t: nat, i: nat)
    requires SchedOk(s) && s.phase == User && WellFormed(s)
    requires t < |s.threads| && t != s.current && s.threads[t].state != Done
    requires s.threads[t].joinWaiter == None
    requires i < |s.threads|
    ensures WaiterOk(Await(s, t), i)
  {
    assert WaiterOk(s, i);
  }

  lemma {:induction false} AwaitKeeps(s: Sched, t: nat)
    requires SchedOk(s) && s.phase == User && WellFormed(s)
    requires t < |s.threads| && t != s.current && s.threads[t].state != Done
    requires s.threads[t].joinWaiter == None
    ensures SchedOk(Await(s, t))
  {
    forall i | 0 <= i < |s.threads|
      ensures JoinerOk(Await(s, t), i) && WaiterOk(Await(s, t), i) && ContextOk(Await(s, t).threads[i]) {
      AwaitKeepsJoiner(s, t, i);
      AwaitKeepsWaiter(s, t, i);
    }
  }

  lemma {:induction false} JoinKeeps(s: Sched, id: nat)
    requires SchedOk(s) && s.phase == User && WellFormed(s)
    ensures SchedOk(Join(s, id))
  {
    var d := DecideJoin(s, id);
    if d.JoinWaits? {
      assert WaiterOk(s, d.target);
      AwaitKeeps(s, d.target);
    }
  }

  lemma {:induction false} ExitKeepsJoiner(s: Sched, v: int, i: nat)
    requires SchedOk(s) && s.phase == User && WellFormed(s) && i < |s.threads|
    ensures JoinerOk(Exit(s, v), i) && ContextOk(Exit(s, v).threads[i])
  {
    assert JoinerOk(s, i) && ContextOk(s.threads[i]);
    assert WaiterOk(s, s.current);
  }

  lemma {:induction false} ExitKeepsWaiter(s: Sched, v: int, i: nat)
    requires SchedOk(s) && s.phase == User && WellFormed(s) && i < |s.threads|
    ensures WaiterOk(Exit(s, v), i)
  {
    assert WaiterOk(s, i);
    assert WaiterOk(s, s.current);
  }

  lemma {:induction false} ExitKeeps(s: Sched, v: int)
    requires SchedOk(s) && s.phase == User && WellFormed(s)
    ensures SchedOk(Exit(s, v))
  {
    var me := s.threads[s.current];
    assert WaiterOk(s, s.current);
    if me.joinWaiter.Some? {
      AppendKeepsQueue(s.runq, me.joinWaiter.value);
    }
    forall i | 0 <= i < |s.threads|
      ensures JoinerOk(Exit(s, v), i) && WaiterOk(Exit(s, v), i) && ContextOk(Exit(s, v).threads[i]) {
      ExitKeepsJoiner(s, v, i);
      ExitKeepsWaiter(s, v, i);
    }
  }

  lemma {:induction false} DispatchKeeps(s: Sched)
    requires SchedOk(s) && s.phase == Scheduler && WellFormed(s) && s.runq != []
    ensures SchedOk(Dispatch(s))
    ensures Dispatch(s).current == s.runq[0] && Dispatch(s).phase == User
  {
    var s' := Dispatch(s);
    assert s.runq[0] in s.runq;
    forall q | q in s.runq[1..] ensures q in s.runq && q != s.runq[0] {
    }
    forall i | 0 <= i < |s'.threads| ensures JoinerOk(s', i) && WaiterOk(s', i) {
      assert JoinerOk(s, i) && WaiterOk(s, i);
    }
  }

  // What rr_scheduler_wake_by_id does when the id names a BLOCKED uthread.
  function Woken(s: Sched, w: nat): Sched
    requires w < |s.threads|
  {
    SetThread(s, w, s.threads[w].(state := Runnable)).(runq := s.runq + [w])
  }

  lemma {:induction false} WakeKeepsLinks(s: Sched, w: nat, i: nat)
    requires SchedOk(s) && w < |s.threads| && i < |s.threads|
    requires s.threads[w].state == Blocked && s.threads[w].ctx.InIo?
    ensures JoinerOk(Woken(s, w), i) && WaiterOk(Woken(s, w), i) && ContextOk(Woken(s, w).threads[i])
  {
    assert JoinerOk(s, i) && WaiterOk(s, i) && ContextOk(s.threads[i]);
  }

  lemma {:induction false} WakeKeeps(s: Sched, w: nat)
    requires SchedOk(s) && w < |s.threads|
    requires s.threads[w].state == Blocked && s.threads[w].ctx.InIo?
    ensures SchedOk(Woken(s, w))
  {
    AppendKeepsQueue(s.runq, w);
    forall i | 0 <= i < |s.threads|
      ensures JoinerOk(Woken(s, w), i) && WaiterOk(Woken(s, w), i) && ContextOk(Woken(s, w).threads[i]) {
      WakeKeepsLinks(s, w, i);
    }
  }

  // The ring -----------------------------------------------------------------

  lemma {:induction false} UserStepKeepsRing(r: Rt, s': Sched)
    requires Inv(r) && |s'.threads| == |r.sched.threads|
    requires forall i :: 0 <= i < |s'.threads| ==> s'.threads[i].id == r.sched.threads[i].id
    requires forall i :: 0 <= i < |s'.threads| && (r.sched.threads[i].ctx.InIo? || s'.threads[i].ctx.InIo?) ==>
               s'.threads[i].ctx == r.sched.threads[i].ctx && s'.threads[i].state == r.sched.threads[i].state
    ensures RingOk(r.(sched := s'))
  {
    var r' := r.(sched := s');
    forall op | op in r'.inflight ensures OperationOk(r', op) {
      assert OperationOk(r, op);
    }
    forall i | 0 <= i < |s'.threads| ensures CallerOk(r', i) {
      assert CallerOk(r, i);
    }
  }

  lemma {:induction false} CreateKeepsRing(r: Rt)
    requires Inv(r)
    ensures RingOk(r.(sched := Create(r.sched), io := r.io + [0]))
  {
    var r' := r.(sched := Create(r.sched), io := r.io + [0]);
    forall op | op in r'.inflight ensures OperationOk(r', op) {
      assert OperationOk(r, op);
    }
    forall i | 0 <= i < |r'.sched.threads| ensures CallerOk(r', i) {
      if i < |r.sched.threads| { assert CallerOk(r, i); }
    }
  }

  lemma {:induction false} SubmitKeepsCaller(r: Rt, c: Call, i: nat)
    requires Inv(r) && r.sched.phase == User && RtWellFormed(r) && i < |r.sched.threads|
    ensures CallerOk(Submit(r, c), i)
  {
    assert CallerOk(r, i);
    if i != r.sched.current {
      assert Submit(r, c).sched.threads[i] == r.sched.threads[i];
    }
  }

  lemma {:induction false} SubmitKeepsOperation(r: Rt, c: Call, op: nat)
    requires Inv(r) && r.sched.phase == User && RtWellFormed(r) && op in Submit(r, c).inflight
    ensures OperationOk(Submit(r, c), op)
  {
  }

  lemma {:induction false} SubmitKeeps(r: Rt, c: Call)
    requires Inv(r) && r.sched.phase == User && RtWellFormed(r)
    ensures Inv(Submit(r, c))
  {
    var r' := Submit(r, c);
    BlockForIoKeeps(r.sched, r.nextOp, c);
    forall op | op in r'.inflight ensures OperationOk(r', op) {
      SubmitKeepsOperation(r, c, op);
    }
    forall i | 0 <= i < |r'.sched.threads| ensures CallerOk(r', i) {
      SubmitKeepsCaller(r, c, i);
    }
  }

  lemma {:induction false} DispatchKeepsRing(r: Rt)
    requires Inv(r) && Enabled(r, DoDispatch)
    ensures Inv(Next(r, DoDispatch))
  {
    DispatchKeeps(r.sched);
    var r' := Next(r, DoDispatch);
    assert r.sched.runq[0] in r.sched.runq;
    forall op | op in r'.inflight ensures OperationOk(r', op) {
      assert OperationOk(r, op);
    }
    forall i | 0 <= i < |r'.sched.threads| ensures CallerOk(r', i) {
      assert CallerOk(r, i);
    }
  }

  lemma {:induction false} SignalReapKeeps(r: Rt, op: nat, k: KernelResult)
    requires Inv(r) && RtWellFormed(r) && op in r.inflight && r.inflight[op] == SIGNAL_SENTINEL
    ensures Inv(Reap(r, op, k)) && Reap(r, op, k).sched == r.sched
  {
    var r' := Reap(r, op, k);
    assert OperationOk(r, op);
    forall o | o in r'.inflight ensures OperationOk(r', o) {
      if o != r.nextOp { assert OperationOk(r, o); }
    }
    forall i | 0 <= i < |r'.sched.threads| ensures CallerOk(r', i) {
      assert CallerOk(r, i);
    }
  }

  // rr_io_wait for an operation of the uthread in slot w.
  function Delivered(r: Rt, op: nat, k: KernelResult, w: nat): Rt
    requires w < |r.sched.threads| == |r.io|
  {
    r.(inflight := r.inflight - {op}, completed := r.completed[op := k],
       io := r.io[w := k.raw], sched := Woken(r.sched, w))
  }

  // A completion reaches exactly the uthread that waits for that operation.
  lemma {:induction false} ReapWakesCaller(r: Rt, op: nat, k: KernelResult)
    requires Inv(r) && RtWellFormed(r) && op in r.inflight && r.inflight[op] != SIGNAL_SENTINEL
    ensures var w := r.inflight[op] - 1; var s := r.sched;
            && 0 <= w < |s.threads|
            && s.threads[w].state == Blocked
            && s.threads[w].ctx.InIo? && s.threads[w].ctx.op == op
            && Reap(r, op, k) == Delivered(r, op, k, w)
  {
    assert OperationOk(r, op);
    var w := r.inflight[op] - 1;
    FindById(r.sched, w + 1);
    assert Find(r.sched.threads, r.inflight[op]) == Some(w);
    assert Wake(r.sched, r.inflight[op]) == Woken(r.sched, w);
  }

  lemma {:induction false} DeliveryKeepsOperation(r: Rt, op: nat, k: KernelResult, w: nat, o: nat)
    requires Inv(r) && op in r.inflight && r.inflight[op] == w + 1 && w < |r.sched.threads|
    requires o in r.inflight && o != op
    ensures OperationOk(Delivered(r, op, k, w), o)
  {
  }

  lemma {:induction false} DeliveryKeepsCaller(r: Rt, op: nat, k: KernelResult, w: nat, i: nat)
    requires Inv(r) && op in r.inflight && r.inflight[op] == w + 1 && w < |r.sched.threads|
    requires i < |r.sched.threads|
    ensures CallerOk(Delivered(r, op, k, w), i)
  {
    assert OperationOk(r, op) && CallerOk(r, i);
    assert r.sched.threads[i].id == i + 1;
  }

  lemma {:induction false} CallReapKeeps(r: Rt, op: nat, k: KernelResult)
    requires Inv(r) && RtWellFormed(r) && op in r.inflight && r.inflight[op] != SIGNAL_SENTINEL
    ensures Inv(Reap(r, op, k))
  {
    ReapWakesCaller(r, op, k);
    var w := r.inflight[op] - 1;
    var r' := Delivered(r, op, k, w);
    assert OperationOk(r, op);
    WakeKeeps(r.sched, w);
    forall o | o in r'.inflight ensures OperationOk(r', o) {
      DeliveryKeepsOperation(r, op, k, w, o);
    }
    forall i | 0 <= i < |r'.sched.threads| ensures CallerOk(r', i) {
      DeliveryKeepsCaller(r, op, k, w, i);
    }
  }

  lemma {:induction false} YieldNextKeeps(r: Rt)
    requires Inv(r) && Enabled(r, DoYield)
    ensures Inv(Next(r, DoYield))
  {
    YieldKeeps(r.sched);
    UserStepKeepsRing(r, Yield(r.sched));
  }

  lemma {:induction false} JoinNextKeeps(r: Rt, id: nat)
    requires Inv(r) && Enabled(r, DoJoin(id))
    ensures Inv(Next(r, DoJoin(id)))
  {
    JoinKeeps(r.sched, id);
    UserStepKeepsRing(r, Join(r.sched, id));
  }

  lemma {:induction false} ExitNextKeeps(r: Rt, v: int)
    requires Inv(r) && Enabled(r, DoExit(v))
    ensures Inv(Next(r, DoExit(v)))
  {
    ExitKeeps(r.sched, v);
    assert WaiterOk(r.sched, r.sched.current);
    UserStepKeepsRing(r, Exit(r.sched, v));
  }

  // Every action keeps the invariant.
  lemma {:induction false} NextKeeps(r: Rt, a: Action)
    requires Inv(r) && Enabled(r, a) && |Next(r, a).sched.threads| <= MAX_THREADS
    ensures Inv(Next(r, a))
  {
    match a
    case DoCreate =>
      CreateKeeps(r.sched);
      CreateKeepsRing(r);
    case DoSubmit(c) => SubmitKeeps(r, c);
    case DoDispatch => DispatchKeepsRing(r);
    case DoReap(op, k) =>
      if r.inflight[op] == SIGNAL_SENTINEL { SignalReapKeeps(r, op, k); } else { CallReapKeeps(r, op, k); }
    case DoYield => YieldNextKeeps(r);
    case DoJoin(id) => JoinNextKeeps(r, id);
    case DoExit(v) => ExitNextKeeps(r, v);
  }

  // Exactly one signalfd read is in flight.
  ghost predicate OneSignalRead(r: Rt) {
    exists op :: SignalRead(r, op) && forall o :: SignalRead(r, o) ==> o == op
  }

  predicate SignalRead(r: Rt, op: nat) {
    op in r.inflight && r.inflight[op] == SIGNAL_SENTINEL
  }

  // No uthread's id is the sentinel, so only a sentinel completion resubmits.
  lemma {:induction false} NoNewSignalRead(r: Rt, a: Action, o: nat)
    requires Inv(r) && Enabled(r, a) && SignalRead(Next(r, a), o)
    requires a.DoReap? ==> !SignalRead(r, a.op)
    ensures SignalRead(r, o)
  {
  }

  lemma {:induction false} NextKeepsSignalRead(r: Rt, a: Action)
    requires Inv(r) && Enabled(r, a) && OneSignalRead(r)
    ensures OneSignalRead(Next(r, a))
  {
    var r' := Next(r, a);
    var op :| SignalRead(r, op) && forall o :: SignalRead(r, o) ==> o == op;
    assert OperationOk(r, op);
    if a.DoReap? && a.op == op {
      assert SignalRead(r', r.nextOp);
      forall o | SignalRead(r', o) ensures o == r.nextOp {
        if o != r.nextOp { assert SignalRead(r, o); }
      }
    } else {
      assert SignalRead(r', op);
      forall o | SignalRead(r', o) ensures o == op {
        NoNewSignalRead(r, a, o);
      }
    }
  }

  // Runs ---------------------------------------------------------------------

  predicate StepAt(rs: seq<Rt>, acts: seq<Action>, i: nat) {
    i < |acts| && i + 1 < |rs| && Enabled(rs[i], acts[i]) && rs[i + 1] == Next(rs[i], acts[i])
  }

  ghost predicate IsRun(rs: seq<Rt>, acts: seq<Action>) {
    && |rs| == |acts| + 1
    && forall i :: 0 <= i < |acts| ==> StepAt(rs, acts, i)
  }

  lemma {:induction false} ExtendRun(rs: seq<Rt>, acts: seq<Action>, a: Action)
    requires IsRun(rs, acts) && Enabled(rs[|acts|], a)
    ensures IsRun(rs + [Next(rs[|acts|], a)], acts + [a])
  {
    var rs', acts' := rs + [Next(rs[|acts|], a)], acts + [a];
    forall i | 0 <= i < |acts'| ensures StepAt(rs', acts', i) {
      if i < |acts| { assert StepAt(rs, acts, i); }
    }
  }

  lemma {:induction false} NextGrows(r: Rt, a: Action)
    requires Enabled(r, a)
    ensures |r.sched.threads| <= |Next(r, a).sched.threads|
  {
  }

  lemma {:induction false} RunGrows(rs: seq<Rt>, acts: seq<Action>, i: nat)
    requires IsRun(rs, acts) && i < |rs|
    ensures |rs[i].sched.threads| <= |rs[|acts|].sched.threads|
    decreases |acts| - i
  {
    if i < |acts| {
      assert StepAt(rs, acts, i);
      NextGrows(rs[i], acts[i]);
      RunGrows(rs, acts, i + 1);
    }
  }

  // Every state of every run satisfies the invariant.
  lemma {:induction false} RunInvariant(rs: seq<Rt>, acts: seq<Action>, i: nat)
    requires IsRun(rs, acts) && Inv(rs[0]) && i < |rs|
    requires |rs[|acts|].sched.threads| <= MAX_THREADS
    ensures Inv(rs[i])
    ensures OneSignalRead(rs[0]) ==> OneSignalRead(rs[i])
  {
    if i > 0 {
      RunInvariant(rs, acts, i - 1);
      assert StepAt(rs, acts, i - 1);
      RunGrows(rs, acts, i);
      NextKeeps(rs[i - 1], acts[i - 1]);
      if OneSignalRead(rs[0]) {
        NextKeepsSignalRead(rs[i - 1], acts[i - 1]);
      }
    }
  }

  lemma {:induction false} InitialSched()
    ensures SchedOk(InitSched())
  {
  }

  lemma {:induction false} InitialRing(r: Rt)
    requires |r.io| == |r.sched.threads| == 1 && r.sched.threads[0].ctx.Active? && r.completed == map[]
    requires forall op :: op in r.inflight ==> op < r.nextOp && r.inflight[op] == SIGNAL_SENTINEL
    ensures RingOk(r)
  {
  }

  lemma {:induction false} InitialStates()
    ensures Inv(InitRecord()) && OneSignalRead(InitRecord())
    ensures Inv(InitReplay())
  {
    InitialSched();
    var r := InitRecord();
    InitialRing(r);
    InitialRing(InitReplay());
    assert OneSignalRead(r) by {
      assert SignalRead(r, 0);
    }
  }
}
