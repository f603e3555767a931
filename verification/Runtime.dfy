// The cooperative runtime as a state machine: the uthread table, the run queue,
// the user/scheduler phase that swapcontext switches, and the in-flight io_uring
// operations. A uthread is named by its slot in the table (its address in the
// source); its 64-bit id is a field, and lookups by id search the table.
module Runtime {
  import opened Words
  import opened Calls

  // user_data of the signalfd read; no uthread may carry this id.
  const SIGNAL_SENTINEL := U64 - 1
  // The longest table whose ids are distinct, non-zero and not the sentinel.
  const MAX_THREADS := U64 - 2

  datatype State = Runnable | Running | Blocked | Done

  // What swapcontext saved: where the uthread continues when it is dispatched.
  datatype Context =
    | Active
    | Fresh
    | InYield
    | InJoin(target: nat)
    | InIo(op: nat, call: Call)
    | Finished

  datatype Uthread = Uthread(id: nat, state: State, joinWaiter: Option<nat>, retval: int, ctx: Context)

  // Who owns the processor: user code of the current uthread, or scheduler_loop.
  datatype Phase = User | Scheduler

  datatype Sched = Sched(threads: seq<Uthread>, runq: seq<nat>, current: nat, phase: Phase, nextId: nat)

  // rr_uthread_init_main
  function InitSched(): Sched {
    Sched([Uthread(1, Running, None, 0, Active)], [], 0, User, 2)
  }

  predicate WellFormed(s: Sched) {
    s.current < |s.threads|
  }

  function CurrentId(s: Sched): nat
    requires WellFormed(s)
  {
    s.threads[s.current].id
  }

  function SetThread(s: Sched, slot: nat, t: Uthread): Sched
    requires slot < |s.threads|
  {
    s.(threads := s.threads[slot := t])
  }

  // rr_scheduler_find: the first slot that carries the id.
  function Find(threads: seq<Uthread>, id: nat): (r: Option<nat>)
    ensures r.Some? ==> r.value < |threads| && threads[r.value].id == id
    ensures r.Some? ==> forall i :: 0 <= i < r.value ==> threads[i].id != id
    ensures r.None? ==> forall i :: 0 <= i < |threads| ==> threads[i].id != id
  {
    if threads == [] then None
    else
      var n := |threads| - 1;
      var r := Find(threads[..n], id);
      if r.Some? then r else if threads[n].id == id then Some(n) else None
  }

  // rr_uthread_create past its allocations: take an id, register, enqueue.
  function Create(s: Sched): (s': Sched)
    ensures WellFormed(s) ==> WellFormed(s')
  {
    s.(threads := s.threads + [Uthread(s.nextId, Runnable, None, 0, Fresh)],
       runq := s.runq + [|s.threads|],
       nextId := Wrap(s.nextId + 1))
  }

  // rr_scheduler_yield_current
  function Yield(s: Sched): (s': Sched)
    requires WellFormed(s)
    ensures WellFormed(s')
  {
    SetThread(s, s.current, s.threads[s.current].(state := Runnable, ctx := InYield))
    .(runq := s.runq + [s.current], phase := Scheduler)
  }

  // rr_scheduler_block_current
  function Block(s: Sched, ctx: Context): (s': Sched)
    requires WellFormed(s)
    ensures WellFormed(s')
  {
    SetThread(s, s.current, s.threads[s.current].(state := Blocked, ctx := ctx)).(phase := Scheduler)
  }

  datatype JoinDecision = JoinFails(err: nat) | JoinNow(retval: int) | JoinWaits(target: nat)

  // rr_uthread_join up to the point where it blocks or returns.
  function DecideJoin(s: Sched, id: nat): (d: JoinDecision)
    requires WellFormed(s)
    ensures d.JoinWaits? ==> d.target < |s.threads| && d.target != s.current
  {
    match Find(s.threads, id)
    case None => JoinFails(ESRCH)
    case Some(target) =>
      var t := s.threads[target];
      if t.id == CurrentId(s) then JoinFails(EDEADLK)
      else if t.state == Done then JoinNow(t.retval)
      else if t.joinWaiter.Some? && t.joinWaiter.value != s.current then JoinFails(EBUSY)
      else JoinWaits(target)
  }

  function Join(s: Sched, id: nat): (s': Sched)
    requires WellFormed(s)
    ensures WellFormed(s')
  {
    match DecideJoin(s, id)
    case JoinWaits(target) =>
      Block(SetThread(s, target, s.threads[target].(joinWaiter := Some(s.current))), InJoin(target))
    case _ => s
  }

  // rr_scheduler_exit_current: only a waiter found BLOCKED is woken.
  function Exit(s: Sched, retval: int): (s': Sched)
    requires WellFormed(s)
    ensures WellFormed(s')
  {
    var me := s.threads[s.current];
    var s1 := SetThread(s, s.current, me.(retval := retval, state := Done, ctx := Finished)).(phase := Scheduler);
    if me.joinWaiter.Some? && me.joinWaiter.value < |s.threads| && s1.threads[me.joinWaiter.value].state == Blocked then
      var w := me.joinWaiter.value;
      SetThread(s1, w, s1.threads[w].(state := Runnable)).(runq := s1.runq + [w])
    else s1
  }

  // One turn of scheduler_loop with a non-empty queue; an entry that is not
  // RUNNABLE is dropped. (Slots outside the table stand for no uthread.)
  function Dispatch(s: Sched): (s': Sched)
    requires WellFormed(s) && s.runq != []
    ensures WellFormed(s')
  {
    var next := s.runq[0];
    var s1 := s.(runq := s.runq[1..]);
    if next >= |s.threads| || s.threads[next].state != Runnable then s1
    else SetThread(s1, next, s.threads[next].(state := Running, ctx := Active)).(current := next, phase := User)
  }

  // rr_scheduler_wake_by_id: ignored unless the id names a BLOCKED uthread.
  function Wake(s: Sched, id: nat): Sched {
    match Find(s.threads, id)
    case None => s
    case Some(w) =>
      if s.threads[w].state != Blocked then s
      else SetThread(s, w, s.threads[w].(state := Runnable)).(runq := s.runq + [w])
  }

  // The runtime with its ring: io holds each uthread's io_result; an operation is
  // known to the kernel by its number and carries the user_data tag; completed
  // remembers what the kernel answered to each operation.
  datatype Rt = Rt(
    sched: Sched,
    io: seq<int>,
    inflight: map<nat, nat>,
    completed: map<nat, KernelResult>,
    nextOp: nat)

  // Record mode starts with the signalfd read submitted; replay mode has no ring.
  function InitRecord(): Rt {
    Rt(InitSched(), [0], map[0 := SIGNAL_SENTINEL], map[], 1)
  }

  function InitReplay(): Rt {
    Rt(InitSched(), [0], map[], map[], 0)
  }

  function SubmitTag(r: Rt, tag: nat): Rt {
    r.(inflight := r.inflight[r.nextOp := tag], nextOp := r.nextOp + 1)
  }

  datatype Action =
    | DoCreate
    | DoYield
    | DoJoin(id: nat)
    | DoExit(retval: int)
    | DoSubmit(call: Call)
    | DoDispatch
    | DoReap(op: nat, result: KernelResult)

  predicate RtWellFormed(r: Rt) {
    WellFormed(r.sched) && |r.io| == |r.sched.threads|
  }

  // User code acts in the User phase. The loop pops while it can and calls
  // rr_io_wait only when the queue is empty.
  predicate Enabled(r: Rt, a: Action) {
    && RtWellFormed(r)
    && match a
       case DoDispatch => r.sched.phase == Scheduler && r.sched.runq != []
       case DoReap(op, _) => r.sched.phase == Scheduler && r.sched.runq == [] && op in r.inflight
       case _ => r.sched.phase == User
  }

  // rr_io_submit_*_and_wait: tag with the caller's id, submit, block.
  function Submit(r: Rt, c: Call): Rt
    requires RtWellFormed(r)
  {
    SubmitTag(r, CurrentId(r.sched)).(sched := Block(r.sched, InIo(r.nextOp, c)))
  }

  // rr_io_wait for one completion: the sentinel is resubmitted, any other tag wakes.
  function Reap(r: Rt, op: nat, k: KernelResult): Rt
    requires RtWellFormed(r) && op in r.inflight
  {
    var tag := r.inflight[op];
    var r1 := r.(inflight := r.inflight - {op}, completed := r.completed[op := k]);
    if tag == SIGNAL_SENTINEL then SubmitTag(r1, SIGNAL_SENTINEL)
    else
      var w := Find(r.sched.threads, tag);
      if w.Some? && r.sched.threads[w.value].state == Blocked then
        r1.(sched := Wake(r.sched, tag), io := r.io[w.value := k.raw])
      else r1
  }

  function Next(r: Rt, a: Action): Rt
    requires Enabled(r, a)
  {
    match a
    case DoCreate => r.(sched := Create(r.sched), io := r.io + [0])
    case DoYield => r.(sched := Yield(r.sched))
    case DoJoin(id) => r.(sched := Join(r.sched, id))
    case DoExit(v) => r.(sched := Exit(r.sched, v))
    case DoSubmit(c) => Submit(r, c)
    case DoDispatch => r.(sched := Dispatch(r.sched))
    case DoReap(op, k) => Reap(r, op, k)
  }
}
