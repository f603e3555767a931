// A family of deterministic uthread programs run by the runtime in record mode and
// in replay mode. A program is everything the uthreads compute between two calls
// into the runtime: the whole memory, what the current uthread asks for next, and
// how the answer changes the memory.
module Machines {
  import opened Words
  import opened Events
  import opened Calls
  import opened Runtime
  import opened Replayer

  datatype Request =
    | AskCreate(hasFn: bool)
    | AskYield
    | AskJoin(id: nat)
    | AskExit(retval: int)
    | AskCall(call: Call)

  datatype Reply =
    | Started
    | Created(id: nat)
    | CreateFailed(err: nat)
    | Yielded
    | Joined(retval: int)
    | JoinFailed(err: nat)
    | Returned(reply: CallReply)

  datatype Program<!M> = Program(
    boot: M,
    next: (M, nat) -> Request,
    resume: (M, nat, Reply) -> M)

  // What a run shows: the switches between uthreads and the answers they get.
  datatype Observation = Switched(fromId: nat, toId: nat) | Replied(id: nat, reply: Reply)

  // The part of the state both modes have.
  datatype Local<M> = Local(sched: Sched, mem: M, trace: seq<Observation>)

  function Answer<M>(prog: Program<M>, l: Local<M>, reply: Reply): (l': Local<M>)
    requires WellFormed(l.sched)
    ensures l'.sched == l.sched
  {
    var id := CurrentId(l.sched);
    l.(mem := prog.resume(l.mem, id, reply), trace := l.trace + [Replied(id, reply)])
  }

  function Ask<M>(prog: Program<M>, l: Local<M>): Request
    requires WellFormed(l.sched)
  {
    prog.next(l.mem, CurrentId(l.sched))
  }

  // uthread_create, uthread_yield, uthread_join and uthread_exit.
  function Serve<M>(prog: Program<M>, l: Local<M>, q: Request): (l': Local<M>)
    requires WellFormed(l.sched) && !q.AskCall?
    ensures WellFormed(l'.sched)
  {
    match q
    case AskCreate(hasFn) =>
      if hasFn then Answer(prog, l.(sched := Create(l.sched)), Created(l.sched.nextId))
      else Answer(prog, l, CreateFailed(EINVAL))
    case AskYield => l.(sched := Yield(l.sched))
    case AskJoin(id) =>
      (match DecideJoin(l.sched, id)
       case JoinFails(err) => Answer(prog, l, JoinFailed(err))
       case JoinNow(v) => Answer(prog, l, Joined(v))
       case JoinWaits(_) => l.(sched := Join(l.sched, id)))
    case AskExit(v) => l.(sched := Exit(l.sched, v))
  }

  // The uthread at the head of the run queue.
  predicate FrontRunnable(s: Sched)
    requires s.runq != []
  {
    s.runq[0] < |s.threads| && s.threads[s.runq[0]].state == Runnable
  }

  function FrontId(s: Sched): nat
    requires s.runq != []
  {
    if s.runq[0] < |s.threads| then s.threads[s.runq[0]].id else 0
  }

  function FrontContext(s: Sched): Context
    requires s.runq != []
  {
    if s.runq[0] < |s.threads| then s.threads[s.runq[0]].ctx else Finished
  }

  // The switch itself; the answer of a call in progress is given by the mode.
  function SwitchIn<M>(l: Local<M>): (l': Local<M>)
    requires WellFormed(l.sched) && l.sched.runq != []
    ensures WellFormed(l'.sched)
  {
    var fromId, toId := CurrentId(l.sched), FrontId(l.sched);
    l.(sched := Dispatch(l.sched),
       trace := if fromId == toId then l.trace else l.trace + [Switched(fromId, toId)])
  }

  // What the uthread about to be dispatched was waiting for, when it is not a call.
  // join hands out target->retval without looking at the target again.
  function Continue(s: Sched, ctx: Context): Reply {
    match ctx
    case InYield => Yielded
    case InJoin(t) => if t < |s.threads| then Joined(s.threads[t].retval) else Started
    case _ => Started
  }

  // Record mode --------------------------------------------------------------

  const SIGINT := 2
  const SIGTERM := 15
  const SIGINFO_SIZE := 128

  datatype Rec<M> = Rec(rt: Rt, mem: M, trace: seq<Observation>, log: seq<Event>, exited: bool)

  function View<M>(s: Rec<M>): Local<M> {
    Local(s.rt.sched, s.mem, s.trace)
  }

  function WithView<M>(s: Rec<M>, l: Local<M>): Rec<M> {
    s.(rt := s.rt.(sched := l.sched), mem := l.mem, trace := l.trace)
  }

  // rr_init in record mode.
  function RecStart<M>(prog: Program<M>): Rec<M> {
    Rec(InitRecord(), prog.boot, [], Emit([], 1, Switch(0, 1)), false)
  }

  // What the kernel decides: the result of a call that does not suspend, and which
  // completion is reaped with which result (and signal number, for the signalfd).
  datatype Choice =
    | UserStep(result: KernelResult)
    | DispatchStep
    | CompleteStep(op: nat, result: KernelResult, signo: nat)

  // The kernel keeps its contract towards the call that waits for the operation.
  predicate ProperCompletion(r: Rt, op: nat, k: KernelResult, signo: nat) {
    && FitsI32(k.raw) && signo < U32
    && (forall i :: 0 <= i < |r.sched.threads| && r.sched.threads[i].ctx.InIo? && r.sched.threads[i].ctx.op == op ==>
          ValidResult(r.sched.threads[i].ctx.call, k))
  }

  predicate RecEnabled<M>(prog: Program<M>, s: Rec<M>, e: Choice) {
    && !s.exited && RtWellFormed(s.rt)
    && match e
       case UserStep(k) =>
         && s.rt.sched.phase == User
         && (Ask(prog, View(s)).AskCall? ==>
               var c := Ask(prog, View(s)).call;
               ValidCall(c) && (!Suspends(c) ==> ValidResult(c, k)))
       case DispatchStep => Enabled(s.rt, DoDispatch)
       case CompleteStep(op, k, signo) => Enabled(s.rt, DoReap(op, k)) && ProperCompletion(s.rt, op, k, signo)
  }

  // The end of a record-mode wrapper: log the raw result, then return.
  function FinishCall<M>(prog: Program<M>, s: Rec<M>, c: Call, k: KernelResult): Rec<M>
    requires WellFormed(s.rt.sched)
  {
    WithView(s, Answer(prog, View(s), Returned(RecordReply(c, k))))
    .(log := Emit(s.log, CurrentId(s.rt.sched), Logged(c, k)))
  }

  // The result a suspended call finds: io_result, and its own buffer.
  function FoundResult(r: Rt, slot: nat, op: nat): KernelResult
    requires slot < |r.io|
  {
    KernelResult(r.io[slot], if op in r.completed then r.completed[op].data else [])
  }

  function RecUser<M>(prog: Program<M>, s: Rec<M>, k: KernelResult): Rec<M>
    requires RecEnabled(prog, s, UserStep(k))
  {
    match Ask(prog, View(s))
    case AskCall(c) =>
      if Suspends(c) then s.(rt := Next(s.rt, DoSubmit(c))) else FinishCall(prog, s, c, k)
    case q =>
      var s1 := WithView(s, Serve(prog, View(s), q));
      if q == AskCreate(true) then s1.(rt := s1.rt.(io := s.rt.io + [0])) else s1
  }

  function RecDispatch<M>(prog: Program<M>, s: Rec<M>): Rec<M>
    requires RecEnabled(prog, s, DispatchStep)
  {
    var sched := s.rt.sched;
    var fromId, toId := CurrentId(sched), FrontId(sched);
    var s1 := WithView(s, SwitchIn(View(s)));
    if !FrontRunnable(sched) then s.(rt := s1.rt)
    else
      var s2 := if fromId == toId then s1 else s1.(log := Emit(s.log, toId, Switch(fromId, toId)));
      match FrontContext(sched)
      case InIo(op, c) => FinishCall(prog, s2, c, FoundResult(s.rt, sched.runq[0], op))
      case ctx => WithView(s2, Answer(prog, View(s2), Continue(sched, ctx)))
  }

  // A signalfd completion long enough to hold a siginfo is logged; SIGINT and
  // SIGTERM end the run.
  predicate LogsSignal(r: Rt, op: nat, k: KernelResult) {
    op in r.inflight && r.inflight[op] == SIGNAL_SENTINEL && k.raw >= SIGINFO_SIZE
  }

  function RecComplete<M>(prog: Program<M>, s: Rec<M>, op: nat, k: KernelResult, signo: nat): Rec<M>
    requires RecEnabled(prog, s, CompleteStep(op, k, signo))
  {
    var s1 := s.(rt := Next(s.rt, DoReap(op, k)));
    if LogsSignal(s.rt, op, k) then
      var id := CurrentId(s.rt.sched);
      s1.(log := Emit(s.log, id, Signal(signo, id % U32)), exited := signo == SIGINT || signo == SIGTERM)
    else s1
  }

  function RecNext<M>(prog: Program<M>, s: Rec<M>, e: Choice): Rec<M>
    requires RecEnabled(prog, s, e)
  {
    match e
    case UserStep(k) => RecUser(prog, s, k)
    case DispatchStep => RecDispatch(prog, s)
    case CompleteStep(op, k, signo) => RecComplete(prog, s, op, k, signo)
  }

  ghost predicate RecStepAt<M>(prog: Program<M>, ss: seq<Rec<M>>, es: seq<Choice>, i: nat) {
    && i < |es| && i + 1 < |ss|
    && RecEnabled(prog, ss[i], es[i]) && ss[i + 1] == RecNext(prog, ss[i], es[i])
  }

  ghost predicate IsRecording<M>(prog: Program<M>, ss: seq<Rec<M>>, es: seq<Choice>) {
    && |ss| == |es| + 1
    && ss[0] == RecStart(prog)
    && forall i :: 0 <= i < |es| ==> RecStepAt(prog, ss, es, i)
  }

  // Replay mode --------------------------------------------------------------

  // Off: the log did not start with the switch 0->1 and the runtime stays inactive.
  datatype Status = Live | Aborted | Off

  datatype Rep<M> = Rep(local: Local<M>, cursor: Cursor, status: Status)

  // rr_init in replay mode, after the header was accepted.
  function RepStart<M>(prog: Program<M>, log: Reader): Rep<M> {
    var l := Local(InitSched(), prog.boot, []);
    match log.expectSwitch(At(0), 0, 1)
    case SwitchOk(next) => Rep(l, next, Live)
    case SwitchBad(_, next) => Rep(l, next, Off)
  }

  function RepUser<M>(prog: Program<M>, log: Reader, p: Rep<M>): (p': Rep<M>)
    requires WellFormed(p.local.sched)
    ensures WellFormed(p'.local.sched)
  {
    match Ask(prog, p.local)
    case AskCall(c) =>
      (match log.nextSyscall(p.cursor, Nr(c), CurrentId(p.local.sched))
       case CallOk(payload, next) =>
         p.(local := Answer(prog, p.local, Returned(ReplayReply(c, payload))), cursor := next)
       case CallBad(err, next) =>
         p.(local := Answer(prog, p.local, Returned(ReplayFailure(c, err))), cursor := next))
    case q => p.(local := Serve(prog, p.local, q))
  }

  function RepResume<M>(prog: Program<M>, p: Rep<M>): (p': Rep<M>)
    requires WellFormed(p.local.sched) && p.local.sched.runq != []
    ensures WellFormed(p'.local.sched)
  {
    var s := p.local.sched;
    p.(local := Answer(prog, SwitchIn(p.local), Continue(s, FrontContext(s))))
  }

  // One turn of scheduler_loop; on an empty queue it spins, for replay has no ring.
  function RepDispatch<M>(prog: Program<M>, log: Reader, p: Rep<M>): (p': Rep<M>)
    requires WellFormed(p.local.sched)
    ensures WellFormed(p'.local.sched)
  {
    var s := p.local.sched;
    if s.runq == [] then p
    else if !FrontRunnable(s) then p.(local := p.local.(sched := Dispatch(s)))
    else
      var fromId, toId := CurrentId(s), FrontId(s);
      if fromId == toId then RepResume(prog, p)
      else
        match log.expectSwitch(p.cursor, fromId, toId)
        case SwitchOk(next) => RepResume(prog, p.(cursor := next))
        case SwitchBad(_, next) => p.(cursor := next, status := Aborted)
  }

  function RepNext<M>(prog: Program<M>, log: Reader, p: Rep<M>): (p': Rep<M>)
    requires WellFormed(p.local.sched)
    ensures WellFormed(p'.local.sched)
  {
    if p.status != Live then p
    else if p.local.sched.phase == User then RepUser(prog, log, p)
    else RepDispatch(prog, log, p)
  }

  // The replay after n steps.
  function Replayed<M>(prog: Program<M>, log: Reader, n: nat): (p: Rep<M>)
    ensures WellFormed(p.local.sched)
  {
    if n == 0 then RepStart(prog, log) else RepNext(prog, log, Replayed(prog, log, n - 1))
  }
}
