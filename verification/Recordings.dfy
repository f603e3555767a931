// Every recording is a run of the runtime, and its log is well formed.
module Recordings {
  import opened Words
  import opened Events
  import opened Calls
  import opened Runtime
  import opened RuntimeInvariants
  import opened Machines

  // A recording that never runs out of uthread ids.
  ghost predicate Bounded<M>(prog: Program<M>, ss: seq<Rec<M>>, es: seq<Choice>) {
    IsRecording(prog, ss, es) && |ss[|es|].rt.sched.threads| <= MAX_THREADS
  }

  // The runtime action a recording step performs, if any.
  function ActionOf<M>(prog: Program<M>, s: Rec<M>, e: Choice): Option<Action>
    requires RecEnabled(prog, s, e)
  {
    match e
    case UserStep(_) =>
      (match Ask(prog, View(s))
       case AskCreate(hasFn) => if hasFn then Some(DoCreate) else None
       case AskYield => Some(DoYield)
       case AskJoin(id) => Some(DoJoin(id))
       case AskExit(v) => Some(DoExit(v))
       case AskCall(c) => if Suspends(c) then Some(DoSubmit(c)) else None)
    case DispatchStep => Some(DoDispatch)
    case CompleteStep(op, k, _) => Some(DoReap(op, k))
  }

  lemma {:induction false} StepIsRuntimeStep<M>(prog: Program<M>, s: Rec<M>, e: Choice)
    requires RecEnabled(prog, s, e)
    ensures var a := ActionOf(prog, s, e);
            if a.Some? then Enabled(s.rt, a.value) && RecNext(prog, s, e).rt == Next(s.rt, a.value)
            else RecNext(prog, s, e).rt == s.rt
  {
  }

  // The states of a recording are those of a run of the runtime.
  lemma {:induction false} RecordingIsRun<M>(prog: Program<M>, ss: seq<Rec<M>>, es: seq<Choice>, n: nat)
    returns (rs: seq<Rt>, acts: seq<Action>)
    requires IsRecording(prog, ss, es) && n < |ss|
    ensures IsRun(rs, acts) && rs[0] == InitRecord() && rs[|acts|] == ss[n].rt
  {
    if n == 0 {
      rs, acts := [InitRecord()], [];
    } else {
      rs, acts := RecordingIsRun(prog, ss, es, n - 1);
      assert RecStepAt(prog, ss, es, n - 1);
      StepIsRuntimeStep(prog, ss[n - 1], es[n - 1]);
      var a := ActionOf(prog, ss[n - 1], es[n - 1]);
      if a.Some? {
        ExtendRun(rs, acts, a.value);
        rs, acts := rs + [ss[n].rt], acts + [a.value];
      }
    }
  }

  lemma {:induction false} RecordingInv<M>(prog: Program<M>, ss: seq<Rec<M>>, es: seq<Choice>, n: nat)
    requires IsRecording(prog, ss, es) && n < |ss| && |ss[n].rt.sched.threads| <= MAX_THREADS
    ensures Inv(ss[n].rt) && OneSignalRead(ss[n].rt)
  {
    var rs, acts := RecordingIsRun(prog, ss, es, n);
    InitialStates();
    RunInvariant(rs, acts, |acts|);
  }

  // The log ------------------------------------------------------------------

  // The uthread the log last switched to.
  function LastTo(log: seq<Event>): nat {
    if log == [] then 0
    else
      var p := log[|log| - 1].payload;
      if p.Switch? then p.toId else LastTo(log[..|log| - 1])
  }

  // Event i fits what precedes it: it is numbered, a switch leaves the uthread the
  // log is in for another one, and anything else belongs to that uthread.
  predicate EventFits(log: seq<Event>, i: nat)
    requires i < |log|
  {
    var ev := log[i];
    && ev.seqNo == SeqNo(i)
    && match ev.payload
       case Switch(fromId, toId) => fromId == LastTo(log[..i]) && fromId != toId && ev.uthread == toId
       case Syscall(_, _, _, _, _) => i > 0 && ev.uthread == LastTo(log[..i])
       case Signal(_, active) => i > 0 && ev.uthread == LastTo(log[..i]) && active == ev.uthread % U32
       case Other(_, _) => false
  }

  predicate WellFormedLog(log: seq<Event>) {
    && log != []
    && log[0].payload == Switch(0, 1)
    && forall i :: 0 <= i < |log| ==> EventFits(log, i)
  }

  lemma {:induction false} EmitFits(log: seq<Event>, uthread: nat, p: Payload)
    requires WellFormedLog(log)
    requires match p
             case Switch(fromId, toId) => fromId == LastTo(log) && fromId != toId && uthread == toId
             case Signal(_, active) => uthread == LastTo(log) && active == uthread % U32
             case Syscall(_, _, _, _, _) => uthread == LastTo(log)
             case Other(_, _) => false
    ensures WellFormedLog(Emit(log, uthread, p))
    ensures LastTo(Emit(log, uthread, p)) == if p.Switch? then p.toId else LastTo(log)
  {
    var log' := Emit(log, uthread, p);
    assert log'[..|log|] == log;
    forall i | 0 <= i < |log'| ensures EventFits(log', i) {
      if i < |log| {
        assert EventFits(log, i);
        assert log'[..i] == log[..i];
      }
    }
  }

  // Calls in progress are proper, and so are the results waiting for them.
  predicate ProperCall(r: Rt, i: nat)
    requires i < |r.sched.threads|
  {
    var t := r.sched.threads[i];
    t.ctx.InIo? ==>
      && ValidCall(t.ctx.call) && Suspends(t.ctx.call)
      && (t.state == Runnable && t.ctx.op in r.completed ==> ValidResult(t.ctx.call, r.completed[t.ctx.op]))
  }

  predicate CallsOk(r: Rt) {
    forall i :: 0 <= i < |r.sched.threads| ==> ProperCall(r, i)
  }

  predicate LogOk<M>(s: Rec<M>) {
    && WellFormed(s.rt.sched)
    && WellFormedLog(s.log) && AllValid(s.log) && LastTo(s.log) == CurrentId(s.rt.sched)
  }

  ghost predicate RecInv<M>(s: Rec<M>) {
    Inv(s.rt) && CallsOk(s.rt) && LogOk(s)
  }

  lemma {:induction false} StepKeepsCalls<M>(prog: Program<M>, s: Rec<M>, e: Choice)
    requires RecEnabled(prog, s, e) && Inv(s.rt) && CallsOk(s.rt)
    ensures CallsOk(RecNext(prog, s, e).rt)
  {
    StepIsRuntimeStep(prog, s, e);
    var a := ActionOf(prog, s, e);
    if a.Some? {
      var r' := Next(s.rt, a.value);
      forall i | 0 <= i < |r'.sched.threads| ensures ProperCall(r', i) {
        ActionKeepsCall(prog, s, e, a.value, i);
      }
    }
  }

  lemma {:induction false} ActionKeepsCall<M>(prog: Program<M>, s: Rec<M>, e: Choice, a: Action, i: nat)
    requires RecEnabled(prog, s, e) && Inv(s.rt) && CallsOk(s.rt)
    requires ActionOf(prog, s, e) == Some(a) && Enabled(s.rt, a) && i < |Next(s.rt, a).sched.threads|
    ensures ProperCall(Next(s.rt, a), i)
  {
    var r := s.rt;
    if i < |r.sched.threads| {
      assert ProperCall(r, i) && CallerOk(r, i) && ContextOk(r.sched.threads[i]);
    }
    match a
    case DoReap(op, k) => ReapKeepsCall(prog, s, e, i);
    case DoExit(_) => assert WaiterOk(r.sched, r.sched.current);
    case _ =>
  }

  lemma {:induction false} ReapKeepsCall<M>(prog: Program<M>, s: Rec<M>, e: Choice, i: nat)
    requires RecEnabled(prog, s, e) && e.CompleteStep? && Inv(s.rt) && CallsOk(s.rt)
    requires i < |Reap(s.rt, e.op, e.result).sched.threads|
    ensures ProperCall(Reap(s.rt, e.op, e.result), i)
  {
    assert OperationOk(s.rt, e.op);
    if s.rt.inflight[e.op] == SIGNAL_SENTINEL {
      SignalReapKeeps(s.rt, e.op, e.result);
    } else {
      ReapWakesCaller(s.rt, e.op, e.result);
    }
    assert ProperCall(s.rt, i) && CallerOk(s.rt, i);
  }

  // A dispatched caller finds its own completion.
  lemma {:induction false} FrontFinds(r: Rt)
    requires Inv(r) && CallsOk(r) && Enabled(r, DoDispatch)
    ensures FrontRunnable(r.sched)
    ensures var u := r.sched.runq[0]; var ctx := FrontContext(r.sched);
            ctx.InIo? ==>
              && ctx.op in r.completed && FoundResult(r, u, ctx.op) == r.completed[ctx.op]
              && ValidCall(ctx.call) && Suspends(ctx.call) && ValidResult(ctx.call, r.completed[ctx.op])
  {
    var u := r.sched.runq[0];
    assert u in r.sched.runq;
    assert CallerOk(r, u) && ProperCall(r, u);
  }

  lemma {:induction false} FinishKeepsLog<M>(prog: Program<M>, s: Rec<M>, c: Call, k: KernelResult)
    requires LogOk(s) && SchedOk(s.rt.sched) && ValidCall(c) && ValidResult(c, k)
    ensures LogOk(FinishCall(prog, s, c, k))
  {
    var id := CurrentId(s.rt.sched);
    assert s.rt.sched.threads[s.rt.sched.current].id == s.rt.sched.current + 1;
    EmitFits(s.log, id, Logged(c, k));
  }

  lemma {:induction false} ServeKeepsCurrent<M>(prog: Program<M>, l: Local<M>, q: Request)
    requires WellFormed(l.sched) && !q.AskCall?
    ensures CurrentId(Serve(prog, l, q).sched) == CurrentId(l.sched)
  {
  }

  lemma {:induction false} UserKeepsLog<M>(prog: Program<M>, s: Rec<M>, k: KernelResult)
    requires RecEnabled(prog, s, UserStep(k)) && LogOk(s) && SchedOk(s.rt.sched)
    ensures LogOk(RecUser(prog, s, k))
  {
    var q := Ask(prog, View(s));
    if !q.AskCall? {
      ServeKeepsCurrent(prog, View(s), q);
    } else if !Suspends(q.call) {
      FinishKeepsLog(prog, s, q.call, k);
    }
  }

  // The state in which the dispatched uthread gets its answer.
  function AfterSwitch<M>(s: Rec<M>): Rec<M>
    requires WellFormed(s.rt.sched) && s.rt.sched.runq != []
  {
    var sched := s.rt.sched;
    var fromId, toId := CurrentId(sched), FrontId(sched);
    var s1 := WithView(s, SwitchIn(View(s)));
    if fromId == toId then s1 else s1.(log := Emit(s.log, toId, Switch(fromId, toId)))
  }

  lemma {:induction false} SwitchKeepsLog<M>(s: Rec<M>)
    requires LogOk(s) && SchedOk(s.rt.sched) && Enabled(s.rt, DoDispatch)
    ensures LogOk(AfterSwitch(s)) && SchedOk(AfterSwitch(s).rt.sched)
  {
    var sched := s.rt.sched;
    assert sched.runq[0] in sched.runq;
    DispatchKeeps(sched);
    var fromId, toId := CurrentId(sched), FrontId(sched);
    if fromId != toId {
      EmitFits(s.log, toId, Switch(fromId, toId));
    }
  }

  lemma {:induction false} DispatchKeepsLog<M>(prog: Program<M>, s: Rec<M>)
    requires RecEnabled(prog, s, DispatchStep) && RecInv(s)
    ensures LogOk(RecDispatch(prog, s))
  {
    SwitchKeepsLog(s);
    FrontFinds(s.rt);
    var ctx := FrontContext(s.rt.sched);
    if ctx.InIo? {
      FinishKeepsLog(prog, AfterSwitch(s), ctx.call, s.rt.completed[ctx.op]);
    }
  }

  lemma {:induction false} CompleteKeepsLog<M>(prog: Program<M>, s: Rec<M>, op: nat, k: KernelResult, signo: nat)
    requires RecEnabled(prog, s, CompleteStep(op, k, signo)) && RecInv(s)
    ensures LogOk(RecComplete(prog, s, op, k, signo))
  {
    var id := CurrentId(s.rt.sched);
    assert s.rt.sched.threads[s.rt.sched.current].id == s.rt.sched.current + 1;
    if s.rt.inflight[op] == SIGNAL_SENTINEL {
      SignalReapKeeps(s.rt, op, k);
      EmitFits(s.log, id, Signal(signo, id % U32));
    } else {
      ReapWakesCaller(s.rt, op, k);
      CallReapKeeps(s.rt, op, k);
    }
  }

  lemma {:induction false} StepKeeps<M>(prog: Program<M>, s: Rec<M>, e: Choice)
    requires RecEnabled(prog, s, e) && RecInv(s) && |RecNext(prog, s, e).rt.sched.threads| <= MAX_THREADS
    ensures RecInv(RecNext(prog, s, e))
  {
    StepIsRuntimeStep(prog, s, e);
    var a := ActionOf(prog, s, e);
    if a.Some? {
      NextKeeps(s.rt, a.value);
    }
    StepKeepsCalls(prog, s, e);
    match e
    case UserStep(k) => UserKeepsLog(prog, s, k);
    case DispatchStep => DispatchKeepsLog(prog, s);
    case CompleteStep(op, k, signo) => CompleteKeepsLog(prog, s, op, k, signo);
  }

  lemma {:induction false} StartOk<M>(prog: Program<M>)
    ensures RecInv(RecStart(prog))
  {
    InitialStates();
    var log := RecStart(prog).log;
    assert log == [Event(1, 1, Switch(0, 1))];
    assert LastTo(log[..0]) == 0;
  }

  lemma {:induction false} StepAtKeeps<M>(prog: Program<M>, ss: seq<Rec<M>>, es: seq<Choice>, n: nat)
    requires IsRecording(prog, ss, es) && n < |es| && RecInv(ss[n]) && |ss[n + 1].rt.sched.threads| <= MAX_THREADS
    ensures RecInv(ss[n + 1])
  {
    assert RecStepAt(prog, ss, es, n);
    StepKeeps(prog, ss[n], es[n]);
  }

  // Every state of every recording satisfies the invariant.
  lemma {:induction false} RecordingKeeps<M>(prog: Program<M>, ss: seq<Rec<M>>, es: seq<Choice>, n: nat)
    requires Bounded(prog, ss, es) && n < |ss|
    ensures RecInv(ss[n]) && |ss[n].rt.sched.threads| <= MAX_THREADS
  {
    RecordingGrows(prog, ss, es, n);
    if n == 0 {
      StartOk(prog);
    } else {
      RecordingKeeps(prog, ss, es, n - 1);
      StepAtKeeps(prog, ss, es, n - 1);
    }
  }

  lemma {:induction false} RecordingGrows<M>(prog: Program<M>, ss: seq<Rec<M>>, es: seq<Choice>, n: nat)
    requires IsRecording(prog, ss, es) && n < |ss|
    ensures |ss[n].rt.sched.threads| <= |ss[|es|].rt.sched.threads|
    decreases |es| - n
  {
    if n < |es| {
      assert RecStepAt(prog, ss, es, n);
      StepIsRuntimeStep(prog, ss[n], es[n]);
      RecordingGrows(prog, ss, es, n + 1);
    }
  }

  // Every recorded log is well formed: numbered without gaps, starting with the
  // switch 0->1, each switch leaving the uthread the previous one entered, and
  // every call and signal carrying that uthread's id.
  lemma {:induction false} RecordedLogIsWellFormed<M>(prog: Program<M>, ss: seq<Rec<M>>, es: seq<Choice>)
    requires Bounded(prog, ss, es)
    ensures WellFormedLog(ss[|es|].log) && Numbered(ss[|es|].log) && AllValid(ss[|es|].log)
  {
    RecordingKeeps(prog, ss, es, |es|);
    forall i | 0 <= i < |ss[|es|].log| ensures ss[|es|].log[i].seqNo == SeqNo(i) {
      assert EventFits(ss[|es|].log, i);
    }
  }
}
