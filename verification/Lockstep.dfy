// Replay against the recorded log follows the recording: same switches, same
// answers, same memory, for every program and every length of run, exactly up to
// the first call that another uthread or a signal disturbed while it was suspended
// or whose result the log cannot carry.
module Lockstep {
  import opened Events
  import opened Calls
  import opened Runtime
  import opened RuntimeInvariants
  import opened Replayer
  import opened Machines
  import opened Recordings

  predicate InCall(s: Sched, i: nat)
    requires i < |s.threads|
  {
    s.threads[i].ctx.InIo?
  }

  predicate AnyInCall(s: Sched) {
    exists i :: 0 <= i < |s.threads| && InCall(s, i)
  }

  // A step that logs a switch or a signal while some call is suspended.
  predicate Disturbs<M>(prog: Program<M>, s: Rec<M>, e: Choice)
    requires RecEnabled(prog, s, e)
  {
    && AnyInCall(s.rt.sched)
    && match e
       case UserStep(_) => false
       case DispatchStep => CurrentId(s.rt.sched) != FrontId(s.rt.sched)
       case CompleteStep(op, k, _) => LogsSignal(s.rt, op, k)
  }

  // The call a step finishes, with the kernel's result.
  datatype Finished = NoCall | Finishes(call: Call, result: KernelResult)

  function FinishedBy<M>(prog: Program<M>, s: Rec<M>, e: Choice): Finished
    requires RecEnabled(prog, s, e)
  {
    match e
    case UserStep(k) =>
      var q := Ask(prog, View(s));
      if q.AskCall? && !Suspends(q.call) then Finishes(q.call, k) else NoCall
    case DispatchStep =>
      if FrontRunnable(s.rt.sched) && FrontContext(s.rt.sched).InIo? then
        Finishes(FrontContext(s.rt.sched).call,
                 FoundResult(s.rt, s.rt.sched.runq[0], FrontContext(s.rt.sched).op))
      else NoCall
    case CompleteStep(_, _, _) => NoCall
  }

  // A step that finishes a call whose logged image does not give the answer back.
  predicate Loses<M>(prog: Program<M>, s: Rec<M>, e: Choice)
    requires RecEnabled(prog, s, e)
  {
    var f := FinishedBy(prog, s, e);
    f.Finishes? && !Faithful(f.call, f.result)
  }

  predicate Clean<M>(prog: Program<M>, s: Rec<M>, e: Choice)
    requires RecEnabled(prog, s, e)
  {
    !Disturbs(prog, s, e) && !Loses(prog, s, e)
  }

  // The relation -------------------------------------------------------------

  // The scheduler as it was before the current uthread's call suspended it.
  function Unsuspend(s: Sched): Sched
    requires s.current < |s.threads|
  {
    var me := s.threads[s.current];
    s.(threads := s.threads[s.current := me.(state := Running, ctx := Active)],
       runq := if me.state == Runnable then [] else s.runq,
       phase := User)
  }

  // No call is suspended and both runs are in the same state.
  ghost predicate SameState<M>(s: Rec<M>, p: Rep<M>) {
    !AnyInCall(s.rt.sched) && p.local == View(s)
  }

  // The current uthread, and no other, is suspended in a call the replay is about
  // to make.
  ghost predicate BeforeCall<M>(prog: Program<M>, s: Rec<M>, p: Rep<M>) {
    var sched := s.rt.sched;
    && sched.current < |sched.threads| && sched.phase == Scheduler
    && InCall(sched, sched.current)
    && (forall i :: 0 <= i < |sched.threads| && i != sched.current ==> !InCall(sched, i))
    && (sched.threads[sched.current].state == Runnable ==> sched.runq == [sched.current])
    && p.local == View(s).(sched := Unsuspend(sched))
    && prog.next(s.mem, sched.threads[sched.current].id) == AskCall(sched.threads[sched.current].ctx.call)
  }

  ghost predicate Aligned<M>(prog: Program<M>, s: Rec<M>, p: Rep<M>) {
    SameState(s, p) || BeforeCall(prog, s, p)
  }

  // The replay is in front of the event that will be recorded next.
  ghost predicate InStep<M>(s: Rec<M>, p: Rep<M>) {
    SameState(s, p) && p.cursor == At(|s.log|)
  }

  ghost predicate AwaitingCall<M>(prog: Program<M>, s: Rec<M>, p: Rep<M>) {
    BeforeCall(prog, s, p) && p.cursor == At(|s.log|)
  }

  // Nothing can run any more; only signals may still be logged.
  ghost predicate AtRest<M>(s: Rec<M>, p: Rep<M>) {
    SameState(s, p) && s.rt.sched.phase == Scheduler && s.rt.sched.runq == []
  }

  ghost predicate Follows<M>(prog: Program<M>, s: Rec<M>, p: Rep<M>) {
    p.status == Live && (InStep(s, p) || AwaitingCall(prog, s, p) || AtRest(s, p))
  }

  // The log read back holds event k of the recording at its place.
  ghost predicate Provides(log: Reader, evs: seq<Event>, full: seq<Event>) {
    ReadsLog(log, full) && evs <= full
  }

  // Fetching -----------------------------------------------------------------

  lemma {:induction false} FetchesCall(log: Reader, full: seq<Event>, evs: seq<Event>, id: nat, c: Call,
                                       k: KernelResult)
    requires Provides(log, Emit(evs, id, Logged(c, k)), full)
    ensures log.nextSyscall(At(|evs|), Nr(c), id) == CallOk(Logged(c, k), At(|evs| + 1))
  {
  }

  lemma {:induction false} FetchesSwitch(log: Reader, full: seq<Event>, evs: seq<Event>, fromId: nat, toId: nat)
    requires Provides(log, Emit(evs, toId, Switch(fromId, toId)), full)
    ensures log.expectSwitch(At(|evs|), fromId, toId) == SwitchOk(At(|evs| + 1))
  {
  }

  lemma {:induction false} FetchesOther(log: Reader, full: seq<Event>, evs: seq<Event>, id: nat, p: Payload, c: Call,
                                        me: nat)
    requires Provides(log, Emit(evs, id, p), full) && (p.Switch? || p.Signal?)
    ensures log.nextSyscall(At(|evs|), Nr(c), me) == CallBad(EPROTO, At(|evs| + 1))
  {
  }

  // One step -----------------------------------------------------------------

  // A call that does not suspend.
  lemma {:induction false} DirectCallFollows<M>(prog: Program<M>, log: Reader, full: seq<Event>, s: Rec<M>, p: Rep<M>,
                                                k: KernelResult)
    requires RecEnabled(prog, s, UserStep(k)) && InStep(s, p) && p.status == Live
    requires Ask(prog, View(s)).AskCall? && !Suspends(Ask(prog, View(s)).call)
    requires Provides(log, RecUser(prog, s, k).log, full)
    ensures var c := Ask(prog, View(s)).call; var p' := RepNext(prog, log, p);
            && p'.status == Live && p'.cursor == At(|RecUser(prog, s, k).log|)
            && p'.local == Answer(prog, View(s), Returned(ReplayReply(c, Logged(c, k))))
            && (Faithful(c, k) ==> InStep(RecUser(prog, s, k), p'))
  {
    var c := Ask(prog, View(s)).call;
    FetchesCall(log, full, s.log, CurrentId(s.rt.sched), c, k);
    ReplayAgreesIff(c, k);
  }

  // create, yield, join and exit.
  lemma {:induction false} RequestFollows<M>(prog: Program<M>, log: Reader, s: Rec<M>, p: Rep<M>, k: KernelResult)
    requires RecEnabled(prog, s, UserStep(k)) && SameState(s, p) && p.status == Live && SchedOk(s.rt.sched)
    requires !Ask(prog, View(s)).AskCall?
    ensures var s', p' := RecUser(prog, s, k), RepNext(prog, log, p);
            SameState(s', p') && s'.log == s.log && p'.cursor == p.cursor && p'.status == Live
  {
    RequestKeepsCalls(prog, s, k);
  }

  lemma {:induction false} RequestKeepsCalls<M>(prog: Program<M>, s: Rec<M>, k: KernelResult)
    requires RecEnabled(prog, s, UserStep(k)) && !Ask(prog, View(s)).AskCall?
    requires !AnyInCall(s.rt.sched) && SchedOk(s.rt.sched)
    ensures !AnyInCall(RecUser(prog, s, k).rt.sched)
  {
    var s' := RecUser(prog, s, k).rt.sched;
    forall i | 0 <= i < |s'.threads| ensures !InCall(s', i) {
      if i < |s.rt.sched.threads| { assert !InCall(s.rt.sched, i); }
    }
  }

  // A call that suspends: the replay waits in front of it.
  lemma {:induction false} SubmitFollows<M>(prog: Program<M>, s: Rec<M>, p: Rep<M>, k: KernelResult)
    requires RecEnabled(prog, s, UserStep(k)) && SameState(s, p) && SchedOk(s.rt.sched)
    requires Ask(prog, View(s)).AskCall? && Suspends(Ask(prog, View(s)).call)
    ensures BeforeCall(prog, RecUser(prog, s, k), p) && RecUser(prog, s, k).log == s.log
  {
    var sched := s.rt.sched;
    assert !InCall(sched, sched.current);
    assert ContextOk(sched.threads[sched.current]);
    var sched' := RecUser(prog, s, k).rt.sched;
    forall i | 0 <= i < |sched'.threads| && i != sched'.current ensures !InCall(sched', i) {
      assert !InCall(sched, i);
    }
    assert Unsuspend(sched').threads == sched.threads;
  }

  lemma {:induction false} DispatchKeepsCalls<M>(prog: Program<M>, s: Rec<M>)
    requires RecEnabled(prog, s, DispatchStep) && RecInv(s) && !AnyInCall(s.rt.sched)
    ensures FrontRunnable(s.rt.sched) && !FrontContext(s.rt.sched).InIo?
    ensures RecDispatch(prog, s).rt.sched == Dispatch(s.rt.sched) && !AnyInCall(Dispatch(s.rt.sched))
  {
    FrontFinds(s.rt);
    var sched := s.rt.sched;
    assert !InCall(sched, sched.runq[0]);
    forall i | 0 <= i < |sched.threads| ensures !InCall(Dispatch(sched), i) {
      assert !InCall(sched, i);
    }
  }

  // A uthread resumed where it left off, outside calls: neither run touches the log.
  lemma {:induction false} ResumeInPlace<M>(prog: Program<M>, log: Reader, s: Rec<M>, p: Rep<M>)
    requires RecEnabled(prog, s, DispatchStep) && RecInv(s) && SameState(s, p) && p.status == Live
    requires CurrentId(s.rt.sched) == FrontId(s.rt.sched)
    ensures var s', p' := RecDispatch(prog, s), RepNext(prog, log, p);
            SameState(s', p') && s'.log == s.log && p'.cursor == p.cursor && p'.status == Live
  {
    DispatchKeepsCalls(prog, s);
  }

  // A dispatch outside calls.
  lemma {:induction false} SwitchFollows<M>(prog: Program<M>, log: Reader, full: seq<Event>, s: Rec<M>, p: Rep<M>)
    requires RecEnabled(prog, s, DispatchStep) && RecInv(s) && InStep(s, p) && p.status == Live
    requires Provides(log, RecDispatch(prog, s).log, full)
    ensures InStep(RecDispatch(prog, s), RepNext(prog, log, p)) && RepNext(prog, log, p).status == Live
  {
    var fromId, toId := CurrentId(s.rt.sched), FrontId(s.rt.sched);
    if fromId == toId {
      ResumeInPlace(prog, log, s, p);
    } else {
      DispatchKeepsCalls(prog, s);
      FetchesSwitch(log, full, s.log, fromId, toId);
    }
  }

  // A call resumed undisturbed gets the kernel's answer where the replay makes it.
  lemma {:induction false} ResumeAnswers<M>(prog: Program<M>, s: Rec<M>, p: Rep<M>)
    requires RecEnabled(prog, s, DispatchStep) && RecInv(s) && BeforeCall(prog, s, p)
    requires !Disturbs(prog, s, DispatchStep)
    ensures var f := FinishedBy(prog, s, DispatchStep); var s' := RecDispatch(prog, s);
            && f.Finishes? && ValidCall(f.call) && ValidResult(f.call, f.result)
            && WellFormed(p.local.sched) && p.local.sched.phase == User
            && CurrentId(p.local.sched) == CurrentId(s.rt.sched) && Ask(prog, p.local) == AskCall(f.call)
            && !AnyInCall(s'.rt.sched)
            && View(s') == Answer(prog, p.local, Returned(RecordReply(f.call, f.result)))
            && s'.log == Emit(s.log, CurrentId(s.rt.sched), Logged(f.call, f.result))
  {
    var sched := s.rt.sched;
    FrontFinds(s.rt);
    FrontIsCurrent(s.rt);
    assert sched.runq == [sched.current];
    assert Dispatch(sched) == Unsuspend(sched);
    var sched' := RecDispatch(prog, s).rt.sched;
    forall i | 0 <= i < |sched'.threads| ensures !InCall(sched', i) {
      assert i != sched.current ==> !InCall(sched, i);
    }
  }

  lemma {:induction false} ResumeFollows<M>(prog: Program<M>, log: Reader, full: seq<Event>, s: Rec<M>, p: Rep<M>)
    requires RecEnabled(prog, s, DispatchStep) && RecInv(s) && AwaitingCall(prog, s, p) && p.status == Live
    requires !Disturbs(prog, s, DispatchStep)
    requires Provides(log, RecDispatch(prog, s).log, full)
    ensures var f := FinishedBy(prog, s, DispatchStep); var p' := RepNext(prog, log, p);
            && f.Finishes? && ValidCall(f.call) && ValidResult(f.call, f.result)
            && p'.status == Live && p'.cursor == At(|RecDispatch(prog, s).log|)
            && p'.local == Answer(prog, p.local, Returned(ReplayReply(f.call, Logged(f.call, f.result))))
            && View(RecDispatch(prog, s)) == Answer(prog, p.local, Returned(RecordReply(f.call, f.result)))
            && (Faithful(f.call, f.result) ==> InStep(RecDispatch(prog, s), p'))
  {
    ResumeAnswers(prog, s, p);
    var f := FinishedBy(prog, s, DispatchStep);
    FetchesCall(log, full, s.log, CurrentId(s.rt.sched), f.call, f.result);
    ReplayAgreesIff(f.call, f.result);
  }

  // The ids of two uthreads agree only if they are the same uthread.
  lemma {:induction false} FrontIsCurrent(r: Rt)
    requires Inv(r) && Enabled(r, DoDispatch)
    ensures CurrentId(r.sched) == FrontId(r.sched) ==> r.sched.runq[0] == r.sched.current
  {
  }

  // An in-flight operation that is not the signal read belongs to a suspended call.
  lemma {:induction false} CompletionOfCall(r: Rt, op: nat)
    requires Inv(r) && op in r.inflight && r.inflight[op] != SIGNAL_SENTINEL
    ensures 1 <= r.inflight[op] <= |r.sched.threads|
    ensures InCall(r.sched, r.inflight[op] - 1) && AnyInCall(r.sched)
    ensures r.sched.threads[r.inflight[op] - 1].state == Blocked
  {
    assert OperationOk(r, op);
    assert InCall(r.sched, r.inflight[op] - 1);
  }

  // A completion: the replay does not move.
  lemma {:induction false} CompletionFollows<M>(prog: Program<M>, s: Rec<M>, p: Rep<M>, op: nat, k: KernelResult,
                                                signo: nat)
    requires RecEnabled(prog, s, CompleteStep(op, k, signo)) && Inv(s.rt) && Aligned(prog, s, p)
    ensures var s' := RecComplete(prog, s, op, k, signo);
            && (SameState(s, p) ==> SameState(s', p) && s'.rt.sched == s.rt.sched)
            && (BeforeCall(prog, s, p) ==> BeforeCall(prog, s', p))
  {
    if s.rt.inflight[op] == SIGNAL_SENTINEL {
      SignalReapKeeps(s.rt, op, k);
    } else {
      CallCompletes(prog, s, p, op, k, signo);
    }
  }

  lemma {:induction false} CallCompletes<M>(prog: Program<M>, s: Rec<M>, p: Rep<M>, op: nat, k: KernelResult,
                                            signo: nat)
    requires RecEnabled(prog, s, CompleteStep(op, k, signo)) && Inv(s.rt) && Aligned(prog, s, p)
    requires s.rt.inflight[op] != SIGNAL_SENTINEL
    ensures BeforeCall(prog, s, p) && BeforeCall(prog, RecComplete(prog, s, op, k, signo), p)
    ensures !SameState(s, p) && RecComplete(prog, s, op, k, signo).log == s.log
  {
    CompletionOfCall(s.rt, op);
    ReapWakesCaller(s.rt, op, k);
    assert BeforeCall(prog, s, p);
    var sched, sched' := s.rt.sched, RecComplete(prog, s, op, k, signo).rt.sched;
    assert s.rt.inflight[op] - 1 == sched.current;
    assert sched'.runq == [sched.current];
    forall i | 0 <= i < |sched'.threads| && i != sched'.current ensures !InCall(sched', i) {
      assert !InCall(sched, i);
    }
    assert Unsuspend(sched').threads == Unsuspend(sched).threads;
  }

  // One clean step of the recording is at most one step of the replay.
  lemma {:induction false} StepFollows<M>(prog: Program<M>, log: Reader, full: seq<Event>, s: Rec<M>, p: Rep<M>,
                                          e: Choice)
    returns (moved: bool)
    requires WellFormed(p.local.sched)
    requires RecEnabled(prog, s, e) && RecInv(s) && Follows(prog, s, p) && Clean(prog, s, e)
    requires Provides(log, RecNext(prog, s, e).log, full)
    ensures Follows(prog, RecNext(prog, s, e), if moved then RepNext(prog, log, p) else p)
  {
    match e
    case UserStep(k) =>
      assert InStep(s, p);
      var q := Ask(prog, View(s));
      if !q.AskCall? {
        RequestFollows(prog, log, s, p, k);
        moved := true;
      } else if Suspends(q.call) {
        SubmitFollows(prog, s, p, k);
        moved := false;
      } else {
        DirectCallFollows(prog, log, full, s, p, k);
        moved := true;
      }
    case DispatchStep =>
      if InStep(s, p) {
        SwitchFollows(prog, log, full, s, p);
      } else {
        ResumeFollows(prog, log, full, s, p);
      }
      moved := true;
    case CompleteStep(op, k, signo) =>
      CompletionFollows(prog, s, p, op, k, signo);
      if s.rt.inflight[op] != SIGNAL_SENTINEL {
        CallCompletes(prog, s, p, op, k, signo);
      } else if BeforeCall(prog, s, p) {
        assert InCall(s.rt.sched, s.rt.sched.current);
      }
      moved := false;
  }

  // Whole runs ---------------------------------------------------------------

  lemma {:induction false} LogGrows<M>(prog: Program<M>, s: Rec<M>, e: Choice)
    requires RecEnabled(prog, s, e)
    ensures s.log <= RecNext(prog, s, e).log
  {
  }

  lemma {:induction false} RecordingLogGrows<M>(prog: Program<M>, ss: seq<Rec<M>>, es: seq<Choice>, n: nat)
    requires IsRecording(prog, ss, es) && n < |ss|
    ensures ss[n].log <= ss[|es|].log
    decreases |es| - n
  {
    if n < |es| {
      assert RecStepAt(prog, ss, es, n);
      LogGrows(prog, ss[n], es[n]);
      RecordingLogGrows(prog, ss, es, n + 1);
    }
  }

  ghost predicate CleanAt<M>(prog: Program<M>, ss: seq<Rec<M>>, es: seq<Choice>, i: nat) {
    RecStepAt(prog, ss, es, i) && Clean(prog, ss[i], es[i])
  }

  ghost predicate CleanUpTo<M>(prog: Program<M>, ss: seq<Rec<M>>, es: seq<Choice>, n: nat) {
    && IsRecording(prog, ss, es) && n <= |es|
    && forall i :: 0 <= i < n ==> CleanAt(prog, ss, es, i)
  }

  lemma {:induction false} StartFollows<M>(prog: Program<M>, log: Reader, full: seq<Event>)
    requires Provides(log, RecStart(prog).log, full)
    ensures Follows(prog, RecStart(prog), RepStart(prog, log))
  {
  }

  // run gives the states of the replay, one after the other.
  ghost predicate IsReplay<M>(prog: Program<M>, log: Reader, run: nat -> Rep<M>) {
    run(0) == RepStart(prog, log) && forall n: nat :: RepStepAt(prog, log, run, n)
  }

  ghost predicate RepStepAt<M>(prog: Program<M>, log: Reader, run: nat -> Rep<M>, n: nat) {
    WellFormed(run(n).local.sched) && run(n + 1) == RepNext(prog, log, run(n))
  }

  function RunOf<M>(prog: Program<M>, log: Reader): nat -> Rep<M> {
    (n: nat) => Replayed(prog, log, n)
  }

  lemma {:induction false} ReplayedIsReplay<M>(prog: Program<M>, log: Reader)
    ensures IsReplay(prog, log, RunOf(prog, log))
  {
  }

  // As long as the recording is clean, and the log read back holds its events so far,
  // the replay follows it.
  lemma {:induction false} CleanRunFollows<M>(prog: Program<M>, log: Reader, full: seq<Event>, run: nat -> Rep<M>,
                                              ss: seq<Rec<M>>, es: seq<Choice>, n: nat)
    returns (m: nat)
    requires CleanUpTo(prog, ss, es, n) && Bounded(prog, ss, es)
    requires Provides(log, ss[n].log, full) && IsReplay(prog, log, run)
    ensures Follows(prog, ss[n], run(m))
  {
    if n == 0 {
      m := 0;
      StartFollows(prog, log, full);
    } else {
      assert CleanAt(prog, ss, es, n - 1);
      LogGrows(prog, ss[n - 1], es[n - 1]);
      m := CleanRunFollows(prog, log, full, run, ss, es, n - 1);
      RecordingKeeps(prog, ss, es, n - 1);
      assert RepStepAt(prog, log, run, m);
      var moved := StepFollows(prog, log, full, ss[n - 1], run(m), es[n - 1]);
      if moved {
        m := m + 1;
      }
    }
  }
}
