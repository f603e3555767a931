// What happens after a signal was logged during a suspended call. The replay finds
// the signal in place of the call's event and answers EPROTO. If the kernel answered
// EPROTO too, nobody notices, but from then on the replay reads the log too early:
// it answers EPROTO to every call and fails at the first switch.
module Lagging {
  import opened Events
  import opened Calls
  import opened Runtime
  import opened Replayer
  import opened Machines
  import opened Recordings
  import opened Lockstep

  // An event a lagging replay may find: a signal, or a call that failed with EPROTO.
  predicate Leftover(ev: Event) {
    ev.payload.Signal? || (ev.payload.Syscall? && ev.payload.retval == -EPROTO)
  }

  // The cursor is in front of event q, and only such events are left from there.
  ghost predicate Behind(evs: seq<Event>, c: Cursor, q: nat) {
    q < |evs| && c == At(q) && forall k :: q <= k < |evs| ==> Leftover(evs[k])
  }

  ghost predicate Lags<M>(prog: Program<M>, s: Rec<M>, p: Rep<M>, q: nat) {
    p.status == Live && Aligned(prog, s, p) && Behind(s.log, p.cursor, q)
  }

  // The step shows no switch, and a call it finishes failed with EPROTO.
  predicate Echoes<M>(prog: Program<M>, s: Rec<M>, e: Choice)
    requires RecEnabled(prog, s, e)
  {
    var f := FinishedBy(prog, s, e);
    && (e.DispatchStep? ==> CurrentId(s.rt.sched) == FrontId(s.rt.sched))
    && (f.Finishes? ==> f.result.raw == -EPROTO && !f.call.Getpid? && !f.call.Getuid?)
  }

  // The recording gives the answer of a failed replay exactly if the kernel reported
  // EPROTO to a call that can fail.
  lemma {:induction false} EchoIff(c: Call, k: KernelResult)
    requires ValidCall(c) && ValidResult(c, k)
    ensures RecordReply(c, k) == ReplayFailure(c, EPROTO)
            <==> k.raw == -EPROTO && !c.Getpid? && !c.Getuid?
    ensures k.raw == -EPROTO && !c.Getuid? ==> Logged(c, k).retval == -EPROTO
  {
  }

  // Whichever such event a call finds, it is answered as if the replay had failed.
  lemma {:induction false} LeftoverAnswer<M>(prog: Program<M>, log: Reader, full: seq<Event>, evs: seq<Event>,
                                             p: Rep<M>, q: nat)
    requires p.status == Live && WellFormed(p.local.sched) && p.local.sched.phase == User
    requires Ask(prog, p.local).AskCall? && Provides(log, evs, full) && Behind(evs, p.cursor, q)
    ensures var p' := RepNext(prog, log, p);
            && p'.status == Live && p'.cursor == At(q + 1)
            && p'.local == Answer(prog, p.local, Returned(ReplayFailure(Ask(prog, p.local).call, EPROTO)))
  {
    assert full[q] == evs[q];
    assert Leftover(evs[q]);
  }

  // The log grows by a call that failed with EPROTO while the replay consumes an event.
  lemma {:induction false} StillBehind(evs: seq<Event>, q: nat, id: nat, c: Call, k: KernelResult)
    requires Behind(evs, At(q), q) && ValidCall(c) && ValidResult(c, k) && k.raw == -EPROTO && !c.Getuid?
    ensures Behind(Emit(evs, id, Logged(c, k)), At(q + 1), q + 1)
  {
    EchoIff(c, k);
  }

  // One step -----------------------------------------------------------------

  lemma {:induction false} UserLags<M>(prog: Program<M>, log: Reader, full: seq<Event>, s: Rec<M>, p: Rep<M>,
                                       k: KernelResult, q: nat)
    returns (moved: bool, q': nat)
    requires WellFormed(p.local.sched)
    requires RecEnabled(prog, s, UserStep(k)) && RecInv(s) && Lags(prog, s, p, q) && Echoes(prog, s, UserStep(k))
    requires Provides(log, RecUser(prog, s, k).log, full)
    ensures Lags(prog, RecUser(prog, s, k), if moved then RepNext(prog, log, p) else p, q')
  {
    var a := Ask(prog, View(s));
    moved, q' := true, q;
    if !a.AskCall? {
      RequestFollows(prog, log, s, p, k);
    } else if Suspends(a.call) {
      SubmitFollows(prog, s, p, k);
      moved := false;
    } else {
      LeftoverAnswer(prog, log, full, s.log, p, q);
      EchoIff(a.call, k);
      StillBehind(s.log, q, CurrentId(s.rt.sched), a.call, k);
      q' := q + 1;
    }
  }

  lemma {:induction false} DispatchLags<M>(prog: Program<M>, log: Reader, full: seq<Event>, s: Rec<M>, p: Rep<M>,
                                           q: nat)
    returns (q': nat)
    requires WellFormed(p.local.sched)
    requires RecEnabled(prog, s, DispatchStep) && RecInv(s) && Lags(prog, s, p, q) && Echoes(prog, s, DispatchStep)
    requires Provides(log, RecDispatch(prog, s).log, full)
    ensures Lags(prog, RecDispatch(prog, s), RepNext(prog, log, p), q')
  {
    q' := q;
    if SameState(s, p) {
      ResumeInPlace(prog, log, s, p);
    } else {
      ResumeAnswers(prog, s, p);
      var f := FinishedBy(prog, s, DispatchStep);
      LeftoverAnswer(prog, log, full, s.log, p, q);
      EchoIff(f.call, f.result);
      StillBehind(s.log, q, CurrentId(s.rt.sched), f.call, f.result);
      q' := q + 1;
    }
  }

  lemma {:induction false} CompletionLags<M>(prog: Program<M>, s: Rec<M>, p: Rep<M>, op: nat, k: KernelResult,
                                             signo: nat, q: nat)
    requires RecEnabled(prog, s, CompleteStep(op, k, signo)) && RecInv(s) && Lags(prog, s, p, q)
    ensures Lags(prog, RecComplete(prog, s, op, k, signo), p, q)
  {
    CompletionFollows(prog, s, p, op, k, signo);
  }

  // A step that shows no switch and no answer but EPROTO keeps the replay lagging.
  lemma {:induction false} StepLags<M>(prog: Program<M>, log: Reader, full: seq<Event>, s: Rec<M>, p: Rep<M>,
                                       e: Choice, q: nat)
    returns (moved: bool, q': nat)
    requires WellFormed(p.local.sched)
    requires RecEnabled(prog, s, e) && RecInv(s) && Lags(prog, s, p, q) && Echoes(prog, s, e)
    requires Provides(log, RecNext(prog, s, e).log, full)
    ensures Lags(prog, RecNext(prog, s, e), if moved then RepNext(prog, log, p) else p, q')
  {
    match e
    case UserStep(k) =>
      moved, q' := UserLags(prog, log, full, s, p, k, q);
    case DispatchStep =>
      q' := DispatchLags(prog, log, full, s, p, q);
      moved := true;
    case CompleteStep(op, k, signo) =>
      CompletionLags(prog, s, p, op, k, signo, q);
      moved, q' := false, q;
  }

  // The step that ends it ----------------------------------------------------

  // The replay shows x where the recording shows y, or stops for good.
  ghost predicate Parts<M>(shown: seq<Observation>, s': Rec<M>, p': Rep<M>) {
    && shown < s'.trace
    && (if p'.status == Aborted then p'.local.trace == shown
        else shown < p'.local.trace && p'.local.trace[|shown|] != s'.trace[|shown|])
  }

  // A call of the recording that got anything else than EPROTO.
  lemma {:induction false} AnswerParts<M>(prog: Program<M>, log: Reader, full: seq<Event>, s: Rec<M>, s': Rec<M>,
                                          p: Rep<M>, q: nat, c: Call, k: KernelResult)
    requires p.status == Live && WellFormed(p.local.sched) && p.local.sched.phase == User
    requires Ask(prog, p.local) == AskCall(c) && ValidCall(c) && ValidResult(c, k)
    requires !(k.raw == -EPROTO && !c.Getpid? && !c.Getuid?)
    requires Provides(log, s.log, full) && Behind(s.log, p.cursor, q) && p.local.trace == s.trace
    requires View(s') == Answer(prog, p.local, Returned(RecordReply(c, k)))
    ensures Parts(s.trace, s', RepNext(prog, log, p))
  {
    LeftoverAnswer(prog, log, full, s.log, p, q);
    EchoIff(c, k);
  }

  lemma {:induction false} SwitchParts<M>(prog: Program<M>, log: Reader, full: seq<Event>, s: Rec<M>, p: Rep<M>, q: nat)
    requires WellFormed(p.local.sched)
    requires RecEnabled(prog, s, DispatchStep) && RecInv(s) && Lags(prog, s, p, q)
    requires CurrentId(s.rt.sched) != FrontId(s.rt.sched)
    requires Provides(log, s.log, full)
    ensures Parts(s.trace, RecDispatch(prog, s), RepNext(prog, log, p))
  {
    SwitchShows(prog, s);
    if SameState(s, p) {
      assert full[q] == s.log[q] && Leftover(s.log[q]);
    } else {
      LeftoverAnswer(prog, log, full, s.log, p, q);
    }
  }

  lemma {:induction false} SwitchShows<M>(prog: Program<M>, s: Rec<M>)
    requires RecEnabled(prog, s, DispatchStep) && RecInv(s) && CurrentId(s.rt.sched) != FrontId(s.rt.sched)
    ensures FrontRunnable(s.rt.sched)
    ensures s.trace + [Switched(CurrentId(s.rt.sched), FrontId(s.rt.sched))] <= RecDispatch(prog, s).trace
  {
    FrontFinds(s.rt);
  }

  lemma {:induction false} StepParts<M>(prog: Program<M>, log: Reader, full: seq<Event>, s: Rec<M>, p: Rep<M>,
                                        e: Choice, q: nat)
    requires WellFormed(p.local.sched)
    requires RecEnabled(prog, s, e) && RecInv(s) && Lags(prog, s, p, q) && !Echoes(prog, s, e)
    requires Provides(log, s.log, full)
    ensures p.local.trace == s.trace && Parts(s.trace, RecNext(prog, s, e), RepNext(prog, log, p))
  {
    var f := FinishedBy(prog, s, e);
    if e.DispatchStep? && CurrentId(s.rt.sched) != FrontId(s.rt.sched) {
      SwitchParts(prog, log, full, s, p, q);
    } else if e.DispatchStep? {
      FrontFinds(s.rt);
      assert InCall(s.rt.sched, s.rt.sched.runq[0]);
      ResumeAnswers(prog, s, p);
      AnswerParts(prog, log, full, s, RecNext(prog, s, e), p, q, f.call, f.result);
    } else {
      AnswerParts(prog, log, full, s, RecNext(prog, s, e), p, q, f.call, f.result);
    }
  }
}
