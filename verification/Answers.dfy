// What a recorded program is told: a created id names the new uthread, a join
// returns the value its target exited with, and a call returns the kernel's answer
// to that very call, over every recording.
module Answers {
  import opened Words
  import opened Calls
  import opened Runtime
  import opened RuntimeInvariants
  import opened Guarantees
  import opened Effects
  import opened Machines
  import opened Recordings

  // Step n ends with this answer to the uthread that is then current.
  ghost predicate Answers<M>(ss: seq<Rec<M>>, n: nat, reply: Reply) {
    && n + 1 < |ss| && WellFormed(ss[n + 1].rt.sched)
    && |ss[n].trace| < |ss[n + 1].trace|
    && ss[n + 1].trace[|ss[n + 1].trace| - 1] == Replied(CurrentId(ss[n + 1].rt.sched), reply)
  }

  // create -------------------------------------------------------------------

  // The id create returns is new and finds the new uthread, which is queued last.
  lemma {:induction false} CreatedIdIsNew<M>(prog: Program<M>, ss: seq<Rec<M>>, es: seq<Choice>, n: nat, id: nat)
    requires Bounded(prog, ss, es) && RecStepAt(prog, ss, es, n) && Answers(ss, n, Created(id))
    ensures var s, s' := ss[n].rt.sched, ss[n + 1].rt.sched;
            && Find(s.threads, id) == None
            && Find(s'.threads, id) == Some(|s.threads|)
            && s'.threads[|s.threads|].state == Runnable && s'.threads[|s.threads|].ctx == Fresh
            && s'.runq == s.runq + [|s.threads|]
  {
    IdsAt(prog, ss, es, n);
    IdsAt(prog, ss, es, n + 1);
    CreatedAt(prog, ss, es, n, id);
    NewIdIsNew(ss[n].rt.sched);
  }

  lemma {:induction false} IdsAt<M>(prog: Program<M>, ss: seq<Rec<M>>, es: seq<Choice>, n: nat)
    requires Bounded(prog, ss, es) && n < |ss|
    ensures IdsOk(ss[n].rt.sched)
  {
    RecordingKeeps(prog, ss, es, n);
  }

  lemma {:induction false} CreatedAt<M>(prog: Program<M>, ss: seq<Rec<M>>, es: seq<Choice>, n: nat, id: nat)
    requires Bounded(prog, ss, es) && RecStepAt(prog, ss, es, n) && Answers(ss, n, Created(id))
    ensures ss[n + 1].rt.sched == Create(ss[n].rt.sched) && id == ss[n].rt.sched.nextId
  {
    RecordingKeeps(prog, ss, es, n);
    CreatedStep(prog, ss[n], es[n], id);
  }

  lemma {:induction false} NewIdIsNew(s: Sched)
    requires IdsOk(s) && IdsOk(Create(s))
    ensures Find(s.threads, s.nextId) == None && Find(Create(s).threads, s.nextId) == Some(|s.threads|)
  {
  }

  lemma {:induction false} CreatedStep<M>(prog: Program<M>, s: Rec<M>, e: Choice, id: nat)
    requires RecEnabled(prog, s, e) && RecInv(s) && Answers([s, RecNext(prog, s, e)], 0, Created(id))
    ensures RecNext(prog, s, e).rt.sched == Create(s.rt.sched) && id == s.rt.sched.nextId
  {
    match e
    case UserStep(_) =>
    case DispatchStep => FrontFinds(s.rt);
    case CompleteStep(_, _, _) =>
  }

  // join ---------------------------------------------------------------------

  // The uthread in slot t asks for its exit with v in step i.
  predicate ExitsAt<M>(prog: Program<M>, ss: seq<Rec<M>>, es: seq<Choice>, i: nat, t: nat, v: int) {
    && i < |es| && i < |ss| && WellFormed(ss[i].rt.sched)
    && es[i].UserStep? && ss[i].rt.sched.phase == User && ss[i].rt.sched.current == t
    && Ask(prog, View(ss[i])) == AskExit(v)
  }

  lemma {:induction false} StepToDone<M>(prog: Program<M>, s: Rec<M>, e: Choice, t: nat)
    requires RecEnabled(prog, s, e) && Inv(s.rt) && t < |RecNext(prog, s, e).rt.sched.threads|
    requires RecNext(prog, s, e).rt.sched.threads[t].state == Done
    ensures t < |s.rt.sched.threads|
    ensures s.rt.sched.threads[t].state == Done ==>
              RecNext(prog, s, e).rt.sched.threads[t].retval == s.rt.sched.threads[t].retval
    ensures s.rt.sched.threads[t].state != Done ==>
              ExitsAt(prog, [s], [e], 0, t, RecNext(prog, s, e).rt.sched.threads[t].retval)
  {
    StepIsRuntimeStep(prog, s, e);
    var a := ActionOf(prog, s, e);
    if a.Some? {
      BecomesDone(s.rt, a.value, t);
      if s.rt.sched.threads[t].state == Done {
        DoneStays(s.rt, a.value, t);
      }
    }
  }

  // A DONE uthread has asked for its exit with the value it holds.
  lemma {:induction false} DoneMeansExited<M>(prog: Program<M>, ss: seq<Rec<M>>, es: seq<Choice>, t: nat, n: nat)
    returns (i: nat)
    requires Bounded(prog, ss, es) && n < |ss| && t < |ss[n].rt.sched.threads|
    requires ss[n].rt.sched.threads[t].state == Done
    ensures i < n && ExitsAt(prog, ss, es, i, t, ss[n].rt.sched.threads[t].retval)
  {
    DoneAt(prog, ss, es, t, n);
    if ss[n - 1].rt.sched.threads[t].state == Done {
      i := DoneMeansExited(prog, ss, es, t, n - 1);
    } else {
      i := n - 1;
    }
  }

  lemma {:induction false} DoneAt<M>(prog: Program<M>, ss: seq<Rec<M>>, es: seq<Choice>, t: nat, n: nat)
    requires Bounded(prog, ss, es) && n < |ss| && t < |ss[n].rt.sched.threads|
    requires ss[n].rt.sched.threads[t].state == Done
    ensures n > 0 && t < |ss[n - 1].rt.sched.threads|
    ensures if ss[n - 1].rt.sched.threads[t].state == Done
            then ss[n - 1].rt.sched.threads[t].retval == ss[n].rt.sched.threads[t].retval
            else ExitsAt(prog, ss, es, n - 1, t, ss[n].rt.sched.threads[t].retval)
  {
    assert n > 0;
    InvAt(prog, ss, es, n - 1);
    assert RecStepAt(prog, ss, es, n - 1);
    StepToDone(prog, ss[n - 1], es[n - 1], t);
  }

  // From the step after its exit on, a uthread is DONE with that value and never runs.
  lemma {:induction false} NeverRunsAgain<M>(prog: Program<M>, ss: seq<Rec<M>>, es: seq<Choice>, i: nat, j: nat,
                                             t: nat, v: int)
    requires Bounded(prog, ss, es) && i < j < |ss| && ExitsAt(prog, ss, es, i, t, v)
    ensures Over(ss[j].rt.sched, t, v)
  {
    if i == j - 1 {
      ExitedAt(prog, ss, es, i, t, v);
    } else {
      NeverRunsAgain(prog, ss, es, i, j - 1, t, v);
      StaysDoneAt(prog, ss, es, j - 1, t, v);
    }
  }

  // The uthread in slot t is DONE with value v and does not run.
  predicate Over(s: Sched, t: nat, v: int) {
    && t < |s.threads| && s.threads[t].state == Done && s.threads[t].retval == v
    && !(s.phase == User && s.current == t)
  }

  lemma {:induction false} InvAt<M>(prog: Program<M>, ss: seq<Rec<M>>, es: seq<Choice>, n: nat)
    requires Bounded(prog, ss, es) && n < |ss|
    ensures Inv(ss[n].rt)
  {
    RecordingKeeps(prog, ss, es, n);
  }

  lemma {:induction false} ExitedAt<M>(prog: Program<M>, ss: seq<Rec<M>>, es: seq<Choice>, i: nat, t: nat, v: int)
    requires Bounded(prog, ss, es) && ExitsAt(prog, ss, es, i, t, v)
    ensures Over(ss[i + 1].rt.sched, t, v)
  {
    InvAt(prog, ss, es, i);
    assert RecStepAt(prog, ss, es, i);
    ExitStep(prog, ss[i], es[i], v);
  }

  lemma {:induction false} StaysDoneAt<M>(prog: Program<M>, ss: seq<Rec<M>>, es: seq<Choice>, i: nat, t: nat, v: int)
    requires Bounded(prog, ss, es) && i < |es| && Over(ss[i].rt.sched, t, v)
    ensures Over(ss[i + 1].rt.sched, t, v)
  {
    InvAt(prog, ss, es, i);
    assert RecStepAt(prog, ss, es, i);
    DoneStep(prog, ss[i], es[i], t);
  }

  lemma {:induction false} ExitStep<M>(prog: Program<M>, s: Rec<M>, e: Choice, v: int)
    requires RecEnabled(prog, s, e) && Inv(s.rt) && e.UserStep? && Ask(prog, View(s)) == AskExit(v)
    ensures var s' := RecNext(prog, s, e).rt.sched; var t := s.rt.sched.current;
            t < |s'.threads| && s'.threads[t].state == Done && s'.threads[t].retval == v && s'.phase == Scheduler
  {
    StepIsRuntimeStep(prog, s, e);
    ExitEnds(s.rt, v);
  }

  lemma {:induction false} DoneStep<M>(prog: Program<M>, s: Rec<M>, e: Choice, t: nat)
    requires RecEnabled(prog, s, e) && Inv(s.rt) && t < |s.rt.sched.threads| && s.rt.sched.threads[t].state == Done
    requires !(s.rt.sched.phase == User && s.rt.sched.current == t)
    ensures var s' := RecNext(prog, s, e).rt.sched;
            && t < |s'.threads| && s'.threads[t].state == Done && s'.threads[t].retval == s.rt.sched.threads[t].retval
            && !(s'.phase == User && s'.current == t)
  {
    StepIsRuntimeStep(prog, s, e);
    var a := ActionOf(prog, s, e);
    if a.Some? {
      NextGrows(s.rt, a.value);
      DoneStays(s.rt, a.value, t);
    }
  }

  // The slot the answered join was on: asked for now, or waited for since.
  predicate JoinOn<M>(prog: Program<M>, s: Rec<M>, e: Choice, t: nat)
    requires RecEnabled(prog, s, e)
  {
    match e
    case UserStep(_) => Ask(prog, View(s)) == AskJoin(t + 1)
    case DispatchStep => s.rt.sched.runq[0] < |s.rt.sched.threads| && FrontContext(s.rt.sched) == InJoin(t)
    case CompleteStep(_, _, _) => false
  }

  lemma {:induction false} JoinedStep<M>(prog: Program<M>, s: Rec<M>, e: Choice, v: int) returns (t: nat)
    requires RecEnabled(prog, s, e) && RecInv(s) && Answers([s, RecNext(prog, s, e)], 0, Joined(v))
    ensures JoinOn(prog, s, e, t) && t < |s.rt.sched.threads|
    ensures s.rt.sched.threads[t].state == Done && s.rt.sched.threads[t].retval == v
  {
    match e
    case UserStep(k) => t := JoinedNow(prog, s, k, v);
    case DispatchStep => t := JoinedLater(prog, s, v);
    case CompleteStep(_, _, _) =>
  }

  lemma {:induction false} JoinedNow<M>(prog: Program<M>, s: Rec<M>, k: KernelResult, v: int) returns (t: nat)
    requires RecEnabled(prog, s, UserStep(k)) && RecInv(s) && Answers([s, RecUser(prog, s, k)], 0, Joined(v))
    ensures Ask(prog, View(s)) == AskJoin(t + 1) && t < |s.rt.sched.threads|
    ensures s.rt.sched.threads[t].state == Done && s.rt.sched.threads[t].retval == v
  {
    var id := Ask(prog, View(s)).id;
    FindById(s.rt.sched, id);
    t := id - 1;
  }

  lemma {:induction false} JoinedLater<M>(prog: Program<M>, s: Rec<M>, v: int) returns (t: nat)
    requires RecEnabled(prog, s, DispatchStep) && RecInv(s) && Answers([s, RecDispatch(prog, s)], 0, Joined(v))
    ensures JoinOn(prog, s, DispatchStep, t) && t < |s.rt.sched.threads|
    ensures s.rt.sched.threads[t].state == Done && s.rt.sched.threads[t].retval == v
  {
    FrontFinds(s.rt);
    t := FrontContext(s.rt.sched).target;
    assert JoinerOk(s.rt.sched, s.rt.sched.runq[0]);
  }

  // The uthread in slot u asked for the join on slot t in step i.
  predicate JoinAskedAt<M>(prog: Program<M>, ss: seq<Rec<M>>, es: seq<Choice>, i: nat, u: nat, t: nat) {
    && i < |es| && i < |ss| && WellFormed(ss[i].rt.sched)
    && es[i].UserStep? && ss[i].rt.sched.current == u && Ask(prog, View(ss[i])) == AskJoin(t + 1)
  }

  // A uthread waiting in a join, or woken from it, asked for that very join itself.
  lemma {:induction false} JoinAskedByWaiter<M>(prog: Program<M>, ss: seq<Rec<M>>, es: seq<Choice>, n: nat, u: nat)
    returns (i: nat)
    requires Bounded(prog, ss, es) && n < |ss| && u < |ss[n].rt.sched.threads|
    requires ss[n].rt.sched.threads[u].ctx.InJoin?
    ensures i < n && JoinAskedAt(prog, ss, es, i, u, ss[n].rt.sched.threads[u].ctx.target)
  {
    JoinContextAt(prog, ss, es, n, u);
    if JoinAskedAt(prog, ss, es, n - 1, u, ss[n].rt.sched.threads[u].ctx.target) {
      i := n - 1;
    } else {
      i := JoinAskedByWaiter(prog, ss, es, n - 1, u);
    }
  }

  lemma {:induction false} JoinContextAt<M>(prog: Program<M>, ss: seq<Rec<M>>, es: seq<Choice>, n: nat, u: nat)
    requires Bounded(prog, ss, es) && n < |ss| && u < |ss[n].rt.sched.threads|
    requires ss[n].rt.sched.threads[u].ctx.InJoin?
    ensures n > 0
    ensures var ctx := ss[n].rt.sched.threads[u].ctx;
            || JoinAskedAt(prog, ss, es, n - 1, u, ctx.target)
            || (u < |ss[n - 1].rt.sched.threads| && ss[n - 1].rt.sched.threads[u].ctx == ctx)
  {
    assert n > 0;
    InvAt(prog, ss, es, n - 1);
    assert RecStepAt(prog, ss, es, n - 1);
    JoinContextStep(prog, ss[n - 1], es[n - 1], u);
  }

  lemma {:induction false} JoinContextStep<M>(prog: Program<M>, s: Rec<M>, e: Choice, u: nat)
    requires RecEnabled(prog, s, e) && Inv(s.rt) && u < |RecNext(prog, s, e).rt.sched.threads|
    requires RecNext(prog, s, e).rt.sched.threads[u].ctx.InJoin?
    ensures var ctx := RecNext(prog, s, e).rt.sched.threads[u].ctx;
            || JoinAskedAt(prog, [s], [e], 0, u, ctx.target)
            || (u < |s.rt.sched.threads| && s.rt.sched.threads[u].ctx == ctx)
  {
    StepIsRuntimeStep(prog, s, e);
    var a := ActionOf(prog, s, e);
    if a.Some? {
      KeepsJoinContext(s.rt, a.value, u);
    }
  }

  // The uthread answered in step n asked for the join on slot t in step a.
  predicate JoinAsked<M>(prog: Program<M>, ss: seq<Rec<M>>, es: seq<Choice>, n: nat, a: nat, t: nat) {
    && a <= n < |es| && n < |ss| && WellFormed(ss[n].rt.sched)
    && if es[n].UserStep? then a == n && JoinAskedAt(prog, ss, es, n, ss[n].rt.sched.current, t)
       else && es[n].DispatchStep? && ss[n].rt.sched.runq != []
            && JoinAskedAt(prog, ss, es, a, ss[n].rt.sched.runq[0], t)
  }

  // A join that succeeds does so after its target exited, and returns the value of
  // that exit to the uthread that asked for it, although join does not look at the
  // target again when it is woken.
  lemma {:induction false} JoinReturnsExitValue<M>(prog: Program<M>, ss: seq<Rec<M>>, es: seq<Choice>, n: nat, v: int)
    returns (t: nat, a: nat, i: nat)
    requires Bounded(prog, ss, es) && RecStepAt(prog, ss, es, n) && Answers(ss, n, Joined(v))
    ensures JoinAsked(prog, ss, es, n, a, t) && i < n && ExitsAt(prog, ss, es, i, t, v)
  {
    RecordingKeeps(prog, ss, es, n);
    t := JoinedStep(prog, ss[n], es[n], v);
    i := DoneMeansExited(prog, ss, es, t, n);
    a := n;
    if es[n].DispatchStep? {
      a := JoinAskedByWaiter(prog, ss, es, n, ss[n].rt.sched.runq[0]);
    }
  }

  // calls --------------------------------------------------------------------

  // The caller's operation was reaped in the last step, with its result in io_result.
  predicate Woke(r: Rt, e: Choice, u: nat)
    requires u < |r.sched.threads|
  {
    && e.CompleteStep? && r.sched.threads[u].ctx.InIo? && e.op == r.sched.threads[u].ctx.op
    && u < |r.io| && r.io[u] == e.result.raw
    && e.op in r.completed && r.completed[e.op] == e.result
    && r.sched.runq == [u] && r.sched.phase == Scheduler
  }

  // A caller is runnable again exactly between its completion and its dispatch:
  // the step before reaped its operation, and it is alone in the queue.
  lemma {:induction false} WokenByItsCompletion<M>(prog: Program<M>, ss: seq<Rec<M>>, es: seq<Choice>, n: nat, u: nat)
    requires Bounded(prog, ss, es) && n < |ss| && u < |ss[n].rt.sched.threads|
    requires ss[n].rt.sched.threads[u].state == Runnable && ss[n].rt.sched.threads[u].ctx.InIo?
    ensures n > 0 && Woke(ss[n].rt, es[n - 1], u)
  {
    WokenAt(prog, ss, es, n, u);
    if !es[n - 1].CompleteStep? {
      WokenByItsCompletion(prog, ss, es, n - 1, u);
      assert false;
    }
  }

  // The caller was runnable before and not about to be dispatched.
  predicate WasWaiting(s: Sched, u: nat) {
    && u < |s.threads| && s.threads[u].state == Runnable && s.threads[u].ctx.InIo?
    && !(s.phase == Scheduler && s.runq == [u])
  }

  lemma {:induction false} WokenAt<M>(prog: Program<M>, ss: seq<Rec<M>>, es: seq<Choice>, n: nat, u: nat)
    requires Bounded(prog, ss, es) && n < |ss| && u < |ss[n].rt.sched.threads|
    requires ss[n].rt.sched.threads[u].state == Runnable && ss[n].rt.sched.threads[u].ctx.InIo?
    ensures n > 0
    ensures if es[n - 1].CompleteStep? then Woke(ss[n].rt, es[n - 1], u) else WasWaiting(ss[n - 1].rt.sched, u)
  {
    assert n > 0;
    InvAt(prog, ss, es, n - 1);
    assert RecStepAt(prog, ss, es, n - 1);
    WokenStep(prog, ss[n - 1], es[n - 1], u);
  }

  // A step that leaves a caller runnable reaped its operation, or found it runnable
  // already and did not find it alone in front of the scheduler.
  lemma {:induction false} WokenStep<M>(prog: Program<M>, s: Rec<M>, e: Choice, u: nat)
    requires RecEnabled(prog, s, e) && Inv(s.rt)
    requires var r' := RecNext(prog, s, e).rt;
             u < |r'.sched.threads| && r'.sched.threads[u].state == Runnable && r'.sched.threads[u].ctx.InIo?
    ensures if e.CompleteStep? then Woke(RecNext(prog, s, e).rt, e, u) else WasWaiting(s.rt.sched, u)
  {
    StepIsRuntimeStep(prog, s, e);
    if e.CompleteStep? {
      ReapWakesAlone(s.rt, e.op, e.result, u);
    } else {
      var a := ActionOf(prog, s, e);
      if a.Some? {
        StillWaiting(s.rt, a.value, u);
      }
    }
  }

  // The uthread in slot u asked for the call it is now in with step i.
  predicate SubmittedAt<M>(prog: Program<M>, ss: seq<Rec<M>>, es: seq<Choice>, i: nat, u: nat, ctx: Context) {
    && i < |es| && i < |ss| && WellFormed(ss[i].rt.sched) && ctx.InIo?
    && es[i].UserStep? && ss[i].rt.sched.current == u
    && Ask(prog, View(ss[i])) == AskCall(ctx.call) && ss[i].rt.nextOp == ctx.op
  }

  lemma {:induction false} SubmittedByCaller<M>(prog: Program<M>, ss: seq<Rec<M>>, es: seq<Choice>, n: nat, u: nat)
    returns (i: nat)
    requires Bounded(prog, ss, es) && n < |ss| && u < |ss[n].rt.sched.threads|
    requires ss[n].rt.sched.threads[u].ctx.InIo?
    ensures i < n && SubmittedAt(prog, ss, es, i, u, ss[n].rt.sched.threads[u].ctx)
  {
    CallContextAt(prog, ss, es, n, u);
    if SubmittedAt(prog, ss, es, n - 1, u, ss[n].rt.sched.threads[u].ctx) {
      i := n - 1;
    } else {
      i := SubmittedByCaller(prog, ss, es, n - 1, u);
    }
  }

  lemma {:induction false} CallContextAt<M>(prog: Program<M>, ss: seq<Rec<M>>, es: seq<Choice>, n: nat, u: nat)
    requires Bounded(prog, ss, es) && n < |ss| && u < |ss[n].rt.sched.threads|
    requires ss[n].rt.sched.threads[u].ctx.InIo?
    ensures n > 0
    ensures var ctx := ss[n].rt.sched.threads[u].ctx;
            || SubmittedAt(prog, ss, es, n - 1, u, ctx)
            || (u < |ss[n - 1].rt.sched.threads| && ss[n - 1].rt.sched.threads[u].ctx == ctx)
  {
    assert n > 0;
    InvAt(prog, ss, es, n - 1);
    assert RecStepAt(prog, ss, es, n - 1);
    CallContextStep(prog, ss[n - 1], es[n - 1], u);
  }

  lemma {:induction false} CallContextStep<M>(prog: Program<M>, s: Rec<M>, e: Choice, u: nat)
    requires RecEnabled(prog, s, e) && Inv(s.rt) && u < |RecNext(prog, s, e).rt.sched.threads|
    requires RecNext(prog, s, e).rt.sched.threads[u].ctx.InIo?
    ensures var ctx := RecNext(prog, s, e).rt.sched.threads[u].ctx;
            || SubmittedAt(prog, [s], [e], 0, u, ctx)
            || (u < |s.rt.sched.threads| && s.rt.sched.threads[u].ctx == ctx)
  {
    StepIsRuntimeStep(prog, s, e);
    var a := ActionOf(prog, s, e);
    if a.Some? && !(a.value.DoSubmit? && s.rt.sched.current == u) {
      KeepsWaitContext(s.rt, a.value, u);
    }
  }

  // The call answered in step n and the kernel's result: the answered uthread itself
  // asked for the call in step i and, if that suspended it, the step before its
  // dispatch reaped the operation submitted then.
  ghost predicate KernelGave<M>(prog: Program<M>, ss: seq<Rec<M>>, es: seq<Choice>, n: nat, i: nat, c: Call,
                                k: KernelResult) {
    && i <= n < |es| && n < |ss| && WellFormed(ss[i].rt.sched) && Ask(prog, View(ss[i])) == AskCall(c)
    && if Suspends(c)
       then && i + 1 < n && es[i].UserStep? && es[n].DispatchStep?
            && ss[n].rt.sched.runq != [] && ss[i].rt.sched.current == ss[n].rt.sched.runq[0]
            && es[n - 1].CompleteStep? && es[n - 1].op == ss[i].rt.nextOp && k == es[n - 1].result
       else i == n && es[n] == UserStep(k)
  }

  lemma {:induction false} ReturnedNow<M>(prog: Program<M>, s: Rec<M>, k: KernelResult, r: CallReply)
    requires RecEnabled(prog, s, UserStep(k)) && Answers([s, RecUser(prog, s, k)], 0, Returned(r))
    ensures Ask(prog, View(s)).AskCall? && !Suspends(Ask(prog, View(s)).call)
    ensures Tells(Ask(prog, View(s)).call, k, r)
  {
    RecordTells(Ask(prog, View(s)).call, k);
  }

  lemma {:induction false} ReturnedLater<M>(prog: Program<M>, s: Rec<M>, r: CallReply)
    requires RecEnabled(prog, s, DispatchStep) && RecInv(s) && Answers([s, RecDispatch(prog, s)], 0, Returned(r))
    ensures FrontRunnable(s.rt.sched) && FrontContext(s.rt.sched).InIo?
    ensures FrontContext(s.rt.sched).op in s.rt.completed && Suspends(FrontContext(s.rt.sched).call)
    ensures Tells(FrontContext(s.rt.sched).call, s.rt.completed[FrontContext(s.rt.sched).op], r)
  {
    FrontFinds(s.rt);
    var ctx := FrontContext(s.rt.sched);
    RecordTells(ctx.call, s.rt.completed[ctx.op]);
  }

  // A call returns the kernel's answer to the very operation it submitted, reaped by
  // the step right before the caller was dispatched; no completion reaches another
  // call.
  lemma {:induction false} CallReturnsItsResult<M>(prog: Program<M>, ss: seq<Rec<M>>, es: seq<Choice>, n: nat,
                                                   r: CallReply)
    returns (i: nat, c: Call, k: KernelResult)
    requires Bounded(prog, ss, es) && RecStepAt(prog, ss, es, n) && Answers(ss, n, Returned(r))
    ensures KernelGave(prog, ss, es, n, i, c, k) && Tells(c, k, r)
  {
    ReturnedAt(prog, ss, es, n, r);
    if es[n].UserStep? {
      i, c, k := n, Ask(prog, View(ss[n])).call, es[n].result;
    } else {
      c := FrontContext(ss[n].rt.sched).call;
      i, k := ResumedCall(prog, ss, es, n);
    }
  }

  lemma {:induction false} ReturnedAt<M>(prog: Program<M>, ss: seq<Rec<M>>, es: seq<Choice>, n: nat, r: CallReply)
    requires Bounded(prog, ss, es) && RecStepAt(prog, ss, es, n) && Answers(ss, n, Returned(r))
    ensures es[n].UserStep? || es[n].DispatchStep?
    ensures es[n].UserStep? ==>
              && Ask(prog, View(ss[n])).AskCall? && !Suspends(Ask(prog, View(ss[n])).call)
              && Tells(Ask(prog, View(ss[n])).call, es[n].result, r)
    ensures es[n].DispatchStep? ==>
              var s := ss[n].rt; var ctx := FrontContext(s.sched);
              && FrontRunnable(s.sched) && ctx.InIo? && ctx.op in s.completed && Suspends(ctx.call)
              && Tells(ctx.call, s.completed[ctx.op], r)
  {
    RecordingKeeps(prog, ss, es, n);
    match es[n]
    case UserStep(k) => ReturnedNow(prog, ss[n], k, r);
    case DispatchStep => ReturnedLater(prog, ss[n], r);
    case CompleteStep(_, _, _) =>
  }

  lemma {:induction false} ResumedCall<M>(prog: Program<M>, ss: seq<Rec<M>>, es: seq<Choice>, n: nat)
    returns (i: nat, k: KernelResult)
    requires Bounded(prog, ss, es) && n < |es| && es[n].DispatchStep?
    requires ss[n].rt.sched.runq != [] && FrontRunnable(ss[n].rt.sched)
    requires FrontContext(ss[n].rt.sched).InIo? && Suspends(FrontContext(ss[n].rt.sched).call)
    ensures KernelGave(prog, ss, es, n, i, FrontContext(ss[n].rt.sched).call, k)
    ensures FrontContext(ss[n].rt.sched).op in ss[n].rt.completed
    ensures k == ss[n].rt.completed[FrontContext(ss[n].rt.sched).op]
  {
    var u := ss[n].rt.sched.runq[0];
    WokenByItsCompletion(prog, ss, es, n, u);
    i := SubmittedByCaller(prog, ss, es, n, u);
    k := es[n - 1].result;
  }
}
