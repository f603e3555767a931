// What holds in every state of every replay, of any log whatever: the scheduler keeps
// its invariant, a BLOCKED uthread waits for exactly one exit, and an empty queue is a
// deadlock the loop spins in for ever.
module Replays {
  import opened Runtime
  import opened RuntimeInvariants
  import opened Guarantees
  import opened Deadlock
  import opened Replayer
  import opened Machines
  import opened Lockstep

  // Replay has no ring: nothing is in flight and nothing has completed.
  function AsRuntime(s: Sched): Rt {
    Rt(s, seq(|s.threads|, _ => 0), map[], map[], 0)
  }

  ghost predicate ReplayInv(s: Sched) {
    SchedOk(s) && !AnyInCall(s)
  }

  lemma {:induction false} ReplayInvIsInv(s: Sched)
    requires ReplayInv(s)
    ensures Inv(AsRuntime(s))
  {
    var r := AsRuntime(s);
    forall i | 0 <= i < |s.threads| ensures CallerOk(r, i) {
      assert !InCall(s, i);
    }
  }

  lemma {:induction false} NewContexts(s: Sched, s': Sched)
    requires !AnyInCall(s)
    requires forall i :: 0 <= i < |s'.threads| && s'.threads[i].ctx.InIo? ==> i < |s.threads| && InCall(s, i)
    ensures !AnyInCall(s')
  {
  }

  lemma {:induction false} ServeKeepsSched<M>(prog: Program<M>, l: Local<M>, q: Request)
    requires SchedOk(l.sched) && l.sched.phase == User && !q.AskCall?
    requires |Serve(prog, l, q).sched.threads| <= MAX_THREADS
    ensures SchedOk(Serve(prog, l, q).sched)
  {
    match q
    case AskCreate(hasFn) => if hasFn { CreateKeeps(l.sched); }
    case AskYield => YieldKeeps(l.sched);
    case AskJoin(id) => JoinKeeps(l.sched, id);
    case AskExit(v) => ExitKeeps(l.sched, v);
  }

  lemma {:induction false} ServeKeeps<M>(prog: Program<M>, l: Local<M>, q: Request)
    requires ReplayInv(l.sched) && l.sched.phase == User && !q.AskCall?
    requires |Serve(prog, l, q).sched.threads| <= MAX_THREADS
    ensures ReplayInv(Serve(prog, l, q).sched)
  {
    ServeKeepsSched(prog, l, q);
    NewContexts(l.sched, Serve(prog, l, q).sched);
  }

  lemma {:induction false} DispatchKeepsReplay(s: Sched)
    requires ReplayInv(s) && s.phase == Scheduler && s.runq != []
    ensures ReplayInv(Dispatch(s))
  {
    DispatchKeeps(s);
    NewContexts(s, Dispatch(s));
  }

  lemma {:induction false} StepKeepsReplay<M>(prog: Program<M>, log: Reader, p: Rep<M>)
    requires ReplayInv(p.local.sched) && |RepNext(prog, log, p).local.sched.threads| <= MAX_THREADS
    ensures ReplayInv(RepNext(prog, log, p).local.sched)
  {
    var l := p.local;
    if p.status == Live {
      if l.sched.phase == User && !Ask(prog, l).AskCall? {
        ServeKeeps(prog, l, Ask(prog, l));
      } else if l.sched.phase == Scheduler && l.sched.runq != [] {
        DispatchKeepsReplay(l.sched);
      }
    }
  }

  lemma {:induction false} ReplayGrows<M>(prog: Program<M>, log: Reader, p: Rep<M>)
    requires WellFormed(p.local.sched)
    ensures |p.local.sched.threads| <= |RepNext(prog, log, p).local.sched.threads|
  {
  }

  // Whatever the log holds, and also after the replay has parted from the recording.
  lemma {:induction false} ReplayKeepsInv<M>(prog: Program<M>, log: Reader, n: nat)
    requires |Replayed(prog, log, n).local.sched.threads| <= MAX_THREADS
    ensures ReplayInv(Replayed(prog, log, n).local.sched) && Inv(AsRuntime(Replayed(prog, log, n).local.sched))
  {
    if n == 0 {
      InitialSched();
      NewContexts(InitSched(), InitSched());
    } else {
      ReplayGrows(prog, log, Replayed(prog, log, n - 1));
      ReplayKeepsInv(prog, log, n - 1);
      StepKeepsReplay(prog, log, Replayed(prog, log, n - 1));
    }
    ReplayInvIsInv(Replayed(prog, log, n).local.sched);
  }

  // In every state of every replay a BLOCKED uthread is the join_waiter of exactly one
  // unfinished uthread, and no other uthread is anyone's.
  lemma {:induction false} BlockedInReplay<M>(prog: Program<M>, log: Reader, n: nat, i: nat)
    requires |Replayed(prog, log, n).local.sched.threads| <= MAX_THREADS
    requires i < |Replayed(prog, log, n).local.sched.threads|
    ensures var r := AsRuntime(Replayed(prog, log, n).local.sched);
            if r.sched.threads[i].state == Blocked then OneExit(r, i) else NoExit(r, i)
  {
    ReplayKeepsInv(prog, log, n);
    BlockedForOneReason(AsRuntime(Replayed(prog, log, n).local.sched), i);
  }

  // A replay whose loop finds the queue empty is deadlocked, so its unfinished uthreads
  // form join cycles, and it never changes again.
  lemma {:induction false} EmptyQueueInReplay<M>(prog: Program<M>, log: Reader, n: nat, k: nat)
    requires |Replayed(prog, log, n).local.sched.threads| <= MAX_THREADS
    requires var s := Replayed(prog, log, n).local.sched; s.phase == Scheduler && s.runq == []
    ensures Stuck(AsRuntime(Replayed(prog, log, n).local.sched))
    ensures var s := Replayed(prog, log, n).local.sched; WaitsFor(s).Keys == Unfinished(s) == WaitsFor(s).Values
    ensures n <= k ==> Replayed(prog, log, k) == Replayed(prog, log, n)
  {
    ReplayKeepsInv(prog, log, n);
    DeadlockIsPermutation(AsRuntime(Replayed(prog, log, n).local.sched));
    if n <= k {
      SpinsFrom(prog, log, n, k);
    }
  }

  lemma {:induction false} SpinsFrom<M>(prog: Program<M>, log: Reader, n: nat, k: nat)
    requires n <= k
    requires var s := Replayed(prog, log, n).local.sched; s.phase == Scheduler && s.runq == []
    ensures Replayed(prog, log, k) == Replayed(prog, log, n)
  {
    if n < k {
      SpinsFrom(prog, log, n, k - 1);
    }
  }
}
