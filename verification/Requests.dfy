// What a program is told, and what is logged, by each step of both modes: the answer to
// every request and to every uthread that is switched to, the memory it leaves, and the
// events it adds to the log.
module Requests {
  import opened Events
  import opened Calls
  import opened Runtime
  import opened RuntimeInvariants
  import opened Effects
  import opened Replayer
  import opened Machines
  import opened Recordings
  import opened Lockstep
  import opened Replays

  // The uthread with this id was told the reply: it is shown, and the program's own
  // function makes the new memory from it.
  ghost predicate Told<M>(prog: Program<M>, l: Local<M>, l': Local<M>, id: nat, reply: Reply) {
    l'.trace == l.trace + [Replied(id, reply)] && l'.mem == prog.resume(l.mem, id, reply)
  }

  ghost predicate Silent<M>(l: Local<M>, l': Local<M>) {
    l'.trace == l.trace && l'.mem == l.mem
  }

  // create, yield and exit ----------------------------------------------------

  // create tells the new id at once, or EINVAL without a function; yield and exit tell
  // nothing (the yielder hears when it is dispatched again).
  lemma {:induction false} ServeTells<M>(prog: Program<M>, l: Local<M>, q: Request)
    requires WellFormed(l.sched) && (q.AskCreate? || q.AskYield? || q.AskExit?)
    ensures var l', me := Serve(prog, l, q), CurrentId(l.sched);
            match q
            case AskCreate(hasFn) =>
              if hasFn then Told(prog, l, l', me, Created(l.sched.nextId)) && l'.sched == Create(l.sched)
              else Told(prog, l, l', me, CreateFailed(EINVAL)) && l'.sched == l.sched
            case AskYield => Silent(l, l') && l'.sched == Yield(l.sched)
            case _ => Silent(l, l') && l'.sched == Exit(l.sched, q.retval)
  {
  }

  // join -----------------------------------------------------------------------

  // A join is told the value of a finished target, or why it cannot wait; a join that
  // waits is told nothing yet.
  lemma {:induction false} JoinTells<M>(prog: Program<M>, r: Rt, l: Local<M>, id: nat, t: nat)
    requires Inv(r) && Enabled(r, DoJoin(id)) && l.sched == r.sched && Carries(r.sched, t, id)
    ensures var s, l', me := l.sched, Serve(prog, l, AskJoin(id)), CurrentId(l.sched);
            var target := s.threads[t];
            if t == s.current then Told(prog, l, l', me, JoinFailed(EDEADLK))
            else if target.state == Done then Told(prog, l, l', me, Joined(target.retval))
            else if target.joinWaiter.Some? then Told(prog, l, l', me, JoinFailed(EBUSY))
            else Silent(l, l') && l'.sched.phase == Scheduler
  {
    JoinOutcomes(r, id, t);
    JoinSuspends(r, id, t);
  }

  lemma {:induction false} JoinTellsNobody<M>(prog: Program<M>, r: Rt, l: Local<M>, id: nat)
    requires Inv(r) && Enabled(r, DoJoin(id)) && l.sched == r.sched && forall t: nat :: !Carries(r.sched, t, id)
    ensures Told(prog, l, Serve(prog, l, AskJoin(id)), CurrentId(l.sched), JoinFailed(ESRCH))
    ensures Serve(prog, l, AskJoin(id)).sched == l.sched
  {
    JoinFindsNobody(r, id);
  }

  // calls in record mode -------------------------------------------------------

  // The calls that run to completion inside their wrapper.
  predicate Immediate(c: Call) {
    match c
    case Read(_, count) => count == 0
    case Write(_, count) => count == 0
    case Recv(_, _) => false
    case Send(_, _) => false
    case Plain(_, _) => false
    case _ => true
  }

  ghost predicate LogsCall(log: seq<Event>, log': seq<Event>, id: nat, c: Call, k: KernelResult) {
    && |log'| == |log| + 1 && log' == log + [log'[|log|]]
    && var ev := log'[|log|];
       && ev.seqNo == SeqNo(|log|) && ev.uthread == id
       && ev.payload.Syscall? && |ev.payload.data| == DATA_CAP && Records(c, k, ev.payload)
  }

  // An immediate call is told the kernel's answer at once and logged; any other blocks
  // its caller, which is told nothing and logs nothing yet.
  lemma {:induction false} RecordedCallTells<M>(prog: Program<M>, s: Rec<M>, k: KernelResult)
    returns (r: CallReply)
    requires RecEnabled(prog, s, UserStep(k)) && RecInv(s) && Ask(prog, View(s)).AskCall?
    ensures var c, s', me := Ask(prog, View(s)).call, RecUser(prog, s, k), CurrentId(s.rt.sched);
            if Immediate(c) then
              && Told(prog, View(s), View(s'), me, Returned(r)) && Tells(c, k, r)
              && LogsCall(s.log, s'.log, me, c, k) && s'.rt == s.rt
            else Silent(View(s), View(s')) && s'.log == s.log && s'.rt == Next(s.rt, DoSubmit(c))
  {
    var c := Ask(prog, View(s)).call;
    r := RecordReply(c, k);
    if Immediate(c) {
      RecordTells(c, k);
      LoggedRecords(c, k);
    }
  }

  // switching in record mode -----------------------------------------------------

  // What a uthread hears when it is dispatched again, by what it was doing.
  ghost predicate Hears(s: Sched, completed: map<nat, KernelResult>, ctx: Context, reply: Reply) {
    match ctx
    case Fresh => reply == Started
    case InYield => reply == Yielded
    case InJoin(t) => t < |s.threads| && s.threads[t].state == Done && reply == Joined(s.threads[t].retval)
    case InIo(op, c) => op in completed && reply.Returned? && Tells(c, completed[op], reply.reply)
    case _ => false
  }

  ghost predicate ShowsSwitch(t: seq<Observation>, t': seq<Observation>, fromId: nat, toId: nat) {
    t' == if fromId == toId then t else t + [Switched(fromId, toId)]
  }

  // A dispatch shows the switch, if the uthread is another one, and then tells that
  // uthread what it waited for.
  lemma {:induction false} RecordedDispatchTells<M>(prog: Program<M>, s: Rec<M>)
    returns (shown: seq<Observation>, reply: Reply)
    requires RecEnabled(prog, s, DispatchStep) && RecInv(s)
    ensures var sched := s.rt.sched; var u := sched.runq[0]; var s' := RecDispatch(prog, s);
            && u < |sched.threads| && Hears(sched, s.rt.completed, sched.threads[u].ctx, reply)
            && ShowsSwitch(s.trace, shown, CurrentId(sched), sched.threads[u].id)
            && Told(prog, View(s).(trace := shown), View(s'), sched.threads[u].id, reply)
            && s'.rt.sched.current == u && s'.rt.sched.phase == User
  {
    FrontFinds(s.rt);
    DispatchTakesFront(s.rt);
    var sched := s.rt.sched;
    var u := sched.runq[0];
    var ctx := sched.threads[u].ctx;
    shown := SwitchIn(View(s)).trace;
    FrontHears(s.rt);
    reply := if ctx.InIo? then Returned(RecordReply(ctx.call, s.rt.completed[ctx.op])) else Continue(sched, ctx);
  }

  lemma {:induction false} FrontHears(r: Rt)
    requires Inv(r) && CallsOk(r) && Enabled(r, DoDispatch)
    ensures r.sched.runq[0] < |r.sched.threads|
    ensures var ctx := r.sched.threads[r.sched.runq[0]].ctx;
            if ctx.InIo? then
              && ctx.op in r.completed
              && Hears(r.sched, r.completed, ctx, Returned(RecordReply(ctx.call, r.completed[ctx.op])))
            else Hears(r.sched, r.completed, ctx, Continue(r.sched, ctx))
  {
    FrontFinds(r);
    var u := r.sched.runq[0];
    var ctx := r.sched.threads[u].ctx;
    assert ContextOk(r.sched.threads[u]) && JoinerOk(r.sched, u);
    if ctx.InIo? {
      RecordTells(ctx.call, r.completed[ctx.op]);
    }
  }

  // signals ------------------------------------------------------------------------

  // A completion tells nobody anything. A signalfd read that brought a whole siginfo is
  // logged under the current uthread, and ends the run if the signal is SIGINT (2) or
  // SIGTERM (15); no other completion is logged.
  lemma {:induction false} CompletionTells<M>(prog: Program<M>, s: Rec<M>, op: nat, k: KernelResult, signo: nat)
    requires RecEnabled(prog, s, CompleteStep(op, k, signo)) && RecInv(s)
    ensures var s', me := RecComplete(prog, s, op, k, signo), CurrentId(s.rt.sched);
            && Silent(View(s), View(s')) && s'.rt == Next(s.rt, DoReap(op, k))
            && if s.rt.inflight[op] == SIGNAL_SENTINEL && k.raw >= 128 then
                 && s'.log == s.log + [Event(SeqNo(|s.log|), me, Signal(signo, me % 0x1_0000_0000))]
                 && (s'.exited <==> signo == 2 || signo == 15)
               else s'.log == s.log && !s'.exited
  {
    if s.rt.inflight[op] == SIGNAL_SENTINEL {
      SignalReapKeeps(s.rt, op, k);
    } else {
      ReapWakesCaller(s.rt, op, k);
    }
  }

  // replay mode ----------------------------------------------------------------------

  // A call is told what its event rebuilds, or that it failed with the error the check
  // gave; either way the caller goes on.
  lemma {:induction false} ReplayedCallTells<M>(prog: Program<M>, log: Reader, p: Rep<M>) returns (r: CallReply)
    requires WellFormed(p.local.sched) && p.status == Live && p.local.sched.phase == User
    requires Ask(prog, p.local).AskCall?
    ensures var c, me, p' := Ask(prog, p.local).call, CurrentId(p.local.sched), RepNext(prog, log, p);
            var found := log.nextSyscall(p.cursor, Nr(c), me);
            && Told(prog, p.local, p'.local, me, Returned(r)) && p'.local.sched == p.local.sched
            && p'.status == Live && p'.cursor == found.next
            && if found.CallOk? then Rebuilds(c, found.payload, r) else Fails(c, r, found.err)
  {
    var c, me := Ask(prog, p.local).call, CurrentId(p.local.sched);
    match log.nextSyscall(p.cursor, Nr(c), me)
    case CallOk(payload, _) =>
      r := ReplayReply(c, payload);
      ReplayRebuilds(c, payload);
    case CallBad(err, _) =>
      r := ReplayFailure(c, err);
      FailureFails(c, err);
  }

  // A dispatch that passes its check shows and tells what a recording would; one that
  // does not stops the replay as it stands.
  lemma {:induction false} ReplayedDispatchTells<M>(prog: Program<M>, log: Reader, p: Rep<M>)
    returns (shown: seq<Observation>, reply: Reply)
    requires ReplayInv(p.local.sched) && p.status == Live
    requires p.local.sched.phase == Scheduler && p.local.sched.runq != []
    ensures var s, p' := p.local.sched, RepNext(prog, log, p); var u := s.runq[0];
            && u < |s.threads|
            && var fromId, toId := CurrentId(s), s.threads[u].id;
               var found := log.expectSwitch(p.cursor, fromId, toId);
               if fromId != toId && found.SwitchBad? then
                 p'.status == Aborted && p'.local == p.local && p'.cursor == found.next
               else
                 && p'.status == Live && p'.cursor == (if fromId == toId then p.cursor else found.next)
                 && Hears(s, map[], s.threads[u].ctx, reply) && ShowsSwitch(p.local.trace, shown, fromId, toId)
                 && Told(prog, p.local.(trace := shown), p'.local, toId, reply)
                 && p'.local.sched == Dispatch(s) && Dispatch(s).current == u
  {
    var s := p.local.sched;
    var u := s.runq[0];
    assert u in s.runq;
    assert ContextOk(s.threads[u]) && JoinerOk(s, u) && !InCall(s, u);
    shown := SwitchIn(p.local).trace;
    reply := Continue(s, s.threads[u].ctx);
  }
}
