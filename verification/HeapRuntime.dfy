// Scheduler, ring and log working together on the heap: the turns of scheduler_loop
// in both modes, and the runtime in record mode, each of whose operations is proved
// to be the action of module Runtime it stands for and to keep the invariant.
module HeapRuntime {
  import opened Words
  import opened Events
  import opened Calls
  import opened Machines
  import RT = Runtime
  import Inv = RuntimeInvariants
  import H = HeapScheduler
  import R = Recorder
  import P = Replayer

  // One turn of scheduler_loop in record mode; false when nothing was switched to.
  method RecordTurn(s: H.Scheduler, log: R.EventLog) returns (ran: bool)
    requires s.State().Some? && log.Events().Some?
    modifies s, s.queue, s.queue.Contents`next, s.threads.Contents`state
    modifies log`seqNo, log`fate, log.buffer, log.buffer.ring, log.buffer.disk
    ensures RT.WellFormed(old(s.Model()))
    ensures ran <==> old(s.Runq) != [] && FrontRunnable(old(s.Model()))
    ensures s.State() == Some(if old(s.Runq) == [] then old(s.Model()) else RT.Dispatch(old(s.Model())))
    ensures log.LosesNothing()
    ensures log.Events()
            == if !ran then old(log.Events())
               else Some(Moved(old(log.Events().value), RT.CurrentId(old(s.Model())), FrontId(old(s.Model()))))
  {
    var next, fromId := ChooseOnly(s, log);
    ran := next != null;
    if ran {
      LogMove(s, log, fromId, next.id);
      SwitchOnly(s, log, next);
    }
  }

  // Choosing and switching leave the log alone, and logging leaves the scheduler alone.
  method ChooseOnly(s: H.Scheduler, log: R.EventLog) returns (next: H.Uthread?, fromId: H.Id)
    requires s.State().Some?
    modifies s`Runq, s.queue, s.queue.Contents`next
    ensures log.Events() == old(log.Events()) && unchanged(log) && unchanged(log.buffer) && unchanged(log.buffer.disk)
    ensures RT.WellFormed(s.Model()) && fromId == RT.CurrentId(s.Model())
    ensures s.State() == Some(old(s.Model()).(runq := if old(s.Runq) == [] then [] else old(s.Runq)[1..]))
    ensures next != null <==> old(s.Runq) != [] && FrontRunnable(old(s.Model()))
    ensures next != null ==> s.Registered(next) && next.slot == old(s.Runq[0]) && next.id == FrontId(old(s.Model()))
  {
    assert s.current == s.threads.Contents[s.current.slot];
    fromId := s.current.id;
    next := s.Choose();
  }

  method SwitchOnly(s: H.Scheduler, log: R.EventLog, next: H.Uthread)
    requires s.State().Some? && s.Registered(next)
    modifies s`Table, s`current, s`phase, next`state
    ensures log.Events() == old(log.Events()) && unchanged(log) && unchanged(log.buffer) && unchanged(log.buffer.disk)
    ensures next.slot < |old(s.Table)|
    ensures s.State() == Some(old(s.Model()).(
                threads := old(s.Table)[next.slot := old(s.Table)[next.slot].(state := RT.Running, ctx := RT.Active)],
                current := next.slot, phase := RT.User))
  {
    s.SwitchTo(next);
  }

  // The log after a switch; a uthread resumed where it left off logs nothing.
  function Moved(log: seq<Event>, fromId: nat, toId: nat): seq<Event> {
    if fromId == toId then log else Emit(log, toId, Switch(fromId, toId))
  }

  method LogMove(s: H.Scheduler, log: R.EventLog, fromId: H.Id, toId: H.Id)
    requires log.Events().Some?
    modifies log`seqNo, log`fate, log.buffer, log.buffer.ring, log.buffer.disk
    ensures log.Events() == Some(Moved(old(log.Events().value), fromId, toId)) && log.LosesNothing()
    ensures s.State() == old(s.State()) && unchanged(s) && unchanged(s.threads)
  {
    if fromId != toId {
      log.LogSwitch(fromId, toId);
      s.Untouched();
    }
  }

  // rr_init in record mode: number from 1, log the first switch, then be ready.
  method StartRecording(log: R.EventLog)
    requires log.Valid() && log.fate.events == [] && log.seqNo == 0
    modifies log, log.buffer, log.buffer.ring, log.buffer.disk
    ensures log.Valid() && log.ready && log.fate.events == Emit([], 1, Switch(0, 1)) && log.LosesNothing()
  {
    log.LogSwitch(0, 1);
    log.MarkReady();
  }

  // rr_signal_process: SIGINT and SIGTERM end the process once the log is written.
  method ProcessSignal(log: R.EventLog, current: H.Id, signo: nat) returns (exits: bool)
    requires log.Valid() && log.ready && signo < U32
    modifies log`seqNo, log`fate, log.buffer, log.buffer.ring, log.buffer.disk
    ensures log.Valid() && log.fate.events == Emit(old(log.fate).events, current, Signal(signo, current % U32))
    ensures !exits ==> log.LosesNothing()
    ensures exits <==> signo == SIGINT || signo == SIGTERM
    ensures exits ==> log.fate.flushed == |log.fate.events|
    ensures exits && R.NoFailures(old(log.buffer.disk.script)) && old(log.fate).lost.None? && !old(log.fate).torn ==>
              AllValid(log.fate.events) && log.buffer.disk.bytes == LogFile(log.header, log.fate.events)
  {
    log.LogSignal(current, signo);
    exits := signo == SIGINT || signo == SIGTERM;
    if exits {
      log.Shutdown();
    }
  }

  // What checking a switch against the log did. A switch that passes is the one the
  // log holds; one that does not is another event, or could not be read. Without read
  // errors the log alone decides.
  twostate predicate Checked(rep: P.Replay, fromId: nat, toId: nat, ok: bool)
    reads rep, rep.source
  {
    if fromId == toId then ok && rep.Position() == old(rep.Position())
    else if !rep.headerOk then !ok && rep.Position() == old(rep.Position())
    else
      var r := P.ExpectSwitch(rep.source.bytes, old(rep.Position()), fromId, toId);
      && (ok ==> r == P.SwitchOk(rep.Position()))
      && (P.NoFailures(old(rep.source.script)) ==> rep.Position() == r.next && (ok <==> r.SwitchOk?))
  }

  method CheckMove(rep: P.Replay, fromId: nat, toId: nat) returns (ok: bool)
    requires rep.Valid()
    modifies rep`expected, rep.source
    ensures rep.Valid() && Checked(rep, fromId, toId, ok)
  {
    ok := true;
    if fromId != toId {
      var err := rep.ExpectSched(fromId, toId);
      ok := err == 0;
    }
  }

  datatype Outcome = NotRun | Ran | Aborts

  // One turn of scheduler_loop in replay mode; a switch the log does not confirm
  // ends the process.
  method ReplayTurn(s: H.Scheduler, rep: P.Replay) returns (t: Outcome)
    requires s.State().Some? && rep.Valid()
    modifies s, s.queue, s.queue.Contents`next, s.threads.Contents`state
    modifies rep`expected, rep.source
    ensures s.State().Some? && rep.Valid() && RT.WellFormed(old(s.Model()))
    ensures t == NotRun <==> old(s.Runq) == [] || !FrontRunnable(old(s.Model()))
    ensures t != Aborts ==>
              s.State() == Some(if old(s.Runq) == [] then old(s.Model()) else RT.Dispatch(old(s.Model())))
    ensures t == NotRun ==> rep.Position() == old(rep.Position())
    ensures t != NotRun ==> Checked(rep, RT.CurrentId(old(s.Model())), FrontId(old(s.Model())), t == Ran)
  {
    var next, ok := ChooseChecked(s, rep);
    t := if next == null then NotRun else if ok then Ran else Aborts;
    if t == Ran {
      SwitchChecked(s, rep, next);
    }
  }

  method ChooseChecked(s: H.Scheduler, rep: P.Replay) returns (next: H.Uthread?, ok: bool)
    requires s.State().Some? && rep.Valid()
    modifies s`Runq, s.queue, s.queue.Contents`next, rep`expected, rep.source
    ensures rep.Valid() && RT.WellFormed(s.Model())
    ensures s.State() == Some(old(s.Model()).(runq := if old(s.Runq) == [] then [] else old(s.Runq)[1..]))
    ensures next != null <==> old(s.Runq) != [] && FrontRunnable(old(s.Model()))
    ensures next != null ==> s.Registered(next) && next.slot == old(s.Runq[0])
    ensures next == null ==> rep.Position() == old(rep.Position())
    ensures next != null ==> Checked(rep, RT.CurrentId(old(s.Model())), FrontId(old(s.Model())), ok)
  {
    assert s.current == s.threads.Contents[s.current.slot];
    next := s.Choose();
    ok := true;
    if next != null {
      label Chosen:
      ok := CheckMove(rep, s.current.id, next.id);
      s.Untouched@Chosen();
    }
  }

  method SwitchChecked(s: H.Scheduler, rep: P.Replay, next: H.Uthread)
    requires s.State().Some? && s.Registered(next)
    modifies s`Table, s`current, s`phase, next`state
    ensures unchanged(rep) && unchanged(rep.source) && next.slot < |old(s.Table)|
    ensures s.State() == Some(old(s.Model()).(
                threads := old(s.Table)[next.slot := old(s.Table)[next.slot].(state := RT.Running, ctx := RT.Active)],
                current := next.slot, phase := RT.User))
  {
    s.SwitchTo(next);
  }

  // Record mode without its log ----------------------------------------------

  lemma {:induction false} ReadyForUser(r: RT.Rt)
    requires Inv.Inv(r)
    ensures RT.RtWellFormed(r) && Inv.QueueOk(r.sched)
    ensures r.sched.phase == RT.User ==> r.sched.current !in r.sched.runq
  {
  }

  // The scheduler with the ring: inflight holds the tag of every operation the
  // kernel has been given and not completed.
  class Machine {
    const sched: H.Scheduler
    var inflight: map<nat, nat>
    var nextOp: nat
    ghost var Completed: map<nat, KernelResult>

    ghost function State(): RT.Rt
      reads this, sched
    {
      RT.Rt(sched.Model(), sched.Io, inflight, Completed, nextOp)
    }

    ghost predicate Valid()
      reads this, sched, sched.threads, sched.threads.items, sched.threads.Contents, sched.queue, sched.queue.Contents
    {
      sched.Valid() && Inv.Inv(State())
    }

    // rr_uthread_init_main, then the first signalfd read.
    constructor ()
      ensures Valid() && State() == RT.InitRecord()
    {
      sched := new H.Scheduler();
      inflight, nextOp, Completed := map[], 0, map[];
      new;
      SubmitTag(RT.SIGNAL_SENTINEL);
      Inv.InitialStates();
    }

    // io_uring_submit of one entry with this user_data
    method SubmitTag(tag: nat)
      modifies this
      ensures State() == RT.SubmitTag(old(State()), tag)
    {
      inflight := inflight[nextOp := tag];
      nextOp := nextOp + 1;
    }

    // rr_io_submit_*_and_wait up to the switch into the scheduler
    method Submit(ghost c: Call)
      requires Valid() && RT.Enabled(State(), RT.DoSubmit(c))
      modifies this, sched`Table, sched`phase, sched.threads.Contents`state
      ensures Valid() && State() == RT.Next(old(State()), RT.DoSubmit(c))
    {
      ghost var r := State();
      SubmitAndBlock(c);
      Inv.NextKeeps(r, RT.DoSubmit(c));
    }

    method SubmitAndBlock(ghost c: Call)
      requires sched.Valid() && RT.RtWellFormed(State())
      modifies this, sched`Table, sched`phase, sched.threads.Contents`state
      ensures sched.Valid() && State() == RT.Submit(old(State()), c)
    {
      assert sched.current == sched.threads.Contents[sched.current.slot];
      ghost var op := nextOp;
      SubmitTag(sched.current.id);
      sched.Untouched();
      sched.Block(RT.InIo(op, c));
    }

    method Yield()
      requires Valid() && RT.Enabled(State(), RT.DoYield)
      modifies sched, sched.queue, sched.threads.Contents
      ensures Valid() && State() == RT.Next(old(State()), RT.DoYield)
    {
      ghost var r := State();
      ReadyForUser(r);
      sched.Yield();
      Inv.NextKeeps(r, RT.DoYield);
    }

    method Create() returns (id: nat)
      requires Valid() && RT.Enabled(State(), RT.DoCreate) && |sched.Table| < RT.MAX_THREADS
      modifies sched, sched.queue, sched.threads, sched.threads.items, sched.queue.Contents`next
      ensures Valid() && State() == RT.Next(old(State()), RT.DoCreate) && id == old(sched.nextId)
    {
      ghost var r := State();
      ReadyForUser(r);
      id := sched.Create();
      Inv.NextKeeps(r, RT.DoCreate);
    }

    method Join(id: nat) returns (d: RT.JoinDecision)
      requires Valid() && RT.Enabled(State(), RT.DoJoin(id))
      modifies sched`Table, sched`phase, sched.threads.Contents`state, sched.threads.Contents`joinWaiter
      ensures Valid() && State() == RT.Next(old(State()), RT.DoJoin(id))
      ensures d == RT.DecideJoin(old(State()).sched, id)
    {
      ghost var r := State();
      ReadyForUser(r);
      d := sched.Join(id);
      Inv.NextKeeps(r, RT.DoJoin(id));
    }

    method Exit(v: int)
      requires Valid() && RT.Enabled(State(), RT.DoExit(v))
      modifies sched`Table, sched`Runq, sched`phase, sched.queue, sched.queue.Contents`next
      modifies sched.threads.Contents`state, sched.threads.Contents`retval, sched.threads.Contents`next
      ensures Valid() && State() == RT.Next(old(State()), RT.DoExit(v))
    {
      ghost var r := State();
      ReadyForUser(r);
      sched.Exit(v);
      Inv.NextKeeps(r, RT.DoExit(v));
    }

    // The branch of scheduler_loop that drops an entry is never taken.
    method Turn() returns (fromId: nat, toId: nat)
      requires Valid() && RT.Enabled(State(), RT.DoDispatch)
      modifies sched, sched.queue, sched.queue.Contents`next, sched.threads.Contents`state
      ensures Valid() && State() == RT.Next(old(State()), RT.DoDispatch)
      ensures fromId == RT.CurrentId(old(State()).sched) && toId == RT.CurrentId(State().sched)
    {
      ghost var r := State();
      ReadyForUser(r);
      assert r.sched.runq[0] in r.sched.runq;
      var ran;
      ran, fromId, toId := sched.Turn();
      Inv.NextKeeps(r, RT.DoDispatch);
    }

    // rr_io_wait for one completion; true when it was the signalfd read.
    method Wait(op: nat, k: KernelResult) returns (signalled: bool)
      requires Valid() && RT.Enabled(State(), RT.DoReap(op, k))
      modifies this, sched`Table, sched`Runq, sched`Io, sched.queue, sched.queue.Contents`next
      modifies sched.threads.Contents`state, sched.threads.Contents`ioResult, sched.threads.Contents`next
      ensures Valid() && State() == RT.Next(old(State()), RT.DoReap(op, k))
      ensures signalled <==> old(inflight)[op] == RT.SIGNAL_SENTINEL
    {
      ghost var r := State();
      ReadyForUser(r);
      signalled := Reap(op, k);
      Inv.NextKeeps(r, RT.DoReap(op, k));
    }

    method Reap(op: nat, k: KernelResult) returns (signalled: bool)
      requires sched.Valid() && RT.RtWellFormed(State()) && Inv.QueueOk(State().sched) && op in inflight
      modifies this, sched`Table, sched`Runq, sched`Io, sched.queue, sched.queue.Contents`next
      modifies sched.threads.Contents`state, sched.threads.Contents`ioResult, sched.threads.Contents`next
      ensures sched.Valid() && State() == RT.Reap(old(State()), op, k)
      ensures signalled <==> old(inflight)[op] == RT.SIGNAL_SENTINEL
    {
      var tag := inflight[op];
      signalled := tag == RT.SIGNAL_SENTINEL;
      if signalled {
        Retire(op, k);
        SubmitTag(RT.SIGNAL_SENTINEL);
      } else {
        WakeCaller(tag, op, k);
      }
    }

    method WakeCaller(tag: nat, op: nat, k: KernelResult)
      requires sched.Valid() && RT.RtWellFormed(State()) && Inv.QueueOk(State().sched)
      requires op in inflight && inflight[op] == tag != RT.SIGNAL_SENTINEL
      modifies this, sched`Table, sched`Runq, sched`Io, sched.queue, sched.queue.Contents`next
      modifies sched.threads.Contents`state, sched.threads.Contents`ioResult, sched.threads.Contents`next
      ensures sched.Valid() && State() == RT.Reap(old(State()), op, k)
    {
      sched.WakeById(tag, k.raw);
      label Woken:
      Retire(op, k);
      sched.Untouched@Woken();
    }

    method Retire(op: nat, k: KernelResult)
      modifies this
      ensures inflight == old(inflight) - {op} && Completed == old(Completed)[op := k] && nextOp == old(nextOp)
    {
      inflight := inflight - {op};
      Completed := Completed[op := k];
    }
  }

  // rr_io_wait in record mode: a whole siginfo is logged under the current uthread before
  // the read is submitted again, unless the signal ends the process. What it does is what
  // the completion step of a recording does.
  method RecordWait(m: Machine, log: R.EventLog, op: nat, k: KernelResult, signo: nat) returns (exits: bool)
    requires m.Valid() && RT.Enabled(m.State(), RT.DoReap(op, k))
    requires log.Events().Some? && log.ready && signo < U32
    modifies m, m.sched`Table, m.sched`Runq, m.sched`Io, m.sched.queue, m.sched.queue.Contents`next
    modifies m.sched.threads.Contents`state, m.sched.threads.Contents`ioResult, m.sched.threads.Contents`next
    modifies log`seqNo, log`fate, log.buffer, log.buffer.ring, log.buffer.disk
    ensures log.Events() == Some(Noted(old(m.State()), old(log.Events().value), op, k, signo))
    ensures exits <==> LogsSignal(old(m.State()), op, k) && (signo == SIGINT || signo == SIGTERM)
    ensures !exits ==> m.Valid() && m.State() == RT.Next(old(m.State()), RT.DoReap(op, k))
    ensures !exits ==> log.LosesNothing()
  {
    exits := NoteSignal(m, log, op, k, signo);
    if !exits {
      ReapOnly(m, log, op, k);
    }
  }

  // The log after a completion.
  function Noted(r: RT.Rt, log: seq<Event>, op: nat, k: KernelResult, signo: nat): seq<Event>
    requires RT.WellFormed(r.sched)
  {
    var id := RT.CurrentId(r.sched);
    if LogsSignal(r, op, k) then Emit(log, id, Signal(signo, id % U32)) else log
  }

  method NoteSignal(m: Machine, log: R.EventLog, op: nat, k: KernelResult, signo: nat) returns (exits: bool)
    requires m.Valid() && op in m.inflight && log.Events().Some? && log.ready && signo < U32
    modifies log`seqNo, log`fate, log.buffer, log.buffer.ring, log.buffer.disk
    ensures RT.WellFormed(old(m.State()).sched)
    ensures log.Events() == Some(Noted(old(m.State()), old(log.Events().value), op, k, signo))
    ensures exits <==> LogsSignal(old(m.State()), op, k) && (signo == SIGINT || signo == SIGTERM)
    ensures !exits ==> log.LosesNothing()
    ensures m.Valid() && m.State() == old(m.State())
  {
    exits := false;
    assert m.sched.current == m.sched.threads.Contents[m.sched.current.slot];
    if m.inflight[op] == RT.SIGNAL_SENTINEL && k.raw >= SIGINFO_SIZE {
      exits := ProcessSignal(log, m.sched.current.id, signo);
      m.sched.Untouched();
    }
  }

  method ReapOnly(m: Machine, log: R.EventLog, op: nat, k: KernelResult)
    requires m.Valid() && RT.Enabled(m.State(), RT.DoReap(op, k))
    modifies m, m.sched`Table, m.sched`Runq, m.sched`Io, m.sched.queue, m.sched.queue.Contents`next
    modifies m.sched.threads.Contents`state, m.sched.threads.Contents`ioResult, m.sched.threads.Contents`next
    ensures m.Valid() && m.State() == RT.Next(old(m.State()), RT.DoReap(op, k))
    ensures log.Events() == old(log.Events()) && unchanged(log) && unchanged(log.buffer) && unchanged(log.buffer.disk)
  {
    var signalled := m.Wait(op, k);
  }

  // The completion step of a recording logs and ends the run as RecordWait does.
  lemma {:induction false} RecordingWaits<M>(prog: Program<M>, s: Rec<M>, op: nat, k: KernelResult, signo: nat)
    requires RecEnabled(prog, s, CompleteStep(op, k, signo))
    ensures var s' := RecComplete(prog, s, op, k, signo);
            && s'.log == Noted(s.rt, s.log, op, k, signo) && s'.rt == RT.Next(s.rt, RT.DoReap(op, k))
            && (s'.exited <==> LogsSignal(s.rt, op, k) && (signo == SIGINT || signo == SIGTERM))
  {
  }
}
