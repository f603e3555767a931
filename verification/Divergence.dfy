// Replay does not reproduce every recording: small recordings of a call disturbed by
// another uthread, a read longer than the log can carry, a user id it cannot carry,
// and a read disturbed by a signal, which is reproduced only by accident.
module Divergence {
  import opened Words
  import opened Events
  import opened Calls
  import opened Runtime
  import opened Machines
  import opened Recordings
  import opened Lockstep
  import opened Determinism

  // Steps that follow one another from the start are a recording.
  lemma {:induction false} Chains<M>(prog: Program<M>, ss: seq<Rec<M>>, es: seq<Choice>)
    requires 2 < |es| < 5 && |ss| == |es| + 1 && ss[0] == RecStart(prog)
    requires CleanAt(prog, ss, es, 0) && RecStepAt(prog, ss, es, 1) && RecStepAt(prog, ss, es, 2)
    requires |es| == 4 ==> RecStepAt(prog, ss, es, 3)
    ensures IsRecording(prog, ss, es) && CleanUpTo(prog, ss, es, 1)
  {
    forall i | 0 <= i < |es| ensures RecStepAt(prog, ss, es, i) {
      assert i == 0 || i == 1 || i == 2 || i == 3;
    }
  }

  // The main uthread creates a second one and reads; the second one exits.
  function RacingProgram(): Program<int> {
    Program(0,
            (mem: int, id: nat) => if id != 1 then AskExit(0)
                                   else if mem == 0 then AskCreate(true) else AskCall(Read(0, 1)),
            (mem: int, id: nat, reply: Reply) => mem + 1)
  }

  function RacingChoices(): seq<Choice> {
    [UserStep(KernelResult(0, [])), UserStep(KernelResult(0, [])), DispatchStep]
  }

  // After create, and after the read was submitted.
  function Created(): (s: Rec<int>)
    ensures s.rt.sched
            == Sched([Uthread(1, Running, None, 0, Active), Uthread(2, Runnable, None, 0, Fresh)], [1], 0, User, 3)
    ensures |s.rt.io| == 2 && s.rt.nextOp == 1 && s.mem == 1 && !s.exited
  {
    RecNext(RacingProgram(), RecStart(RacingProgram()), UserStep(KernelResult(0, [])))
  }

  function Racing(): (s: Rec<int>)
    ensures s.rt.sched == Sched([Reader(1, Blocked), Uthread(2, Runnable, None, 0, Fresh)], [1], 0, Scheduler, 3)
    ensures |s.rt.io| == 2 && s.mem == 1 && !s.exited
  {
    RecNext(RacingProgram(), Created(), UserStep(KernelResult(0, [])))
  }

  function RacingStates(): seq<Rec<int>> {
    [RecStart(RacingProgram()), Created(), Racing(), RecNext(RacingProgram(), Racing(), DispatchStep)]
  }

  lemma {:induction false} RacingStarts()
    ensures CleanAt(RacingProgram(), RacingStates(), RacingChoices(), 0)
  {
  }

  lemma {:induction false} RacingSubmits()
    ensures CleanAt(RacingProgram(), RacingStates(), RacingChoices(), 1)
  {
  }

  lemma {:induction false} RacingDisturbs()
    ensures RecStepAt(RacingProgram(), RacingStates(), RacingChoices(), 2)
    ensures Disturbs(RacingProgram(), Racing(), DispatchStep) && |RacingStates()[3].rt.sched.threads| == 2
  {
    assert InCall(Racing().rt.sched, 0);
  }

  // The second uthread runs while the read is suspended.
  lemma {:induction false} RacingReadIsNotReproduced(h: Header, k: nat)
    requires ValidHeader(h)
    ensures Bounded(RacingProgram(), RacingStates(), RacingChoices())
    ensures var s := RacingStates()[3];
            AllValid(s.log) && ReplayOf(RacingProgram(), h, s.log, k).local.trace != s.trace
  {
    RacingStarts();
    RacingSubmits();
    RacingDisturbs();
    Chains(RacingProgram(), RacingStates(), RacingChoices());
    SwitchDiverges(RacingProgram(), RacingStates(), RacingChoices(), h, 2, k);
  }

  // A program that asks for its user id.
  function AskingProgram(): Program<int> {
    Program(0, (mem: int, id: nat) => AskCall(Getuid), (mem: int, id: nat, reply: Reply) => mem + 1)
  }

  // A user id from 2^31 on is replayed as an error.
  lemma {:induction false} HighUidIsNotReproduced(uid: nat) returns (ss: seq<Rec<int>>, es: seq<Choice>)
    requires I32_MAX < uid < U32
    ensures Bounded(AskingProgram(), ss, es) && |es| == 1 && AllValid(ss[1].log)
    ensures ss[1].trace == [Replied(1, Returned(CallReply(uid, 0, [])))]
    ensures forall h, k: nat :: ValidHeader(h) ==>
              ReplayOf(AskingProgram(), h, ss[1].log, k).local.trace != ss[1].trace
  {
    var prog := AskingProgram();
    var e := UserStep(KernelResult(uid, []));
    var s0 := RecStart(prog);
    var s1 := RecNext(prog, s0, e);
    ss, es := [s0, s1], [e];
    RecordedLogIsWellFormed(prog, ss, es);
    forall h, k: nat | ValidHeader(h) ensures ReplayOf(prog, h, ss[1].log, k).local.trace != ss[1].trace {
      LossDiverges(prog, ss, es, h, 0, k);
    }
  }

  // A program that reads, and what a recording of its first read goes through.
  function ReadingProgram(count: nat): Program<int> {
    Program(0, (mem: int, id: nat) => AskCall(Read(0, count)), (mem: int, id: nat, reply: Reply) => mem + 1)
  }

  function Reader(count: nat, state: State): Uthread {
    Uthread(1, state, None, 0, InIo(1, Read(0, count)))
  }

  // The read is operation 1; the signal read was operation 0.
  function Submitted(count: nat): (s: Rec<int>)
    requires count > 0
    ensures s.rt.sched == Sched([Reader(count, Blocked)], [], 0, Scheduler, 2) && s.rt.io == [0]
    ensures s.rt.inflight == map[0 := SIGNAL_SENTINEL, 1 := 1] && s.rt.completed == map[] && s.rt.nextOp == 2
    ensures s.trace == [] && s.mem == 0 && !s.exited
  {
    var prog := ReadingProgram(count);
    RecNext(prog, RecStart(prog), UserStep(KernelResult(0, [])))
  }

  function SignalChoice(): Choice {
    CompleteStep(0, KernelResult(SIGINFO_SIZE, []), 10)
  }

  predicate Suspended(s: Rec<int>, count: nat) {
    && s.rt.sched == Sched([Reader(count, Blocked)], [], 0, Scheduler, 2)
    && |s.rt.io| == 1 && 1 in s.rt.inflight && s.rt.inflight[1] == 1
    && s.trace == [] && s.mem == 0 && !s.exited
  }

  function Signalled(count: nat): (s: Rec<int>)
    requires count > 0
    ensures Suspended(s, count)
  {
    RecNext(ReadingProgram(count), Submitted(count), SignalChoice())
  }

  function Completed(count: nat, s: Rec<int>, k: KernelResult): (s': Rec<int>)
    requires count > 0 && Suspended(s, count) && ValidResult(Read(0, count), k)
    ensures s'.rt.sched == Sched([Reader(count, Runnable)], [0], 0, Scheduler, 2)
    ensures s'.rt.io == [k.raw] && 1 in s'.rt.completed && s'.rt.completed[1] == k
    ensures s'.trace == [] && s'.mem == 0 && !s'.exited
  {
    assert Find(s.rt.sched.threads, 1) == Some(0);
    RecNext(ReadingProgram(count), s, CompleteStep(1, k, 0))
  }

  function Resumed(count: nat, s: Rec<int>, k: KernelResult): (s': Rec<int>)
    requires count > 0 && Suspended(s, count) && ValidResult(Read(0, count), k)
    ensures s'.trace == [Replied(1, Returned(RecordReply(Read(0, count), k)))]
    ensures |s'.rt.sched.threads| == 1
  {
    RecNext(ReadingProgram(count), Completed(count, s, k), DispatchStep)
  }

  function ReadStates(count: nat, k: KernelResult): seq<Rec<int>>
    requires count > 0 && ValidResult(Read(0, count), k)
  {
    var s1 := Submitted(count);
    [RecStart(ReadingProgram(count)), s1, Completed(count, s1, k), Resumed(count, s1, k)]
  }

  function ReadChoices(k: KernelResult): seq<Choice> {
    [UserStep(KernelResult(0, [])), CompleteStep(1, k, 0), DispatchStep]
  }

  lemma {:induction false} ReadStarts(count: nat, k: KernelResult)
    requires count > 0 && ValidResult(Read(0, count), k)
    ensures CleanAt(ReadingProgram(count), ReadStates(count, k), ReadChoices(k), 0)
  {
  }

  lemma {:induction false} ReadCompletes(count: nat, k: KernelResult)
    requires count > 0 && ValidResult(Read(0, count), k)
    ensures CleanAt(ReadingProgram(count), ReadStates(count, k), ReadChoices(k), 1)
  {
  }

  lemma {:induction false} ReadIsRecording(count: nat, k: KernelResult)
    requires ValidResult(Read(0, count), k) && k.raw > DATA_CAP
    ensures Bounded(ReadingProgram(count), ReadStates(count, k), ReadChoices(k))
    ensures CleanUpTo(ReadingProgram(count), ReadStates(count, k), ReadChoices(k), 2)
  {
    ReadStarts(count, k);
    ReadCompletes(count, k);
    LongReadLoses(count, k);
    Chains(ReadingProgram(count), ReadStates(count, k), ReadChoices(k));
  }

  lemma {:induction false} LongReadLoses(count: nat, k: KernelResult)
    requires ValidResult(Read(0, count), k) && k.raw > DATA_CAP
    ensures RecStepAt(ReadingProgram(count), ReadStates(count, k), ReadChoices(k), 2)
    ensures var s := ReadStates(count, k)[2];
            Loses(ReadingProgram(count), s, DispatchStep) && !Disturbs(ReadingProgram(count), s, DispatchStep)
  {
  }

  // A read of more than 64 bytes comes back cut.
  lemma {:induction false} LongReadIsNotReproduced(count: nat, k: KernelResult, h: Header, j: nat)
    requires ValidResult(Read(0, count), k) && k.raw > DATA_CAP && ValidHeader(h)
    ensures Bounded(ReadingProgram(count), ReadStates(count, k), ReadChoices(k))
    ensures var s := ReadStates(count, k)[3];
            && s.trace == [Replied(1, Returned(CallReply(k.raw, 0, k.data)))]
            && AllValid(s.log) && ReplayOf(ReadingProgram(count), h, s.log, j).local.trace != s.trace
  {
    ReadIsRecording(count, k);
    LongReadLoses(count, k);
    LossDiverges(ReadingProgram(count), ReadStates(count, k), ReadChoices(k), h, 2, j);
  }

  // The same read with a signal logged before it completes.
  function SignalledStates(count: nat, k: KernelResult): seq<Rec<int>>
    requires count > 0 && ValidResult(Read(0, count), k)
  {
    var s2 := Signalled(count);
    [RecStart(ReadingProgram(count)), Submitted(count), s2, Completed(count, s2, k), Resumed(count, s2, k)]
  }

  function SignalledChoices(k: KernelResult): seq<Choice> {
    [UserStep(KernelResult(0, [])), SignalChoice(), CompleteStep(1, k, 0), DispatchStep]
  }

  lemma {:induction false} SignalledStarts(count: nat, k: KernelResult)
    requires count > 0 && ValidResult(Read(0, count), k)
    ensures CleanAt(ReadingProgram(count), SignalledStates(count, k), SignalledChoices(k), 0)
  {
  }

  lemma {:induction false} SignalDisturbsRead(count: nat)
    requires count > 0
    ensures RecEnabled(ReadingProgram(count), Submitted(count), SignalChoice())
    ensures Disturbs(ReadingProgram(count), Submitted(count), SignalChoice())
  {
    assert InCall(Submitted(count).rt.sched, 0);
  }

  lemma {:induction false} SignalledDisturbs(count: nat, k: KernelResult)
    requires count > 0 && ValidResult(Read(0, count), k)
    ensures SignalDisturbsAt(ReadingProgram(count), SignalledStates(count, k), SignalledChoices(k), 1)
  {
    SignalDisturbsRead(count);
  }

  lemma {:induction false} SignalledCompletes(count: nat, k: KernelResult)
    requires count > 0 && ValidResult(Read(0, count), k)
    ensures EchoAt(ReadingProgram(count), SignalledStates(count, k), SignalledChoices(k), 2)
  {
  }

  lemma {:induction false} SignalledResumes(count: nat, k: KernelResult)
    requires count > 0 && ValidResult(Read(0, count), k)
    ensures RecStepAt(ReadingProgram(count), SignalledStates(count, k), SignalledChoices(k), 3)
    ensures EchoAt(ReadingProgram(count), SignalledStates(count, k), SignalledChoices(k), 3) <==> k.raw == -EPROTO
  {
  }

  lemma {:induction false} SignalledIsRecording(count: nat, k: KernelResult)
    requires count > 0 && ValidResult(Read(0, count), k)
    ensures Bounded(ReadingProgram(count), SignalledStates(count, k), SignalledChoices(k))
    ensures CleanUpTo(ReadingProgram(count), SignalledStates(count, k), SignalledChoices(k), 1)
  {
    SignalledStarts(count, k);
    SignalledDisturbs(count, k);
    SignalledCompletes(count, k);
    SignalledResumes(count, k);
    Chains(ReadingProgram(count), SignalledStates(count, k), SignalledChoices(k));
  }

  lemma {:induction false} EchoesUpToLast<M>(prog: Program<M>, ss: seq<Rec<M>>, es: seq<Choice>)
    requires IsRecording(prog, ss, es) && |es| == 4
    requires SignalDisturbsAt(prog, ss, es, 1) && EchoAt(prog, ss, es, 2)
    ensures EchoFrom(prog, ss, es, 1, 3)
    ensures EchoAt(prog, ss, es, 3) ==> EchoFrom(prog, ss, es, 1, 4)
  {
    assert EchoAt(prog, ss, es, 1);
  }

  // A read during which a signal is logged is reproduced exactly if it fails with EPROTO.
  lemma {:induction false} SignalledReadIsReproducedIff(count: nat, k: KernelResult, h: Header)
    requires count > 0 && ValidResult(Read(0, count), k) && ValidHeader(h)
    ensures Bounded(ReadingProgram(count), SignalledStates(count, k), SignalledChoices(k))
    ensures var s := SignalledStates(count, k)[4];
            && AllValid(s.log)
            && ((exists m: nat :: ReplayOf(ReadingProgram(count), h, s.log, m).local.trace == s.trace)
                <==> k.raw == -EPROTO)
  {
    var prog, ss, es := ReadingProgram(count), SignalledStates(count, k), SignalledChoices(k);
    SignalledIsRecording(count, k);
    SignalledDisturbs(count, k);
    SignalledCompletes(count, k);
    SignalledResumes(count, k);
    EchoesUpToLast(prog, ss, es);
    if k.raw == -EPROTO {
      var m := UncleanReproduces(prog, ss, es, h, 1);
    } else {
      RecordedLogIsWellFormed(prog, ss, es);
      forall m: nat ensures ReplayOf(prog, h, ss[4].log, m).local.trace != ss[4].trace {
        SignalDiverges(prog, ss, es, h, 1, 3, m);
      }
    }
  }
}
