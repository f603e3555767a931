// The promise of the runtime, and exactly when it is kept: a replay shows the same
// switches and gives the same answers as the recording.
module Determinism {
  import opened Words
  import opened Events
  import opened Calls
  import opened Runtime
  import opened RuntimeInvariants
  import opened Replayer
  import opened Machines
  import opened Recordings
  import opened Lockstep
  import opened Lagging

  // The replay, after m steps, of the log file a recording leaves behind.
  function ReplayOf<M>(prog: Program<M>, h: Header, log: seq<Event>, m: nat): (p: Rep<M>)
    requires ValidHeader(h) && AllValid(log)
    ensures WellFormed(p.local.sched)
  {
    Replayed(prog, FileReader(LogFile(h, log)), m)
  }

  lemma {:induction false} FileFollows<M>(prog: Program<M>, ss: seq<Rec<M>>, es: seq<Choice>, h: Header, n: nat)
    returns (m: nat)
    requires Bounded(prog, ss, es) && CleanUpTo(prog, ss, es, n) && ValidHeader(h)
    ensures AllValid(ss[|es|].log) && ReadsLog(FileReader(LogFile(h, ss[|es|].log)), ss[|es|].log)
    ensures Follows(prog, ss[n], ReplayOf(prog, h, ss[|es|].log, m))
  {
    RecordedLogIsWellFormed(prog, ss, es);
    FileReadsLog(h, ss[|es|].log);
    var log := FileReader(LogFile(h, ss[|es|].log));
    ReplayedIsReplay(prog, log);
    RecordingLogGrows(prog, ss, es, n);
    m := CleanRunFollows(prog, log, ss[|es|].log, RunOf(prog, log), ss, es, n);
  }

  // A clean recording is reproduced: no check fails, and at some point the replay
  // has shown the same switches and answers and holds the same memory; unless a
  // call is still suspended the schedulers agree too.
  lemma {:induction false} CleanRecordingReplays<M>(prog: Program<M>, ss: seq<Rec<M>>, es: seq<Choice>, h: Header)
    returns (m: nat)
    requires Bounded(prog, ss, es) && CleanUpTo(prog, ss, es, |es|) && ValidHeader(h)
    ensures AllValid(ss[|es|].log)
    ensures var p := ReplayOf(prog, h, ss[|es|].log, m); var s := ss[|es|];
            && p.status == Live && p.local.trace == s.trace && p.local.mem == s.mem
            && (!AnyInCall(s.rt.sched) ==> p.local == View(s))
  {
    m := FileFollows(prog, ss, es, h, |es|);
    var s := ss[|es|];
    assert AwaitingCall(prog, s, ReplayOf(prog, h, s.log, m)) ==> InCall(s.rt.sched, s.rt.sched.current);
  }

  // Programs that never suspend ----------------------------------------------

  ghost predicate Direct<M(!new)>(prog: Program<M>) {
    forall mem, id :: prog.next(mem, id).AskCall? ==> !Suspends(prog.next(mem, id).call)
  }

  lemma {:induction false} DirectStep<M(!new)>(prog: Program<M>, s: Rec<M>, e: Choice)
    requires Direct(prog) && RecEnabled(prog, s, e) && RecInv(s) && !AnyInCall(s.rt.sched)
    ensures !AnyInCall(RecNext(prog, s, e).rt.sched)
  {
    match e
    case UserStep(k) =>
      if !Ask(prog, View(s)).AskCall? { RequestKeepsCalls(prog, s, k); }
    case DispatchStep => DispatchKeepsCalls(prog, s);
    case CompleteStep(op, k, _) =>
      if s.rt.inflight[op] == SIGNAL_SENTINEL { SignalReapKeeps(s.rt, op, k); } else { CompletionOfCall(s.rt, op); }
  }

  lemma {:induction false} DirectRun<M(!new)>(prog: Program<M>, ss: seq<Rec<M>>, es: seq<Choice>, n: nat)
    requires Bounded(prog, ss, es) && Direct(prog) && n < |ss|
    ensures !AnyInCall(ss[n].rt.sched)
  {
    if n == 0 {
      assert ss[0].rt.sched.threads == [Uthread(1, Running, None, 0, Active)];
    } else {
      DirectRun(prog, ss, es, n - 1);
      RecordingKeeps(prog, ss, es, n - 1);
      assert RecStepAt(prog, ss, es, n - 1);
      DirectStep(prog, ss[n - 1], es[n - 1]);
    }
  }

  // Programs that only create, yield, join, exit and make calls that do not suspend
  // are replayed exactly, in every state of every recording, as long as the log can
  // carry the results.
  lemma {:induction false} DirectProgramsReplay<M(!new)>(prog: Program<M>, ss: seq<Rec<M>>, es: seq<Choice>, h: Header)
    returns (m: nat)
    requires Bounded(prog, ss, es) && Direct(prog) && ValidHeader(h)
    requires forall i :: 0 <= i < |es| ==> RecStepAt(prog, ss, es, i) && !Loses(prog, ss[i], es[i])
    ensures AllValid(ss[|es|].log)
    ensures ReplayOf(prog, h, ss[|es|].log, m).status == Live
    ensures ReplayOf(prog, h, ss[|es|].log, m).local == View(ss[|es|])
  {
    forall i | 0 <= i < |es| ensures CleanAt(prog, ss, es, i) {
      DirectRun(prog, ss, es, i);
    }
    DirectRun(prog, ss, es, |es|);
    m := CleanRecordingReplays(prog, ss, es, h);
  }

  // The first step that is not clean -----------------------------------------

  // A call disturbed while it was suspended: the replay, in step up to the call,
  // finds a switch or a signal in its place and returns -1 with EPROTO.
  lemma {:induction false} DisturbedCallFails<M>(prog: Program<M>, ss: seq<Rec<M>>, es: seq<Choice>, h: Header, i: nat)
    returns (m: nat)
    requires Bounded(prog, ss, es) && CleanUpTo(prog, ss, es, i) && ValidHeader(h)
    requires RecStepAt(prog, ss, es, i) && Disturbs(prog, ss[i], es[i])
    ensures AllValid(ss[|es|].log) && WellFormed(ss[i].rt.sched)
    ensures var p, s := ReplayOf(prog, h, ss[|es|].log, m), ss[i];
            var ctx := s.rt.sched.threads[s.rt.sched.current].ctx;
            && p.status == Live && p.local.trace == s.trace && p.local.mem == s.mem
            && ctx.InIo? && Ask(prog, p.local) == AskCall(ctx.call)
            && ReplayOf(prog, h, ss[|es|].log, m + 1).local.trace
               == s.trace + [Replied(CurrentId(s.rt.sched), Returned(CallReply(-1, EPROTO, [])))]
  {
    m := FileFollows(prog, ss, es, h, i);
    RecordingKeeps(prog, ss, es, i);
    var full, s := ss[|es|].log, ss[i];
    var log, p := FileReader(LogFile(h, full)), ReplayOf(prog, h, full, m);
    RecordingLogGrows(prog, ss, es, i + 1);
    DisturbedFetch(prog, log, full, s, p, es[i]);
    assert ProperCall(s.rt, s.rt.sched.current);
  }

  lemma {:induction false} DisturbedFetch<M>(prog: Program<M>, log: Reader, full: seq<Event>, s: Rec<M>, p: Rep<M>,
                                             e: Choice)
    requires RecEnabled(prog, s, e) && RecInv(s) && Follows(prog, s, p) && Disturbs(prog, s, e)
    requires Provides(log, RecNext(prog, s, e).log, full)
    ensures AwaitingCall(prog, s, p)
    ensures |s.log| < |full| && (full[|s.log|].payload.Switch? || full[|s.log|].payload.Signal?)
    ensures var c := s.rt.sched.threads[s.rt.sched.current].ctx.call;
            log.nextSyscall(p.cursor, Nr(c), CurrentId(s.rt.sched)) == CallBad(EPROTO, At(|s.log| + 1))
  {
    var sched := s.rt.sched;
    var c := sched.threads[sched.current].ctx.call;
    var me := CurrentId(sched);
    match e
    case DispatchStep =>
      FrontFinds(s.rt);
      var toId := FrontId(sched);
      assert Emit(s.log, toId, Switch(me, toId)) <= RecNext(prog, s, e).log;
      FetchesOther(log, full, s.log, toId, Switch(me, toId), c, me);
    case CompleteStep(op, k, signo) =>
      FetchesOther(log, full, s.log, me, Signal(signo, me % U32), c, me);
  }

  // A call whose result the log cannot carry: the replay answers it with what is
  // left of the result, which is not what the recording answered.
  lemma {:induction false} LostResultDiffers<M>(prog: Program<M>, ss: seq<Rec<M>>, es: seq<Choice>, h: Header, i: nat)
    returns (m: nat)
    requires Bounded(prog, ss, es) && CleanUpTo(prog, ss, es, i) && ValidHeader(h)
    requires RecStepAt(prog, ss, es, i) && Loses(prog, ss[i], es[i]) && !Disturbs(prog, ss[i], es[i])
    ensures AllValid(ss[|es|].log)
    ensures var f := FinishedBy(prog, ss[i], es[i]); var id := CurrentId(ss[i].rt.sched);
            var replayed, recorded := ReplayReply(f.call, Logged(f.call, f.result)), RecordReply(f.call, f.result);
            && replayed != recorded
            && ReplayOf(prog, h, ss[|es|].log, m).local.trace == ss[i].trace
            && ReplayOf(prog, h, ss[|es|].log, m + 1).local.trace == ss[i].trace + [Replied(id, Returned(replayed))]
            && ss[i + 1].trace == ss[i].trace + [Replied(id, Returned(recorded))]
  {
    m := FileFollows(prog, ss, es, h, i);
    RecordingKeeps(prog, ss, es, i);
    RecordingLogGrows(prog, ss, es, i + 1);
    var full := ss[|es|].log;
    LossStep(prog, FileReader(LogFile(h, full)), full, ss[i], ReplayOf(prog, h, full, m), es[i]);
  }

  lemma {:induction false} LossStep<M>(prog: Program<M>, log: Reader, full: seq<Event>, s: Rec<M>, p: Rep<M>, e: Choice)
    requires WellFormed(p.local.sched)
    requires RecEnabled(prog, s, e) && RecInv(s) && Follows(prog, s, p)
    requires Loses(prog, s, e) && !Disturbs(prog, s, e)
    requires Provides(log, RecNext(prog, s, e).log, full)
    ensures var f := FinishedBy(prog, s, e); var id := CurrentId(s.rt.sched);
            var replayed, recorded := ReplayReply(f.call, Logged(f.call, f.result)), RecordReply(f.call, f.result);
            && replayed != recorded && p.local.trace == s.trace
            && RepNext(prog, log, p).local.trace == s.trace + [Replied(id, Returned(replayed))]
            && RecNext(prog, s, e).trace == s.trace + [Replied(id, Returned(recorded))]
  {
    var f := FinishedBy(prog, s, e);
    match e
    case UserStep(k) =>
      DirectCallFollows(prog, log, full, s, p, k);
      ReplayAgreesIff(f.call, f.result);
    case DispatchStep =>
      assert InCall(s.rt.sched, s.rt.sched.runq[0]);
      ResumeFollows(prog, log, full, s, p);
      ReplayAgreesIff(f.call, f.result);
  }

  // Exactly ------------------------------------------------------------------

  lemma {:induction false} TraceGrows<M>(prog: Program<M>, s: Rec<M>, e: Choice)
    requires RecEnabled(prog, s, e)
    ensures s.trace <= RecNext(prog, s, e).trace
  {
  }

  lemma {:induction false} RecordingTraceGrows<M>(prog: Program<M>, ss: seq<Rec<M>>, es: seq<Choice>, i: nat, j: nat)
    requires IsRecording(prog, ss, es) && i <= j < |ss|
    ensures ss[i].trace <= ss[j].trace
    decreases j - i
  {
    if i < j {
      assert RecStepAt(prog, ss, es, i);
      TraceGrows(prog, ss[i], es[i]);
      RecordingTraceGrows(prog, ss, es, i + 1, j);
    }
  }

  // The number of steps up to the last one, within the first n, that shows something.
  function Shown<M>(ss: seq<Rec<M>>, n: nat): (r: nat)
    requires n < |ss|
    ensures r <= n
  {
    if n == 0 then 0 else if |ss[n].trace| != |ss[n - 1].trace| then n else Shown(ss, n - 1)
  }

  lemma {:induction false} ShownIsLast<M>(prog: Program<M>, ss: seq<Rec<M>>, es: seq<Choice>, n: nat)
    requires IsRecording(prog, ss, es) && n < |ss|
    ensures ss[Shown(ss, n)].trace == ss[n].trace
  {
    if n > 0 {
      RecordingTraceGrows(prog, ss, es, n - 1, n);
      ShownIsLast(prog, ss, es, n - 1);
    }
  }

  lemma {:induction false} RepTraceGrows<M>(prog: Program<M>, log: Reader, p: Rep<M>)
    requires WellFormed(p.local.sched)
    ensures p.local.trace <= RepNext(prog, log, p).local.trace
  {
    var s := p.local.sched;
    if p.status == Live && s.phase == Scheduler && s.runq != [] && FrontRunnable(s) {
      assert p.local.trace <= SwitchIn(p.local).trace;
    }
  }

  // What a replay has shown it has shown for good.
  lemma {:induction false} ReplayKeeps<M>(prog: Program<M>, log: Reader, run: nat -> Rep<M>, a: nat, b: nat)
    requires IsReplay(prog, log, run) && a <= b
    ensures run(a).local.trace <= run(b).local.trace
  {
    if a < b {
      ReplayKeeps(prog, log, run, a, b - 1);
      assert RepStepAt(prog, log, run, b - 1);
      RepTraceGrows(prog, log, run(b - 1));
    }
  }

  // Once the replay shows something else than the recording it never shows what the
  // recording showed.
  lemma {:induction false} NeverRecovers<M>(prog: Program<M>, log: Reader, run: nat -> Rep<M>, m: nat, k: nat,
                                            common: seq<Observation>, x: Observation, y: Observation,
                                            target: seq<Observation>)
    requires IsReplay(prog, log, run)
    requires run(m).local.trace == common && run(m + 1).local.trace == common + [x]
    requires common + [y] <= target && x != y
    ensures run(k).local.trace != target
  {
    var t := run(k).local.trace;
    if k <= m {
      ReplayKeeps(prog, log, run, k, m);
    } else {
      ReplayKeeps(prog, log, run, m + 1, k);
      assert t[|common|] == (common + [x])[|common|] && target[|common|] == (common + [y])[|common|];
    }
  }

  // A signal during a call ---------------------------------------------------

  // The current uthread is the only one in a call, and no other can run.
  ghost predicate SoleCaller<M>(s: Rec<M>) {
    var sched := s.rt.sched;
    && sched.current < |sched.threads| && sched.phase == Scheduler
    && InCall(sched, sched.current)
    && (forall i :: 0 <= i < |sched.threads| && i != sched.current ==> !InCall(sched, i))
    && (sched.runq == [] || sched.runq == [sched.current])
  }

  lemma {:induction false} SoleCallerCompletes<M>(prog: Program<M>, s: Rec<M>, op: nat, k: KernelResult, signo: nat)
    requires RecEnabled(prog, s, CompleteStep(op, k, signo)) && RecInv(s) && SoleCaller(s)
    ensures var s' := RecComplete(prog, s, op, k, signo);
            && SoleCaller(s') && s'.trace == s.trace && CurrentId(s'.rt.sched) == CurrentId(s.rt.sched)
            && s'.rt.sched.threads[s'.rt.sched.current].ctx == s.rt.sched.threads[s.rt.sched.current].ctx
  {
    if s.rt.inflight[op] == SIGNAL_SENTINEL {
      SignalReapKeeps(s.rt, op, k);
    } else {
      CompletionOfCall(s.rt, op);
      ReapWakesCaller(s.rt, op, k);
      var sched, sched' := s.rt.sched, RecComplete(prog, s, op, k, signo).rt.sched;
      forall i | 0 <= i < |sched'.threads| && i != sched'.current ensures !InCall(sched', i) {
        assert !InCall(sched, i);
      }
    }
  }

  // The next thing such a recording shows is the kernel's answer to that call.
  lemma {:induction false} SoleCallerResumes<M>(prog: Program<M>, s: Rec<M>)
    requires RecEnabled(prog, s, DispatchStep) && RecInv(s) && SoleCaller(s)
    ensures var ctx := s.rt.sched.threads[s.rt.sched.current].ctx;
            && ctx.op in s.rt.completed && Suspends(ctx.call)
            && RecDispatch(prog, s).trace == s.trace + [Replied(CurrentId(s.rt.sched),
                 Returned(RecordReply(ctx.call, s.rt.completed[ctx.op])))]
  {
    FrontFinds(s.rt);
    assert s.rt.sched.runq[0] == s.rt.sched.current;
  }

  // Once a recording whose only suspended call is the current uthread's shows anything
  // more, it is the kernel's answer to that call, given in some step x.
  lemma {:induction false} SoleCallerAnswered<M>(prog: Program<M>, ss: seq<Rec<M>>, es: seq<Choice>, n: nat)
    returns (x: nat)
    requires Bounded(prog, ss, es) && n < |ss| && SoleCaller(ss[n])
    requires ss[n].trace != ss[|es|].trace
    ensures n <= x < |es| && es[x].DispatchStep? && ss[x].trace == ss[n].trace
    ensures var sched := ss[n].rt.sched; var ctx := sched.threads[sched.current].ctx;
            && ctx.op in ss[x].rt.completed
            && ss[n].trace + [Replied(CurrentId(sched), Returned(RecordReply(ctx.call, ss[x].rt.completed[ctx.op])))]
               == ss[x + 1].trace <= ss[|es|].trace
    decreases |es| - n
  {
    assert RecStepAt(prog, ss, es, n);
    RecordingKeeps(prog, ss, es, n);
    if es[n].DispatchStep? {
      SoleCallerResumes(prog, ss[n]);
      RecordingTraceGrows(prog, ss, es, n + 1, |es|);
      x := n;
    } else {
      SoleCallerCompletes(prog, ss[n], es[n].op, es[n].result, es[n].signo);
      x := SoleCallerAnswered(prog, ss, es, n + 1);
    }
  }

  // What the recording shows at its first unclean step, or next after it, is not
  // what the replay shows there.
  lemma {:induction false} SwitchDiverges<M>(prog: Program<M>, ss: seq<Rec<M>>, es: seq<Choice>, h: Header, i: nat,
                                             k: nat)
    requires Bounded(prog, ss, es) && ValidHeader(h) && CleanUpTo(prog, ss, es, i)
    requires RecStepAt(prog, ss, es, i) && es[i].DispatchStep? && Disturbs(prog, ss[i], es[i])
    ensures AllValid(ss[|es|].log)
    ensures ReplayOf(prog, h, ss[|es|].log, k).local.trace != ss[|es|].trace
  {
    RecordingTraceGrows(prog, ss, es, i + 1, |es|);
    RecordingKeeps(prog, ss, es, i);
    var s := ss[i];
    var id := CurrentId(s.rt.sched);
    var m := DisturbedCallFails(prog, ss, es, h, i);
    SwitchShows(prog, s);
    var y := Switched(id, FrontId(s.rt.sched));
    assert s.trace + [y] <= ss[|es|].trace;
    var log := FileReader(LogFile(h, ss[|es|].log));
    ReplayedIsReplay(prog, log);
    NeverRecovers(prog, log, RunOf(prog, log), m, k, s.trace,
                  Replied(id, Returned(CallReply(-1, EPROTO, []))), y, ss[|es|].trace);
  }

  // Step i logs a signal while a call is suspended.
  ghost predicate SignalDisturbsAt<M>(prog: Program<M>, ss: seq<Rec<M>>, es: seq<Choice>, i: nat) {
    RecStepAt(prog, ss, es, i) && es[i].CompleteStep? && Disturbs(prog, ss[i], es[i])
  }

  ghost predicate EchoAt<M>(prog: Program<M>, ss: seq<Rec<M>>, es: seq<Choice>, i: nat) {
    RecStepAt(prog, ss, es, i) && Echoes(prog, ss[i], es[i])
  }

  ghost predicate EchoFrom<M>(prog: Program<M>, ss: seq<Rec<M>>, es: seq<Choice>, i: nat, n: nat) {
    && IsRecording(prog, ss, es) && i <= n <= |es|
    && forall j :: i <= j < n ==> EchoAt(prog, ss, es, j)
  }

  lemma {:induction false} LagStarts<M>(prog: Program<M>, log: Reader, full: seq<Event>, s: Rec<M>, p: Rep<M>,
                                        e: Choice)
    requires RecEnabled(prog, s, e) && RecInv(s) && Follows(prog, s, p) && Disturbs(prog, s, e) && e.CompleteStep?
    requires Provides(log, RecNext(prog, s, e).log, full)
    ensures Lags(prog, RecNext(prog, s, e), p, |s.log|)
  {
    DisturbedFetch(prog, log, full, s, p, e);
    CompletionFollows(prog, s, p, e.op, e.result, e.signo);
  }

  // As long as every call is answered with EPROTO and no switch is shown, the replay
  // lags behind in the log but nowhere else.
  lemma {:induction false} LagRun<M>(prog: Program<M>, log: Reader, run: nat -> Rep<M>, ss: seq<Rec<M>>,
                                     es: seq<Choice>, i: nat, n: nat)
    returns (m: nat, q: nat)
    requires Bounded(prog, ss, es) && ReadsLog(log, ss[|es|].log) && IsReplay(prog, log, run)
    requires CleanUpTo(prog, ss, es, i) && SignalDisturbsAt(prog, ss, es, i) && i < n && EchoFrom(prog, ss, es, i, n)
    ensures Lags(prog, ss[n], run(m), q)
  {
    m, q := LagStartsAt(prog, log, run, ss, es, i);
    m, q := LagOn(prog, log, run, ss, es, i, i + 1, n, m, q);
  }

  lemma {:induction false} LagOn<M>(prog: Program<M>, log: Reader, run: nat -> Rep<M>, ss: seq<Rec<M>>,
                                    es: seq<Choice>, i: nat, k: nat, n: nat, m: nat, q: nat)
    returns (m': nat, q': nat)
    requires Bounded(prog, ss, es) && ReadsLog(log, ss[|es|].log) && IsReplay(prog, log, run)
    requires i <= k <= n && EchoFrom(prog, ss, es, i, n) && Lags(prog, ss[k], run(m), q)
    ensures Lags(prog, ss[n], run(m'), q')
    decreases n - k
  {
    m', q' := m, q;
    if k < n {
      m', q' := LagRunStep(prog, log, run, ss, es, i, k, n, m, q);
      m', q' := LagOn(prog, log, run, ss, es, i, k + 1, n, m', q');
    }
  }

  lemma {:induction false} LagRunStep<M>(prog: Program<M>, log: Reader, run: nat -> Rep<M>, ss: seq<Rec<M>>,
                                         es: seq<Choice>, i: nat, k: nat, n: nat, m: nat, q: nat)
    returns (m': nat, q': nat)
    requires Bounded(prog, ss, es) && ReadsLog(log, ss[|es|].log) && IsReplay(prog, log, run)
    requires i <= k < n && EchoFrom(prog, ss, es, i, n) && Lags(prog, ss[k], run(m), q)
    ensures Lags(prog, ss[k + 1], run(m'), q')
  {
    assert EchoAt(prog, ss, es, k);
    assert RepStepAt(prog, log, run, m);
    var moved;
    moved, q' := LagStepAt(prog, log, ss, es, k, run(m), q);
    m' := if moved then m + 1 else m;
  }

  lemma {:induction false} LagStartsAt<M>(prog: Program<M>, log: Reader, run: nat -> Rep<M>, ss: seq<Rec<M>>,
                                          es: seq<Choice>, i: nat)
    returns (m: nat, q: nat)
    requires Bounded(prog, ss, es) && ReadsLog(log, ss[|es|].log) && IsReplay(prog, log, run)
    requires CleanUpTo(prog, ss, es, i) && SignalDisturbsAt(prog, ss, es, i)
    ensures Lags(prog, ss[i + 1], run(m), q)
  {
    RecordingKeeps(prog, ss, es, i);
    RecordingLogGrows(prog, ss, es, i);
    RecordingLogGrows(prog, ss, es, i + 1);
    m := CleanRunFollows(prog, log, ss[|es|].log, run, ss, es, i);
    q := |ss[i].log|;
    LagStarts(prog, log, ss[|es|].log, ss[i], run(m), es[i]);
  }

  lemma {:induction false} LagStepAt<M>(prog: Program<M>, log: Reader, ss: seq<Rec<M>>, es: seq<Choice>, n: nat,
                                        p: Rep<M>, q: nat)
    returns (moved: bool, q': nat)
    requires Bounded(prog, ss, es) && ReadsLog(log, ss[|es|].log) && EchoAt(prog, ss, es, n)
    requires WellFormed(p.local.sched) && Lags(prog, ss[n], p, q)
    ensures Lags(prog, ss[n + 1], if moved then RepNext(prog, log, p) else p, q')
  {
    RecordingKeeps(prog, ss, es, n);
    RecordingLogGrows(prog, ss, es, n + 1);
    moved, q' := StepLags(prog, log, ss[|es|].log, ss[n], p, es[n], q);
  }

  lemma {:induction false} LagEnds<M>(prog: Program<M>, log: Reader, run: nat -> Rep<M>, ss: seq<Rec<M>>,
                                      es: seq<Choice>, i: nat, j: nat)
    returns (m: nat)
    requires Bounded(prog, ss, es) && ReadsLog(log, ss[|es|].log) && IsReplay(prog, log, run)
    requires CleanUpTo(prog, ss, es, i) && SignalDisturbsAt(prog, ss, es, i) && EchoFrom(prog, ss, es, i, j)
    requires j < |es| && !EchoAt(prog, ss, es, j)
    ensures Parts(run(m).local.trace, ss[j + 1], run(m + 1))
  {
    var q;
    assert RecStepAt(prog, ss, es, j);
    m, q := LagRun(prog, log, run, ss, es, i, j);
    assert RepStepAt(prog, log, run, m);
    PartsAt(prog, log, ss, es, j, run(m), q);
  }

  lemma {:induction false} PartsAt<M>(prog: Program<M>, log: Reader, ss: seq<Rec<M>>, es: seq<Choice>, j: nat,
                                      p: Rep<M>, q: nat)
    requires Bounded(prog, ss, es) && ReadsLog(log, ss[|es|].log)
    requires RecStepAt(prog, ss, es, j) && !EchoAt(prog, ss, es, j)
    requires WellFormed(p.local.sched) && Lags(prog, ss[j], p, q)
    ensures Parts(p.local.trace, ss[j + 1], RepNext(prog, log, p))
  {
    RecordingKeeps(prog, ss, es, j);
    RecordingLogGrows(prog, ss, es, j);
    StepParts(prog, log, ss[|es|].log, ss[j], p, es[j], q);
  }

  // A replay that has stopped shows nothing more.
  lemma {:induction false} StoppedStays<M>(prog: Program<M>, log: Reader, run: nat -> Rep<M>, a: nat, b: nat)
    requires IsReplay(prog, log, run) && a <= b && run(a).status != Live
    ensures run(b) == run(a)
  {
    if a < b {
      StoppedStays(prog, log, run, a, b - 1);
      assert RepStepAt(prog, log, run, b - 1);
    }
  }

  lemma {:induction false} PartsForever<M>(prog: Program<M>, log: Reader, run: nat -> Rep<M>, m: nat, k: nat,
                                           s': Rec<M>, target: seq<Observation>)
    requires IsReplay(prog, log, run) && Parts(run(m).local.trace, s', run(m + 1)) && s'.trace <= target
    ensures run(k).local.trace != target
  {
    var shown, next := run(m).local.trace, run(m + 1);
    if k <= m {
      ReplayKeeps(prog, log, run, k, m);
    } else if next.status == Aborted {
      StoppedStays(prog, log, run, m + 1, k);
    } else {
      ReplayKeeps(prog, log, run, m + 1, k);
      assert target[|shown|] == s'.trace[|shown|];
    }
  }

  // After a signal logged during a suspended call, the first switch shown, or the
  // first call answered with anything but EPROTO, parts the two for good.
  lemma {:induction false} SignalDiverges<M>(prog: Program<M>, ss: seq<Rec<M>>, es: seq<Choice>, h: Header, i: nat,
                                             j: nat, k: nat)
    requires Bounded(prog, ss, es) && ValidHeader(h) && CleanUpTo(prog, ss, es, i)
    requires SignalDisturbsAt(prog, ss, es, i) && EchoFrom(prog, ss, es, i, j)
    requires j < |es| && !EchoAt(prog, ss, es, j)
    ensures AllValid(ss[|es|].log)
    ensures ReplayOf(prog, h, ss[|es|].log, k).local.trace != ss[|es|].trace
  {
    RecordedLogIsWellFormed(prog, ss, es);
    FileReadsLog(h, ss[|es|].log);
    var log := FileReader(LogFile(h, ss[|es|].log));
    ReplayedIsReplay(prog, log);
    var m := LagEnds(prog, log, RunOf(prog, log), ss, es, i, j);
    RecordingTraceGrows(prog, ss, es, j + 1, |es|);
    PartsForever(prog, log, RunOf(prog, log), m, k, ss[j + 1], ss[|es|].trace);
    assert RunOf(prog, log)(k) == ReplayOf(prog, h, ss[|es|].log, k);
  }

  lemma {:induction false} LossDiverges<M>(prog: Program<M>, ss: seq<Rec<M>>, es: seq<Choice>, h: Header, i: nat,
                                           k: nat)
    requires Bounded(prog, ss, es) && ValidHeader(h) && CleanUpTo(prog, ss, es, i)
    requires RecStepAt(prog, ss, es, i) && Loses(prog, ss[i], es[i]) && !Disturbs(prog, ss[i], es[i])
    ensures AllValid(ss[|es|].log)
    ensures ReplayOf(prog, h, ss[|es|].log, k).local.trace != ss[|es|].trace
  {
    RecordingTraceGrows(prog, ss, es, i + 1, |es|);
    var m := LostResultDiffers(prog, ss, es, h, i);
    var f, id := FinishedBy(prog, ss[i], es[i]), CurrentId(ss[i].rt.sched);
    var log := FileReader(LogFile(h, ss[|es|].log));
    ReplayedIsReplay(prog, log);
    NeverRecovers(prog, log, RunOf(prog, log), m, k, ss[i].trace,
                  Replied(id, Returned(ReplayReply(f.call, Logged(f.call, f.result)))),
                  Replied(id, Returned(RecordReply(f.call, f.result))), ss[|es|].trace);
  }

  // The first number from i on, below n, that p does not hold of.
  lemma {:induction false} FirstFailing(p: nat -> bool, i: nat, n: nat) returns (j: nat)
    requires i <= n
    ensures i <= j <= n && (forall k :: i <= k < j ==> p(k)) && (j < n ==> !p(j))
    decreases n - i
  {
    j := i;
    if i < n && p(i) {
      j := FirstFailing(p, i + 1, n);
    }
  }

  lemma {:induction false} FirstUnclean<M>(prog: Program<M>, ss: seq<Rec<M>>, es: seq<Choice>, n: nat) returns (i: nat)
    requires IsRecording(prog, ss, es) && n <= |es|
    ensures i <= n && CleanUpTo(prog, ss, es, i)
    ensures i < n ==> !CleanAt(prog, ss, es, i)
  {
    var clean := (j: nat) => CleanAt(prog, ss, es, j);
    i := FirstFailing(clean, 0, n);
    forall j | 0 <= j < i ensures CleanAt(prog, ss, es, j) {
      assert clean(j);
    }
  }

  lemma {:induction false} FirstNonEcho<M>(prog: Program<M>, ss: seq<Rec<M>>, es: seq<Choice>, i: nat, n: nat)
    returns (j: nat)
    requires IsRecording(prog, ss, es) && i <= n <= |es|
    ensures i <= j <= n && EchoFrom(prog, ss, es, i, j)
    ensures j < n ==> !EchoAt(prog, ss, es, j)
  {
    var echo := (k: nat) => EchoAt(prog, ss, es, k);
    j := FirstFailing(echo, i, n);
    forall k | i <= k < j ensures EchoAt(prog, ss, es, k) {
      assert echo(k);
    }
  }

  // The first n steps are clean, or the first that is not logs a signal during a
  // suspended call and from there on, up to step n, every call fails with EPROTO and
  // no switch is shown.
  ghost predicate Reproducible<M>(prog: Program<M>, ss: seq<Rec<M>>, es: seq<Choice>, n: nat) {
    || CleanUpTo(prog, ss, es, n)
    || exists i :: EchoedFrom(prog, ss, es, i, n)
  }

  ghost predicate EchoedFrom<M>(prog: Program<M>, ss: seq<Rec<M>>, es: seq<Choice>, i: nat, n: nat) {
    && CleanUpTo(prog, ss, es, i) && i < n
    && SignalDisturbsAt(prog, ss, es, i) && EchoFrom(prog, ss, es, i, n)
  }

  lemma {:induction false} OnlyFirstUnclean<M>(prog: Program<M>, ss: seq<Rec<M>>, es: seq<Choice>, i: nat, n: nat)
    requires CleanUpTo(prog, ss, es, i) && i < n && !CleanAt(prog, ss, es, i)
    ensures Reproducible(prog, ss, es, n) <==> EchoedFrom(prog, ss, es, i, n)
  {
    forall j | EchoedFrom(prog, ss, es, j, n) ensures j == i {
      assert !CleanAt(prog, ss, es, j);
    }
  }

  lemma {:induction false} UncleanReproduces<M>(prog: Program<M>, ss: seq<Rec<M>>, es: seq<Choice>, h: Header, i: nat)
    returns (m: nat)
    requires Bounded(prog, ss, es) && ValidHeader(h) && EchoedFrom(prog, ss, es, i, Shown(ss, |es|))
    ensures AllValid(ss[|es|].log)
    ensures ReplayOf(prog, h, ss[|es|].log, m).local.trace == ss[|es|].trace
  {
    RecordedLogIsWellFormed(prog, ss, es);
    FileReadsLog(h, ss[|es|].log);
    var log := FileReader(LogFile(h, ss[|es|].log));
    ReplayedIsReplay(prog, log);
    var q;
    m, q := LagRun(prog, log, RunOf(prog, log), ss, es, i, Shown(ss, |es|));
    ShownIsLast(prog, ss, es, |es|);
  }

  lemma {:induction false} UncleanDiverges<M>(prog: Program<M>, ss: seq<Rec<M>>, es: seq<Choice>, h: Header, i: nat,
                                              k: nat)
    requires Bounded(prog, ss, es) && ValidHeader(h)
    requires CleanUpTo(prog, ss, es, i) && i < Shown(ss, |es|) && !CleanAt(prog, ss, es, i)
    requires !EchoedFrom(prog, ss, es, i, Shown(ss, |es|))
    ensures AllValid(ss[|es|].log)
    ensures ReplayOf(prog, h, ss[|es|].log, k).local.trace != ss[|es|].trace
  {
    assert RecStepAt(prog, ss, es, i);
    if !Disturbs(prog, ss[i], es[i]) {
      LossDiverges(prog, ss, es, h, i, k);
    } else if es[i].DispatchStep? {
      SwitchDiverges(prog, ss, es, h, i, k);
    } else {
      var j := FirstNonEcho(prog, ss, es, i, Shown(ss, |es|));
      SignalDiverges(prog, ss, es, h, i, j, k);
    }
  }

  // For every program, recording and kernel: some point of the replay shows exactly
  // what the recording showed if and only if, before the last thing shown, no other
  // uthread was switched to and no signal was logged while a call was suspended and
  // the log carries every call's result; or such a signal was followed by no switch
  // and by no answer but EPROTO.
  lemma {:induction false} ReplayReproducesIffClean<M>(prog: Program<M>, ss: seq<Rec<M>>, es: seq<Choice>, h: Header)
    requires Bounded(prog, ss, es) && ValidHeader(h)
    ensures AllValid(ss[|es|].log)
    ensures Reproducible(prog, ss, es, Shown(ss, |es|))
            <==> exists m: nat :: ReplayOf(prog, h, ss[|es|].log, m).local.trace == ss[|es|].trace
  {
    RecordedLogIsWellFormed(prog, ss, es);
    var n := Shown(ss, |es|);
    var i := FirstUnclean(prog, ss, es, n);
    if i == n {
      var m := FileFollows(prog, ss, es, h, n);
      ShownIsLast(prog, ss, es, |es|);
    } else {
      OnlyFirstUnclean(prog, ss, es, i, n);
      if EchoedFrom(prog, ss, es, i, n) {
        var m := UncleanReproduces(prog, ss, es, h, i);
      } else {
        forall k: nat ensures ReplayOf(prog, h, ss[|es|].log, k).local.trace != ss[|es|].trace {
          UncleanDiverges(prog, ss, es, h, i, k);
        }
      }
    }
  }
}
