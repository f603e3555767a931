// Replaying a log that is not whole: the recording process was killed, or batches were
// lost to failing writes. The replay shows the recording up to the last event it can
// read; from then on every call fails and the first switch ends the process.
module CutLogs {
  import opened Words
  import opened Events
  import opened Calls
  import opened Runtime
  import opened Replayer
  import opened Machines
  import opened Recordings
  import opened Lockstep

  // Past the readable part: from a dead cursor every check fails, with one of errs,
  // and leaves the cursor dead.
  ghost predicate DeadEnd(log: Reader, dead: Cursor -> bool, errs: set<nat>) {
    && (forall c, fromId, toId :: dead(c) ==>
          var r := log.expectSwitch(c, fromId, toId); r.SwitchBad? && r.err in errs && dead(r.next))
    && (forall c, nr, uthread :: dead(c) ==>
          var r := log.nextSyscall(c, nr, uthread); r.CallBad? && r.err in errs && dead(r.next))
  }

  // The end of the recording a log still holds -------------------------------

  // A clean step logs at most one event.
  lemma {:induction false} CleanLogsOne<M>(prog: Program<M>, s: Rec<M>, e: Choice)
    requires RecEnabled(prog, s, e) && RecInv(s) && Clean(prog, s, e)
    ensures |s.log| <= |RecNext(prog, s, e).log| <= |s.log| + 1
  {
    if e.DispatchStep? {
      FrontFinds(s.rt);
      if FrontContext(s.rt.sched).InIo? {
        assert InCall(s.rt.sched, s.rt.sched.runq[0]);
      }
    }
  }

  // Of the states of a clean recording that have logged p events, the last one.
  lemma {:induction false} LastWith<M>(prog: Program<M>, ss: seq<Rec<M>>, es: seq<Choice>, c: nat, n: nat, p: nat)
    returns (j: nat)
    requires Bounded(prog, ss, es) && CleanUpTo(prog, ss, es, c) && n <= c
    requires 1 <= p <= |ss[n].log| && (n < c ==> p < |ss[n + 1].log|)
    ensures j <= n && |ss[j].log| == p && (j < c ==> p < |ss[j + 1].log|)
  {
    j := n;
    if p < |ss[n].log| {
      assert n > 0;
      assert CleanAt(prog, ss, es, n - 1);
      RecordingKeeps(prog, ss, es, n - 1);
      CleanLogsOne(prog, ss[n - 1], es[n - 1]);
      j := LastWith(prog, ss, es, c, n - 1, p);
    }
  }

  // What the replay does from there ------------------------------------------

  // The log is used up, or nothing can run any more.
  ghost predicate Ended<M>(dead: Cursor -> bool, p: Rep<M>) {
    dead(p.cursor) || (p.local.sched.phase == Scheduler && p.local.sched.runq == [])
  }

  predicate Switches(s: Sched)
    requires WellFormed(s)
  {
    s.phase == Scheduler && s.runq != [] && FrontRunnable(s) && CurrentId(s) != FrontId(s)
  }

  // The call asked for was answered with a failure.
  ghost predicate FailsCall<M>(prog: Program<M>, l: Local<M>, l': Local<M>, r: CallReply)
    requires WellFormed(l.sched) && Ask(prog, l).AskCall?
  {
    Fails(Ask(prog, l).call, r, r.err) && l' == Answer(prog, l, Returned(r))
  }

  // One step without a log: a call fails, a switch aborts, nothing else needs it.
  ghost predicate EndStep<M>(prog: Program<M>, errs: set<nat>, p: Rep<M>, p': Rep<M>)
    requires WellFormed(p.local.sched)
  {
    var s := p.local.sched;
    if p.status != Live then p' == p
    else if s.phase == User && Ask(prog, p.local).AskCall? then
      p'.status == Live && exists r: CallReply :: r.err in errs && FailsCall(prog, p.local, p'.local, r)
    else if Switches(s) then p'.status == Aborted && p'.local == p.local
    else p'.status == Live && p'.cursor == p.cursor
  }

  lemma {:induction false} EndedSteps<M>(prog: Program<M>, log: Reader, dead: Cursor -> bool, errs: set<nat>, p: Rep<M>)
    requires DeadEnd(log, dead, errs) && WellFormed(p.local.sched) && Ended(dead, p)
    ensures Ended(dead, RepNext(prog, log, p)) && EndStep(prog, errs, p, RepNext(prog, log, p))
  {
    var s := p.local.sched;
    if p.status == Live && s.phase == User && Ask(prog, p.local).AskCall? {
      var c := Ask(prog, p.local).call;
      var err := log.nextSyscall(p.cursor, Nr(c), CurrentId(s)).err;
      FailureFails(c, err);
      assert FailsCall(prog, p.local, RepNext(prog, log, p).local, ReplayFailure(c, err));
    }
  }

  // What a replay may still show: no switch, and no call that does not fail.
  predicate Failing(o: Observation, errs: set<nat>) {
    o.Replied? && (o.reply.Returned? ==> o.reply.reply.err in errs && o.reply.reply.data == [])
  }

  ghost predicate OnlyFailing(shown: seq<Observation>, t: seq<Observation>, errs: set<nat>) {
    shown <= t && forall i :: |shown| <= i < |t| ==> Failing(t[i], errs)
  }

  lemma {:induction false} ServeShows<M>(prog: Program<M>, l: Local<M>, q: Request, errs: set<nat>)
    requires WellFormed(l.sched) && !q.AskCall?
    ensures OnlyFailing(l.trace, Serve(prog, l, q).trace, errs)
  {
  }

  lemma {:induction false} EndShows<M>(prog: Program<M>, log: Reader, dead: Cursor -> bool, errs: set<nat>, p: Rep<M>)
    requires DeadEnd(log, dead, errs) && WellFormed(p.local.sched) && Ended(dead, p)
    ensures OnlyFailing(p.local.trace, RepNext(prog, log, p).local.trace, errs)
  {
    EndedSteps(prog, log, dead, errs, p);
    var l := p.local;
    if p.status == Live && l.sched.phase == User && !Ask(prog, l).AskCall? {
      ServeShows(prog, l, Ask(prog, l), errs);
    }
  }

  lemma {:induction false} EndedForever<M>(prog: Program<M>, log: Reader, run: nat -> Rep<M>, dead: Cursor -> bool,
                                           errs: set<nat>, m: nat, k: nat)
    requires DeadEnd(log, dead, errs) && IsReplay(prog, log, run) && m <= k && Ended(dead, run(m))
    ensures Ended(dead, run(k)) && OnlyFailing(run(m).local.trace, run(k).local.trace, errs)
  {
    if m < k {
      EndedForever(prog, log, run, dead, errs, m, k - 1);
      assert RepStepAt(prog, log, run, k - 1);
      EndedSteps(prog, log, dead, errs, run(k - 1));
      EndShows(prog, log, dead, errs, run(k - 1));
    }
  }

  // The replay shows the recording up to its n-th state and then only failing calls.
  ghost predicate EndsAfter<M>(prog: Program<M>, errs: set<nat>, run: nat -> Rep<M>, s: Rec<M>, m: nat) {
    && run(m).status == Live && run(m).local.trace == s.trace && run(m).local.mem == s.mem
    && forall k: nat :: m <= k ==> EndsBy(prog, errs, run, s.trace, k)
  }

  ghost predicate EndsBy<M>(prog: Program<M>, errs: set<nat>, run: nat -> Rep<M>, shown: seq<Observation>, k: nat) {
    && WellFormed(run(k).local.sched) && EndStep(prog, errs, run(k), run(k + 1))
    && OnlyFailing(shown, run(k).local.trace, errs)
  }

  // For every clean recording and every reader that finds its first events and nothing
  // usable behind them.
  lemma {:induction false} ReplayEnds<M>(prog: Program<M>, log: Reader, full: seq<Event>, run: nat -> Rep<M>,
                                         dead: Cursor -> bool, errs: set<nat>, ss: seq<Rec<M>>, es: seq<Choice>,
                                         c: nat)
    returns (n: nat, m: nat)
    requires Bounded(prog, ss, es) && CleanUpTo(prog, ss, es, c) && full != [] && full <= ss[c].log
    requires ReadsLog(log, full) && IsReplay(prog, log, run)
    requires DeadEnd(log, dead, errs) && dead(At(|full|))
    ensures n <= c && ss[n].log == full && (n < c ==> full < ss[n + 1].log)
    ensures EndsAfter(prog, errs, run, ss[n], m)
  {
    n := LastWith(prog, ss, es, c, c, |full|);
    LogsBetween(prog, ss, es, n, c);
    if n < c {
      LogsBetween(prog, ss, es, n, n + 1);
    }
    m := CleanRunFollows(prog, log, full, run, ss, es, n);
    forall k: nat | m <= k ensures EndsBy(prog, errs, run, ss[n].trace, k) {
      EndedForever(prog, log, run, dead, errs, m, k);
      assert RepStepAt(prog, log, run, k);
      EndedSteps(prog, log, dead, errs, run(k));
    }
  }

  lemma {:induction false} LogsBetween<M>(prog: Program<M>, ss: seq<Rec<M>>, es: seq<Choice>, i: nat, j: nat)
    requires IsRecording(prog, ss, es) && i <= j < |ss|
    ensures ss[i].log <= ss[j].log
    decreases j - i
  {
    if i < j {
      assert RecStepAt(prog, ss, es, i);
      LogGrows(prog, ss[i], es[i]);
      LogsBetween(prog, ss, es, i + 1, j);
    }
  }

  // Files --------------------------------------------------------------------

  // Any file that starts with the kept events provides the numbered ones.
  lemma {:induction false} FileProvides(h: Header, kept: seq<Event>, file: seq<byte>, p: nat)
    requires ValidHeader(h) && AllValid(kept) && p <= |kept| && Numbered(kept[..p]) && LogFile(h, kept) <= file
    ensures ReadsLog(FileReader(file), kept[..p])
  {
    forall k: nat | k < p ensures Fetch(file, At(k)) == Fetched(kept[..p][k], At(k + 1)) {
      FetchKept(h, kept, file, p, k);
    }
  }

  // No whole record is left.
  function PastEnd(file: seq<byte>): Cursor -> bool {
    (c: Cursor) => |file| < c.pos + EVENT_SIZE
  }

  lemma {:induction false} CutIsDeadEnd(file: seq<byte>)
    ensures DeadEnd(FileReader(file), PastEnd(file), {ENODATA})
  {
  }

  // The file of a clean recording, cut off at any byte behind its first event: the
  // replay shows the recording up to the last whole event, then every call is answered
  // with ENODATA and the first switch aborts.
  lemma {:induction false} CutLogReplay<M>(prog: Program<M>, ss: seq<Rec<M>>, es: seq<Choice>, h: Header,
                                           file: seq<byte>, p: nat)
    returns (n: nat, m: nat)
    requires Bounded(prog, ss, es) && CleanUpTo(prog, ss, es, |es|) && ValidHeader(h)
    requires AllValid(ss[|es|].log) && file <= LogFile(h, ss[|es|].log)
    requires 1 <= p && HEADER_SIZE + 112 * p <= |file| < HEADER_SIZE + 112 * (p + 1)
    ensures n <= |es| && |ss[n].log| == p && (n < |es| ==> p < |ss[n + 1].log|)
    ensures EndsAfter(prog, {ENODATA}, RunOf(prog, FileReader(file)), ss[n], m)
  {
    var full := ss[|es|].log[..p];
    RecordedLogIsWellFormed(prog, ss, es);
    CutFile(h, ss[|es|].log, file, p);
    FileProvides(h, full, file, p);
    assert full[..p] == full;
    CutIsDeadEnd(file);
    ReplayedIsReplay(prog, FileReader(file));
    n, m := ReplayEnds(prog, FileReader(file), full, RunOf(prog, FileReader(file)), PastEnd(file), {ENODATA},
                       ss, es, |es|);
  }

  lemma {:induction false} CutFile(h: Header, evs: seq<Event>, file: seq<byte>, p: nat)
    requires ValidHeader(h) && AllValid(evs) && p <= |evs| && file <= LogFile(h, evs)
    requires HEADER_SIZE + 112 * p <= |file|
    ensures AllValid(evs[..p]) && LogFile(h, evs[..p]) <= file
  {
    EncodeAllPrefix(evs, p);
    var small := LogFile(h, evs[..p]);
    assert small == LogFile(h, evs)[..|small|];
  }

  // Lost batches -------------------------------------------------------------

  // The reader waits for the event numbered p + 1, which is not in the file.
  function Waiting(len: nat, p: nat): Cursor -> bool {
    (c: Cursor) => WaitsAt(len, p, c)
  }

  predicate WaitsAt(len: nat, p: nat, c: Cursor) {
    && c.expected == SeqNo(p)
    && HEADER_SIZE + 112 * p <= c.pos <= HEADER_SIZE + 112 * len
    && (c.pos - HEADER_SIZE) % 112 == 0
  }

  lemma {:induction false} FetchWaiting(h: Header, kept: seq<Event>, p: nat, c: Cursor)
    requires ValidHeader(h) && AllValid(kept) && p <= |kept| && NeverFrom(kept, p, SeqNo(p)) && WaitsAt(|kept|, p, c)
    ensures var r := Fetch(LogFile(h, kept), c);
            r.NotFetched? && r.err in {EPROTO, ENODATA} && WaitsAt(|kept|, p, r.next)
  {
    var k := (c.pos - HEADER_SIZE) / 112;
    assert c.pos == HEADER_SIZE + 112 * k;
    if k < |kept| {
      FetchRecord(h, kept, k, SeqNo(p));
      NextPlace(k);
    }
  }

  lemma {:induction false} NextPlace(k: nat)
    ensures (112 * (k + 1)) % 112 == 0
  {
  }

  lemma {:induction false} LossIsDeadEnd(h: Header, kept: seq<Event>, p: nat)
    requires ValidHeader(h) && AllValid(kept) && p <= |kept| && NeverFrom(kept, p, SeqNo(p))
    ensures DeadEnd(FileReader(LogFile(h, kept)), Waiting(|kept|, p), {EPROTO, ENODATA})
  {
    forall c | WaitsAt(|kept|, p, c)
      ensures var r := Fetch(LogFile(h, kept), c);
              r.NotFetched? && r.err in {EPROTO, ENODATA} && WaitsAt(|kept|, p, r.next)
    {
      FetchWaiting(h, kept, p, c);
    }
  }

  // The file a recorder leaves when failing writes dropped whole batches of the log of a
  // clean recording: the replay shows the recording up to the first dropped batch, then
  // every call fails with EPROTO or ENODATA and the first switch aborts.
  lemma {:induction false} LostBatchReplay<M>(prog: Program<M>, ss: seq<Rec<M>>, es: seq<Choice>, h: Header,
                                              f: R.Fate, file: seq<byte>)
    returns (n: nat, m: nat)
    requires Bounded(prog, ss, es) && CleanUpTo(prog, ss, es, |es|) && f.events == ss[|es|].log
    requires R.FateOk(f, h, file) && f.lost.Some? && f.lost.value > 0 && !f.torn && |f.events| < U64
    ensures n <= |es| && |ss[n].log| == f.lost.value && (n < |es| ==> f.lost.value < |ss[n + 1].log|)
    ensures EndsAfter(prog, {EPROTO, ENODATA}, RunOf(prog, FileReader(file)), ss[n], m)
  {
    var p := f.lost.value;
    var full := f.events[..p];
    LossFacts(f, h, file);
    FileProvides(h, f.kept, file, p);
    LossIsDeadEnd(h, f.kept, p);
    ReplayedIsReplay(prog, FileReader(file));
    n, m := ReplayEnds(prog, FileReader(file), full, RunOf(prog, FileReader(file)), Waiting(|f.kept|, p),
                       {EPROTO, ENODATA}, ss, es, |es|);
  }

  lemma {:induction false} LossFacts(f: R.Fate, h: Header, file: seq<byte>)
    requires R.FateOk(f, h, file) && f.lost.Some? && !f.torn && |f.events| < U64
    ensures ValidHeader(h) && AllValid(f.kept) && file == LogFile(h, f.kept)
    ensures f.lost.value <= |f.kept| && f.lost.value <= |f.events| && f.kept[..f.lost.value] == f.events[..f.lost.value]
    ensures Numbered(f.kept[..f.lost.value]) && NeverFrom(f.kept, f.lost.value, SeqNo(f.lost.value))
    ensures Waiting(|f.kept|, f.lost.value)(At(f.lost.value))
  {
    assert SeqNo(f.lost.value) == f.lost.value + 1;
  }

  // A file without a single whole event: the runtime never becomes active.
  lemma {:induction false} EmptyLogIsOff<M>(prog: Program<M>, file: seq<byte>, k: nat)
    requires |file| < HEADER_SIZE + 112
    ensures var p := Replayed(prog, FileReader(file), k); p.status == Off && p.local.trace == []
  {
    if k > 0 {
      EmptyLogIsOff(prog, file, k - 1);
    }
  }
}
