// A whole recording session on the heap: rr_record_init, the first switch, every event
// of a run, rr_record_shutdown. What it leaves on disk is the file that the theorems on
// replay speak of, and a replay opened on it accepts it and reads every event back.
module Sessions {
  import opened Words
  import opened Events
  import opened Recordings
  import opened Calls
  import R = Recorder
  import P = Replayer
  import HR = HeapRuntime

  // The events of a run, logged in order. With no write error the file is the header
  // and every event; otherwise f accounts for what the file holds.
  method RecordSession(disk: R.Disk, startTime: nat, pid: nat, evs: seq<Event>) returns (ok: bool, ghost f: R.Fate)
    requires disk.bytes == [] && startTime < U64 && pid < U32
    requires WellFormedLog(evs) && AllValid(evs)
    modifies disk
    ensures ok ==> R.FateOk(f, RecorderHeader(startTime, pid), disk.bytes) && f.events == evs && f.flushed == |evs|
    ensures !ok ==> |disk.bytes| < HEADER_SIZE
    ensures R.NoFailures(old(disk.script)) ==> ok && disk.bytes == LogFile(RecorderHeader(startTime, pid), evs)
  {
    var log := R.RecordInit(disk, startTime, pid);
    f := R.Fate([], 0, [], None, false);
    ok := log != null;
    if ok {
      HR.StartRecording(log);
      FirstEvent(evs);
      LogRest(log, evs);
      log.Shutdown();
      f := log.fate;
    }
  }

  lemma {:induction false} FirstEvent(evs: seq<Event>)
    requires WellFormedLog(evs)
    ensures evs[..1] == Emit([], 1, Switch(0, 1))
  {
    assert EventFits(evs, 0);
  }

  method LogRest(log: R.EventLog, evs: seq<Event>)
    requires WellFormedLog(evs) && AllValid(evs) && log.Events() == Some(evs[..1])
    modifies log`seqNo, log`fate, log.buffer, log.buffer.ring, log.buffer.disk
    ensures log.Events() == Some(evs) && log.LosesNothing()
  {
    var i := 1;
    while i < |evs|
      invariant 1 <= i <= |evs| && log.Events() == Some(evs[..i]) && log.LosesNothing()
    {
      LogNext(log, evs, i);
      i := i + 1;
    }
    assert evs[..i] == evs;
  }

  method LogNext(log: R.EventLog, evs: seq<Event>, i: nat)
    requires WellFormedLog(evs) && AllValid(evs) && i < |evs| && log.Events() == Some(evs[..i])
    modifies log`seqNo, log`fate, log.buffer, log.buffer.ring, log.buffer.disk
    ensures log.Events() == Some(evs[..i + 1]) && log.LosesNothing()
  {
    EmitsNext(evs, i);
    log.Log(evs[i].uthread, evs[i].payload);
  }

  lemma {:induction false} EmitsNext(evs: seq<Event>, i: nat)
    requires WellFormedLog(evs) && AllValid(evs) && i < |evs|
    ensures ValidEvent(evs[i]) && Emit(evs[..i], evs[i].uthread, evs[i].payload) == evs[..i + 1]
  {
    assert EventFits(evs, i);
  }

  // rr_replay_init on what a session left: accepted, and in front of the first event.
  method OpenRecorded(disk: R.Disk, startTime: nat, pid: nat, evs: seq<Event>, script: seq<P.ReadOutcome>)
    returns (rep: P.Replay)
    requires disk.bytes == [] && startTime < U64 && pid < U32
    requires WellFormedLog(evs) && AllValid(evs)
    modifies disk
    ensures rep.Valid() && fresh(rep) && fresh(rep.source)
    ensures R.NoFailures(old(disk.script)) && P.NoFailures(script) ==>
              && rep.headerOk && rep.Position() == P.At(0) && P.NoFailures(rep.source.script)
              && rep.source.bytes == LogFile(RecorderHeader(startTime, pid), evs)
  {
    var ok, f := RecordSession(disk, startTime, pid, evs);
    var source := new P.Source(disk.bytes, script);
    rep := new P.Replay(source);
    if R.NoFailures(old(disk.script)) && P.NoFailures(script) {
      P.RecordedHeaderIsAccepted(startTime, pid, evs);
    }
  }

  // rr_replay_next_event until it fails.
  method ReadAll(rep: P.Replay, ghost h: Header, ghost evs: seq<Event>) returns (got: seq<Event>, err: nat)
    requires rep.Valid() && rep.headerOk && P.NoFailures(rep.source.script) && rep.Position() == P.At(0)
    requires ValidHeader(h) && AllValid(evs) && Numbered(evs) && rep.source.bytes == LogFile(h, evs)
    modifies rep`expected, rep.source
    ensures got == evs && err == ENODATA
  {
    got, err := [], 0;
    while err == 0
      invariant rep.Valid() && P.NoFailures(rep.source.script)
      invariant |got| <= |evs| && got == evs[..|got|]
      invariant if err == 0 then rep.Position() == P.At(|got|) else got == evs && err == ENODATA
      decreases |evs| - |got|, if err == 0 then 1 else 0
    {
      P.FetchLogged(h, evs, |got|);
      var ev, e := rep.NextEvent();
      if e == 0 {
        got := got + [ev];
      }
      err := e;
    }
  }

  // Written by a recorder and read by a replay, under any short and interrupted writes
  // and reads, a log comes back as it was.
  method RecordAndReadBack(disk: R.Disk, startTime: nat, pid: nat, evs: seq<Event>, script: seq<P.ReadOutcome>)
    returns (got: seq<Event>, err: nat)
    requires disk.bytes == [] && startTime < U64 && pid < U32 && R.NoFailures(disk.script) && P.NoFailures(script)
    requires WellFormedLog(evs) && AllValid(evs)
    modifies disk
    ensures got == evs && err == ENODATA
  {
    var rep := OpenRecorded(disk, startTime, pid, evs, script);
    WellFormedIsNumbered(evs);
    got, err := ReadAll(rep, RecorderHeader(startTime, pid), evs);
  }

  lemma {:induction false} WellFormedIsNumbered(evs: seq<Event>)
    requires WellFormedLog(evs)
    ensures Numbered(evs)
  {
    forall i | 0 <= i < |evs| ensures evs[i].seqNo == SeqNo(i) {
      assert EventFits(evs, i);
    }
  }
}
