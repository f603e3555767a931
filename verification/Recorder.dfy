// The recorder: write(2) with short and interrupted writes, the 4 MiB buffer in
// front of the log file, and the numbered event log on top of it.
module Recorder {
  import opened Words
  import opened Events

  // What write(2) does next: EINTR, some bytes, or an error (or 0).
  datatype WriteOutcome = Interrupted | Wrote(n: nat) | Failed

  predicate NoFailures(script: seq<WriteOutcome>) {
    Failed !in script
  }

  // The file and the kernel's coming answers; once the script is used up every
  // write takes all its bytes.
  class Disk {
    var bytes: seq<byte>
    var script: seq<WriteOutcome>

    constructor (script: seq<WriteOutcome>)
      ensures bytes == [] && this.script == script
    {
      bytes := [];
      this.script := script;
    }

    method Write(data: seq<byte>) returns (rc: int, eintr: bool)
      requires data != []
      modifies this
      ensures rc <= |data|
      ensures rc <= 0 ==> bytes == old(bytes)
      ensures rc > 0 ==> bytes == old(bytes) + data[..rc] && !eintr
      ensures old(script) == [] ==> rc == |data| && script == []
      ensures old(script) != [] ==> script == old(script)[1..]
      ensures old(script) != [] && old(script)[0] != Failed ==> rc > 0 || (rc < 0 && eintr)
      ensures eintr ==> old(script) != []
    {
      rc, eintr := |data|, false;
      if script != [] {
        match script[0] {
          case Interrupted => rc, eintr := -1, true;
          case Wrote(n) => rc := if n == 0 then 1 else Min(n, |data|);
          case Failed => rc := -1;
        }
        script := script[1..];
      }
      if rc > 0 {
        bytes := bytes + data[..rc];
      }
    }

    // rr_write_direct: w bytes reach the file, all of them exactly when it succeeds.
    method WriteDirect(data: seq<byte>) returns (ok: bool, ghost w: nat)
      modifies this
      ensures w <= |data| && bytes == old(bytes) + data[..w]
      ensures ok <==> w == |data|
      ensures NoFailures(old(script)) ==> ok && NoFailures(script)
    {
      var written := 0;
      w := 0;
      while written < |data|
        invariant 0 <= written <= |data| && w == written
        invariant bytes == old(bytes) + data[..written]
        invariant NoFailures(old(script)) ==> NoFailures(script)
        decreases |script|, |data| - written
      {
        ghost var before := script;
        var rc, eintr := Write(data[written..]);
        if rc < 0 {
          if eintr {
            continue;
          }
          return false, w;
        }
        if rc == 0 {
          return false, w;
        }
        assert data[..written] + data[written..][..rc] == data[..written + rc];
        written := written + rc;
        w := written;
      }
      assert data[..written] == data;
      ok := true;
    }
  }

  // g_ring and g_ring_used.
  class LogBuffer {
    const disk: Disk
    const ring: array<byte>
    var used: nat

    ghost predicate Valid()
      reads this
    {
      ring.Length == RING_SIZE && used <= RING_SIZE
    }

    ghost function Pending(): seq<byte>
      requires Valid()
      reads this, ring
    {
      ring[..used]
    }

    constructor (disk: Disk)
      ensures Valid() && this.disk == disk && fresh(ring) && Pending() == []
    {
      this.disk := disk;
      ring := new byte[RING_SIZE](_ => 0);
      used := 0;
    }

    // rr_record_flush: the buffer is emptied whether or not the write succeeds.
    method Flush() returns (ghost w: nat)
      requires Valid()
      modifies this, disk
      ensures Valid() && used == 0
      ensures w <= |old(Pending())| && disk.bytes == old(disk.bytes) + old(Pending())[..w]
      ensures NoFailures(old(disk.script)) ==> w == |old(Pending())| && NoFailures(disk.script)
    {
      w := 0;
      if used == 0 {
        return;
      }
      var ok;
      ok, w := disk.WriteDirect(ring[..used]);
      used := 0;
    }

    // rr_record_append: flush first when the entry does not fit; an entry larger
    // than the buffer goes straight to the file.
    method Append(entry: seq<byte>) returns (ghost flushed: bool, ghost w: nat)
      requires Valid()
      modifies this, ring, disk
      ensures Valid()
      ensures flushed <==> |old(Pending())| + |entry| > 0x40_0000
      ensures NoFailures(old(disk.script)) ==> NoFailures(disk.script)
      ensures !flushed ==> disk.bytes == old(disk.bytes) && Pending() == old(Pending()) + entry
      ensures flushed && |entry| <= 0x40_0000 ==>
                && w <= |old(Pending())| && disk.bytes == old(disk.bytes) + old(Pending())[..w]
                && (NoFailures(old(disk.script)) ==> w == |old(Pending())|)
                && Pending() == entry
      ensures |entry| > 0x40_0000 && NoFailures(old(disk.script)) ==>
                disk.bytes == old(disk.bytes) + old(Pending()) + entry && Pending() == []
    {
      flushed, w := used + |entry| > RING_SIZE, 0;
      if |entry| > RING_SIZE {
        w := Flush();
        ghost var before := disk.bytes;
        var ok, n := disk.WriteDirect(entry);
        if NoFailures(old(disk.script)) {
          assert entry[..n] == entry && old(Pending())[..w] == old(Pending());
        }
        return;
      }
      if used + |entry| > RING_SIZE {
        w := Flush();
      }
      ghost var kept := ring[..used];
      forall i | 0 <= i < |entry| {
        ring[used + i] := entry[i];
      }
      assert ring[..used] == kept;
      assert ring[..used + |entry|] == kept + entry;
      used := used + |entry|;
    }
  }

  // What became of the logged events: those that left the buffer (the first
  // `flushed`), those the file holds whole and in place, the number of events before
  // the first batch that was lost whole, and whether some write stopped inside a
  // batch, after which nothing written is in place.
  datatype Fate = Fate(events: seq<Event>, flushed: nat, kept: seq<Event>, lost: Option<nat>, torn: bool)

  // kept starts with the first p logged events and holds no event numbered p + 1.
  predicate Survives(kept: seq<Event>, events: seq<Event>, p: nat) {
    && p <= |kept| && p <= |events|
    && kept[..p] == events[..p]
    && forall i :: p <= i < |kept| ==> kept[i].seqNo > p + 1
  }

  // The account itself: what is kept is a prefix of the log while nothing was lost.
  predicate AccountOk(f: Fate) {
    && Numbered(f.events) && AllValid(f.events) && AllValid(f.kept)
    && f.flushed <= |f.events|
    && (f.lost.None? ==> |f.kept| <= f.flushed && f.kept == f.events[..|f.kept|])
    && (f.lost.None? && !f.torn ==> |f.kept| == f.flushed)
    && (f.lost.Some? ==> f.lost.value < f.flushed)
    && (f.lost.Some? && |f.events| < U64 ==> Survives(f.kept, f.events, f.lost.value))
  }

  // The file holds the kept events, and nothing else unless it is torn.
  predicate InFile(f: Fate, h: Header, file: seq<byte>)
    requires ValidHeader(h) && AllValid(f.kept)
  {
    LogFile(h, f.kept) <= file && (!f.torn ==> file == LogFile(h, f.kept))
  }

  ghost predicate FateOk(f: Fate, h: Header, file: seq<byte>) {
    ValidHeader(h) && AccountOk(f) && InFile(f, h, file)
  }

  function Batch(f: Fate): seq<Event>
    requires f.flushed <= |f.events|
  {
    f.events[f.flushed..]
  }

  // A flush that brought w bytes of the batch to the file.
  function Settle(f: Fate, w: nat): Fate
    requires f.flushed <= |f.events|
  {
    var b := Batch(f);
    var g := f.(flushed := |f.events|);
    if f.torn then g
    else if w == 112 * |b| then g.(kept := f.kept + b)
    else if w == 0 then (if f.lost.None? then g.(lost := Some(f.flushed)) else g)
    else g.(kept := f.kept + b[..Min(w / 112, |b|)], torn := true)
  }

  lemma {:induction false} SurvivesMore(f: Fate, b: seq<Event>)
    requires f.lost.Some? && f.lost.value < f.flushed <= |f.events| < U64 && Numbered(f.events)
    requires b <= Batch(f) && Survives(f.kept, f.events, f.lost.value)
    ensures Survives(f.kept + b, f.events, f.lost.value)
  {
    var p := f.lost.value;
    assert (f.kept + b)[..p] == f.kept[..p];
    forall i | |f.kept| <= i < |f.kept + b| ensures (f.kept + b)[i].seqNo > p + 1 {
      assert (f.kept + b)[i] == f.events[f.flushed + (i - |f.kept|)];
    }
  }

  // The batch, or its first records, reached their place in the file.
  lemma {:induction false} KeptFlush(f: Fate, b: seq<Event>, torn: bool)
    requires AccountOk(f) && !f.torn && AllValid(Batch(f)) && b <= Batch(f) && (!torn ==> b == Batch(f))
    ensures AccountOk(f.(flushed := |f.events|, kept := f.kept + b, torn := torn))
  {
    assert AllValid(f.kept + b) by {
      assert forall i :: 0 <= i < |b| ==> b[i] == Batch(f)[i];
    }
    if f.lost.None? {
      assert f.kept + b == f.events[..|f.kept + b|];
    } else if |f.events| < U64 {
      SurvivesMore(f, b);
    }
  }

  lemma {:induction false} SettleKeepsAccount(f: Fate, w: nat)
    requires AccountOk(f) && AllValid(Batch(f)) && w <= 112 * |Batch(f)|
    ensures AccountOk(Settle(f, w))
  {
    var b := Batch(f);
    if !f.torn && w == 112 * |b| {
      KeptFlush(f, b, false);
    } else if !f.torn && w != 0 {
      KeptFlush(f, b[..Min(w / 112, |b|)], true);
    }
  }

  // The bytes of a write that stopped inside a batch start with its first records.
  lemma {:induction false} TornBytes(h: Header, kept: seq<Event>, b: seq<Event>, w: nat, j: nat)
    requires ValidHeader(h) && AllValid(kept) && AllValid(b) && 112 * j <= w < 112 * |b|
    ensures j < |b| && AllValid(kept + b[..j])
    ensures LogFile(h, kept + b[..j]) <= LogFile(h, kept) + EncodeAll(b)[..w]
  {
    EncodeAllPrefix(b, j);
    LogFileConcat(h, kept, b[..j]);
    LongerTake(LogFile(h, kept), EncodeAll(b), 112 * j, w);
  }

  lemma {:induction false} LongerTake(x: seq<byte>, y: seq<byte>, n: nat, w: nat)
    requires n <= w <= |y|
    ensures x + y[..n] <= x + y[..w]
  {
  }

  lemma {:induction false} SettleKeepsFile(f: Fate, h: Header, file: seq<byte>, w: nat)
    requires ValidHeader(h) && AllValid(f.kept) && InFile(f, h, file) && f.flushed <= |f.events|
    requires AllValid(Batch(f)) && w <= 112 * |Batch(f)|
    ensures AllValid(Settle(f, w).kept) && InFile(Settle(f, w), h, file + EncodeAll(Batch(f))[..w])
  {
    var b := Batch(f);
    if !f.torn {
      if w == 112 * |b| {
        assert EncodeAll(b)[..w] == EncodeAll(b);
        LogFileConcat(h, f.kept, b);
      } else if w == 0 {
        assert file + EncodeAll(b)[..0] == file;
      } else {
        TornBytes(h, f.kept, b, w, w / 112);
      }
    }
  }

  lemma {:induction false} SettleKeepsFate(f: Fate, h: Header, file: seq<byte>, w: nat)
    requires FateOk(f, h, file)
    requires AllValid(Batch(f)) && w <= 112 * |Batch(f)|
    ensures FateOk(Settle(f, w), h, file + EncodeAll(Batch(f))[..w])
  {
    SettleKeepsAccount(f, w);
    SettleKeepsFile(f, h, file, w);
  }

  function AddEvent(f: Fate, ev: Event): Fate {
    f.(events := f.events + [ev])
  }

  lemma {:induction false} LogKeepsFate(f: Fate, h: Header, file: seq<byte>, ev: Event)
    requires FateOk(f, h, file) && ValidEvent(ev) && ev.seqNo == SeqNo(|f.events|)
    ensures FateOk(AddEvent(f, ev), h, file) && Batch(AddEvent(f, ev)) == Batch(f) + [ev]
  {
  }

  lemma {:induction false} LogKeepsPending(f: Fate, h: Header, file: seq<byte>, ev: Event)
    requires FateOk(f, h, file) && ValidEvent(ev) && ev.seqNo == SeqNo(|f.events|) && AllValid(Batch(f))
    ensures var g := AddEvent(f, ev);
            FateOk(g, h, file) && AllValid(Batch(g)) && EncodeAll(Batch(g)) == EncodeAll(Batch(f)) + Encode(ev)
  {
    LogKeepsFate(f, h, file, ev);
    EncodeAllSnoc(Batch(f), ev);
  }

  lemma {:induction false} FlushThenLog(f: Fate, h: Header, file: seq<byte>, w: nat, ev: Event)
    requires FateOk(f, h, file) && ValidEvent(ev) && ev.seqNo == SeqNo(|f.events|)
    requires AllValid(Batch(f)) && w <= 112 * |Batch(f)|
    ensures var g := AddEvent(Settle(f, w), ev);
            && FateOk(g, h, file + EncodeAll(Batch(f))[..w])
            && AllValid(Batch(g)) && EncodeAll(Batch(g)) == Encode(ev)
  {
    SettleKeepsFate(f, h, file, w);
    assert Batch(Settle(f, w)) == [];
    LogKeepsPending(Settle(f, w), h, file + EncodeAll(Batch(f))[..w], ev);
    assert [] + Encode(ev) == Encode(ev);
  }

  // g_rr_seq and the rr_log_* functions.
  class EventLog {
    const buffer: LogBuffer
    const header: Header
    var seqNo: nat
    var ready: bool
    ghost var fate: Fate

    ghost predicate Valid()
      reads this, buffer, buffer.ring, buffer.disk
    {
      && buffer.Valid()
      && FateOk(fate, header, buffer.disk.bytes)
      && seqNo == Wrap(|fate.events|)
      && AllValid(Batch(fate)) && buffer.Pending() == EncodeAll(Batch(fate))
    }

    // The events logged so far, of a log in order.
    ghost function Events(): Option<seq<Event>>
      reads this, buffer, buffer.ring, buffer.disk
    {
      if Valid() then Some(fate.events) else None
    }

    // Without write errors no event is lost that was not lost before.
    twostate predicate LosesNothing()
      reads this, buffer, buffer.disk
    {
      NoFailures(old(buffer.disk.script)) ==>
        NoFailures(buffer.disk.script) && fate.lost == old(fate).lost && fate.torn == old(fate).torn
    }

    // rr_record_init once the header has been written.
    constructor (buffer: LogBuffer, header: Header)
      requires buffer.Valid() && buffer.Pending() == [] && ValidHeader(header)
      requires buffer.disk.bytes == EncodeHeader(header)
      ensures Valid() && fate == Fate([], 0, [], None, false) && !ready
      ensures this.buffer == buffer && this.header == header
    {
      this.buffer := buffer;
      this.header := header;
      seqNo, ready := 0, false;
      fate := Fate([], 0, [], None, false);
    }

    // rr_record_append of one record; flushing first settles the batch.
    method AppendEvent(ev: Event)
      requires buffer.Valid() && FateOk(fate, header, buffer.disk.bytes)
      requires AllValid(Batch(fate)) && buffer.Pending() == EncodeAll(Batch(fate))
      requires ValidEvent(ev) && ev.seqNo == SeqNo(|fate.events|)
      modifies this`fate, buffer, buffer.ring, buffer.disk
      ensures buffer.Valid() && FateOk(fate, header, buffer.disk.bytes)
      ensures AllValid(Batch(fate)) && buffer.Pending() == EncodeAll(Batch(fate))
      ensures fate.events == old(fate).events + [ev]
      ensures LosesNothing()
    {
      ghost var file := buffer.disk.bytes;
      var flushed, w := buffer.Append(Encode(ev));
      if flushed {
        FlushThenLog(fate, header, file, w, ev);
        fate := AddEvent(Settle(fate, w), ev);
      } else {
        LogKeepsPending(fate, header, file, ev);
        fate := AddEvent(fate, ev);
      }
    }

    // rr_next_seq and the append. With no write error nothing is lost.
    method Log(uthread: nat, p: Payload)
      requires Valid() && uthread < U64 && ValidPayload(p)
      modifies this`seqNo, this`fate, buffer, buffer.ring, buffer.disk
      ensures Valid() && fate.events == Emit(old(fate).events, uthread, p)
      ensures LosesNothing()
    {
      var n := NextSeq();
      AppendNext(n, uthread, p);
    }

    method AppendNext(n: nat, uthread: nat, p: Payload)
      requires buffer.Valid() && FateOk(fate, header, buffer.disk.bytes)
      requires AllValid(Batch(fate)) && buffer.Pending() == EncodeAll(Batch(fate))
      requires n == SeqNo(|fate.events|) && uthread < U64 && ValidPayload(p)
      modifies this`fate, buffer, buffer.ring, buffer.disk
      ensures buffer.Valid() && FateOk(fate, header, buffer.disk.bytes)
      ensures AllValid(Batch(fate)) && buffer.Pending() == EncodeAll(Batch(fate))
      ensures fate.events == Emit(old(fate).events, uthread, p) && |fate.events| == |old(fate).events| + 1
      ensures LosesNothing()
    {
      AppendEvent(Event(n, uthread, p));
    }

    // rr_next_seq
    method NextSeq() returns (n: nat)
      requires seqNo == Wrap(|fate.events|)
      modifies this`seqNo
      ensures n == seqNo == SeqNo(|fate.events|)
    {
      WrapSuccessor(|fate.events|);
      seqNo := Wrap(seqNo + 1);
      n := seqNo;
    }

    // rr_log_syscall
    method LogSyscall(uthread: nat, nr: int, retval: int, arg0: nat, data: seq<byte>)
      requires Valid() && uthread < U64 && FitsI32(nr) && FitsI32(retval) && arg0 < U64
      modifies this`seqNo, this`fate, buffer, buffer.ring, buffer.disk
      ensures Valid()
      ensures fate.events == if ready then Emit(old(fate).events, uthread, SyscallPayload(nr, retval, arg0, data))
                             else old(fate).events
      ensures LosesNothing()
    {
      if ready {
        Log(uthread, SyscallPayload(nr, retval, arg0, data));
      }
    }

    // rr_log_sched, which does not wait for the runtime to be ready
    method LogSwitch(fromId: nat, toId: nat)
      requires Valid() && fromId < U64 && toId < U64
      modifies this`seqNo, this`fate, buffer, buffer.ring, buffer.disk
      ensures Valid() && fate.events == Emit(old(fate).events, toId, Switch(fromId, toId))
      ensures LosesNothing()
    {
      Log(toId, Switch(fromId, toId));
    }

    // rr_log_signal, as rr_signal_process calls it: active_uthread is the low half
    // of the current id
    method LogSignal(uthread: nat, signo: nat)
      requires Valid() && uthread < U64 && signo < U32
      modifies this`seqNo, this`fate, buffer, buffer.ring, buffer.disk
      ensures Valid()
      ensures fate.events == if ready then Emit(old(fate).events, uthread, Signal(signo, uthread % U32))
                             else old(fate).events
      ensures LosesNothing()
    {
      if ready {
        Log(uthread, Signal(signo, uthread % U32));
      }
    }

    // rr_mark_runtime_ready
    method MarkReady()
      requires Valid()
      modifies this`ready
      ensures Valid() && ready && fate == old(fate)
    {
      ready := true;
    }

    // rr_record_shutdown: the file ends with the last event. When no write ever
    // failed it is the whole log.
    method Shutdown()
      requires Valid()
      modifies this`fate, buffer, buffer.disk
      ensures Valid() && fate.events == old(fate).events && fate.flushed == |fate.events|
      ensures NoFailures(old(buffer.disk.script)) && old(fate).lost.None? && !old(fate).torn ==>
                AllValid(fate.events) && buffer.disk.bytes == LogFile(header, fate.events)
    {
      ghost var file := buffer.disk.bytes;
      var w := buffer.Flush();
      SettleKeepsFate(fate, header, file, w);
      fate := Settle(fate, w);
      assert Batch(fate) == [];
      assert fate.events[..|fate.events|] == fate.events;
    }
  }

  // rr_record_init on a truncated file: no log when the header could not be written.
  method RecordInit(disk: Disk, startTime: nat, pid: nat) returns (log: EventLog?)
    requires disk.bytes == [] && startTime < U64 && pid < U32
    modifies disk
    ensures log != null ==> log.Valid() && log.header == RecorderHeader(startTime, pid) && log.buffer.disk == disk
    ensures log != null ==> log.fate == Fate([], 0, [], None, false) && fresh(log) && fresh(log.buffer)
    ensures log != null ==> fresh(log.buffer.ring) && !log.ready
    ensures log == null ==> |disk.bytes| < HEADER_SIZE
    ensures NoFailures(old(disk.script)) ==> log != null && NoFailures(disk.script)
  {
    var header := RecorderHeader(startTime, pid);
    var ok, w := disk.WriteDirect(EncodeHeader(header));
    if !ok {
      return null;
    }
    assert EncodeHeader(header)[..w] == EncodeHeader(header);
    var buffer := new LogBuffer(disk);
    log := new EventLog(buffer, header);
  }

  // The file and the buffer together always hold the header and every event in
  // order while no write failed, and the file ends on an event boundary.
  lemma {:induction false} BufferRefinesLog(f: Fate, h: Header, file: seq<byte>, pending: seq<byte>)
    requires FateOk(f, h, file) && f.lost.None? && !f.torn
    requires AllValid(Batch(f)) && pending == EncodeAll(Batch(f))
    ensures file + pending == LogFile(h, f.events)
    ensures |file| == HEADER_SIZE + 112 * f.flushed
  {
    assert f.events == f.events[..f.flushed] + f.events[f.flushed..];
    LogFileConcat(h, f.kept, Batch(f));
  }
}
