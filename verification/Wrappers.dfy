// The wrappers as they run: errno and the caller's buffer are updated in place. Each
// is proved to give the reply that module Calls defines for its mode.
module Wrappers {
  import opened Words
  import opened Events
  import opened Calls
  import R = Recorder
  import P = Replayer

  // The calling uthread's errno.
  class Errno {
    var value: int

    constructor (v: int)
      ensures value == v
    {
      value := v;
    }
  }

  // errno after a call that replied r.
  function ErrnoAfter(r: CallReply, before: int): int {
    if r.err == 0 then before else r.err
  }

  // raw_to_ssize and raw_to_int
  method FromRawResult(e: Errno, raw: int) returns (ret: int)
    modifies e
    ensures ret == if raw < 0 then -1 else raw
    ensures e.value == if raw < 0 then -raw else old(e.value)
  {
    if raw < 0 {
      e.value := -raw;
      return -1;
    }
    return raw;
  }

  // memcpy
  method CopyInto(buf: array<byte>, data: seq<byte>)
    requires |data| <= buf.Length
    modifies buf
    ensures buf[..] == data + old(buf[|data|..])
  {
    forall i | 0 <= i < |data| {
      buf[i] := data[i];
    }
  }

  // Record mode --------------------------------------------------------------

  // rr_log_syscall with what the wrapper of c takes from the result.
  method LogCall(log: R.EventLog, uthread: nat, c: Call, ghost k: KernelResult, retval: int, arg: nat, data: seq<byte>)
    requires log.Valid() && uthread < U64 && ValidCall(c) && ValidResult(c, k)
    requires retval == LoggedRetval(c, k) && arg == LoggedArg(c) && data == LoggedData(c, k)
    modifies log`seqNo, log`fate, log.buffer, log.buffer.ring, log.buffer.disk
    ensures log.Valid()
    ensures log.ready ==> log.fate.events == Emit(old(log.fate).events, uthread, Logged(c, k))
    ensures log.LosesNothing()
  {
    log.LogSyscall(uthread, Nr(c), retval, arg, data);
  }

  // read and recv once the operation has completed: the kernel has stored its bytes
  // in buf (none in a NULL buffer), the result is turned into the return value and
  // logged with them.
  method RecordRead(e: Errno, log: R.EventLog, uthread: nat, c: Call, buf: array?<byte>, raw: int)
    returns (ret: int, ghost k: KernelResult)
    requires (c.Read? || c.Recv?) && -I32_MAX <= raw <= I32_MAX && raw <= c.count
    requires if buf == null then raw <= 0 else c.count <= buf.Length && buf != log.buffer.ring
    requires log.Valid() && uthread < U64
    modifies e, log`seqNo, log`fate, log.buffer, log.buffer.ring, log.buffer.disk
    ensures k.raw == raw && k.data == if raw > 0 then buf[..raw] else []
    ensures ValidResult(c, k)
    ensures ret == RecordReply(c, k).ret && e.value == ErrnoAfter(RecordReply(c, k), old(e.value))
    ensures log.ready ==> log.fate.events == Emit(old(log.fate).events, uthread, Logged(c, k))
    ensures log.LosesNothing()
    ensures log.Valid() && (buf != null ==> buf[..] == old(buf[..]))
  {
    ret := FromRawResult(e, raw);
    var data := if raw > 0 then buf[..raw] else [];
    k := KernelResult(raw, data);
    LogCall(log, uthread, c, k, raw, Wrap(c.fd), data);
  }

  // clock_gettime and gettimeofday around the real call, which returned rc and, on
  // success, stored 16 bytes; on failure errno is its error.
  method RecordTime(e: Errno, log: R.EventLog, uthread: nat, c: Call, tp: array<byte>, rc: int)
    returns (ret: int, ghost k: KernelResult)
    requires (c.ClockGettime? || c.Gettimeofday?) && tp.Length == TIME_SIZE && tp != log.buffer.ring
    requires rc == 0 || (rc == -1 && 0 < e.value <= MAX_ERRNO)
    requires log.Valid() && uthread < U64
    modifies log`seqNo, log`fate, log.buffer, log.buffer.ring, log.buffer.disk
    ensures k == if rc == 0 then KernelResult(0, tp[..]) else KernelResult(-e.value, [])
    ensures ValidResult(c, k)
    ensures ret == RecordReply(c, k).ret && e.value == ErrnoAfter(RecordReply(c, k), e.value)
    ensures log.ready ==> log.fate.events == Emit(old(log.fate).events, uthread, Logged(c, k))
    ensures log.LosesNothing()
    ensures log.Valid() && tp[..] == old(tp[..])
  {
    var data := if rc == 0 then tp[..] else [];
    var raw := if rc == -1 then -e.value else rc;
    k := KernelResult(raw, data);
    var arg := if c.ClockGettime? then Wrap(c.clock) else 0;
    LogCall(log, uthread, c, k, raw, arg, data);
    ret := rc;
  }

  // write, send, accept, connect, openat and close once the operation has completed.
  method RecordPlain(e: Errno, log: R.EventLog, uthread: nat, c: Call, raw: int) returns (ret: int)
    requires (c.Write? || c.Send? || c.Plain?) && ValidCall(c) && -I32_MAX <= raw <= I32_MAX
    requires log.Valid() && uthread < U64
    modifies e, log`seqNo, log`fate, log.buffer, log.buffer.ring, log.buffer.disk
    ensures ret == if raw < 0 then -1 else raw
    ensures e.value == if raw < 0 then -raw else old(e.value)
    ensures log.ready ==> log.fate.events == Emit(old(log.fate).events, uthread, Logged(c, KernelResult(raw, [])))
    ensures log.Valid() && log.LosesNothing()
  {
    ret := FromRawResult(e, raw);
    LogCall(log, uthread, c, KernelResult(raw, []), raw, Wrap(c.fd), []);
  }

  // read and write of nothing around the real call, which returned rc; on failure errno
  // is its error.
  method RecordEmpty(e: Errno, log: R.EventLog, uthread: nat, c: Call, rc: int)
    returns (ret: int, ghost k: KernelResult)
    requires (c.Read? || c.Write?) && c.count == 0 && (rc == 0 || (rc == -1 && 0 < e.value <= MAX_ERRNO))
    requires log.Valid() && uthread < U64
    modifies log`seqNo, log`fate, log.buffer, log.buffer.ring, log.buffer.disk
    ensures ret == rc && k == KernelResult(if rc == -1 then -e.value else rc, [])
    ensures Tells(c, k, CallReply(ret, if rc == -1 then e.value else 0, []))
    ensures log.ready ==> log.fate.events == Emit(old(log.fate).events, uthread, Logged(c, k))
    ensures log.Valid() && log.LosesNothing()
  {
    var raw := if rc == -1 then -e.value else rc;
    k := KernelResult(raw, []);
    LogCall(log, uthread, c, k, raw, Wrap(c.fd), []);
    ret := rc;
  }

  // getpid and getuid around the real call; the value is logged as an int32_t.
  method RecordId(log: R.EventLog, uthread: nat, c: Call, rc: int) returns (ret: int)
    requires (c.Getpid? || c.Getuid?) && ValidResult(c, KernelResult(rc, [])) && log.Valid() && uthread < U64
    modifies log`seqNo, log`fate, log.buffer, log.buffer.ring, log.buffer.disk
    ensures ret == rc
    ensures log.ready ==> log.fate.events == Emit(old(log.fate).events, uthread, Logged(c, KernelResult(rc, [])))
    ensures log.Valid() && log.LosesNothing()
  {
    LogCall(log, uthread, c, KernelResult(rc, []), if c.Getuid? then FromU32(rc) else rc, 0, []);
    ret := rc;
  }

  // getcwd around the real call: ok with the path it gave (without its NUL), or NULL
  // with the error in errno. 1 stands for the path and 0 for NULL.
  method RecordGetcwd(e: Errno, log: R.EventLog, uthread: nat, c: Call, ok: bool, path: seq<byte>)
    returns (ret: int, ghost k: KernelResult)
    requires c.Getcwd? && ValidCall(c) && log.Valid() && uthread < U64
    requires if ok then 0 !in path && (c.hasBuf ==> |path| < c.size) else path == [] && 0 < e.value <= MAX_ERRNO
    modifies log`seqNo, log`fate, log.buffer, log.buffer.ring, log.buffer.disk
    ensures k == KernelResult(if ok then 0 else -e.value, path) && ret == if ok then 1 else 0
    ensures log.ready ==> log.fate.events == Emit(old(log.fate).events, uthread, Logged(c, k))
    ensures log.Valid() && log.LosesNothing()
  {
    var raw := if ok then 0 else -e.value;
    k := KernelResult(raw, path);
    LogCall(log, uthread, c, k, raw, c.size, path[..Min(|path|, c.size)]);
    ret := if ok then 1 else 0;
  }

  // Replay mode --------------------------------------------------------------

  // What the log holds for the call.
  twostate function Expected(rep: P.Replay, uthread: nat, c: Call): P.CallCheck
    reads rep, rep.source
  {
    P.NextSyscall(rep.source.bytes, old(rep.Position()), Nr(c), uthread)
  }

  // Why no event was handed over: no accepted header, a record that is missing or
  // cannot be read, or the wrong event. Without read errors the log alone decides.
  twostate predicate Refused(rep: P.Replay, r: P.CallCheck, err: int)
    reads rep, rep.source
  {
    if !rep.headerOk then err == EINVAL && rep.Position() == old(rep.Position())
    else
      && (err == ENODATA || (err == EPROTO && r == P.CallBad(EPROTO, rep.Position())))
      && (P.NoFailures(old(rep.source.script)) ==> r.CallBad? && r.err == err && r.next == rep.Position())
  }

  // replay_get_event for the current uthread; -1 with the error on a mismatch.
  method GetEvent(e: Errno, rep: P.Replay, uthread: nat, c: Call) returns (ok: bool, p: CallPayload)
    requires rep.Valid()
    modifies e, rep`expected, rep.source
    ensures rep.Valid()
    ensures P.NoFailures(old(rep.source.script)) ==> P.NoFailures(rep.source.script)
    ensures ok ==>
              var r := Expected(rep, uthread, c);
              && rep.headerOk && r.CallOk? && r.next == rep.Position()
              && e.value == old(e.value) && p.dataLen <= DATA_CAP
              && ReplayReply(c, p) == ReplayReply(c, r.payload) && p.retval == r.payload.retval
    ensures !ok ==> Refused(rep, Expected(rep, uthread, c), e.value)
  {
    var q, err := rep.NextCall(Nr(c), uthread);
    p := SyscallPayload(0, 0, 0, []);
    ok := err == 0;
    if ok {
      p := q;
    } else {
      e.value := err;
    }
  }

  // What a replayed call did: reply r, stored at the front of the buffer if any.
  twostate predicate Gave(r: CallReply, ret: int, e: Errno, buf: array?<byte>)
    reads e, buf
  {
    && ret == r.ret && e.value == ErrnoAfter(r, old(e.value))
    && (buf != null ==> |r.data| <= buf.Length && buf[..] == r.data + old(buf[|r.data|..]))
  }

  // What a replayed call did with what the log held for it: it gave the reply, or,
  // refused, returned fail with the error in errno and left the buffer alone.
  twostate predicate Replays(rep: P.Replay, r: P.CallCheck, c: Call, ret: int, fail: int, e: Errno, buf: array?<byte>)
    reads rep, rep.source, e, buf
  {
    || (rep.headerOk && r.CallOk? && r.next == rep.Position() && Gave(ReplayReply(c, r.payload), ret, e, buf))
    || (Refused(rep, r, e.value) && ret == fail && (buf != null ==> buf[..] == old(buf[..])))
  }

  // read and recv in replay mode
  method ReplayRead(e: Errno, rep: P.Replay, uthread: nat, c: Call, buf: array?<byte>) returns (ret: int)
    requires (c.Read? || c.Recv?) && (buf != null ==> c.count <= buf.Length) && rep.Valid()
    modifies e, buf, rep`expected, rep.source
    ensures rep.Valid()
    ensures var r := Expected(rep, uthread, c);
            Replays(rep, r, c, ret, -1, e, buf)
  {
    var ok, p := GetEvent(e, rep, uthread, c);
    if !ok {
      return -1;
    }
    if p.retval > 0 && buf != null {
      var n := p.retval;
      if n > c.count {
        n := c.count;
      }
      if n > p.dataLen {
        n := p.dataLen;
      }
      CopyInto(buf, p.data[..n]);
    }
    ret := FromRawResult(e, p.retval);
  }

  // The calls without data in replay mode, getuid excepted
  method ReplayPlain(e: Errno, rep: P.Replay, uthread: nat, c: Call) returns (ret: int)
    requires (c.Write? || c.Send? || c.Plain? || c.Getpid?) && rep.Valid()
    modifies e, rep`expected, rep.source
    ensures rep.Valid() && Replays(rep, Expected(rep, uthread, c), c, ret, -1, e, null)
  {
    var ok, p := GetEvent(e, rep, uthread, c);
    if !ok {
      return -1;
    }
    ret := FromRawResult(e, p.retval);
  }

  // getuid in replay mode; -1 is cast to uid_t.
  method ReplayGetuid(e: Errno, rep: P.Replay, uthread: nat) returns (ret: int)
    requires rep.Valid()
    modifies e, rep`expected, rep.source
    ensures rep.Valid() && Replays(rep, Expected(rep, uthread, Getuid), Getuid, ret, U32 - 1, e, null)
  {
    var ok, p := GetEvent(e, rep, uthread, Getuid);
    if !ok {
      return U32 - 1;
    }
    ret := FromRawResult(e, p.retval);
    if ret == -1 {
      ret := U32 - 1;
    }
  }

  // clock_gettime and gettimeofday in replay mode with virtual time
  method ReplayTime(e: Errno, rep: P.Replay, uthread: nat, c: Call, tp: array<byte>) returns (ret: int)
    requires (c.ClockGettime? || c.Gettimeofday?) && tp.Length == TIME_SIZE && rep.Valid()
    modifies e, tp, rep`expected, rep.source
    ensures rep.Valid()
    ensures var r := Expected(rep, uthread, c);
            Replays(rep, r, c, ret, -1, e, tp)
  {
    var ok, p := GetEvent(e, rep, uthread, c);
    if !ok {
      return -1;
    }
    if p.retval >= 0 {
      var n := p.dataLen;
      if n > TIME_SIZE {
        n := TIME_SIZE;
      }
      CopyInto(tp, p.data[..n]);
    }
    ret := FromRawResult(e, p.retval);
  }

  // getcwd in replay mode; 1 stands for the buffer and 0 for NULL.
  method ReplayGetcwd(e: Errno, rep: P.Replay, uthread: nat, buf: array?<byte>, size: nat) returns (ret: int)
    requires rep.Valid() && (buf != null ==> buf.Length == size)
    modifies e, buf, rep`expected, rep.source
    ensures rep.Valid()
    ensures var c := Getcwd(buf != null, size); var r := Expected(rep, uthread, c);
            Replays(rep, r, c, ret, 0, e, buf)
  {
    var ok, p := GetEvent(e, rep, uthread, Getcwd(buf != null, size));
    if !ok {
      return 0;
    }
    if p.retval < 0 {
      e.value := -p.retval;
      return 0;
    }
    if buf == null || size == 0 {
      return 0;
    }
    var n := p.dataLen;
    if n >= size {
      n := size - 1;
    }
    CopyInto(buf, p.data[..n] + [0]);
    return 1;
  }
}
