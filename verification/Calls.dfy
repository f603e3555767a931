// The intercepted calls: what the record-mode wrapper logs and returns, what the
// replay-mode wrapper rebuilds from the logged event, and exactly when the two agree.
module Calls {
  import opened Words
  import opened Events

  const EBUSY := 16
  const ESRCH := 3
  const EINVAL := 22
  const EDEADLK := 35
  const ENODATA := 61
  const EPROTO := 71
  const MAX_ERRNO := 4095

  const NR_READ := 0
  const NR_WRITE := 1
  const NR_GETPID := 39
  const NR_SENDTO := 44
  const NR_RECVFROM := 45
  const NR_GETCWD := 79
  const NR_GETTIMEOFDAY := 96
  const NR_GETUID := 102
  const NR_CLOCK_GETTIME := 228

  // sizeof(struct timespec) == sizeof(struct timeval) on x86-64.
  const TIME_SIZE := 16

  // Plain stands for accept, connect, openat and close: one operation, no data.
  datatype Call =
    | Read(fd: int, count: nat)
    | Recv(fd: int, count: nat)
    | Write(fd: int, count: nat)
    | Send(fd: int, count: nat)
    | Plain(nr: int, fd: int)
    | ClockGettime(clock: int)
    | Gettimeofday
    | Getpid
    | Getuid
    | Getcwd(hasBuf: bool, size: nat)

  predicate ValidCall(c: Call) {
    match c
    case Plain(nr, _) => FitsI32(nr)
    case Getcwd(_, size) => size < U64
    case _ => true
  }

  function Nr(c: Call): int {
    match c
    case Read(_, _) => NR_READ
    case Recv(_, _) => NR_RECVFROM
    case Write(_, _) => NR_WRITE
    case Send(_, _) => NR_SENDTO
    case Plain(nr, _) => nr
    case ClockGettime(_) => NR_CLOCK_GETTIME
    case Gettimeofday => NR_GETTIMEOFDAY
    case Getpid => NR_GETPID
    case Getuid => NR_GETUID
    case Getcwd(_, _) => NR_GETCWD
  }

  // Record mode hands these to io_uring and blocks the uthread; the others run
  // to completion inside the wrapper.
  predicate Suspends(c: Call) {
    match c
    case Read(_, count) => count > 0
    case Write(_, count) => count > 0
    case Recv(_, _) => true
    case Send(_, _) => true
    case Plain(_, _) => true
    case _ => false
  }

  // The kernel's answer: a non-negative value or a negated errno, and the bytes it
  // stored through the caller's pointer (for getcwd the path without its NUL).
  datatype KernelResult = KernelResult(raw: int, data: seq<byte>)

  predicate ValidResult(c: Call, k: KernelResult) {
    match c
    case Read(_, count) =>
      -I32_MAX <= k.raw <= I32_MAX && k.raw <= count && |k.data| == (if k.raw > 0 then k.raw else 0)
    case Recv(_, count) =>
      -I32_MAX <= k.raw <= I32_MAX && k.raw <= count && |k.data| == (if k.raw > 0 then k.raw else 0)
    case Write(_, _) => -I32_MAX <= k.raw <= I32_MAX && k.data == []
    case Send(_, _) => -I32_MAX <= k.raw <= I32_MAX && k.data == []
    case Plain(_, _) => -I32_MAX <= k.raw <= I32_MAX && k.data == []
    case ClockGettime(_) => ValidTime(k)
    case Gettimeofday => ValidTime(k)
    case Getpid => FitsI32(k.raw) && k.data == []
    case Getuid => 0 <= k.raw < U32 && k.data == []
    case Getcwd(hasBuf, size) =>
      if k.raw == 0 then 0 !in k.data && (hasBuf ==> |k.data| < size) else -MAX_ERRNO <= k.raw < 0 && k.data == []
  }

  predicate ValidTime(k: KernelResult) {
    (k.raw == 0 && |k.data| == TIME_SIZE) || (-MAX_ERRNO <= k.raw < 0 && k.data == [])
  }

  // What the program sees: the return value, the errno it leaves (0 when errno is
  // not touched), and the bytes stored through the pointer argument. For getcwd the
  // return value is 1 for the buffer and 0 for NULL.
  datatype CallReply = CallReply(ret: int, err: nat, data: seq<byte>)

  // The record side ----------------------------------------------------------

  function LoggedRetval(c: Call, k: KernelResult): (r: int)
    ensures ValidResult(c, k) ==> FitsI32(r)
  {
    if c.Getuid? then FromU32(k.raw) else k.raw
  }

  function LoggedArg(c: Call): (a: nat)
    ensures ValidCall(c) ==> a < U64
  {
    match c
    case Read(fd, _) => Wrap(fd)
    case Recv(fd, _) => Wrap(fd)
    case Write(fd, _) => Wrap(fd)
    case Send(fd, _) => Wrap(fd)
    case Plain(_, fd) => Wrap(fd)
    case ClockGettime(clock) => Wrap(clock)
    case Getcwd(_, size) => size
    case _ => 0
  }

  // getcwd logs strnlen(path, size) bytes; the others log what the kernel stored.
  function LoggedData(c: Call, k: KernelResult): seq<byte> {
    if c.Getcwd? then k.data[..Min(|k.data|, c.size)] else k.data
  }

  function Logged(c: Call, k: KernelResult): (p: Payload)
    ensures p.Syscall? && |p.data| == DATA_CAP && p.nr == Nr(c)
    ensures ValidCall(c) && ValidResult(c, k) ==> ValidPayload(p)
  {
    SyscallPayload(Nr(c), LoggedRetval(c, k), LoggedArg(c), LoggedData(c, k))
  }

  // raw_to_ssize and raw_to_int.
  function FromRaw(raw: int, data: seq<byte>): CallReply {
    if raw < 0 then CallReply(-1, -raw, []) else CallReply(raw, 0, data)
  }

  function RecordReply(c: Call, k: KernelResult): CallReply {
    match c
    case Getpid => CallReply(k.raw, 0, [])
    case Getuid => CallReply(k.raw, 0, [])
    case Getcwd(_, _) => if k.raw < 0 then CallReply(0, -k.raw, []) else CallReply(1, 0, k.data + [0])
    case _ => FromRaw(k.raw, k.data)
  }

  // What a call fetches from the log.
  type CallPayload = p: Payload | p.Syscall? && |p.data| == DATA_CAP
    witness SyscallPayload(0, 0, 0, [])

  // The replay side ----------------------------------------------------------

  // rr_replay_next_syscall hands over at most 64 bytes whatever the log says.
  function UsableLen(p: CallPayload): (n: nat)
    ensures n <= DATA_CAP
  {
    Min(p.dataLen, DATA_CAP)
  }

  function ReplayReply(c: Call, p: CallPayload): CallReply {
    var n := UsableLen(p);
    match c
    case Read(_, count) =>
      FromRaw(p.retval, if p.retval > 0 then p.data[..Min(Min(p.retval, count), n)] else [])
    case Recv(_, count) =>
      FromRaw(p.retval, if p.retval > 0 then p.data[..Min(Min(p.retval, count), n)] else [])
    case ClockGettime(_) => FromRaw(p.retval, p.data[..Min(n, TIME_SIZE)])
    case Gettimeofday => FromRaw(p.retval, p.data[..Min(n, TIME_SIZE)])
    case Getuid => if p.retval < 0 then CallReply(U32 - 1, -p.retval, []) else CallReply(p.retval, 0, [])
    case Getcwd(hasBuf, size) =>
      if p.retval < 0 then CallReply(0, -p.retval, [])
      else if hasBuf && size > 0 then CallReply(1, 0, p.data[..if n >= size then size - 1 else n] + [0])
      else CallReply(0, 0, [])
    case _ => FromRaw(p.retval, [])
  }

  // A wrapper whose event could not be fetched: -1, (uid_t)-1 or NULL.
  function ReplayFailure(c: Call, err: nat): CallReply {
    match c
    case Getuid => CallReply(U32 - 1, err, [])
    case Getcwd(_, _) => CallReply(0, err, [])
    case _ => CallReply(-1, err, [])
  }

  // What the program is told, from outside ------------------------------------

  // The call failed with this error: -1, (uid_t)-1 or NULL, errno set, nothing stored.
  predicate Fails(c: Call, r: CallReply, err: nat) {
    && r.err == err && r.data == []
    && match c
       case Getuid => r.ret == 0xFFFF_FFFF
       case Getcwd(_, _) => r.ret == 0
       case _ => r.ret == -1
  }

  // The kernel's answer as the C library's conventions put it: a negative result is an
  // error, any other is returned with the bytes the kernel stored and errno is left
  // alone. getpid and getuid cannot fail; getcwd returns its buffer and ends the path.
  predicate Tells(c: Call, k: KernelResult, r: CallReply) {
    if k.raw < 0 && !c.Getpid? then Fails(c, r, -k.raw)
    else
      && r.err == 0
      && (if c.Getcwd? then r.ret == 1 && r.data == k.data + [0] else r.ret == k.raw && r.data == k.data)
  }

  // The bytes a replayed call may store, of the at most 64 the event holds.
  predicate Rebuilds(c: Call, p: CallPayload, r: CallReply) {
    if p.retval < 0 then Fails(c, r, -p.retval)
    else
      && r.err == 0
      && match c
         case Read(_, count) => r.ret == p.retval && FrontOf(p, r.data, {p.retval, count})
         case Recv(_, count) => r.ret == p.retval && FrontOf(p, r.data, {p.retval, count})
         case ClockGettime(_) => r.ret == p.retval && FrontOf(p, r.data, {16})
         case Gettimeofday => r.ret == p.retval && FrontOf(p, r.data, {16})
         case Getcwd(hasBuf, size) =>
           if hasBuf && size > 0 then
             r.ret == 1 && |r.data| > 0 && r.data[|r.data| - 1] == 0 && FrontOf(p, r.data[..|r.data| - 1], {size - 1})
           else r.ret == 0 && r.data == []
         case _ => r.ret == p.retval && r.data == []
  }

  // As much of the event's data as its length and all the limits allow.
  predicate FrontOf(p: CallPayload, d: seq<byte>, limits: set<int>) {
    && d <= p.data && |d| <= p.dataLen && (forall n :: n in limits ==> |d| <= n)
    && (|d| == 64 || |d| == p.dataLen || |d| in limits)
  }

  // What the log keeps of a call: the raw result as an int32_t, what the call was, and
  // the front of its data.
  predicate Records(c: Call, k: KernelResult, p: CallPayload) {
    && -0x8000_0000 <= p.retval < 0x8000_0000 && (k.raw - p.retval) % 0x1_0000_0000 == 0
    && Identifies(c, p) && KeepsFront(c, k, p)
  }

  // Its x86-64 number and the descriptor, clock or size it was made with.
  predicate Identifies(c: Call, p: CallPayload) {
    match c
    case Read(fd, _) => p.nr == 0 && Denotes(p.arg0, fd)
    case Write(fd, _) => p.nr == 1 && Denotes(p.arg0, fd)
    case Send(fd, _) => p.nr == 44 && Denotes(p.arg0, fd)
    case Recv(fd, _) => p.nr == 45 && Denotes(p.arg0, fd)
    case Plain(nr, fd) => p.nr == nr && Denotes(p.arg0, fd)
    case ClockGettime(clock) => p.nr == 228 && Denotes(p.arg0, clock)
    case Gettimeofday => p.nr == 96 && p.arg0 == 0
    case Getpid => p.nr == 39 && p.arg0 == 0
    case Getuid => p.nr == 102 && p.arg0 == 0
    case Getcwd(_, size) => p.nr == 79 && p.arg0 == size
  }

  // The uint64_t an int is cast to.
  predicate Denotes(u: nat, i: int) {
    u < 0x1_0000_0000_0000_0000 && (u - i) % 0x1_0000_0000_0000_0000 == 0
  }

  // The first 64 bytes of its data, for getcwd no more than the size asked for, then
  // zeros.
  predicate KeepsFront(c: Call, k: KernelResult, p: CallPayload) {
    && p.dataLen <= 64 && p.dataLen <= |k.data| && p.data[..p.dataLen] == k.data[..p.dataLen]
    && (p.dataLen == 64 || p.dataLen == |k.data| || (c.Getcwd? && p.dataLen == c.size))
    && (c.Getcwd? ==> p.dataLen <= c.size)
    && (forall i :: p.dataLen <= i < 64 ==> p.data[i] == 0)
  }

  lemma {:induction false} CastDenotes(i: int)
    ensures Denotes(Wrap(i), i)
  {
  }

  lemma {:induction false} LoggedIdentifies(c: Call, k: KernelResult)
    requires ValidCall(c)
    ensures Identifies(c, Logged(c, k))
  {
    match c
    case Read(fd, _) => CastDenotes(fd);
    case Write(fd, _) => CastDenotes(fd);
    case Send(fd, _) => CastDenotes(fd);
    case Recv(fd, _) => CastDenotes(fd);
    case Plain(_, fd) => CastDenotes(fd);
    case ClockGettime(clock) => CastDenotes(clock);
    case _ =>
  }

  lemma {:induction false} LoggedKeepsFront(c: Call, k: KernelResult)
    ensures KeepsFront(c, k, Logged(c, k))
  {
  }

  lemma {:induction false} LoggedRecords(c: Call, k: KernelResult)
    requires ValidCall(c) && ValidResult(c, k)
    ensures Records(c, k, Logged(c, k))
  {
    LoggedIdentifies(c, k);
    LoggedKeepsFront(c, k);
  }

  // The record side tells the program the kernel's answer.
  lemma {:induction false} RecordTells(c: Call, k: KernelResult)
    requires ValidCall(c) && ValidResult(c, k)
    ensures Tells(c, k, RecordReply(c, k))
  {
  }

  // The replay side rebuilds the answer from the event, whatever the event holds.
  lemma {:induction false} ReplayRebuilds(c: Call, p: CallPayload)
    ensures Rebuilds(c, p, ReplayReply(c, p))
  {
  }

  // And fails when there is no event for it.
  lemma {:induction false} FailureFails(c: Call, err: nat)
    ensures Fails(c, ReplayFailure(c, err), err)
  {
  }

  // When the two sides agree -------------------------------------------------

  predicate Faithful(c: Call, k: KernelResult) {
    match c
    case Read(_, _) => k.raw <= DATA_CAP
    case Recv(_, _) => k.raw <= DATA_CAP
    case Getpid => k.raw >= 0
    case Getuid => k.raw <= I32_MAX
    case Getcwd(hasBuf, _) => k.raw < 0 || (hasBuf && |k.data| <= DATA_CAP)
    case _ => true
  }

  // The replayed call returns the recorded reply exactly when Faithful holds.
  lemma {:induction false} ReplayAgreesIff(c: Call, k: KernelResult)
    requires ValidCall(c) && ValidResult(c, k)
    ensures ReplayReply(c, Logged(c, k)) == RecordReply(c, k) <==> Faithful(c, k)
  {
  }

  // read and recv, whatever count the caller gives: return value and errno always
  // survive; of the data the first min(raw, 64) bytes do.
  lemma {:induction false} ReadReplaysPrefix(c: Call, k: KernelResult)
    requires c.Read? || c.Recv?
    requires ValidCall(c) && ValidResult(c, k)
    ensures var a, b := ReplayReply(c, Logged(c, k)), RecordReply(c, k);
            a.ret == b.ret && a.err == b.err && a.data == b.data[..Min(|b.data|, DATA_CAP)]
  {
  }

  // What the replay tells instead when the log cannot carry the answer: the first 64
  // bytes of a longer read, an error for a negative pid or a uid from 2^31 on, NULL
  // without an error for a getcwd without a buffer, and a path cut to 64 bytes.
  lemma {:induction false} UnfaithfulReplies(c: Call, k: KernelResult)
    requires ValidCall(c) && ValidResult(c, k) && !Faithful(c, k)
    ensures var r := ReplayReply(c, Logged(c, k));
            match c
            case Read(_, _) => r == CallReply(k.raw, 0, k.data[..64])
            case Recv(_, _) => r == CallReply(k.raw, 0, k.data[..64])
            case Getpid => r == CallReply(-1, -k.raw, [])
            case Getuid => r == CallReply(0xFFFF_FFFF, 0x1_0000_0000 - k.raw, [])
            case Getcwd(hasBuf, _) => r == if hasBuf then CallReply(1, 0, k.data[..64] + [0]) else CallReply(0, 0, [])
            case _ => false
  {
  }
}
