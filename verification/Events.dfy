// The log's records: rr_log_header_t (24 bytes) and rr_event_t (112 bytes),
// in the x86-64 struct layout the recorder dumps and the replayer reads back.
module Events {
  import opened Words

  const LOG_MAGIC := 0x52524C47
  const LOG_VERSION := 1
  const HEADER_SIZE := 24
  const EVENT_SIZE := 112
  const UNION_SIZE := 88
  const DATA_CAP := 64
  const RING_SIZE := 4 * 1024 * 1024

  const KIND_SYSCALL := 1
  const KIND_SIGNAL := 2
  const KIND_SWITCH := 3

  // The tagged union of rr_event_t. Other covers tags no writer emits.
  datatype Payload =
    | Syscall(nr: int, retval: int, arg0: nat, data: seq<byte>, dataLen: nat)
    | Signal(signo: nat, active: nat)
    | Switch(fromId: nat, toId: nat)
    | Other(kind: nat, raw: seq<byte>)

  datatype Event = Event(seqNo: nat, uthread: nat, payload: Payload)

  predicate ValidPayload(p: Payload) {
    match p
    case Syscall(nr, retval, arg0, data, dataLen) =>
      FitsI32(nr) && FitsI32(retval) && arg0 < U64 && |data| == DATA_CAP && dataLen < U32
    case Signal(signo, active) => signo < U32 && active < U32
    case Switch(fromId, toId) => fromId < U64 && toId < U64
    case Other(kind, raw) => 3 < kind < U32 && |raw| == UNION_SIZE
  }

  predicate ValidEvent(ev: Event) {
    ev.seqNo < U64 && ev.uthread < U64 && ValidPayload(ev.payload)
  }

  predicate AllValid(evs: seq<Event>) {
    forall i :: 0 <= i < |evs| ==> ValidEvent(evs[i])
  }

  function Kind(p: Payload): nat {
    match p
    case Syscall(_, _, _, _, _) => KIND_SYSCALL
    case Signal(_, _) => KIND_SIGNAL
    case Switch(_, _) => KIND_SWITCH
    case Other(kind, _) => kind
  }

  function EncodePayload(p: Payload): (bs: seq<byte>)
    requires ValidPayload(p)
    ensures |bs| == UNION_SIZE
  {
    match p
    case Syscall(nr, retval, arg0, data, dataLen) =>
      LittleEndian(ToU32(nr), 4) + LittleEndian(ToU32(retval), 4) + LittleEndian(arg0, 8)
      + data + LittleEndian(dataLen, 4) + Zeros(4)
    case Signal(signo, active) =>
      LittleEndian(signo, 4) + LittleEndian(active, 4) + Zeros(80)
    case Switch(fromId, toId) =>
      LittleEndian(fromId, 8) + LittleEndian(toId, 8) + Zeros(72)
    case Other(_, raw) => raw
  }

  function DecodePayload(kind: nat, bs: seq<byte>): Payload
    requires |bs| == UNION_SIZE
  {
    if kind == KIND_SYSCALL then
      Syscall(FromU32(FromLittleEndian(bs[0..4])), FromU32(FromLittleEndian(bs[4..8])),
              FromLittleEndian(bs[8..16]), bs[16..80], FromLittleEndian(bs[80..84]))
    else if kind == KIND_SIGNAL then
      Signal(FromLittleEndian(bs[0..4]), FromLittleEndian(bs[4..8]))
    else if kind == KIND_SWITCH then
      Switch(FromLittleEndian(bs[0..8]), FromLittleEndian(bs[8..16]))
    else
      Other(kind, bs)
  }

  function Encode(ev: Event): (bs: seq<byte>)
    requires ValidEvent(ev)
    ensures |bs| == EVENT_SIZE
  {
    LittleEndian(ev.seqNo, 8) + LittleEndian(ev.uthread, 8) + LittleEndian(Kind(ev.payload), 4)
    + Zeros(4) + EncodePayload(ev.payload)
  }

  // Total on 112 bytes: a log may hold anything.
  function Decode(bs: seq<byte>): Event
    requires |bs| == EVENT_SIZE
  {
    Event(FromLittleEndian(bs[0..8]), FromLittleEndian(bs[8..16]),
          DecodePayload(FromLittleEndian(bs[16..20]), bs[24..112]))
  }

  lemma {:induction false} SyscallRoundTrip(p: Payload)
    requires p.Syscall? && ValidPayload(p)
    ensures DecodePayload(KIND_SYSCALL, EncodePayload(p)) == p
  {
    Widths();
    var bs := EncodePayload(p);
    LittleEndianRoundTrip(ToU32(p.nr), 4);
    LittleEndianRoundTrip(ToU32(p.retval), 4);
    LittleEndianRoundTrip(p.arg0, 8);
    LittleEndianRoundTrip(p.dataLen, 4);
    assert bs[0..4] == LittleEndian(ToU32(p.nr), 4);
    assert bs[4..8] == LittleEndian(ToU32(p.retval), 4);
    assert bs[8..16] == LittleEndian(p.arg0, 8);
    assert bs[16..80] == p.data;
    assert bs[80..84] == LittleEndian(p.dataLen, 4);
  }

  lemma {:induction false} PayloadRoundTrip(p: Payload)
    requires ValidPayload(p)
    ensures DecodePayload(Kind(p), EncodePayload(p)) == p
  {
    Widths();
    var bs := EncodePayload(p);
    match p
    case Syscall(_, _, _, _, _) => SyscallRoundTrip(p);
    case Signal(signo, active) =>
      LittleEndianRoundTrip(signo, 4);
      LittleEndianRoundTrip(active, 4);
      assert bs[0..4] == LittleEndian(signo, 4);
      assert bs[4..8] == LittleEndian(active, 4);
    case Switch(fromId, toId) =>
      LittleEndianRoundTrip(fromId, 8);
      LittleEndianRoundTrip(toId, 8);
      assert bs[0..8] == LittleEndian(fromId, 8);
      assert bs[8..16] == LittleEndian(toId, 8);
    case Other(_, _) =>
  }

  lemma {:induction false} EventRoundTrip(ev: Event)
    requires ValidEvent(ev)
    ensures Decode(Encode(ev)) == ev
  {
    Widths();
    var bs := Encode(ev);
    var kind := Kind(ev.payload);
    LittleEndianRoundTrip(ev.seqNo, 8);
    LittleEndianRoundTrip(ev.uthread, 8);
    LittleEndianRoundTrip(kind, 4);
    assert bs[0..8] == LittleEndian(ev.seqNo, 8);
    assert bs[8..16] == LittleEndian(ev.uthread, 8);
    assert bs[16..20] == LittleEndian(kind, 4);
    assert bs[24..112] == EncodePayload(ev.payload);
    PayloadRoundTrip(ev.payload);
  }

  function EncodeAll(evs: seq<Event>): (bs: seq<byte>)
    requires AllValid(evs)
    ensures |bs| == 112 * |evs|
  {
    if evs == [] then []
    else EncodeAll(evs[..|evs| - 1]) + Encode(evs[|evs| - 1])
  }

  lemma {:induction false} EncodeAllSnoc(evs: seq<Event>, ev: Event)
    requires AllValid(evs) && ValidEvent(ev)
    ensures AllValid(evs + [ev]) && EncodeAll(evs + [ev]) == EncodeAll(evs) + Encode(ev)
  {
  }

  lemma {:induction false} EncodeAllConcat(a: seq<Event>, b: seq<Event>)
    requires AllValid(a) && AllValid(b)
    ensures AllValid(a + b)
    ensures EncodeAll(a + b) == EncodeAll(a) + EncodeAll(b)
  {
    if b == [] {
      assert a + b == a;
    } else {
      var front, last := b[..|b| - 1], b[|b| - 1];
      assert b == front + [last] && a + b == (a + front) + [last];
      assert AllValid(front) && ValidEvent(last);
      EncodeAllConcat(a, front);
      EncodeAllSnoc(front, last);
      EncodeAllSnoc(a + front, last);
      ConcatAssociative(EncodeAll(a), EncodeAll(front), Encode(last));
    }
  }

  lemma {:induction false} ConcatAssociative(x: seq<byte>, y: seq<byte>, z: seq<byte>)
    ensures (x + y) + z == x + (y + z)
  {
  }

  lemma {:induction false} EncodeAllPrefix(evs: seq<Event>, j: nat)
    requires AllValid(evs) && j <= |evs|
    ensures AllValid(evs[..j]) && EncodeAll(evs[..j]) == EncodeAll(evs)[..112 * j]
  {
    var a, b := evs[..j], evs[j..];
    assert evs == a + b;
    EncodeAllConcat(a, b);
    assert (EncodeAll(a) + EncodeAll(b))[..|EncodeAll(a)|] == EncodeAll(a);
  }

  // Record k of an encoded list starts at byte 112 * k.
  lemma {:induction false} EncodedRecord(evs: seq<Event>, k: nat)
    requires AllValid(evs) && k < |evs|
    ensures EncodeAll(evs)[112 * k..112 * k + EVENT_SIZE] == Encode(evs[k])
  {
    var n := |evs| - 1;
    var front := EncodeAll(evs[..n]);
    if k == n {
      assert EncodeAll(evs)[|front|..|front| + EVENT_SIZE] == Encode(evs[k]);
    } else {
      EncodedRecord(evs[..n], k);
      assert EncodeAll(evs)[112 * k..112 * k + EVENT_SIZE]
          == front[112 * k..112 * k + EVENT_SIZE];
    }
  }

  datatype Header = Header(magic: nat, version: nat, startTime: nat, pid: nat)

  predicate ValidHeader(h: Header) {
    h.magic < U32 && h.version < U32 && h.startTime < U64 && h.pid < U32
  }

  function EncodeHeader(h: Header): (bs: seq<byte>)
    requires ValidHeader(h)
    ensures |bs| == HEADER_SIZE
  {
    LittleEndian(h.magic, 4) + LittleEndian(h.version, 4) + LittleEndian(h.startTime, 8)
    + LittleEndian(h.pid, 4) + Zeros(4)
  }

  function DecodeHeader(bs: seq<byte>): Header
    requires |bs| == HEADER_SIZE
  {
    Header(FromLittleEndian(bs[0..4]), FromLittleEndian(bs[4..8]),
           FromLittleEndian(bs[8..16]), FromLittleEndian(bs[16..20]))
  }

  lemma {:induction false} HeaderRoundTrip(h: Header)
    requires ValidHeader(h)
    ensures DecodeHeader(EncodeHeader(h)) == h
  {
    Widths();
    var bs := EncodeHeader(h);
    LittleEndianRoundTrip(h.magic, 4);
    LittleEndianRoundTrip(h.version, 4);
    LittleEndianRoundTrip(h.startTime, 8);
    LittleEndianRoundTrip(h.pid, 4);
    assert bs[0..4] == LittleEndian(h.magic, 4);
    assert bs[4..8] == LittleEndian(h.version, 4);
    assert bs[8..16] == LittleEndian(h.startTime, 8);
    assert bs[16..20] == LittleEndian(h.pid, 4);
  }

  // The header rr_record_init writes.
  function RecorderHeader(startTime: nat, pid: nat): (h: Header)
    requires startTime < U64 && pid < U32
    ensures ValidHeader(h)
  {
    Header(LOG_MAGIC, LOG_VERSION, startTime, pid)
  }

  // A complete log file.
  function LogFile(h: Header, evs: seq<Event>): (bs: seq<byte>)
    requires ValidHeader(h) && AllValid(evs)
    ensures |bs| == HEADER_SIZE + 112 * |evs|
  {
    EncodeHeader(h) + EncodeAll(evs)
  }

  lemma {:induction false} LogFileConcat(h: Header, a: seq<Event>, b: seq<Event>)
    requires ValidHeader(h) && AllValid(a) && AllValid(b)
    ensures AllValid(a + b) && LogFile(h, a + b) == LogFile(h, a) + EncodeAll(b)
  {
    EncodeAllConcat(a, b);
    ConcatAssociative(EncodeHeader(h), EncodeAll(a), EncodeAll(b));
  }

  // The sequence number of the event at position k: 1, 2, 3, ... in 64 bits.
  function SeqNo(k: nat): (n: nat)
    ensures n < U64
  {
    Wrap(k + 1)
  }

  // What rr_log_syscall puts in the union: the data is cut to 64 bytes and the
  // unused part of the array is zero.
  function SyscallPayload(nr: int, retval: int, arg0: nat, data: seq<byte>): (p: Payload)
    ensures p.Syscall? && |p.data| == DATA_CAP
    ensures FitsI32(nr) && FitsI32(retval) && arg0 < U64 ==> ValidPayload(p)
  {
    var n := Min(|data|, DATA_CAP);
    Syscall(nr, retval, arg0, data[..n] + Zeros(DATA_CAP - n), n)
  }

  // rr_next_seq and the append of one record.
  function Emit(log: seq<Event>, uthread: nat, p: Payload): seq<Event> {
    log + [Event(SeqNo(|log|), uthread, p)]
  }

  predicate Numbered(evs: seq<Event>) {
    forall i :: 0 <= i < |evs| ==> evs[i].seqNo == SeqNo(i)
  }

  lemma {:induction false} SeqNoStep(k: nat)
    ensures SeqNo(k + 1) == Wrap(SeqNo(k) + 1)
  {
    WrapSuccessor(k + 1);
  }
}
