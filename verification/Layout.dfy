// Where each field of the log's records is, byte by byte: the struct layout of x86-64,
// least significant byte first.
module Layout {
  import opened Words
  import opened Events

  // The n bytes at off hold v, the least significant byte first.
  predicate HoldsAt(bs: seq<byte>, off: nat, n: nat, v: nat)
    decreases n
  {
    n == 0 || (off < |bs| && bs[off] == v % 256 && HoldsAt(bs, off + 1, n - 1, v / 256))
  }

  predicate ZerosAt(bs: seq<byte>, off: nat, n: nat) {
    off + n <= |bs| && forall i :: off <= i < off + n ==> bs[i] == 0
  }

  lemma {:induction false} ImageHolds(bs: seq<byte>, off: nat, n: nat, v: nat)
    requires off + n <= |bs| && bs[off..off + n] == LittleEndian(v, n)
    ensures HoldsAt(bs, off, n, v)
    decreases n
  {
    if n > 0 {
      var image := bs[off..off + n];
      assert image[0] == v % 256 && image[1..] == LittleEndian(v / 256, n - 1);
      assert bs[off + 1..off + n] == image[1..];
      ImageHolds(bs, off + 1, n - 1, v / 256);
    }
  }

  // An image inside a larger one.
  lemma {:induction false} HoldsInside(bs: seq<byte>, inner: seq<byte>, base: nat, off: nat, n: nat, v: nat)
    requires base + |inner| <= |bs| && bs[base..base + |inner|] == inner && HoldsAt(inner, off, n, v)
    ensures HoldsAt(bs, base + off, n, v)
    decreases n
  {
    if n > 0 {
      assert bs[base + off] == bs[base..base + |inner|][off];
      HoldsInside(bs, inner, base, off + 1, n - 1, v / 256);
    }
  }

  lemma {:induction false} TwosComplement(i: int)
    requires FitsI32(i)
    ensures i % 0x1_0000_0000 == ToU32(i)
  {
  }

  lemma {:induction false} Part(pre: seq<byte>, mid: seq<byte>, post: seq<byte>)
    ensures (pre + mid + post)[|pre|..|pre| + |mid|] == mid
  {
  }

  lemma {:induction false} SyscallSlices(p: Payload)
    requires p.Syscall? && ValidPayload(p)
    ensures var bs := EncodePayload(p);
            && bs[0..0 + 4] == LittleEndian(ToU32(p.nr), 4) && bs[4..4 + 4] == LittleEndian(ToU32(p.retval), 4)
            && bs[8..8 + 8] == LittleEndian(p.arg0, 8) && bs[16..80] == p.data
            && bs[80..80 + 4] == LittleEndian(p.dataLen, 4) && ZerosAt(bs, 84, 4)
  {
    var nr, retval, arg0 := LittleEndian(ToU32(p.nr), 4), LittleEndian(ToU32(p.retval), 4), LittleEndian(p.arg0, 8);
    var len, pad := LittleEndian(p.dataLen, 4), Zeros(4);
    var head := nr + retval + arg0;
    var bs := head + p.data + len + pad;
    assert bs == EncodePayload(p);
    HeadSlices(nr, retval, arg0);
    assert bs[..16] == head;
    assert bs[0..4] == bs[..16][0..4] && bs[4..8] == bs[..16][4..8] && bs[8..16] == bs[..16][8..16];
    assert bs == head + p.data + (len + pad);
    Part(head, p.data, len + pad);
    Part(head + p.data, len, pad);
  }

  lemma {:induction false} HeadSlices(nr: seq<byte>, retval: seq<byte>, arg0: seq<byte>)
    requires |nr| == |retval| == 4 && |arg0| == 8
    ensures var head := nr + retval + arg0; head[0..4] == nr && head[4..8] == retval && head[8..16] == arg0
  {
  }

  lemma {:induction false} SyscallUnion(p: Payload)
    requires p.Syscall? && ValidPayload(p)
    ensures var bs := EncodePayload(p);
            && HoldsAt(bs, 0, 4, p.nr % 0x1_0000_0000) && HoldsAt(bs, 4, 4, p.retval % 0x1_0000_0000)
            && HoldsAt(bs, 8, 8, p.arg0) && bs[16..80] == p.data && HoldsAt(bs, 80, 4, p.dataLen) && ZerosAt(bs, 84, 4)
  {
    var bs := EncodePayload(p);
    SyscallSlices(p);
    TwosComplement(p.nr);
    TwosComplement(p.retval);
    ImageHolds(bs, 0, 4, ToU32(p.nr));
    ImageHolds(bs, 4, 4, ToU32(p.retval));
    ImageHolds(bs, 8, 8, p.arg0);
    ImageHolds(bs, 80, 4, p.dataLen);
  }

  lemma {:induction false} SignalUnion(p: Payload)
    requires p.Signal? && ValidPayload(p)
    ensures var bs := EncodePayload(p);
            HoldsAt(bs, 0, 4, p.signo) && HoldsAt(bs, 4, 4, p.active) && ZerosAt(bs, 8, 80)
  {
    var bs := EncodePayload(p);
    assert bs[0..0 + 4] == LittleEndian(p.signo, 4);
    ImageHolds(bs, 0, 4, p.signo);
    assert bs[4..4 + 4] == LittleEndian(p.active, 4);
    ImageHolds(bs, 4, 4, p.active);
  }

  lemma {:induction false} SwitchUnion(p: Payload)
    requires p.Switch? && ValidPayload(p)
    ensures var bs := EncodePayload(p);
            HoldsAt(bs, 0, 8, p.fromId) && HoldsAt(bs, 8, 8, p.toId) && ZerosAt(bs, 16, 72)
  {
    var bs := EncodePayload(p);
    assert bs[0..0 + 8] == LittleEndian(p.fromId, 8);
    ImageHolds(bs, 0, 8, p.fromId);
    assert bs[8..8 + 8] == LittleEndian(p.toId, 8);
    ImageHolds(bs, 8, 8, p.toId);
  }

  // The fields every event has: seq at 0, uthread_id at 8, type at 16, the union at 24.
  lemma {:induction false} EventFields(ev: Event)
    requires ValidEvent(ev)
    ensures var bs := Encode(ev);
            && |bs| == 112 && HoldsAt(bs, 0, 8, ev.seqNo) && HoldsAt(bs, 8, 8, ev.uthread)
            && ZerosAt(bs, 20, 4) && bs[24..24 + 88] == EncodePayload(ev.payload)
            && match ev.payload
               case Syscall(_, _, _, _, _) => HoldsAt(bs, 16, 4, 1)
               case Signal(_, _) => HoldsAt(bs, 16, 4, 2)
               case Switch(_, _) => HoldsAt(bs, 16, 4, 3)
               case Other(kind, _) => HoldsAt(bs, 16, 4, kind)
  {
    var bs := Encode(ev);
    EventSlices(ev);
    ImageHolds(bs, 0, 8, ev.seqNo);
    ImageHolds(bs, 8, 8, ev.uthread);
    ImageHolds(bs, 16, 4, Kind(ev.payload));
  }

  lemma {:induction false} EventSlices(ev: Event)
    requires ValidEvent(ev)
    ensures var bs := Encode(ev);
            && bs[0..0 + 8] == LittleEndian(ev.seqNo, 8) && bs[8..8 + 8] == LittleEndian(ev.uthread, 8)
            && bs[16..16 + 4] == LittleEndian(Kind(ev.payload), 4) && ZerosAt(bs, 20, 4)
            && bs[24..24 + 88] == EncodePayload(ev.payload)
  {
    var seqNo, uthread := LittleEndian(ev.seqNo, 8), LittleEndian(ev.uthread, 8);
    var kind := LittleEndian(Kind(ev.payload), 4);
    var head, union := seqNo + uthread + kind + Zeros(4), EncodePayload(ev.payload);
    assert Encode(ev) == head + union;
    assert head[0..8] == seqNo && head[8..16] == uthread && head[16..20] == kind;
    assert (head + union)[..24] == head;
    assert forall i :: 0 <= i < 24 ==> (head + union)[i] == head[i];
    assert (head + union)[0..8] == head[0..8] && (head + union)[8..16] == head[8..16];
    assert (head + union)[16..20] == head[16..20];
  }

  // The whole record: nr at 24, retval at 28, arg0 at 32, data at 40, data_len at 104;
  // signo at 24, active_uthread at 28; from_id at 24, to_id at 32.
  lemma {:induction false} EventLayout(ev: Event)
    requires ValidEvent(ev)
    ensures var bs := Encode(ev);
            |bs| == 112 &&
            match ev.payload
            case Syscall(nr, retval, arg0, data, dataLen) =>
              && HoldsAt(bs, 24, 4, nr % 0x1_0000_0000) && HoldsAt(bs, 28, 4, retval % 0x1_0000_0000)
              && HoldsAt(bs, 32, 8, arg0) && bs[40..104] == data && HoldsAt(bs, 104, 4, dataLen)
            case Signal(signo, active) => HoldsAt(bs, 24, 4, signo) && HoldsAt(bs, 28, 4, active)
            case Switch(fromId, toId) => HoldsAt(bs, 24, 8, fromId) && HoldsAt(bs, 32, 8, toId)
            case Other(_, raw) => bs[24..112] == raw
  {
    EventFields(ev);
    var bs, inner := Encode(ev), EncodePayload(ev.payload);
    match ev.payload
    case Syscall(nr, retval, arg0, data, dataLen) =>
      SyscallUnion(ev.payload);
      HoldsInside(bs, inner, 24, 0, 4, nr % 0x1_0000_0000);
      HoldsInside(bs, inner, 24, 4, 4, retval % 0x1_0000_0000);
      HoldsInside(bs, inner, 24, 8, 8, arg0);
      HoldsInside(bs, inner, 24, 80, 4, dataLen);
      assert bs[40..104] == bs[24..24 + 88][16..80];
    case Signal(signo, active) =>
      SignalUnion(ev.payload);
      HoldsInside(bs, inner, 24, 0, 4, signo);
      HoldsInside(bs, inner, 24, 4, 4, active);
    case Switch(fromId, toId) =>
      SwitchUnion(ev.payload);
      HoldsInside(bs, inner, 24, 0, 8, fromId);
      HoldsInside(bs, inner, 24, 8, 8, toId);
    case Other(_, _) =>
  }

  // magic at 0, version at 4, start_time at 8, pid at 16.
  lemma {:induction false} HeaderLayout(h: Header)
    requires ValidHeader(h)
    ensures var bs := EncodeHeader(h);
            && |bs| == 24 && HoldsAt(bs, 0, 4, h.magic) && HoldsAt(bs, 4, 4, h.version)
            && HoldsAt(bs, 8, 8, h.startTime) && HoldsAt(bs, 16, 4, h.pid) && ZerosAt(bs, 20, 4)
  {
    var bs := EncodeHeader(h);
    assert bs[0..0 + 4] == LittleEndian(h.magic, 4);
    ImageHolds(bs, 0, 4, h.magic);
    assert bs[4..4 + 4] == LittleEndian(h.version, 4);
    ImageHolds(bs, 4, 4, h.version);
    assert bs[8..8 + 8] == LittleEndian(h.startTime, 8);
    ImageHolds(bs, 8, 8, h.startTime);
    assert bs[16..16 + 4] == LittleEndian(h.pid, 4);
    ImageHolds(bs, 16, 4, h.pid);
  }

  // Every file a recorder writes starts with the magic "GLRR" and version 1, followed
  // by its start time and process id.
  lemma {:induction false} RecorderFileStarts(startTime: nat, pid: nat, evs: seq<Event>)
    requires startTime < U64 && pid < U32 && AllValid(evs)
    ensures var file := LogFile(RecorderHeader(startTime, pid), evs);
            && |file| >= 24 && file[..8] == [0x47, 0x4C, 0x52, 0x52, 1, 0, 0, 0]
            && HoldsAt(file, 8, 8, startTime) && HoldsAt(file, 16, 4, pid)
  {
    var h := RecorderHeader(startTime, pid);
    var file, bs := LogFile(h, evs), EncodeHeader(h);
    HeaderLayout(h);
    assert file[0..0 + |bs|] == bs;
    HoldsInside(file, bs, 0, 8, 8, startTime);
    HoldsInside(file, bs, 0, 16, 4, pid);
    MagicBytes(bs);
    assert file[..8] == bs[..8];
  }

  lemma {:induction false} MagicBytes(bs: seq<byte>)
    requires HoldsAt(bs, 0, 4, 0x52524C47) && HoldsAt(bs, 4, 4, 1)
    ensures |bs| >= 8 && bs[..8] == [0x47, 0x4C, 0x52, 0x52, 1, 0, 0, 0]
  {
    FirstFour(bs, 0, 0x52524C47);
    FirstFour(bs, 4, 1);
  }

  lemma {:induction false} FirstFour(bs: seq<byte>, off: nat, v: nat)
    requires HoldsAt(bs, off, 4, v)
    ensures off + 4 <= |bs|
    ensures bs[off] == v % 256 && bs[off + 1] == v / 256 % 256
    ensures bs[off + 2] == v / 256 / 256 % 256 && bs[off + 3] == v / 256 / 256 / 256 % 256
  {
    assert HoldsAt(bs, off + 1, 3, v / 256);
    assert HoldsAt(bs, off + 2, 2, v / 256 / 256);
    assert HoldsAt(bs, off + 3, 1, v / 256 / 256 / 256);
  }
}
