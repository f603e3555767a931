// The replayer: read(2) with short and interrupted reads, the cursor over the log
// file, and the checks a schedule switch and a call make before they go on.
module Replayer {
  import opened Words
  import opened Events
  import opened Calls
  import R = Recorder

  // File position and g_expected_seq.
  datatype Cursor = Cursor(pos: nat, expected: nat)

  datatype Fetched = Fetched(ev: Event, next: Cursor) | NotFetched(err: nat, next: Cursor)

  // rr_replay_next_event on a readable file. A short tail is consumed; an event
  // with the wrong number is consumed without advancing the expected number.
  function Fetch(file: seq<byte>, c: Cursor): (r: Fetched)
    ensures c.pos <= |file| ==> r.next.pos <= |file|
  {
    if |file| < c.pos + EVENT_SIZE then
      NotFetched(ENODATA, Cursor(if c.pos <= |file| then |file| else c.pos, c.expected))
    else
      var ev := Decode(file[c.pos..c.pos + EVENT_SIZE]);
      if ev.seqNo != c.expected then NotFetched(EPROTO, Cursor(c.pos + EVENT_SIZE, c.expected))
      else Fetched(ev, Cursor(c.pos + EVENT_SIZE, Wrap(c.expected + 1)))
  }

  datatype SwitchCheck = SwitchOk(next: Cursor) | SwitchBad(err: nat, next: Cursor)

  // rr_replay_expect_sched
  function ExpectSwitch(file: seq<byte>, c: Cursor, fromId: nat, toId: nat): SwitchCheck {
    match Fetch(file, c)
    case NotFetched(err, next) => SwitchBad(err, next)
    case Fetched(ev, next) =>
      if ev.payload == Switch(fromId, toId) then SwitchOk(next) else SwitchBad(EPROTO, next)
  }

  datatype CallCheck = CallOk(payload: CallPayload, next: Cursor) | CallBad(err: nat, next: Cursor)

  // rr_replay_next_syscall
  function NextSyscall(file: seq<byte>, c: Cursor, nr: int, uthread: nat): CallCheck {
    match Fetch(file, c)
    case NotFetched(err, next) => CallBad(err, next)
    case Fetched(ev, next) =>
      if ev.payload.Syscall? && ev.payload.nr == nr && ev.uthread == uthread then CallOk(ev.payload, next)
      else CallBad(EPROTO, next)
  }

  // The two checks as the runtime calls them.
  datatype Reader = Reader(
    expectSwitch: (Cursor, nat, nat) -> SwitchCheck,
    nextSyscall: (Cursor, int, nat) -> CallCheck)

  function FileReader(file: seq<byte>): Reader {
    Reader((c: Cursor, fromId: nat, toId: nat) => ExpectSwitch(file, c, fromId, toId),
           (c: Cursor, nr: int, uthread: nat) => NextSyscall(file, c, nr, uthread))
  }

  // Reading back a log -------------------------------------------------------

  // The cursor in front of event k.
  function At(k: nat): Cursor {
    Cursor(HEADER_SIZE + 112 * k, SeqNo(k))
  }

  // The header read back is the one written, so rr_replay_init accepts what
  // rr_record_init wrote.
  lemma {:induction false} HeaderReadBack(h: Header, evs: seq<Event>)
    requires ValidHeader(h) && AllValid(evs)
    ensures DecodeHeader(LogFile(h, evs)[..HEADER_SIZE]) == h
  {
    assert LogFile(h, evs)[..HEADER_SIZE] == EncodeHeader(h);
    HeaderRoundTrip(h);
  }

  // So every file a recorder wrote has the header a replay asks for.
  lemma {:induction false} RecordedHeaderIsAccepted(startTime: nat, pid: nat, evs: seq<Event>)
    requires startTime < U64 && pid < U32 && AllValid(evs)
    ensures var h := DecodeHeader(LogFile(RecorderHeader(startTime, pid), evs)[..HEADER_SIZE]);
            && h.magic == 0x52524C47 == LOG_MAGIC && h.version == 1 == LOG_VERSION
            && h.startTime == startTime && h.pid == pid
  {
    HeaderReadBack(RecorderHeader(startTime, pid), evs);
  }

  lemma {:induction false} RecordBytes(h: Header, evs: seq<Event>, k: nat)
    requires ValidHeader(h) && AllValid(evs) && k < |evs|
    ensures var pos := HEADER_SIZE + 112 * k;
            LogFile(h, evs)[pos..pos + EVENT_SIZE] == Encode(evs[k])
  {
    EncodedRecord(evs, k);
    var pos := HEADER_SIZE + 112 * k;
    assert LogFile(h, evs)[pos..pos + EVENT_SIZE] == EncodeAll(evs)[112 * k..112 * k + EVENT_SIZE];
  }

  lemma {:induction false} FetchRecord(h: Header, evs: seq<Event>, k: nat, expected: nat)
    requires ValidHeader(h) && AllValid(evs) && k < |evs|
    ensures Fetch(LogFile(h, evs), Cursor(HEADER_SIZE + 112 * k, expected))
         == if evs[k].seqNo == expected then Fetched(evs[k], Cursor(HEADER_SIZE + 112 * (k + 1), Wrap(expected + 1)))
            else NotFetched(EPROTO, Cursor(HEADER_SIZE + 112 * (k + 1), expected))
  {
    RecordBytes(h, evs, k);
    EventRoundTrip(evs[k]);
  }

  // Event k of a recorded log is fetched at its place; past the last one the file
  // has no data.
  lemma {:induction false} FetchLogged(h: Header, evs: seq<Event>, k: nat)
    requires ValidHeader(h) && AllValid(evs) && Numbered(evs) && k <= |evs|
    ensures Fetch(LogFile(h, evs), At(k))
         == if k < |evs| then Fetched(evs[k], At(k + 1)) else NotFetched(ENODATA, At(k))
  {
    if k < |evs| {
      FetchRecord(h, evs, k, SeqNo(k));
      SeqNoStep(k);
    }
  }

  // Every event a reader gets before its first failure, and that failure.
  function ReadBack(file: seq<byte>, c: Cursor): (seq<Event>, nat)
    decreases |file| - c.pos
  {
    match Fetch(file, c)
    case NotFetched(err, _) => ([], err)
    case Fetched(ev, next) =>
      var rest := ReadBack(file, next);
      ([ev] + rest.0, rest.1)
  }

  lemma {:induction false} ReadBackFrom(h: Header, evs: seq<Event>, k: nat)
    requires ValidHeader(h) && AllValid(evs) && Numbered(evs) && k <= |evs|
    ensures ReadBack(LogFile(h, evs), At(k)) == (evs[k..], ENODATA)
    decreases |evs| - k
  {
    FetchLogged(h, evs, k);
    if k < |evs| {
      ReadBackFrom(h, evs, k + 1);
      assert evs[k..] == [evs[k]] + evs[k + 1..];
    } else {
      assert evs[k..] == [];
    }
  }

  // Writing a log and reading it back gives the same events, then ENODATA.
  lemma {:induction false} LogRoundTrip(h: Header, evs: seq<Event>)
    requires ValidHeader(h) && AllValid(evs) && Numbered(evs)
    ensures ReadBack(LogFile(h, evs), At(0)) == (evs, ENODATA)
  {
    ReadBackFrom(h, evs, 0);
  }

  // What the checks find in front of event k of a recorded log.
  ghost predicate ReadsLog(r: Reader, evs: seq<Event>) {
    && (forall k: nat, fromId, toId {:trigger r.expectSwitch(At(k), fromId, toId)} :: k < |evs| ==>
          r.expectSwitch(At(k), fromId, toId)
          == if evs[k].payload == Switch(fromId, toId) then SwitchOk(At(k + 1)) else SwitchBad(EPROTO, At(k + 1)))
    && (forall k: nat, nr, uthread {:trigger r.nextSyscall(At(k), nr, uthread)} :: k < |evs| ==>
          r.nextSyscall(At(k), nr, uthread)
          == if evs[k].payload.Syscall? && |evs[k].payload.data| == DATA_CAP
                && evs[k].payload.nr == nr && evs[k].uthread == uthread
             then CallOk(evs[k].payload, At(k + 1)) else CallBad(EPROTO, At(k + 1)))
  }

  lemma {:induction false} FileReadsLog(h: Header, evs: seq<Event>)
    requires ValidHeader(h) && AllValid(evs) && Numbered(evs)
    ensures ReadsLog(FileReader(LogFile(h, evs)), evs)
  {
    forall k: nat | k < |evs| ensures Fetch(LogFile(h, evs), At(k)) == Fetched(evs[k], At(k + 1)) {
      FetchLogged(h, evs, k);
    }
  }

  // Lost batches -------------------------------------------------------------

  // The cursor after n fetches, failed or not.
  function After(file: seq<byte>, n: nat): Cursor {
    Iterate(NextOf(file), At(0), n)
  }

  function NextOf(file: seq<byte>): Cursor -> Cursor {
    (c: Cursor) => Fetch(file, c).next
  }

  function Iterate(step: Cursor -> Cursor, c: Cursor, n: nat): Cursor {
    if n == 0 then c else step(Iterate(step, c, n - 1))
  }

  // Step k leads from place k to place k + 1.
  predicate Leads(step: Cursor -> Cursor, place: nat -> Cursor, k: nat) {
    step(place(k)) == place(k + 1)
  }

  lemma {:induction false} Walk(step: Cursor -> Cursor, place: nat -> Cursor, c: Cursor, a: nat, b: nat)
    requires a <= b && Iterate(step, c, a) == place(a)
    requires forall k :: a <= k < b ==> Leads(step, place, k)
    ensures Iterate(step, c, b) == place(b)
  {
    if a < b {
      Walk(step, place, c, a, b - 1);
      assert Leads(step, place, b - 1);
    }
  }

  lemma {:induction false} FetchInPrefix(h: Header, kept: seq<Event>, p: nat, k: nat)
    requires ValidHeader(h) && AllValid(kept) && p <= |kept| && Numbered(kept[..p]) && k < p
    ensures Fetch(LogFile(h, kept), At(k)) == Fetched(kept[k], At(k + 1))
  {
    assert kept[k] == kept[..p][k];
    FetchRecord(h, kept, k, SeqNo(k));
    SeqNoStep(k);
  }

  // No event from position p on carries the number n.
  predicate NeverFrom(kept: seq<Event>, p: nat, n: nat) {
    forall i :: p <= i < |kept| ==> kept[i].seqNo != n
  }

  function Place(k: nat, len: nat): nat {
    if k <= len then k else len
  }

  // The cursor in front of record k while number e is awaited.
  function Awaiting(len: nat, e: nat): nat -> Cursor {
    (k: nat) => Cursor(HEADER_SIZE + 112 * Place(k, len), e)
  }

  lemma {:induction false} FetchPastLoss(h: Header, kept: seq<Event>, p: nat, k: nat, expected: nat)
    requires ValidHeader(h) && AllValid(kept) && p <= |kept| && p <= k && NeverFrom(kept, p, expected)
    ensures var file, place := LogFile(h, kept), Awaiting(|kept|, expected);
            Fetch(file, place(k)).NotFetched? && Leads(NextOf(file), place, k)
  {
    if k < |kept| {
      FetchRecord(h, kept, k, expected);
    }
  }

  // When whole batches were lost, a reader gets exactly the events before the
  // first lost one: fetch n succeeds if and only if n < p, with event n, and every
  // later fetch fails.
  lemma {:induction false} LossIsPermanent(h: Header, kept: seq<Event>, events: seq<Event>, p: nat, n: nat)
    requires ValidHeader(h) && AllValid(kept) && Numbered(events) && R.Survives(kept, events, p)
    requires p < U64 - 1
    ensures var file := LogFile(h, kept);
            && (Fetch(file, After(file, n)).Fetched? <==> n < p)
            && (n < p ==> Fetch(file, After(file, n)).ev == events[n])
  {
    if n < p {
      FetchBeforeLoss(h, kept, p, n);
      assert kept[..p][n] == events[..p][n];
    } else {
      assert SeqNo(p) == p + 1;
      FetchAfterLoss(h, kept, p, n);
    }
  }

  // The same for the file a recorder leaves when failing writes wrote nothing.
  lemma {:induction false} LostBatchEndsReplay(f: R.Fate, h: Header, file: seq<byte>, n: nat)
    requires R.FateOk(f, h, file) && f.lost.Some? && !f.torn && |f.events| < U64
    ensures Fetch(file, After(file, n)).Fetched? <==> n < f.lost.value
    ensures n < f.lost.value ==> Fetch(file, After(file, n)).ev == f.events[n]
  {
    LossIsPermanent(h, f.kept, f.events, f.lost.value, n);
  }

  // The events the file holds for certain, whatever writes failed or stopped short.
  function Certain(f: R.Fate): nat {
    if f.lost.Some? then f.lost.value else |f.kept|
  }

  lemma {:induction false} FetchInLongerFile(small: seq<byte>, file: seq<byte>, c: Cursor)
    requires small <= file && c.pos + EVENT_SIZE <= |small|
    ensures Fetch(file, c) == Fetch(small, c)
  {
    assert file[c.pos..c.pos + EVENT_SIZE] == small[c.pos..c.pos + EVENT_SIZE];
  }

  lemma {:induction false} FetchKept(h: Header, kept: seq<Event>, file: seq<byte>, p: nat, k: nat)
    requires ValidHeader(h) && AllValid(kept) && p <= |kept| && Numbered(kept[..p]) && k < p
    requires LogFile(h, kept) <= file
    ensures Fetch(file, At(k)) == Fetched(kept[k], At(k + 1))
  {
    FetchInPrefix(h, kept, p, k);
    FetchInLongerFile(LogFile(h, kept), file, At(k));
  }

  function InOrder(): nat -> Cursor {
    (k: nat) => At(k)
  }

  lemma {:induction false} AfterKept(h: Header, kept: seq<Event>, file: seq<byte>, p: nat, n: nat)
    requires ValidHeader(h) && AllValid(kept) && p <= |kept| && Numbered(kept[..p]) && n <= p
    requires LogFile(h, kept) <= file
    ensures After(file, n) == At(n)
  {
    forall k | 0 <= k < n ensures Leads(NextOf(file), InOrder(), k) {
      FetchKept(h, kept, file, p, k);
    }
    Walk(NextOf(file), InOrder(), At(0), 0, n);
  }

  // A reader gets them all, in order, even from a file with a torn batch.
  lemma {:induction false} CertainEventsAreRead(f: R.Fate, h: Header, file: seq<byte>, n: nat)
    requires R.FateOk(f, h, file) && |f.events| < U64 && n < Certain(f)
    ensures n < |f.events| && Fetch(file, After(file, n)) == Fetched(f.events[n], At(n + 1))
  {
    var p := Certain(f);
    assert f.kept[..p] == f.events[..p];
    assert f.kept[..p][n] == f.events[..p][n];
    AfterKept(h, f.kept, file, p, n);
    FetchKept(h, f.kept, file, p, n);
  }

  lemma {:induction false} FetchBeforeLoss(h: Header, kept: seq<Event>, p: nat, n: nat)
    requires ValidHeader(h) && AllValid(kept) && p <= |kept| && Numbered(kept[..p]) && n < p
    ensures var file := LogFile(h, kept);
            Fetch(file, After(file, n)).Fetched? && Fetch(file, After(file, n)).ev == kept[n]
  {
    AfterKept(h, kept, LogFile(h, kept), p, n);
    FetchInPrefix(h, kept, p, n);
  }

  lemma {:induction false} FetchAfterLoss(h: Header, kept: seq<Event>, p: nat, n: nat)
    requires ValidHeader(h) && AllValid(kept) && p <= |kept| && Numbered(kept[..p])
    requires p <= n && NeverFrom(kept, p, SeqNo(p))
    ensures var file := LogFile(h, kept); Fetch(file, After(file, n)).NotFetched?
  {
    AfterLoss(h, kept, p, n);
    FetchPastLoss(h, kept, p, n, SeqNo(p));
    assert After(LogFile(h, kept), n) == Awaiting(|kept|, SeqNo(p))(n);
  }

  lemma {:induction false} AfterLoss(h: Header, kept: seq<Event>, p: nat, n: nat)
    requires ValidHeader(h) && AllValid(kept) && p <= |kept| && Numbered(kept[..p])
    requires p <= n && NeverFrom(kept, p, SeqNo(p))
    ensures After(LogFile(h, kept), n) == Awaiting(|kept|, SeqNo(p))(n)
  {
    var file, place := LogFile(h, kept), Awaiting(|kept|, SeqNo(p));
    AfterKept(h, kept, file, p, p);
    forall k | p <= k < n ensures Leads(NextOf(file), place, k) {
      FetchPastLoss(h, kept, p, k, SeqNo(p));
    }
    Walk(NextOf(file), place, At(0), p, n);
  }

  // The reader as it runs ----------------------------------------------------

  // What read(2) does next.
  datatype ReadOutcome = Interrupted | Got(n: nat) | Failed

  predicate NoFailures(script: seq<ReadOutcome>) {
    Failed !in script
  }

  class Source {
    const bytes: seq<byte>
    var pos: nat
    var script: seq<ReadOutcome>

    ghost predicate Valid()
      reads this
    {
      pos <= |bytes|
    }

    constructor (bytes: seq<byte>, script: seq<ReadOutcome>)
      ensures Valid() && this.bytes == bytes && pos == 0 && this.script == script
    {
      this.bytes := bytes;
      pos := 0;
      this.script := script;
    }

    // read(2) into buf at offset; 0 at the end of the file.
    method Read(buf: array<byte>, offset: nat) returns (rc: int, eintr: bool)
      requires Valid() && offset < buf.Length
      modifies this, buf
      ensures Valid() && rc <= buf.Length - offset
      ensures rc <= 0 ==> pos == old(pos) && buf[..] == old(buf[..])
      ensures rc > 0 ==> pos == old(pos) + rc && !eintr
      ensures rc > 0 ==> buf[..offset + rc] == old(buf[..offset]) + bytes[old(pos)..pos]
      ensures script == if old(script) == [] then [] else old(script)[1..]
      ensures eintr ==> rc < 0 && old(script) != []
      ensures !eintr && rc <= 0 ==> old(pos) == |bytes| || Failed in old(script)
    {
      var outcome := if script == [] then Got(buf.Length) else script[0];
      script := if script == [] then [] else script[1..];
      match outcome {
        case Interrupted => return -1, true;
        case Failed => return -1, false;
        case Got(n) =>
          var want := if n == 0 then 1 else n;
          var k := Min(want, Min(buf.Length - offset, |bytes| - pos));
          forall i | 0 <= i < k {
            buf[offset + i] := bytes[pos + i];
          }
          pos := pos + k;
          return k, false;
      }
    }

    // rr_read_full: with no read error it succeeds exactly when enough bytes are
    // left, and otherwise runs to the end of the file.
    method ReadFull(buf: array<byte>) returns (ok: bool)
      requires Valid()
      modifies this, buf
      ensures Valid()
      ensures ok ==> pos == old(pos) + buf.Length && buf[..] == bytes[old(pos)..pos]
      ensures NoFailures(old(script)) ==> NoFailures(script)
      ensures NoFailures(old(script)) ==> (ok <==> |bytes| - old(pos) >= buf.Length)
      ensures NoFailures(old(script)) && !ok ==> pos == |bytes|
    {
      var done := 0;
      while done < buf.Length
        invariant 0 <= done <= buf.Length
        invariant pos == old(pos) + done <= |bytes|
        invariant buf[..done] == bytes[old(pos)..pos]
        invariant NoFailures(old(script)) ==> NoFailures(script)
        decreases |script|, buf.Length - done
      {
        ghost var before := pos;
        var rc, eintr := Read(buf, done);
        if rc < 0 {
          if eintr {
            continue;
          }
          return false;
        }
        if rc == 0 {
          return false;
        }
        assert bytes[old(pos)..before] + bytes[before..pos] == bytes[old(pos)..pos];
        done := done + rc;
      }
      assert buf[..done] == buf[..];
      ok := true;
    }
  }

  // g_replay_fd, g_replay_header_ok and g_expected_seq.
  class Replay {
    const source: Source
    var headerOk: bool
    var expected: nat

    ghost predicate Valid()
      reads this, source
    {
      source.Valid()
    }

    ghost function Position(): Cursor
      reads this, source
    {
      Cursor(source.pos, expected)
    }

    // rr_replay_init
    constructor (source: Source)
      requires source.Valid() && source.pos == 0
      modifies source
      ensures Valid() && this.source == source
      ensures headerOk ==> HEADER_SIZE <= |source.bytes| && Position() == At(0)
      ensures NoFailures(old(source.script)) ==> NoFailures(source.script)
      ensures NoFailures(old(source.script)) ==>
                (headerOk <==> && HEADER_SIZE <= |source.bytes|
                               && DecodeHeader(source.bytes[..HEADER_SIZE]).magic == LOG_MAGIC
                               && DecodeHeader(source.bytes[..HEADER_SIZE]).version == LOG_VERSION)
    {
      this.source := source;
      expected := 1;
      headerOk := false;
      new;
      var buf := new byte[HEADER_SIZE](_ => 0);
      var ok := source.ReadFull(buf);
      if ok {
        var h := DecodeHeader(buf[..]);
        assert buf[..] == source.bytes[..HEADER_SIZE];
        headerOk := h.magic == LOG_MAGIC && h.version == LOG_VERSION;
      }
    }

    // rr_replay_next_event. err is 0 on success.
    method NextEvent() returns (ev: Event, err: nat)
      requires Valid()
      modifies this`expected, source
      ensures Valid()
      ensures NoFailures(old(source.script)) ==> NoFailures(source.script)
      ensures ev.payload.Syscall? ==> |ev.payload.data| == DATA_CAP
      ensures !headerOk ==> err == EINVAL && Position() == old(Position())
      ensures headerOk ==> err == 0 || err == EPROTO || err == ENODATA
      ensures err == 0 ==> Fetch(source.bytes, old(Position())) == Fetched(ev, Position())
      ensures err == EPROTO ==> Fetch(source.bytes, old(Position())) == NotFetched(EPROTO, Position())
      ensures err == ENODATA ==> expected == old(expected)
      ensures headerOk && NoFailures(old(source.script)) ==>
                var r := Fetch(source.bytes, old(Position()));
                && Position() == r.next
                && (err == 0 <==> r.Fetched?)
                && (if r.Fetched? then ev == r.ev else err == r.err)
    {
      ev, err := Event(0, 0, Switch(0, 0)), 0;
      if !headerOk {
        err := EINVAL;
        return;
      }
      var buf := new byte[EVENT_SIZE](_ => 0);
      var ok := source.ReadFull(buf);
      if !ok {
        err := ENODATA;
        return;
      }
      ev := Decode(buf[..]);
      if ev.seqNo != expected {
        err := EPROTO;
        return;
      }
      expected := Wrap(expected + 1);
    }

    // rr_replay_expect_sched
    method ExpectSched(fromId: nat, toId: nat) returns (err: nat)
      requires Valid()
      modifies this`expected, source
      ensures Valid()
      ensures NoFailures(old(source.script)) ==> NoFailures(source.script)
      ensures !headerOk ==> err == EINVAL && Position() == old(Position())
      ensures headerOk ==> err == 0 || err == EPROTO || err == ENODATA
      ensures err == 0 ==> ExpectSwitch(source.bytes, old(Position()), fromId, toId) == SwitchOk(Position())
      ensures err == EPROTO ==>
                ExpectSwitch(source.bytes, old(Position()), fromId, toId) == SwitchBad(EPROTO, Position())
      ensures headerOk && NoFailures(old(source.script)) ==>
                var r := ExpectSwitch(source.bytes, old(Position()), fromId, toId);
                Position() == r.next && err == if r.SwitchOk? then 0 else r.err
    {
      var ev, e := NextEvent();
      if e != 0 {
        return e;
      }
      if !ev.payload.Switch? {
        return EPROTO;
      }
      if ev.payload.fromId != fromId || ev.payload.toId != toId {
        return EPROTO;
      }
      return 0;
    }

    // rr_replay_next_syscall
    method NextCall(nr: int, uthread: nat) returns (p: Payload, err: nat)
      requires Valid()
      modifies this`expected, source
      ensures Valid()
      ensures NoFailures(old(source.script)) ==> NoFailures(source.script)
      ensures err == 0 ==> p.Syscall? && |p.data| == DATA_CAP && p.dataLen <= DATA_CAP
      ensures !headerOk ==> err == EINVAL && Position() == old(Position())
      ensures headerOk ==> err == 0 || err == EPROTO || err == ENODATA
      ensures err == 0 ==>
                var r := NextSyscall(source.bytes, old(Position()), nr, uthread);
                r.CallOk? && r.next == Position() && p == r.payload.(dataLen := UsableLen(r.payload))
      ensures err == EPROTO ==> NextSyscall(source.bytes, old(Position()), nr, uthread) == CallBad(EPROTO, Position())
      ensures headerOk && NoFailures(old(source.script)) ==>
                var r := NextSyscall(source.bytes, old(Position()), nr, uthread);
                && Position() == r.next
                && (err == 0 <==> r.CallOk?)
                && (if r.CallOk? then p == r.payload.(dataLen := UsableLen(r.payload)) else err == r.err)
    {
      p := Syscall(0, 0, 0, Zeros(DATA_CAP), 0);
      if !headerOk {
        err := EINVAL;
        return;
      }
      var ev, e := NextEvent();
      if e != 0 {
        err := e;
        return;
      }
      if !ev.payload.Syscall? || ev.payload.nr != nr || ev.uthread != uthread {
        err := EPROTO;
        return;
      }
      p, err := ev.payload.(dataLen := Min(ev.payload.dataLen, DATA_CAP)), 0;
    }
  }
}
