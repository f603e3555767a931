// The scheduler as it lives in memory: uthread objects linked through their next
// fields into the run queue, the growable table of registered uthreads, and the
// operations that update them in place. Each operation is proved to be the
// corresponding function of module Runtime on the state the heap represents.
module HeapScheduler {
  import opened Words
  import opened Calls
  import RT = Runtime
  import Inv = RuntimeInvariants

  // uint64_t
  type Id = n: nat | n < 0x1_0000_0000_0000_0000

  class Uthread {
    const id: Id
    // Its place in the table; stands for its address in the abstract state.
    const slot: nat
    var state: RT.State
    var joinWaiter: Uthread?
    var retval: int
    var next: Uthread?
    var ioResult: int

    constructor (id: Id, slot: nat, state: RT.State)
      ensures this.id == id && this.slot == slot && this.state == state
      ensures joinWaiter == null && retval == 0 && next == null && ioResult == 0
    {
      this.id := id;
      this.slot := slot;
      this.state := state;
      joinWaiter := null;
      retval := 0;
      next := null;
      ioResult := 0;
    }
  }

  // The run queue: an intrusive singly linked list.
  class RunQueue {
    var head: Uthread?
    var tail: Uthread?
    ghost var Contents: seq<Uthread>

    ghost predicate Valid()
      reads this, Contents`next
    {
      && (forall i, j :: 0 <= i < j < |Contents| ==> Contents[i] != Contents[j])
      && (forall i, j :: 0 <= i < j < |Contents| && j == i + 1 ==> Contents[i].next == Contents[j])
      && (if Contents == [] then head == null && tail == null
          else head == Contents[0] && tail == Contents[|Contents| - 1] && tail.next == null)
    }

    constructor ()
      ensures Valid() && Contents == []
    {
      head, tail := null, null;
      Contents := [];
    }

    // runq_pop_front
    method PopFront() returns (u: Uthread?)
      requires Valid()
      modifies this, Contents`next
      ensures Valid()
      ensures old(Contents) == [] ==> u == null && Contents == []
      ensures old(Contents) != [] ==> u == old(Contents)[0] && Contents == old(Contents)[1..] && u.next == null
    {
      u := head;
      if u == null {
        return;
      }
      head := u.next;
      if head == null {
        tail := null;
      }
      u.next := null;
      Contents := Contents[1..];
    }

    // rr_scheduler_enqueue: a uthread that is queued already would cut the list.
    method Enqueue(u: Uthread)
      requires Valid() && u !in Contents
      modifies this, Contents`next, u`next
      ensures Valid() && Contents == old(Contents) + [u]
    {
      u.next := null;
      if tail == null {
        head := u;
        tail := u;
      } else {
        tail.next := u;
        tail := u;
      }
      Contents := Contents + [u];
    }
  }

  // The table of registered uthreads, doubled when it is full.
  class ThreadTable {
    var items: array<Uthread?>
    var len: nat
    ghost var Contents: seq<Uthread>

    ghost predicate Valid()
      reads this, items
    {
      && |Contents| == len <= items.Length
      && (forall i :: 0 <= i < len ==> items[i] == Contents[i])
      && (forall i :: 0 <= i < |Contents| ==> Contents[i].slot == i)
    }

    constructor ()
      ensures Valid() && Contents == [] && fresh(items)
    {
      items := new Uthread?[0];
      len, Contents := 0, [];
    }

    // rr_scheduler_find
    method Find(id: nat) returns (u: Uthread?)
      requires Valid()
      ensures u == null ==> forall i :: 0 <= i < |Contents| ==> Contents[i].id != id
      ensures u != null ==> u.slot < |Contents| && Contents[u.slot] == u && u.id == id
      ensures u != null ==> forall i :: 0 <= i < u.slot ==> Contents[i].id != id
    {
      var i := 0;
      while i < len
        invariant 0 <= i <= len
        invariant forall j :: 0 <= j < i ==> Contents[j].id != id
      {
        assert items[i] == Contents[i];
        if items[i] != null && items[i].id == id {
          return items[i];
        }
        i := i + 1;
      }
      return null;
    }

    // rr_scheduler_register_thread
    method Register(u: Uthread)
      requires Valid() && u.slot == len
      modifies this, items
      ensures Valid() && Contents == old(Contents) + [u]
      ensures items == old(items) || fresh(items)
    {
      if len == items.Length {
        var cap := if items.Length == 0 then 16 else items.Length * 2;
        var bigger := new Uthread?[cap](_ => null);
        forall i | 0 <= i < len {
          bigger[i] := items[i];
        }
        items := bigger;
      }
      items[len] := u;
      len := len + 1;
      Contents := Contents + [u];
    }
  }

  class Scheduler {
    const queue: RunQueue
    const threads: ThreadTable
    var current: Uthread
    var phase: RT.Phase
    var nextId: Id

    // What the table, the queue and the io_result fields hold, as values; the ctx
    // of a Table entry stands for the context swapcontext saved.
    ghost var Table: seq<RT.Uthread>
    ghost var Runq: seq<nat>
    ghost var Io: seq<int>

    // The state of module Runtime that this heap stands for.
    ghost function Model(): RT.Sched
      reads this
    {
      RT.Sched(Table, Runq, current.slot, phase, nextId)
    }

    ghost predicate Registered(u: Uthread)
      reads threads
    {
      u.slot < |threads.Contents| && threads.Contents[u.slot] == u
    }

    ghost predicate TableOk()
      reads this`Table, threads, threads.items
      reads threads.Contents`state, threads.Contents`retval
    {
      && threads.Valid()
      && |Table| == |threads.Contents|
      && forall i :: 0 <= i < |Table| ==>
           var u := threads.Contents[i];
           u.id == Table[i].id && u.state == Table[i].state && u.retval == Table[i].retval
    }

    ghost predicate WaitersOk()
      reads this`Table, threads, threads.Contents`joinWaiter
    {
      && |Table| == |threads.Contents|
      && forall i {:trigger threads.Contents[i].joinWaiter} :: 0 <= i < |Table| ==>
           var w := threads.Contents[i].joinWaiter;
           if w == null then Table[i].joinWaiter.None? else Registered(w) && Table[i].joinWaiter == Some(w.slot)
    }

    ghost predicate IoOk()
      reads this`Io, threads, threads.Contents`ioResult
    {
      && |Io| == |threads.Contents|
      && forall i :: 0 <= i < |Io| ==> threads.Contents[i].ioResult == Io[i]
    }

    ghost predicate QueueOk()
      reads this`Runq, threads, queue, queue.Contents`next
    {
      && queue.Valid()
      && |queue.Contents| == |Runq|
      && forall i :: 0 <= i < |Runq| ==> Registered(queue.Contents[i]) && queue.Contents[i].slot == Runq[i]
    }

    ghost predicate Valid()
      reads this, threads, threads.items, threads.Contents, queue, queue.Contents
    {
      TableOk() && WaitersOk() && IoOk() && QueueOk() && Registered(current)
    }

    // The state a heap in order stands for.
    ghost function State(): Option<RT.Sched>
      reads this, threads, threads.items, threads.Contents, queue, queue.Contents
    {
      if Valid() then Some(Model()) else None
    }

    twostate lemma Untouched()
      requires unchanged(this) && unchanged(threads) && unchanged(threads.items) && unchanged(threads.Contents)
      requires unchanged(queue) && unchanged(queue.Contents)
      ensures State() == old(State())
    {
    }

    // What each part of Valid needs to be left alone.
    twostate lemma TableKept()
      requires old(TableOk()) && unchanged(`Table) && unchanged(threads) && unchanged(threads.items)
      requires unchanged(threads.Contents`state) && unchanged(threads.Contents`retval)
      ensures TableOk()
    {
    }

    twostate lemma WaitersKept()
      requires old(WaitersOk()) && unchanged(threads) && unchanged(threads.Contents`joinWaiter)
      requires |Table| == |old(Table)|
      requires forall i :: 0 <= i < |Table| ==> Table[i].joinWaiter == old(Table)[i].joinWaiter
      ensures WaitersOk()
    {
    }

    twostate lemma IoKept()
      requires old(IoOk()) && unchanged(`Io) && unchanged(threads) && unchanged(threads.Contents`ioResult)
      ensures IoOk()
    {
    }

    twostate lemma QueueKept()
      requires old(QueueOk()) && unchanged(`Runq) && unchanged(queue) && unchanged(queue.Contents`next)
      requires old(threads.Contents) <= threads.Contents
      ensures QueueOk()
    {
    }

    // A uthread nobody waits for, with nothing delivered to it, was registered.
    twostate lemma LinksGrown(new u: Uthread)
      requires old(WaitersOk()) && old(IoOk()) && threads.Contents == old(threads.Contents) + [u]
      requires unchanged(old(threads.Contents)`joinWaiter) && unchanged(old(threads.Contents)`ioResult)
      requires u.joinWaiter == null && u.ioResult == 0 && Io == old(Io) + [0]
      requires |Table| == |old(Table)| + 1 && old(Table) <= Table && Table[|old(Table)|].joinWaiter == None
      ensures WaitersOk() && IoOk()
    {
      assert forall i :: 0 <= i < |old(Table)| ==> Table[i] == old(Table)[i];
      assert forall i :: 0 <= i < |old(Table)| ==> threads.Contents[i] == old(threads.Contents)[i];
    }

    // rr_scheduler_init and rr_uthread_init_main
    constructor ()
      ensures Valid() && Model() == RT.InitSched() && Io == [0]
      ensures fresh(queue) && fresh(threads) && fresh(threads.items) && fresh(threads.Contents)
    {
      var u := new Uthread(1, 0, RT.Running);
      var q := new RunQueue();
      var t := new ThreadTable();
      t.Register(u);
      queue, threads, current := q, t, u;
      phase, nextId := RT.User, 2;
      Table, Runq, Io := RT.InitSched().threads, [], [0];
    }

    method Enqueue(u: Uthread)
      requires Valid() && Registered(u) && u.slot !in Runq
      modifies this`Runq, queue, queue.Contents`next, u`next
      ensures Valid() && Runq == old(Runq) + [u.slot]
    {
      forall i | 0 <= i < |queue.Contents| ensures queue.Contents[i] != u {
        assert queue.Contents[i].slot == Runq[i];
      }
      queue.Enqueue(u);
      Runq := Runq + [u.slot];
      TableKept();
      WaitersKept();
      IoKept();
    }

    // A lookup in the table is the lookup in the model.
    method Find(id: nat) returns (u: Uthread?)
      requires Valid()
      ensures u == null ==> RT.Find(Table, id).None?
      ensures u != null ==> Registered(u) && u.id == id && RT.Find(Table, id) == Some(u.slot)
    {
      u := threads.Find(id);
      ghost var r := RT.Find(Table, id);
      assert forall i :: 0 <= i < |Table| ==> threads.Contents[i].id == Table[i].id;
    }

    method SetState(u: Uthread, state: RT.State, ghost ctx: RT.Context)
      requires Valid() && Registered(u)
      modifies this`Table, u`state
      ensures Valid() && Table == old(Table)[u.slot := old(Table)[u.slot].(state := state, ctx := ctx)]
    {
      u.state := state;
      Table := Table[u.slot := Table[u.slot].(state := state, ctx := ctx)];
      WaitersKept();
      IoKept();
      QueueKept();
    }

    method SetJoinWaiter(u: Uthread, w: Uthread)
      requires Valid() && Registered(u) && Registered(w)
      modifies this`Table, u`joinWaiter
      ensures Valid() && Table == old(Table)[u.slot := old(Table)[u.slot].(joinWaiter := Some(w.slot))]
    {
      u.joinWaiter := w;
      Table := Table[u.slot := Table[u.slot].(joinWaiter := Some(w.slot))];
      IoKept();
      QueueKept();
    }

    // rr_scheduler_yield_current
    method Yield()
      requires Valid() && RT.WellFormed(Model()) && current.slot !in Runq
      modifies this, queue, threads.Contents
      ensures Valid() && Model() == RT.Yield(old(Model())) && Io == old(Io)
    {
      SetState(current, RT.Runnable, RT.InYield);
      Enqueue(current);
      phase := RT.Scheduler;
    }

    // rr_scheduler_block_current
    method Block(ghost ctx: RT.Context)
      requires Valid() && RT.WellFormed(Model())
      modifies this`Table, this`phase, current`state
      ensures Valid() && Model() == RT.Block(old(Model()), ctx)
    {
      SetState(current, RT.Blocked, ctx);
      phase := RT.Scheduler;
    }

    // rr_uthread_create, allocations succeeding
    method Create() returns (id: Id)
      requires Valid() && RT.WellFormed(Model())
      modifies this, queue, threads, threads.items, queue.Contents`next
      ensures Valid() && Model() == RT.Create(old(Model())) && Io == old(Io) + [0] && id == old(nextId)
      ensures threads.items == old(threads.items) || fresh(threads.items)
    {
      id := nextId;
      AddQueued(id);
      nextId := Wrap(nextId + 1);
    }

    method AddQueued(id: Id)
      requires Valid()
      modifies this`Table, this`Io, this`Runq, threads, threads.items, queue, queue.Contents`next
      ensures Valid() && Io == old(Io) + [0] && Runq == old(Runq) + [|old(Table)|]
      ensures Table == old(Table) + [RT.Uthread(id, RT.Runnable, None, 0, RT.Fresh)]
      ensures threads.items == old(threads.items) || fresh(threads.items)
    {
      var u := AddThread(id);
      Enqueue(u);
    }

    method AddThread(id: Id) returns (u: Uthread)
      requires Valid()
      modifies this`Table, this`Io, threads, threads.items
      ensures Valid() && Registered(u) && fresh(u) && u.slot == |old(Table)| && Io == old(Io) + [0]
      ensures u.slot !in Runq
      ensures Table == old(Table) + [RT.Uthread(id, RT.Runnable, None, 0, RT.Fresh)]
      ensures threads.items == old(threads.items) || fresh(threads.items)
    {
      assert forall i :: 0 <= i < |Runq| ==> queue.Contents[i].slot == Runq[i] < |Table|;
      u := new Uthread(id, threads.len, RT.Runnable);
      Register(u);
    }

    method Register(u: Uthread)
      requires Valid() && u.slot == threads.len && u.joinWaiter == null && u.retval == 0 && u.ioResult == 0
      modifies this`Table, this`Io, threads, threads.items
      ensures Valid() && Registered(u) && Io == old(Io) + [0]
      ensures Table == old(Table) + [RT.Uthread(u.id, u.state, None, 0, RT.Fresh)]
      ensures threads.items == old(threads.items) || fresh(threads.items)
    {
      threads.Register(u);
      Table := Table + [RT.Uthread(u.id, u.state, None, 0, RT.Fresh)];
      Io := Io + [0];
      LinksGrown(u);
      QueueKept();
    }

    // rr_uthread_join up to its return or to the switch into the scheduler
    method Join(id: nat) returns (d: RT.JoinDecision)
      requires Valid() && RT.WellFormed(Model())
      modifies this`Table, this`phase, threads.Contents`state, threads.Contents`joinWaiter
      ensures Valid() && d == RT.DecideJoin(old(Model()), id) && Model() == RT.Join(old(Model()), id)
    {
      var target := Find(id);
      if target == null {
        return RT.JoinFails(ESRCH);
      }
      assert target == threads.Contents[target.slot] && current == threads.Contents[current.slot];
      if target.id == current.id {
        return RT.JoinFails(EDEADLK);
      }
      if target.state == RT.Done {
        return RT.JoinNow(target.retval);
      }
      if target.joinWaiter != null && target.joinWaiter != current {
        return RT.JoinFails(EBUSY);
      }
      Await(target);
      return RT.JoinWaits(target.slot);
    }

    method Await(target: Uthread)
      requires Valid() && RT.WellFormed(Model()) && Registered(target)
      modifies this`Table, this`phase, current`state, target`joinWaiter
      ensures Valid() && Model() == Inv.Await(old(Model()), target.slot)
    {
      SetJoinWaiter(target, current);
      Block(RT.InJoin(target.slot));
    }

    // rr_scheduler_exit_current
    method Exit(retval: int)
      requires Valid() && RT.WellFormed(Model()) && Inv.QueueOk(Model())
      modifies this`Table, this`Runq, this`phase, queue, queue.Contents`next
      modifies threads.Contents`state, threads.Contents`retval, threads.Contents`next
      ensures Valid() && Model() == RT.Exit(old(Model()), retval)
    {
      Finish(retval);
      var w := current.joinWaiter;
      assert current == threads.Contents[current.slot];
      if w != null && w.state == RT.Blocked {
        assert w == threads.Contents[w.slot];
        WakeThread(w);
      }
    }

    method Finish(retval: int)
      requires Valid() && RT.WellFormed(Model())
      modifies this`Table, this`phase, current`state, current`retval
      ensures Valid() && phase == RT.Scheduler
      ensures Table == old(Table)[current.slot :=
                old(Table)[current.slot].(retval := retval, state := RT.Done, ctx := RT.Finished)]
    {
      assert current == threads.Contents[current.slot];
      current.retval := retval;
      current.state := RT.Done;
      phase := RT.Scheduler;
      Table := Table[current.slot := Table[current.slot].(retval := retval, state := RT.Done, ctx := RT.Finished)];
      WaitersKept();
      IoKept();
      QueueKept();
    }

    method WakeThread(w: Uthread)
      requires Valid() && Registered(w) && w.slot !in Runq
      modifies this`Table, this`Runq, w`state, w`next, queue, queue.Contents`next
      ensures Valid() && Runq == old(Runq) + [w.slot]
      ensures Table == old(Table)[w.slot := old(Table)[w.slot].(state := RT.Runnable)]
    {
      SetState(w, RT.Runnable, Table[w.slot].ctx);
      Enqueue(w);
    }

    // rr_scheduler_wake_by_id, as rr_io_wait calls it (no data)
    method WakeById(id: nat, ioResult: int)
      requires Valid() && Inv.QueueOk(Model())
      modifies this`Table, this`Runq, this`Io, queue, queue.Contents`next
      modifies threads.Contents`state, threads.Contents`ioResult, threads.Contents`next
      ensures Valid() && Model() == RT.Wake(old(Model()), id)
      ensures var w := RT.Find(old(Table), id);
              Io == if w.Some? && old(Table)[w.value].state == RT.Blocked
                    then old(Io)[w.value := ioResult] else old(Io)
    {
      var u := Find(id);
      if u == null {
        return;
      }
      assert u == threads.Contents[u.slot];
      if u.state != RT.Blocked {
        return;
      }
      Deliver(u, ioResult);
    }

    method Deliver(u: Uthread, ioResult: int)
      requires Valid() && Registered(u) && u.slot !in Runq
      modifies this`Table, this`Runq, this`Io, u`state, u`ioResult, u`next, queue, queue.Contents`next
      ensures Valid() && Runq == old(Runq) + [u.slot] && Io == old(Io)[u.slot := ioResult]
      ensures Table == old(Table)[u.slot := old(Table)[u.slot].(state := RT.Runnable)]
    {
      SetIoResult(u, ioResult);
      WakeThread(u);
    }

    method SetIoResult(u: Uthread, ioResult: int)
      requires Valid() && Registered(u)
      modifies this`Io, u`ioResult
      ensures Valid() && Io == old(Io)[u.slot := ioResult]
    {
      u.ioResult := ioResult;
      Io := Io[u.slot := ioResult];
      TableKept();
      WaitersKept();
      QueueKept();
    }

    // The queue part of one turn of scheduler_loop.
    method Pop() returns (u: Uthread?)
      requires Valid()
      modifies this`Runq, queue, queue.Contents`next
      ensures Valid()
      ensures old(Runq) == [] ==> u == null && Runq == []
      ensures old(Runq) != [] ==> u != null && Registered(u) && u.slot == old(Runq[0]) && Runq == old(Runq[1..])
    {
      u := queue.PopFront();
      if u != null {
        Runq := Runq[1..];
      }
      TableKept();
      WaitersKept();
      IoKept();
    }

    // The front of the queue if it may run; otherwise null, the entry being dropped.
    method Choose() returns (next: Uthread?)
      requires Valid()
      modifies this`Runq, queue, queue.Contents`next
      ensures Valid() && Runq == if old(Runq) == [] then [] else old(Runq)[1..]
      ensures old(Runq) != [] ==> old(Runq[0]) < |Table|
      ensures next != null <==> old(Runq) != [] && old(Table[Runq[0]]).state == RT.Runnable
      ensures next != null ==> Registered(next) && next.slot == old(Runq[0]) && next.id == Table[next.slot].id
    {
      next := Pop();
      if next != null {
        assert next == threads.Contents[next.slot];
        if next.state != RT.Runnable {
          next := null;
        }
      }
    }

    // g_current and its state before swapcontext
    method SwitchTo(next: Uthread)
      requires Valid() && Registered(next)
      modifies this`Table, this`current, this`phase, next`state
      ensures Valid() && current == next && phase == RT.User
      ensures Table == old(Table)[next.slot := old(Table)[next.slot].(state := RT.Running, ctx := RT.Active)]
    {
      current := next;
      next.state := RT.Running;
      phase := RT.User;
      Table := Table[next.slot := Table[next.slot].(state := RT.Running, ctx := RT.Active)];
      WaitersKept();
      IoKept();
      QueueKept();
    }

    // One turn of scheduler_loop, with the ids of a switch.
    method Turn() returns (ran: bool, fromId: Id, toId: Id)
      requires State().Some?
      modifies this, queue, queue.Contents`next, threads.Contents`state
      ensures Io == old(Io) && RT.WellFormed(old(Model()))
      ensures State() == Some(if old(Runq) == [] then old(Model()) else RT.Dispatch(old(Model())))
      ensures ran <==> old(Runq) != [] && old(Runq[0]) < |old(Table)| && old(Table[Runq[0]]).state == RT.Runnable
      ensures ran ==> fromId == RT.CurrentId(old(Model())) && toId == old(Table[Runq[0]]).id
    {
      fromId, toId := current.id, 0;
      assert current == threads.Contents[current.slot];
      var next := Choose();
      ran := next != null;
      if ran {
        toId := next.id;
        SwitchTo(next);
      }
    }
  }
}
