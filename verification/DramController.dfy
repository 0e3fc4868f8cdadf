/** The controller as the simulator keeps it: queues and banks in arrays, updated in place.
    Every method is tied to its function in DramModel; the sanity checks are proved where they stand. */
module DramController {
  import opened FirstMin
  import opened DramModel
  import opened DramInvariant
  import opened DramDrain

  class PacketQueue {
    const entry: array<Packet>
    const isWq: bool
    var occupancy: int
    var nextScheduleIndex: nat
    var nextScheduleCycle: nat
    var nextProcessIndex: nat
    var nextProcessCycle: nat

    constructor (isWq: bool)
      ensures fresh(entry) && entry.Length == QUEUE_SIZE && this.isWq == isWq
      ensures Value() == EmptyQueue()
    {
      this.isWq := isWq;
      entry := new Packet[QUEUE_SIZE](_ => EMPTY_PACKET);
      occupancy := 0;
      nextScheduleIndex, nextScheduleCycle := 0, UINT64_MAX;
      nextProcessIndex, nextProcessCycle := 0, UINT64_MAX;
      new;
      assert entry[..] == EmptyQueue().entry;
    }

    ghost function Value(): Queue
      reads this, entry
    {
      Queue(entry[..], occupancy, nextScheduleIndex, nextScheduleCycle, nextProcessIndex, nextProcessCycle)
    }

    method UpdateScheduleCycle()
      modifies this
      ensures Value() == UpdateSchedule(old(Value()))
    {
      var minCycle: nat, minIndex: nat := UINT64_MAX, entry.Length;
      ghost var keys := PendingKeys(entry[..]);
      for i := 0 to entry.Length
        invariant FoundSoFar(keys, i, minIndex, minCycle)
      {
        if entry[i].address != 0 && !entry[i].scheduled && entry[i].eventCycle < minCycle {
          minCycle, minIndex := entry[i].eventCycle, i;
        }
      }
      FoundAll(keys, minIndex, minCycle);
      nextScheduleCycle, nextScheduleIndex := minCycle, minIndex;
    }

    method UpdateProcessCycle()
      modifies this
      ensures Value() == UpdateProcess(old(Value()))
    {
      var minCycle: nat, minIndex: nat := UINT64_MAX, entry.Length;
      ghost var keys := ScheduledKeys(entry[..]);
      for i := 0 to entry.Length
        invariant FoundSoFar(keys, i, minIndex, minCycle)
      {
        if entry[i].scheduled && entry[i].eventCycle < minCycle {
          minCycle, minIndex := entry[i].eventCycle, i;
        }
      }
      FoundAll(keys, minIndex, minCycle);
      nextProcessCycle, nextProcessIndex := minCycle, minIndex;
    }

    /** The slot that holds this address, or -1; address 0 looks for an empty slot. */
    method CheckDramQueue(address: nat) returns (index: int)
      ensures -1 <= index < entry.Length
      ensures var i := IndexOf(entry[..], address); if index == -1 then i == entry.Length else i == index
    {
      for i := 0 to entry.Length
        invariant forall k :: 0 <= k < i ==> entry[k].address != address
      {
        if entry[i].address == address { return i; }
      }
      index := -1;
    }
  }

  class MemoryController {
    const t: Timing
    const rq: PacketQueue
    const wq: PacketQueue
    const bank: array<Bank>
    var writeMode: bool
    var bus: nat
    var scheduledReads: int
    var scheduledWrites: int
    var responses: seq<Response>

    ghost predicate Wired() {
      && !rq.isWq && wq.isWq && rq.entry != wq.entry
      && rq.entry.Length == QUEUE_SIZE && wq.entry.Length == QUEUE_SIZE && bank.Length == BANKS
    }

    ghost function Repr(): set<object> { {this, rq, wq, rq.entry, wq.entry, bank} }

    ghost function Value(): (s: Channel)
      requires Wired()
      reads Repr()
      ensures Shaped(s)
    {
      Channel(rq.Value(), wq.Value(), bank[..], writeMode, bus, scheduledReads, scheduledWrites, responses)
    }

    constructor (t: Timing)
      ensures Wired() && fresh(Repr()) && this.t == t && Value() == Initial()
    {
      this.t := t;
      rq := new PacketQueue(false);
      wq := new PacketQueue(true);
      bank := new Bank[BANKS](_ => IDLE_BANK);
      writeMode, bus, scheduledReads, scheduledWrites, responses := false, 0, 0, 0, [];
      new;
      assert bank[..] == Initial().bank;
    }

    /** The two passes of schedule(): an open row first, otherwise any idle bank. */
    method PickRequest(queue: PacketQueue) returns (oldestIndex: int, rowBufferHit: bool)
      requires Wired() && queue in {rq, wq}
      ensures -1 <= oldestIndex < QUEUE_SIZE
      ensures var (i, hit) := Pick(queue.entry[..], bank[..]);
              (if oldestIndex == -1 then i >= QUEUE_SIZE else oldestIndex == i) && rowBufferHit == hit
    {
      ghost var n: nat := QUEUE_SIZE;
      ghost var hits := EligibleKeys(queue.entry[..], bank[..], true);
      ghost var all := EligibleKeys(queue.entry[..], bank[..], false);
      var oldestCycle: nat := UINT64_MAX;
      oldestIndex, rowBufferHit := -1, false;
      for i := 0 to queue.entry.Length
        invariant -1 <= oldestIndex < n
        invariant FoundSoFar(hits, i, if oldestIndex == -1 then n else oldestIndex, oldestCycle)
        invariant rowBufferHit == (oldestIndex != -1)
      {
        if queue.entry[i].scheduled { continue; }
        var address := queue.entry[i].address;
        if address == 0 { continue; }
        if bank[BankOf(address)].working { continue; }
        if bank[BankOf(address)].openRow != RowOf(address) { continue; }
        if queue.entry[i].eventCycle < oldestCycle {
          oldestCycle, oldestIndex, rowBufferHit := queue.entry[i].eventCycle, i, true;
        }
      }
      FoundAll(hits, if oldestIndex == -1 then n else oldestIndex, oldestCycle);

      if oldestIndex == -1 {
        oldestCycle := UINT64_MAX;
        for i := 0 to queue.entry.Length
          invariant -1 <= oldestIndex < n
          invariant FoundSoFar(all, i, if oldestIndex == -1 then n else oldestIndex, oldestCycle)
        {
          if queue.entry[i].scheduled { continue; }
          var address := queue.entry[i].address;
          if address == 0 { continue; }
          if bank[BankOf(address)].working { continue; }
          if queue.entry[i].eventCycle < oldestCycle {
            oldestCycle, oldestIndex := queue.entry[i].eventCycle, i;
          }
        }
        FoundAll(all, if oldestIndex == -1 then n else oldestIndex, oldestCycle);
      }
    }

    method Schedule(queue: PacketQueue, now: nat)
      requires Wired() && queue in {rq, wq}
      modifies this, queue, queue.entry, bank
      ensures Value() == DramModel.Schedule(t, old(Value()), queue.isWq, now)
    {
      hide Pick, PendingKeys, ScheduledKeys, Find, FirstMin.Cycle, Latency;
      var oldestIndex, rowBufferHit := PickRequest(queue);
      if oldestIndex != -1 {
        var latency := Latency(t, rowBufferHit);
        var p := queue.entry[oldestIndex];
        var b := BankOf(p.address);
        var k := bank[b].(working := true, cycleAvailable := now + latency,
                          requestIndex := oldestIndex, rowBufferHit := rowBufferHit);
        if queue.isWq {
          k := k.(isWrite := true, isRead := false);
          scheduledWrites := scheduledWrites + 1;
        } else {
          k := k.(isWrite := false, isRead := true);
          scheduledReads := scheduledReads + 1;
        }
        bank[b] := k.(openRow := RowOf(p.address));
        queue.entry[oldestIndex] := p.(scheduled := true, eventCycle := now + latency);
        assert bank[..] == old(bank[..])[b := bank[b]];
        assert queue.entry[..] == old(queue.entry[..])[oldestIndex := queue.entry[oldestIndex]];
        queue.UpdateScheduleCycle();
        queue.UpdateProcessCycle();
      }
    }

    method Process(queue: PacketQueue, now: nat)
      requires Wired() && queue in {rq, wq} && queue.isWq == writeMode
      requires Valid(t, Value()) && queue.nextProcessIndex < QUEUE_SIZE && queue.nextProcessCycle < UINT64_MAX
      modifies this, queue, queue.entry, bank
      ensures Value() == DramModel.Process(t, old(Value()), queue.isWq, now)
    {
      hide QueueOk, BanksOk, PendingKeys, ScheduledKeys, Find, FirstMin.Cycle, DramModel.Finish;
      var requestIndex := queue.nextProcessIndex;
      assert requestIndex != queue.entry.Length;
      var b := BankOf(queue.entry[requestIndex].address);
      assert bank[b].requestIndex == requestIndex by { ProcessIsSane(t, Value()); }
      if bank[b].cycleAvailable <= now {
        if bus <= now {
          Finish(queue, now);
        } else {
          bank[b] := bank[b].(cycleAvailable := bus);
          assert bank[..] == old(bank[..])[b := bank[b]];
        }
      }
    }

    method Finish(queue: PacketQueue, now: nat)
      requires Wired() && queue in {rq, wq} && queue.nextProcessIndex < QUEUE_SIZE
      modifies this, queue, queue.entry, bank
      ensures Value() == DramModel.Finish(t, old(Value()), queue.isWq, now)
    {
      hide PendingKeys, ScheduledKeys, Find, FirstMin.Cycle;
      var requestIndex := queue.nextProcessIndex;
      var p := queue.entry[requestIndex];
      var b := BankOf(p.address);
      bus := now + t.busReturn;
      if queue.isWq {
        scheduledWrites := scheduledWrites - 1;
      } else {
        responses := responses + [Response(false, p.(eventCycle := bus))];
        scheduledReads := scheduledReads - 1;
      }
      bank[b] := bank[b].(requestIndex := -1, rowBufferHit := false, working := false,
                          isWrite := false, isRead := false);
      assert bank[..] == old(bank[..])[b := bank[b]];
      queue.entry[requestIndex] := EMPTY_PACKET;
      queue.occupancy := queue.occupancy - 1;
      assert queue.entry[..] == old(queue.entry[..])[requestIndex := EMPTY_PACKET];
      queue.UpdateProcessCycle();
      assert queue.isWq ==> responses == old(responses) + [];
    }

    method ResetRemainRequests(queue: PacketQueue, now: nat)
      requires Wired() && queue in {rq, wq}
      requires Cancelling(t, Value(), queue.isWq, 0) && QueueOk(rq.Value()) && QueueOk(wq.Value())
      modifies Repr()
      ensures Value() == Reset(t, old(Value()), queue.isWq, now)
    {
      hide QueueOk, BanksOk, PendingKeys, ScheduledKeys, Find, FirstMin.Cycle, Cancel;
      ghost var before := Value();
      for i := 0 to queue.entry.Length
        invariant Value() == CancelUpTo(t, before, queue.isWq, now, i)
      {
        CancelOne(queue, now, i);
      }
      ghost var after := ResetCancelsAll(t, before, queue.isWq, now);
      rq.UpdateScheduleCycle();
      wq.UpdateScheduleCycle();
      rq.UpdateProcessCycle();
      wq.UpdateProcessCycle();
      assert queue.isWq ==> scheduledWrites == 0;
      assert !queue.isWq ==> scheduledReads == 0;
    }

    /** The body of the cancelling loop. */
    method CancelOne(queue: PacketQueue, now: nat, i: nat)
      requires Wired() && queue in {rq, wq} && i < QUEUE_SIZE
      modifies this, queue.entry, bank
      ensures Value() == Cancel(t, old(Value()), queue.isWq, now, i)
    {
      if queue.entry[i].scheduled {
        var address := queue.entry[i].address;
        var b := BankOf(address);
        var k := bank[b];
        if SubU64(k.cycleAvailable, t.tCAS) <= now {
          k := k.(openRow := RowOf(address));
        } else {
          k := k.(openRow := UINT32_MAX);
        }
        k := k.(requestIndex := -1, rowBufferHit := false, working := false, cycleAvailable := now);
        if k.isWrite {
          scheduledWrites := scheduledWrites - 1;
          k := k.(isWrite := false);
        } else if k.isRead {
          scheduledReads := scheduledReads - 1;
          k := k.(isRead := false);
        }
        bank[b] := k;
        assert bank[..] == old(bank[..])[b := k];
        queue.entry[i] := queue.entry[i].(scheduled := false, eventCycle := now);
      }
    }
  
    method Operate(now: nat)
      requires Wired() && Valid(t, Value()) && now + Longest(t) < UINT64_MAX
      modifies Repr()
      ensures Value() == DramModel.Operate(t, old(Value()), now) && Valid(t, Value())
    {
      hide QueueOk, BanksOk, PendingKeys, ScheduledKeys, Find, FirstMin.Cycle, Reset, DramModel.Schedule,
        DramModel.Process;
      ghost var s0 := Value();
      SwitchModeKeeps(t, s0, now);
      OperateKeeps(t, s0, now);
      SwitchPart(now);
      ghost var s1 := Value();
      ScheduleKeeps(t, s1, now);
      if writeMode && wq.nextScheduleIndex < QUEUE_SIZE {
        if wq.nextScheduleCycle <= now { Schedule(wq, now); }
      }
      assert writeMode ==> Value() == TrySchedule(t, s1, now);
      if writeMode && wq.nextProcessIndex < QUEUE_SIZE {
        if wq.nextProcessCycle <= now { Process(wq, now); }
      }
      assert !writeMode ==> Value() == s1;
      if !writeMode && rq.nextScheduleIndex < QUEUE_SIZE {
        if rq.nextScheduleCycle <= now { Schedule(rq, now); }
      }
      assert !writeMode ==> Value() == TrySchedule(t, s1, now);
      if !writeMode && rq.nextProcessIndex < QUEUE_SIZE {
        if rq.nextProcessCycle <= now { Process(rq, now); }
      }
    }

    /** The read/write turn-around at the head of operate(). */
    method SwitchPart(now: nat)
      requires Wired() && Valid(t, Value())
      modifies Repr()
      ensures Value() == SwitchMode(t, old(Value()), now)
    {
      hide QueueOk, PendingKeys, ScheduledKeys, Find, FirstMin.Cycle, Reset;
      if !writeMode && (wq.occupancy >= HIGH_WATERMARK || (rq.occupancy == 0 && wq.occupancy > 0)) {
        writeMode := true;
        ResetRemainRequests(rq, now);
        bus := bus + t.turnAround;
      } else if writeMode {
        if wq.occupancy == 0 {
          writeMode := false;
        } else if rq.occupancy != 0 && wq.occupancy < LOW_WATERMARK {
          writeMode := false;
        }
        if !writeMode {
          ResetRemainRequests(wq, now);
          bus := bus + t.turnAround;
        }
      }
    }
  
    /** A read arrives. The result is the merged slot, or -1. */
    method AddRq(warm: bool, p: Packet) returns (index: int)
      requires Wired() && p.address != 0
      modifies this, rq, rq.entry
      ensures (Value(), index) == DramModel.AddRq(old(Value()), warm, p)
    {
      hide PendingKeys, Find, FirstMin.Cycle, IndexOf;
      if !warm {
        ReturnData(p);
        return -1;
      }
      // the latest writeback in the write queue answers at once
      var wqIndex := wq.CheckDramQueue(p.address);
      if wqIndex != -1 {
        ReturnData(p.(data := wq.entry[wqIndex].data));
        return -1;
      }
      // duplicates in the read queue merge
      index := rq.CheckDramQueue(p.address);
      if index != -1 { return index; }
      var empty := rq.CheckDramQueue(0);
      if empty != -1 {
        rq.entry[empty] := p;
        rq.occupancy := rq.occupancy + 1;
        assert rq.entry[..] == old(rq.entry[..])[empty := p];
      }
      rq.UpdateScheduleCycle();
      return -1;
    }

    /** A write arrives. The result is the merged slot, or -1. */
    method AddWq(warm: bool, p: Packet) returns (index: int)
      requires Wired() && p.address != 0
      modifies this, wq, wq.entry
      ensures (Value(), index) == DramModel.AddWq(old(Value()), warm, p)
    {
      hide PendingKeys, Find, FirstMin.Cycle, IndexOf;
      if !warm { return -1; }
      index := wq.CheckDramQueue(p.address);
      if index != -1 { return index; }
      var empty := wq.CheckDramQueue(0);
      if empty != -1 {
        wq.entry[empty] := p;
        wq.occupancy := wq.occupancy + 1;
        assert wq.entry[..] == old(wq.entry[..])[empty := p];
      }
      wq.UpdateScheduleCycle();
      return -1;
    }

    method ReturnData(p: Packet)
      modifies this`responses
      ensures responses == old(responses) + Answer(p)
    {
      if p.instruction { responses := responses + [Response(true, p)]; }
      if p.isData { responses := responses + [Response(false, p)]; }
    }
  }
}
