/** What every run of the DRAM channel keeps. */
module DramInvariant {
  import opened FirstMin
  import opened DramModel

  predicate Distinct(e: seq<Packet>) {
    forall i, j :: 0 <= i < j < |e| && IsLive(e[i]) ==> e[i].address != e[j].address
  }

  /** The cached "next" pair agrees with a fresh scan; while no candidate exists only the cycle is meaningful. */
  predicate Cached(keys: seq<nat>, index: nat, cycle: nat) {
    cycle == Cycle(keys) && (cycle < UINT64_MAX ==> index == Find(keys))
  }

  predicate QueueOk(q: Queue) {
    && |q.entry| == QUEUE_SIZE
    && q.occupancy == Count(q.entry, IsLive)
    && Distinct(q.entry)
    && (forall i :: 0 <= i < QUEUE_SIZE && q.entry[i].scheduled ==> IsLive(q.entry[i]))
    && (forall i :: 0 <= i < QUEUE_SIZE && q.entry[i].scheduled ==> q.entry[i].eventCycle < UINT64_MAX)
    && Cached(PendingKeys(q.entry), q.nextScheduleIndex, q.nextScheduleCycle)
    && Cached(ScheduledKeys(q.entry), q.nextProcessIndex, q.nextProcessCycle)
  }

  predicate NoneScheduled(e: seq<Packet>) {
    forall i :: 0 <= i < |e| ==> !e[i].scheduled
  }

  /** Bank b serves exactly the slot it points at. */
  predicate BankOk(t: Timing, e: seq<Packet>, k: Bank, write: bool, bus: nat, b: nat)
    requires |e| == QUEUE_SIZE
  {
    if k.working then
      && 0 <= k.requestIndex < QUEUE_SIZE
      && e[k.requestIndex].scheduled
      && BankOf(e[k.requestIndex].address) == b
      && k.isWrite == write && k.isRead == !write
      && t.tCAS <= k.cycleAvailable
      && (k.cycleAvailable <= e[k.requestIndex].eventCycle || k.cycleAvailable <= bus)
    else
      k.requestIndex == -1 && !k.isWrite && !k.isRead
  }

  /** A scheduled slot owns the bank its address decodes to. */
  predicate OwnsBank(e: seq<Packet>, bank: seq<Bank>, i: nat)
    requires |e| == QUEUE_SIZE && |bank| == BANKS && i < QUEUE_SIZE
  {
    var k := bank[BankOf(e[i].address)];
    e[i].scheduled ==> k.working && k.requestIndex == i
  }

  predicate BanksOk(t: Timing, e: seq<Packet>, bank: seq<Bank>, write: bool, bus: nat)
    requires |e| == QUEUE_SIZE && |bank| == BANKS
  {
    && (forall b :: 0 <= b < BANKS ==> BankOk(t, e, bank[b], write, bus, b))
    && (forall i :: 0 <= i < QUEUE_SIZE ==> OwnsBank(e, bank, i))
  }

  predicate Valid(t: Timing, s: Channel) {
    && Shaped(s)
    && QueueOk(s.rq) && QueueOk(s.wq)
    && NoneScheduled(Q(s, !s.writeMode).entry)
    && BanksOk(t, Q(s, s.writeMode).entry, s.bank, s.writeMode, s.bus)
    && s.scheduledReads == Count(s.rq.entry, IsScheduled)
    && s.scheduledWrites == Count(s.wq.entry, IsScheduled)
  }

  // ---------- counting ----------

  lemma {:induction false} CountUpdate(e: seq<Packet>, f: Packet -> bool, i: nat, p: Packet)
    requires i < |e|
    ensures Count(e[i := p], f) == Count(e, f) - (if f(e[i]) then 1 else 0) + (if f(p) then 1 else 0)
  {
    var n := |e| - 1;
    if i == n {
      assert e[i := p][..n] == e[..n];
    } else {
      CountUpdate(e[..n], f, i, p);
      assert e[i := p][..n] == e[..n][i := p];
    }
  }

  lemma {:induction false} CountZero(e: seq<Packet>, f: Packet -> bool)
    ensures Count(e, f) == 0 <==> forall i :: 0 <= i < |e| ==> !f(e[i])
  {
    if e != [] {
      CountZero(e[..|e| - 1], f);
      assert forall i :: 0 <= i < |e| - 1 ==> e[i] == e[..|e| - 1][i];
    }
  }

  // ---------- the initial state ----------

  lemma InitialIsValid(t: Timing)
    ensures Valid(t, Initial())
  {
    var q := EmptyQueue();
    CountZero(q.entry, IsLive);
    CountZero(q.entry, IsScheduled);
    Unique(PendingKeys(q.entry), QUEUE_SIZE);
    Unique(ScheduledKeys(q.entry), QUEUE_SIZE);
  }

  // ---------- arrivals ----------

  lemma StoreKeeps(q: Queue, p: Packet)
    requires QueueOk(q) && IsLive(p) && !p.scheduled
    requires forall i :: 0 <= i < QUEUE_SIZE ==> q.entry[i].address != p.address
    ensures QueueOk(Store(q, p))
    ensures Count(Store(q, p).entry, IsScheduled) == Count(q.entry, IsScheduled)
    ensures forall i :: 0 <= i < QUEUE_SIZE && q.entry[i].scheduled ==> Store(q, p).entry[i] == q.entry[i]
    ensures forall i :: 0 <= i < QUEUE_SIZE && Store(q, p).entry[i].scheduled ==> Store(q, p).entry[i] == q.entry[i]
  {
    var i := IndexOf(q.entry, 0);
    if i < QUEUE_SIZE {
      CountUpdate(q.entry, IsLive, i, p);
      CountUpdate(q.entry, IsScheduled, i, p);
      assert ScheduledKeys(q.entry[i := p]) == ScheduledKeys(q.entry);
    }
  }

  /** Banks only look at scheduled slots, so a change elsewhere keeps them in order. */
  lemma SameBanks(t: Timing, e: seq<Packet>, e': seq<Packet>, bank: seq<Bank>, write: bool, bus: nat)
    requires |e| == |e'| == QUEUE_SIZE && |bank| == BANKS
    requires BanksOk(t, e, bank, write, bus)
    requires forall i :: 0 <= i < QUEUE_SIZE && (e[i].scheduled || e'[i].scheduled) ==> e'[i] == e[i]
    ensures BanksOk(t, e', bank, write, bus)
  {
    forall i | 0 <= i < QUEUE_SIZE ensures OwnsBank(e', bank, i) { assert OwnsBank(e, bank, i); }
    forall b | 0 <= b < BANKS
      ensures BankOk(t, e', bank[b], write, bus, b)
    {
      assert BankOk(t, e, bank[b], write, bus, b);
    }
  }

  lemma AddRqKeeps(t: Timing, s: Channel, warm: bool, p: Packet)
    requires Valid(t, s) && IsLive(p) && !p.scheduled
    ensures Valid(t, AddRq(s, warm, p).0)
  {
    if warm && IndexOf(s.wq.entry, p.address) == QUEUE_SIZE && IndexOf(s.rq.entry, p.address) == QUEUE_SIZE {
      StoreKeeps(s.rq, p);
      if !s.writeMode { SameBanks(t, s.rq.entry, Store(s.rq, p).entry, s.bank, s.writeMode, s.bus); }
    }
  }

  lemma AddWqKeeps(t: Timing, s: Channel, warm: bool, p: Packet)
    requires Valid(t, s) && IsLive(p) && !p.scheduled
    ensures Valid(t, AddWq(s, warm, p).0)
  {
    if warm && IndexOf(s.wq.entry, p.address) == QUEUE_SIZE {
      StoreKeeps(s.wq, p);
      if s.writeMode { SameBanks(t, s.wq.entry, Store(s.wq, p).entry, s.bank, s.writeMode, s.bus); }
    }
  }

  // ---------- scheduling ----------

  lemma SlotUpdateKeeps(q: Queue, i: nat, p: Packet)
    requires QueueOk(q) && i < QUEUE_SIZE
    requires p.address == q.entry[i].address || !IsLive(p)
    requires p.scheduled ==> IsLive(p) && p.eventCycle < UINT64_MAX
    ensures var e := q.entry[i := p];
            && Distinct(e)
            && Count(e, IsLive) == q.occupancy - (if IsLive(q.entry[i]) && !IsLive(p) then 1 else 0)
            && Count(e, IsScheduled) == Count(q.entry, IsScheduled)
                 - (if q.entry[i].scheduled then 1 else 0) + (if p.scheduled then 1 else 0)
            && (forall j :: 0 <= j < QUEUE_SIZE && e[j].scheduled ==> IsLive(e[j]) && e[j].eventCycle < UINT64_MAX)
  {
    CountUpdate(q.entry, IsLive, i, p);
    CountUpdate(q.entry, IsScheduled, i, p);
  }

  lemma BanksAfterSchedule(t: Timing, e: seq<Packet>, bank: seq<Bank>, write: bool, bus: nat, i: nat, done: nat,
                           hit: bool)
    requires |e| == QUEUE_SIZE && |bank| == BANKS && BanksOk(t, e, bank, write, bus)
    requires i < QUEUE_SIZE && Eligible(e[i], bank, false) && done >= t.tCAS
    ensures BanksOk(t, e[i := e[i].(scheduled := true, eventCycle := done)],
                    bank[BankOf(e[i].address) := Bank(true, done, i, hit, write, !write, RowOf(e[i].address))],
                    write, bus)
  {
    var e' := e[i := e[i].(scheduled := true, eventCycle := done)];
    var bank' := bank[BankOf(e[i].address) := Bank(true, done, i, hit, write, !write, RowOf(e[i].address))];
    forall c | 0 <= c < BANKS
      ensures BankOk(t, e', bank'[c], write, bus, c)
    {
      assert BankOk(t, e, bank[c], write, bus, c);
    }
    forall j | 0 <= j < QUEUE_SIZE ensures OwnsBank(e', bank', j) { assert OwnsBank(e, bank, j); }
  }

  /** First ready, first come first served: a row hit when there is one, then the oldest, then the lowest slot. */
  lemma PickIsFrFcfs(e: seq<Packet>, bank: seq<Bank>)
    requires |bank| == BANKS
    ensures var (i, hit) := Pick(e, bank);
            && (i < |e| ==> Eligible(e[i], bank, hit) && e[i].eventCycle < UINT64_MAX)
            && (i < |e| ==> forall j :: 0 <= j < |e| && Eligible(e[j], bank, hit) ==>
                  e[i].eventCycle <= e[j].eventCycle && (j < i ==> e[i].eventCycle < e[j].eventCycle))
            && (i >= |e| || !hit ==>
                  forall j :: 0 <= j < |e| && Eligible(e[j], bank, true) ==> e[j].eventCycle >= UINT64_MAX)
            && (i >= |e| ==>
                  forall j :: 0 <= j < |e| && Eligible(e[j], bank, false) ==> e[j].eventCycle >= UINT64_MAX)
  {
    var hits := EligibleKeys(e, bank, true);
    var all := EligibleKeys(e, bank, false);
    FindIsFirstMin(hits);
    FindIsFirstMin(all);
    var (i, hit) := Pick(e, bank);
    forall j | 0 <= j < |e| && Eligible(e[j], bank, hit)
      ensures if i < |e| then e[i].eventCycle <= e[j].eventCycle && (j < i ==> e[i].eventCycle < e[j].eventCycle)
              else e[j].eventCycle >= UINT64_MAX
    {
      assert EligibleKeys(e, bank, hit)[j] == e[j].eventCycle;
    }
    if i >= |e| || !hit {
      forall j | 0 <= j < |e| && Eligible(e[j], bank, true) ensures e[j].eventCycle >= UINT64_MAX {
        assert hits[j] == e[j].eventCycle;
      }
    }
  }

  lemma PickIsEligible(e: seq<Packet>, bank: seq<Bank>)
    requires |bank| == BANKS
    ensures Pick(e, bank).0 < |e| ==> Eligible(e[Pick(e, bank).0], bank, false)
  {
    PickIsFrFcfs(e, bank);
  }

  lemma RescanKeeps(q: Queue, i: nat, p: Packet)
    requires QueueOk(q) && i < QUEUE_SIZE && IsLive(q.entry[i]) && !q.entry[i].scheduled
    requires p.address == q.entry[i].address && p.scheduled && p.eventCycle < UINT64_MAX
    ensures QueueOk(UpdateProcess(UpdateSchedule(q.(entry := q.entry[i := p]))))
    ensures Count(q.entry[i := p], IsScheduled) == Count(q.entry, IsScheduled) + 1
  {
    SlotUpdateKeeps(q, i, p);
  }

  /** r is s after slot i of the queue whose turn it is was given its bank until cycle done. */
  predicate Scheduled(s: Channel, r: Channel, i: nat, hit: bool, done: nat)
    requires Shaped(s) && i < QUEUE_SIZE
  {
    var w := s.writeMode;
    var q := Q(s, w);
    var p := q.entry[i];
    && Q(r, w) == UpdateProcess(UpdateSchedule(q.(entry := q.entry[i := p.(scheduled := true, eventCycle := done)])))
    && Q(r, !w) == Q(s, !w)
    && r.bank == s.bank[BankOf(p.address) := Bank(true, done, i, hit, w, !w, RowOf(p.address))]
    && r.writeMode == w && r.bus == s.bus && r.responses == s.responses
    && r.scheduledReads == s.scheduledReads + (if w then 0 else 1)
    && r.scheduledWrites == s.scheduledWrites + (if w then 1 else 0)
  }

  lemma ScheduleShape(t: Timing, s: Channel, now: nat) returns (r: Channel, i: nat, hit: bool, done: nat)
    requires Shaped(s)
    ensures r == Schedule(t, s, s.writeMode, now)
    ensures (i, hit) == Pick(Q(s, s.writeMode).entry, s.bank) && done == now + Latency(t, hit)
    ensures if i >= QUEUE_SIZE then r == s else Scheduled(s, r, i, hit, done)
    ensures i < QUEUE_SIZE ==> Eligible(Q(s, s.writeMode).entry[i], s.bank, false)
  {
    hide PendingKeys, ScheduledKeys, EligibleKeys, Find, FirstMin.Cycle, Pick;
    i, hit := Pick(Q(s, s.writeMode).entry, s.bank).0, Pick(Q(s, s.writeMode).entry, s.bank).1;
    done := now + Latency(t, hit);
    r := Schedule(t, s, s.writeMode, now);
    PickIsEligible(Q(s, s.writeMode).entry, s.bank);
  }

  lemma ScheduledKeeps(t: Timing, s: Channel, r: Channel, i: nat, hit: bool, done: nat)
    requires Valid(t, s) && i < QUEUE_SIZE && Eligible(Q(s, s.writeMode).entry[i], s.bank, false)
    requires t.tCAS <= done < UINT64_MAX
    requires Scheduled(s, r, i, hit, done)
    ensures Valid(t, r)
  {
    var q := Q(s, s.writeMode);
    RescanKeeps(q, i, q.entry[i].(scheduled := true, eventCycle := done));
    BanksAfterSchedule(t, q.entry, s.bank, s.writeMode, s.bus, i, done, hit);
  }

  lemma ScheduleKeeps(t: Timing, s: Channel, now: nat)
    requires Valid(t, s)
    requires now + t.tRP + t.tRCD + t.tCAS < UINT64_MAX
    ensures Valid(t, Schedule(t, s, s.writeMode, now))
  {
    var r, i, hit, done := ScheduleShape(t, s, now);
    if i < QUEUE_SIZE { ScheduledKeeps(t, s, r, i, hit, done); }
  }

  /** The slot that process() looks at is scheduled, and its bank points back at it:
      the sanity checks at the head of process() hold. */
  lemma ProcessIsSane(t: Timing, s: Channel)
    requires Valid(t, s)
    requires Q(s, s.writeMode).nextProcessCycle < UINT64_MAX
    ensures var q := Q(s, s.writeMode);
            && q.nextProcessIndex < QUEUE_SIZE
            && q.entry[q.nextProcessIndex].scheduled
            && s.bank[BankOf(q.entry[q.nextProcessIndex].address)].working
            && s.bank[BankOf(q.entry[q.nextProcessIndex].address)].requestIndex == q.nextProcessIndex
  {
    var q := Q(s, s.writeMode);
    FindIsFirstMin(ScheduledKeys(q.entry));
    assert OwnsBank(q.entry, s.bank, q.nextProcessIndex);
  }

  lemma BanksAfterBusWait(t: Timing, e: seq<Packet>, bank: seq<Bank>, write: bool, bus: nat, b: nat)
    requires |e| == QUEUE_SIZE && |bank| == BANKS && BanksOk(t, e, bank, write, bus)
    requires b < BANKS && bank[b].cycleAvailable <= bus
    ensures BanksOk(t, e, bank[b := bank[b].(cycleAvailable := bus)], write, bus)
  {
    var bank' := bank[b := bank[b].(cycleAvailable := bus)];
    forall c | 0 <= c < BANKS
      ensures BankOk(t, e, bank'[c], write, bus, c)
    {
      assert BankOk(t, e, bank[c], write, bus, c);
    }
    forall j | 0 <= j < QUEUE_SIZE ensures OwnsBank(e, bank', j) { assert OwnsBank(e, bank, j); }
  }

  lemma BanksAfterService(t: Timing, e: seq<Packet>, bank: seq<Bank>, write: bool, bus: nat, i: nat, bus': nat)
    requires |e| == QUEUE_SIZE && |bank| == BANKS && BanksOk(t, e, bank, write, bus)
    requires i < QUEUE_SIZE && e[i].scheduled && bus' >= bus
    ensures var b := BankOf(e[i].address);
            BanksOk(t, e[i := EMPTY_PACKET],
                    bank[b := bank[b].(working := false, requestIndex := -1, rowBufferHit := false,
                                       isWrite := false, isRead := false)], write, bus')
  {
    var b := BankOf(e[i].address);
    var e' := e[i := EMPTY_PACKET];
    var bank' := bank[b := bank[b].(working := false, requestIndex := -1, rowBufferHit := false,
                                    isWrite := false, isRead := false)];
    assert OwnsBank(e, bank, i);
    forall c | 0 <= c < BANKS ensures BankOk(t, e', bank'[c], write, bus', c) {
      assert BankOk(t, e, bank[c], write, bus, c);
    }
    forall j | 0 <= j < QUEUE_SIZE ensures OwnsBank(e', bank', j) { assert OwnsBank(e, bank, j); }
  }

  lemma ProcessKeeps(t: Timing, s: Channel, now: nat)
    requires Valid(t, s)
    requires Q(s, s.writeMode).nextProcessCycle < UINT64_MAX
    requires Q(s, s.writeMode).nextProcessIndex < QUEUE_SIZE
    ensures Valid(t, Process(t, s, s.writeMode, now))
  {
    ProcessIsSane(t, s);
    var q := Q(s, s.writeMode);
    var i := q.nextProcessIndex;
    var b := BankOf(q.entry[i].address);
    if s.bank[b].cycleAvailable > now {
    } else if s.bus > now {
      hide Finish, QueueOk;
      BanksAfterBusWait(t, q.entry, s.bank, s.writeMode, s.bus, b);
    } else if s.bus <= now {
      hide Valid, QueueOk;
      FinishKeeps(t, s, now);
    }
  }

  lemma FinishKeeps(t: Timing, s: Channel, now: nat)
    requires Valid(t, s) && s.bus <= now
    requires Q(s, s.writeMode).nextProcessCycle < UINT64_MAX
    requires Q(s, s.writeMode).nextProcessIndex < QUEUE_SIZE
    ensures Valid(t, Finish(t, s, s.writeMode, now))
  {
    hide BanksOk, QueueOk, Count, Finished, UpdateProcess;
    ProcessIsSane(t, s);
    var q := Q(s, s.writeMode);
    FinishedKeeps(q, q.nextProcessIndex);
    BanksAfterService(t, q.entry, s.bank, s.writeMode, s.bus, q.nextProcessIndex, now + t.busReturn);
    FinishShape(t, s, now);
  }

  function Finished(q: Queue, i: nat): Queue
    requires i < |q.entry|
  {
    UpdateProcess(q.(entry := q.entry[i := EMPTY_PACKET], occupancy := q.occupancy - 1))
  }

  lemma FinishShape(t: Timing, s: Channel, now: nat)
    requires Shaped(s) && Q(s, s.writeMode).nextProcessIndex < QUEUE_SIZE
    ensures var r, w := Finish(t, s, s.writeMode, now), s.writeMode;
            && Q(r, w) == Finished(Q(s, w), Q(s, w).nextProcessIndex) && Q(r, !w) == Q(s, !w)
            && r.writeMode == w && r.bus == now + t.busReturn
            && r.scheduledReads == s.scheduledReads - (if w then 0 else 1)
            && r.scheduledWrites == s.scheduledWrites - (if w then 1 else 0)
  {
    hide PendingKeys, ScheduledKeys;
  }

  lemma FinishedKeeps(q: Queue, i: nat)
    requires QueueOk(q) && i < QUEUE_SIZE && q.entry[i].scheduled
    ensures QueueOk(Finished(q, i)) && Finished(q, i).entry == q.entry[i := EMPTY_PACKET]
    ensures Count(Finished(q, i).entry, IsScheduled) == Count(q.entry, IsScheduled) - 1
  {
    SlotUpdateKeeps(q, i, EMPTY_PACKET);
    assert PendingKeys(q.entry[i := EMPTY_PACKET]) == PendingKeys(q.entry);
  }

  // ---------- mode switches ----------

  /** While the cancelling loop has passed slots 0..n-1, the rest of the state is still in order. */
  predicate Cancelling(t: Timing, s: Channel, write: bool, n: nat) {
    && Shaped(s) && n <= QUEUE_SIZE
    && var e := Q(s, write).entry;
    && (forall i :: 0 <= i < n ==> !e[i].scheduled)
    && BanksOk(t, e, s.bank, write, s.bus)
    && (if write then s.scheduledWrites else s.scheduledReads) == Count(e, IsScheduled)
  }

  lemma CancelKeeps(t: Timing, s: Channel, write: bool, now: nat, i: nat)
    requires i < QUEUE_SIZE && Cancelling(t, s, write, i)
    ensures var r := Cancel(t, s, write, now, i);
            && Cancelling(t, r, write, i + 1)
            && Q(r, !write) == Q(s, !write)
            && r == s.(rq := r.rq, wq := r.wq, bank := r.bank,
                       scheduledReads := if write then s.scheduledReads else r.scheduledReads,
                       scheduledWrites := if write then r.scheduledWrites else s.scheduledWrites)
            && Q(r, write) == Q(s, write).(entry := Q(r, write).entry)
            && Q(r, write).entry == (var e := Q(s, write).entry;
                 if e[i].scheduled then e[i := e[i].(scheduled := false, eventCycle := now)] else e)
  {
    var e := Q(s, write).entry;
    var r := Cancel(t, s, write, now, i);
    if e[i].scheduled {
      var e' := Q(r, write).entry;
      CountUpdate(e, IsScheduled, i, e[i].(scheduled := false, eventCycle := now));
      assert OwnsBank(e, s.bank, i);
      assert BankOk(t, e, s.bank[BankOf(e[i].address)], write, s.bus, BankOf(e[i].address));
      forall c | 0 <= c < BANKS ensures BankOk(t, e', r.bank[c], write, s.bus, c) {
        assert BankOk(t, e, s.bank[c], write, s.bus, c);
      }
      forall j | 0 <= j < QUEUE_SIZE ensures OwnsBank(e', r.bank, j) { assert OwnsBank(e, s.bank, j); }
    }
  }

  lemma {:induction false} CancelUpToKeeps(t: Timing, s: Channel, write: bool, now: nat, n: nat)
    requires n <= QUEUE_SIZE && Cancelling(t, s, write, 0)
    ensures var r := CancelUpTo(t, s, write, now, n);
            && Cancelling(t, r, write, n)
            && Q(r, !write) == Q(s, !write)
            && r == s.(rq := r.rq, wq := r.wq, bank := r.bank,
                       scheduledReads := if write then s.scheduledReads else r.scheduledReads,
                       scheduledWrites := if write then r.scheduledWrites else s.scheduledWrites)
            && Q(r, write) == Q(s, write).(entry := Q(r, write).entry)
            && (forall i :: 0 <= i < QUEUE_SIZE ==>
                  Q(r, write).entry[i] == if i < n && Q(s, write).entry[i].scheduled
                                          then Q(s, write).entry[i].(scheduled := false, eventCycle := now)
                                          else Q(s, write).entry[i])
  {
    hide Cancel, BanksOk;
    if n > 0 {
      CancelUpToKeeps(t, s, write, now, n - 1);
      CancelKeeps(t, CancelUpTo(t, s, write, now, n - 1), write, now, n - 1);
    }
  }

  lemma {:induction false} CountSame(e: seq<Packet>, e': seq<Packet>, f: Packet -> bool)
    requires |e| == |e'| && forall i :: 0 <= i < |e| ==> f(e[i]) == f(e'[i])
    ensures Count(e, f) == Count(e', f)
  {
    if e != [] { CountSame(e[..|e| - 1], e'[..|e| - 1], f); }
  }

  /** e' is e with every scheduled request waiting again from cycle now. */
  predicate Cancelled(e: seq<Packet>, e': seq<Packet>, now: nat) {
    && |e| == |e'|
    && forall i :: 0 <= i < |e| ==>
         e'[i] == if e[i].scheduled then e[i].(scheduled := false, eventCycle := now) else e[i]
  }

  predicate AllIdle(bank: seq<Bank>) {
    forall b :: 0 <= b < |bank| ==>
      !bank[b].working && bank[b].requestIndex == -1 && !bank[b].isWrite && !bank[b].isRead
  }

  lemma CancelAll(t: Timing, s: Channel, write: bool, now: nat) returns (c: Channel)
    requires Cancelling(t, s, write, 0)
    ensures c == CancelUpTo(t, s, write, now, QUEUE_SIZE)
    ensures Shaped(c) && AllIdle(c.bank) && Cancelled(Q(s, write).entry, Q(c, write).entry, now)
    ensures Q(c, !write) == Q(s, !write) && Q(c, write) == Q(s, write).(entry := Q(c, write).entry)
    ensures c == s.(rq := c.rq, wq := c.wq, bank := c.bank,
                    scheduledReads := if write then s.scheduledReads else 0,
                    scheduledWrites := if write then 0 else s.scheduledWrites)
  {
    CancelUpToKeeps(t, s, write, now, QUEUE_SIZE);
    c := CancelUpTo(t, s, write, now, QUEUE_SIZE);
    var e := Q(c, write).entry;
    CountZero(e, IsScheduled);
    forall b | 0 <= b < BANKS
      ensures !c.bank[b].working && c.bank[b].requestIndex == -1 && !c.bank[b].isWrite && !c.bank[b].isRead
    {
      assert BankOk(t, e, c.bank[b], write, c.bus, b);
    }
  }

  lemma CancelledQueueOk(q: Queue, q': Queue, now: nat)
    requires QueueOk(q) && q' == q.(entry := q'.entry) && Cancelled(q.entry, q'.entry, now)
    ensures QueueOk(UpdateProcess(UpdateSchedule(q')))
  {
    CountSame(q.entry, q'.entry, IsLive);
  }

  /** What reset_remain_requests leaves behind: the queue that loses the turn has nothing scheduled, every bank is
      idle, and its counter is back to 0, as the sanity check at its end asks; the other queue is as before. */
  lemma ResetCancelsAll(t: Timing, s: Channel, write: bool, now: nat) returns (r: Channel)
    requires Cancelling(t, s, write, 0) && QueueOk(s.rq) && QueueOk(s.wq)
    ensures r == Reset(t, s, write, now)
    ensures QueueOk(r.rq) && QueueOk(r.wq) && |r.bank| == BANKS && AllIdle(r.bank)
    ensures Cancelled(Q(s, write).entry, Q(r, write).entry, now) && Q(r, !write).entry == Q(s, !write).entry
    ensures r.rq.occupancy == s.rq.occupancy && r.wq.occupancy == s.wq.occupancy
    ensures if write then r.scheduledWrites == 0 && r.scheduledReads == s.scheduledReads
            else r.scheduledReads == 0 && r.scheduledWrites == s.scheduledWrites
    ensures r.writeMode == s.writeMode && r.bus == s.bus && r.responses == s.responses
  {
    var c := CancelAll(t, s, write, now);
    r := Reset(t, s, write, now);
    CancelledQueueOk(Q(s, write), Q(c, write), now);
  }

  /** A mode switch cancels everything that was scheduled, in both queues, and delays the bus. */
  lemma SwitchModeShape(t: Timing, s: Channel, now: nat) returns (r: Channel)
    requires Valid(t, s)
    ensures r == SwitchMode(t, s, now) && r.responses == s.responses
    ensures !(ToWrite(s) || ToRead(s)) ==> r == s
    ensures ToWrite(s) || ToRead(s) ==>
              && QueueOk(r.rq) && QueueOk(r.wq) && |r.bank| == BANKS && AllIdle(r.bank)
              && Cancelled(s.rq.entry, r.rq.entry, now) && Cancelled(s.wq.entry, r.wq.entry, now)
              && r.rq.occupancy == s.rq.occupancy && r.wq.occupancy == s.wq.occupancy
              && NoneScheduled(r.rq.entry) && NoneScheduled(r.wq.entry) && r.scheduledReads == r.scheduledWrites == 0
              && r.writeMode == !s.writeMode && r.bus == s.bus + t.turnAround
  {
    hide BanksOk, Reset, QueueOk;
    r := SwitchMode(t, s, now);
    if ToWrite(s) || ToRead(s) {
      var c := ResetCancelsAll(t, s.(writeMode := !s.writeMode), s.writeMode, now);
      CountZero(Q(s, !s.writeMode).entry, IsScheduled);
    }
  }

  lemma SwitchModeKeeps(t: Timing, s: Channel, now: nat)
    requires Valid(t, s)
    ensures Valid(t, SwitchMode(t, s, now))
  {
    var r := SwitchModeShape(t, s, now);
    if ToWrite(s) || ToRead(s) { IdleIsValid(t, r); }
  }

  lemma IdleIsValid(t: Timing, s: Channel)
    requires Shaped(s) && QueueOk(s.rq) && QueueOk(s.wq) && AllIdle(s.bank)
    requires NoneScheduled(s.rq.entry) && NoneScheduled(s.wq.entry)
    requires s.scheduledReads == s.scheduledWrites == 0
    ensures Valid(t, s)
  {
    CountZero(s.rq.entry, IsScheduled);
    CountZero(s.wq.entry, IsScheduled);
    var e := Q(s, s.writeMode).entry;
    forall i | 0 <= i < QUEUE_SIZE ensures OwnsBank(e, s.bank, i) { }
  }

  lemma OperateKeeps(t: Timing, s: Channel, now: nat)
    requires Valid(t, s)
    requires now + t.tRP + t.tRCD + t.tCAS < UINT64_MAX
    ensures Valid(t, Operate(t, s, now))
  {
    hide SwitchMode, Schedule, Process, BanksOk, PendingKeys, ScheduledKeys;
    SwitchModeKeeps(t, s, now);
    var s1 := SwitchMode(t, s, now);
    ScheduleKeeps(t, s1, now);
    var s2 := TrySchedule(t, s1, now);
    var q := Q(s2, s2.writeMode);
    if q.nextProcessIndex < QUEUE_SIZE && q.nextProcessCycle <= now {
      ProcessKeeps(t, s2, now);
    }
  }

  // ---------- whole runs ----------

  /** What can happen to a channel: a read or a write arrives, or a cycle passes. */
  datatype Event = Read(warm: bool, p: Packet) | Write(warm: bool, p: Packet) | Tick(now: nat)

  predicate Admissible(t: Timing, e: Event) {
    match e
    case Read(_, p) => IsLive(p) && !p.scheduled
    case Write(_, p) => IsLive(p) && !p.scheduled
    case Tick(now) => now + t.tRP + t.tRCD + t.tCAS < UINT64_MAX
  }

  function Step(t: Timing, s: Channel, e: Event): (r: Channel)
    requires Shaped(s)
    ensures Shaped(r)
  {
    match e
    case Read(warm, p) => AddRq(s, warm, p).0
    case Write(warm, p) => AddWq(s, warm, p).0
    case Tick(now) => Operate(t, s, now)
  }

  function Run(t: Timing, s: Channel, es: seq<Event>): (r: Channel)
    requires Shaped(s)
    ensures Shaped(r)
  {
    if es == [] then s else Step(t, Run(t, s, es[..|es| - 1]), es[|es| - 1])
  }

  lemma {:induction false} EveryRunIsValid(t: Timing, es: seq<Event>)
    requires forall e :: e in es ==> Admissible(t, e)
    ensures Valid(t, Run(t, Initial(), es))
  {
    if es == [] {
      InitialIsValid(t);
    } else {
      EveryRunIsValid(t, es[..|es| - 1]);
      var s := Run(t, Initial(), es[..|es| - 1]);
      assert Admissible(t, es[|es| - 1]);
      match es[|es| - 1]
      case Read(warm, p) => AddRqKeeps(t, s, warm, p);
      case Write(warm, p) => AddWqKeeps(t, s, warm, p);
      case Tick(now) => OperateKeeps(t, s, now);
    }
  }
}
