/** Once arrivals stop, the channel empties within a bound computed from its state. */
module DramDrain {
  import opened FirstMin
  import opened DramModel
  import opened DramInvariant

  function Occupancy(s: Channel): int { s.rq.occupancy + s.wq.occupancy }

  predicate Switching(s: Channel) { ToWrite(s) || ToRead(s) }

  /** n further cycles with no arrival, starting at cycle now. */
  function Ticks(t: Timing, s: Channel, now: nat, n: nat): (r: Channel)
    requires Shaped(s)
    ensures Shaped(r)
    decreases n
  {
    if n == 0 then s else Ticks(t, Operate(t, s, now), now + 1, n - 1)
  }

  function Longest(t: Timing): nat { t.tRP + t.tRCD + t.tCAS }

  /** The most one completion, schedule or mode switch can push the next event back. */
  function Stretch(t: Timing): nat { Longest(t) + t.busReturn + t.turnAround + 1 }

  predicate Busy(e: seq<Packet>) { exists i :: 0 <= i < |e| && e[i].scheduled }

  /** Events still to come before the channel is empty: per request a completion and the switches
      and schedules that may precede it. */
  function Rank(s: Channel): int
    requires Shaped(s)
  {
    4 * Occupancy(s) + (if Switching(s) then 2 else 0) + (if Busy(Q(s, s.writeMode).entry) then 0 else 1)
  }

  predicate Waiting(p: Packet) { IsLive(p) && !p.scheduled }

  predicate WaitingBy(e: seq<Packet>, h: nat) {
    forall i :: 0 <= i < |e| && Waiting(e[i]) ==> e[i].eventCycle <= h
  }

  predicate DoneBy(e: seq<Packet>, h: nat) {
    forall i :: 0 <= i < |e| && e[i].scheduled ==> e[i].eventCycle <= h
  }

  /** Every request can be scheduled by cycle h. */
  predicate Ready(t: Timing, s: Channel, now: nat, h: nat) {
    && now <= h
    && WaitingBy(s.rq.entry, h) && WaitingBy(s.wq.entry, h)
    && DoneBy(s.rq.entry, h + Longest(t)) && DoneBy(s.wq.entry, h + Longest(t))
  }

  /** Everything the channel waits for next happens by cycle h. */
  predicate Within(t: Timing, s: Channel, now: nat, h: nat)
    requires Shaped(s)
  {
    && Ready(t, s, now, h) && s.bus <= h
    && (Busy(Q(s, s.writeMode).entry) ==> Q(s, s.writeMode).nextProcessCycle <= h)
  }

  // ---------- the cached cycles ----------

  lemma NextProcess(q: Queue)
    requires QueueOk(q)
    ensures Busy(q.entry) ==>
              && q.nextProcessIndex < QUEUE_SIZE && q.entry[q.nextProcessIndex].scheduled
              && q.nextProcessCycle == q.entry[q.nextProcessIndex].eventCycle < UINT64_MAX
    ensures forall i :: 0 <= i < QUEUE_SIZE && q.entry[i].scheduled ==> q.nextProcessCycle <= q.entry[i].eventCycle
    ensures !Busy(q.entry) ==> q.nextProcessCycle == UINT64_MAX
  {
    var keys := ScheduledKeys(q.entry);
    FindIsFirstMin(keys);
    forall i | 0 <= i < QUEUE_SIZE && q.entry[i].scheduled
      ensures q.nextProcessCycle <= q.entry[i].eventCycle && q.nextProcessCycle < UINT64_MAX
    {
      assert keys[i] == q.entry[i].eventCycle;
    }
  }

  lemma NextSchedule(q: Queue)
    requires QueueOk(q)
    ensures q.nextScheduleCycle < UINT64_MAX ==>
              && q.nextScheduleIndex < QUEUE_SIZE && Waiting(q.entry[q.nextScheduleIndex])
              && q.nextScheduleCycle == q.entry[q.nextScheduleIndex].eventCycle
    ensures forall i :: 0 <= i < QUEUE_SIZE && Waiting(q.entry[i]) && q.entry[i].eventCycle < UINT64_MAX ==>
              q.nextScheduleCycle <= q.entry[i].eventCycle
    ensures q.nextScheduleCycle <= UINT64_MAX
  {
    var keys := PendingKeys(q.entry);
    FindIsFirstMin(keys);
    forall i | 0 <= i < QUEUE_SIZE && Waiting(q.entry[i]) && q.entry[i].eventCycle < UINT64_MAX
      ensures q.nextScheduleCycle <= q.entry[i].eventCycle
    {
      assert keys[i] == q.entry[i].eventCycle;
    }
  }

  // ---------- the three parts of a cycle ----------

  /** Right after a switch nothing is scheduled, and the new mode would not switch back at once. */
  lemma SwitchSettles(t: Timing, s: Channel, now: nat) returns (r: Channel)
    requires Valid(t, s)
    ensures r == SwitchMode(t, s, now) && Valid(t, r) && Occupancy(r) == Occupancy(s) && !Switching(r)
    ensures !Switching(s) ==> r == s
    ensures Switching(s) ==>
              && !Busy(Q(r, r.writeMode).entry) && r.bus == s.bus + t.turnAround
              && NoneScheduled(r.rq.entry) && NoneScheduled(r.wq.entry)
              && Cancelled(s.rq.entry, r.rq.entry, now) && Cancelled(s.wq.entry, r.wq.entry, now)
  {
    hide SwitchMode, Reset, PendingKeys, ScheduledKeys;
    SwitchModeKeeps(t, s, now);
    r := SwitchModeShape(t, s, now);
  }

  /** Trying to schedule never disturbs what is due, and succeeds as soon as something waits, is due,
      and the banks are idle. */
  lemma ScheduleStep(t: Timing, s: Channel, now: nat, h: nat, g: nat) returns (r: Channel)
    requires Valid(t, s) && Ready(t, s, now, h) && Within(t, s, now, g) && h <= g
    requires now + Longest(t) < UINT64_MAX
    ensures r == TrySchedule(t, s, now) && Valid(t, r) && Shaped(r)
    ensures r.writeMode == s.writeMode && r.bus == s.bus && Occupancy(r) == Occupancy(s)
    ensures r.rq.occupancy == s.rq.occupancy && r.wq.occupancy == s.wq.occupancy
    ensures Busy(Q(s, s.writeMode).entry) ==> Busy(Q(r, s.writeMode).entry) && Within(t, r, now, g)
    ensures Ready(t, r, now, h) && Within(t, r, now, g + Longest(t))
    ensures !Busy(Q(r, s.writeMode).entry) ==>
              r == s && forall i :: 0 <= i < QUEUE_SIZE && Waiting(Q(s, s.writeMode).entry[i])
                                    && Q(s, s.writeMode).entry[i].eventCycle < UINT64_MAX
                                    ==> now < Q(s, s.writeMode).entry[i].eventCycle
  {
    hide PendingKeys, ScheduledKeys, Schedule, QueueOk, BanksOk;
    r := TrySchedule(t, s, now);
    var w := s.writeMode;
    var q := Q(s, w);
    NextSchedule(q);
    if q.nextScheduleIndex < QUEUE_SIZE && q.nextScheduleCycle <= now {
      ScheduleKeeps(t, s, now);
      var r', i, hit, done := ScheduleShape(t, s, now);
      if i < QUEUE_SIZE {
        ScheduledWithin(t, s, r, now, i, hit, done, h, g);
      } else if !Busy(q.entry) {
        AllIdleWhenNotBusy(t, s);
        IdleBanksAccept(q.entry, s.bank, q.nextScheduleIndex);
      }
    }
  }

  lemma IdleBanksAccept(e: seq<Packet>, bank: seq<Bank>, i: nat)
    requires |bank| == BANKS && forall b :: 0 <= b < BANKS ==> !bank[b].working
    requires i < |e| && Waiting(e[i]) && e[i].eventCycle < UINT64_MAX
    ensures Pick(e, bank).0 < |e|
  {
    assert Eligible(e[i], bank, false);
    PickIsFrFcfs(e, bank);
  }

  lemma AllIdleWhenNotBusy(t: Timing, s: Channel)
    requires Valid(t, s) && !Busy(Q(s, s.writeMode).entry)
    ensures forall b :: 0 <= b < BANKS ==> !s.bank[b].working
  {
    forall b | 0 <= b < BANKS ensures !s.bank[b].working {
      assert BankOk(t, Q(s, s.writeMode).entry, s.bank[b], s.writeMode, s.bus, b);
    }
  }

  lemma ScheduledWithin(t: Timing, s: Channel, r: Channel, now: nat, i: nat, hit: bool, done: nat, h: nat, g: nat)
    requires Valid(t, s) && Ready(t, s, now, h) && Within(t, s, now, g) && h <= g && Valid(t, r)
    requires i < QUEUE_SIZE && Scheduled(s, r, i, hit, done) && Waiting(Q(s, s.writeMode).entry[i])
    requires now <= done <= now + Longest(t)
    ensures Busy(Q(r, s.writeMode).entry)
    ensures Busy(Q(s, s.writeMode).entry) ==> Within(t, r, now, g)
    ensures Ready(t, r, now, h) && Within(t, r, now, g + Longest(t))
  {
    hide PendingKeys, ScheduledKeys, QueueOk, BanksOk;
    var e, e' := Q(s, s.writeMode).entry, Q(r, s.writeMode).entry;
    assert e'[i].scheduled;
    NextProcess(Q(s, s.writeMode));
    NextProcess(Q(r, s.writeMode));
    if Busy(e) {
      var k :| 0 <= k < |e| && e[k].scheduled && e[k].eventCycle == Q(s, s.writeMode).nextProcessCycle;
      assert e'[k] == e[k];
    }
  }

  /** What process() does to slot i of the queue whose turn it is, when its data is ready and the bus free. */
  predicate Completed(t: Timing, s: Channel, r: Channel, i: nat, now: nat)
    requires Shaped(s) && i < QUEUE_SIZE
  {
    var w := s.writeMode;
    && Q(r, w).entry == Q(s, w).entry[i := EMPTY_PACKET]
    && Q(r, w).occupancy == Q(s, w).occupancy - 1
    && Q(r, !w) == Q(s, !w)
    && r.writeMode == w && r.bus == now + t.busReturn && s.bus <= now
    && r.responses == s.responses +
         (if w then [] else [Response(false, Q(s, w).entry[i].(eventCycle := now + t.busReturn))])
  }

  /** Either the due request completes, or nothing is due yet and only a bank may be told to wait for the bus. */
  lemma ProcessShape(t: Timing, s: Channel, now: nat) returns (r: Channel, completes: bool, i: nat)
    requires Valid(t, s) && now < UINT64_MAX
    ensures r == TryProcess(t, s, now) && Valid(t, r)
    ensures completes ==> i < QUEUE_SIZE && Q(s, s.writeMode).entry[i].scheduled && Completed(t, s, r, i, now)
    ensures !completes ==> r == s.(bank := r.bank)
    ensures Busy(Q(s, s.writeMode).entry) && Q(s, s.writeMode).nextProcessCycle <= now && s.bus <= now ==> completes
  {
    hide PendingKeys, ScheduledKeys, QueueOk;
    r := TryProcess(t, s, now);
    completes := false;
    var q := Q(s, s.writeMode);
    i := q.nextProcessIndex;
    NextProcess(q);
    if i < QUEUE_SIZE && q.nextProcessCycle <= now {
      ProcessIsSane(t, s);
      ProcessKeeps(t, s, now);
      var b := BankOf(q.entry[i].address);
      assert BankOk(t, q.entry, s.bank[b], s.writeMode, s.bus, b);
      completes := s.bank[b].cycleAvailable <= now && s.bus <= now;
    }
  }

  lemma ProcessStep(t: Timing, s: Channel, now: nat, h: nat, g: nat) returns (r: Channel, completes: bool)
    requires Valid(t, s) && Ready(t, s, now, h) && Within(t, s, now, g) && now < UINT64_MAX
    ensures r == TryProcess(t, s, now) && Valid(t, r) && r.writeMode == s.writeMode
    ensures completes ==> Occupancy(r) == Occupancy(s) - 1 && Within(t, r, now + 1, h + Stretch(t))
    ensures !completes ==>
              && r.rq == s.rq && r.wq == s.wq && Within(t, r, now, g)
              && (Busy(Q(s, s.writeMode).entry) ==> now < g)
    ensures completes ==> Busy(Q(s, s.writeMode).entry)
  {
    hide PendingKeys, ScheduledKeys, QueueOk, BanksOk, Process;
    var i;
    r, completes, i := ProcessShape(t, s, now);
    if completes { CompletedWithin(t, s, r, i, now, h); }
  }

  lemma CompletedWithin(t: Timing, s: Channel, r: Channel, i: nat, now: nat, h: nat)
    requires Valid(t, s) && Ready(t, s, now, h) && Valid(t, r)
    requires i < QUEUE_SIZE && Q(s, s.writeMode).entry[i].scheduled && Completed(t, s, r, i, now)
    ensures Occupancy(r) == Occupancy(s) - 1
    ensures Within(t, r, now + 1, h + Stretch(t))
  {
    hide PendingKeys, ScheduledKeys, QueueOk, BanksOk;
    NextProcess(Q(r, r.writeMode));
  }

  lemma WithinLater(t: Timing, s: Channel, now: nat, h: nat, now': nat, h': nat)
    requires Shaped(s) && Within(t, s, now, h) && now <= now' <= h' && h <= h'
    ensures Within(t, s, now', h')
  {
  }

  lemma SwitchedWithin(t: Timing, s: Channel, r: Channel, now: nat, h: nat)
    requires Valid(t, s) && Within(t, s, now, h) && Valid(t, r)
    requires !Busy(Q(r, r.writeMode).entry) && r.bus == s.bus + t.turnAround
    requires NoneScheduled(r.rq.entry) && NoneScheduled(r.wq.entry)
    requires Cancelled(s.rq.entry, r.rq.entry, now) && Cancelled(s.wq.entry, r.wq.entry, now)
    ensures Ready(t, r, now, h) && Within(t, r, now, h + t.turnAround)
  {
    hide PendingKeys, ScheduledKeys, QueueOk, BanksOk;
  }

  /** A channel that neither is empty nor switches has work in the queue whose turn it is. */
  lemma ActiveHasWork(t: Timing, s: Channel) returns (i: nat)
    requires Valid(t, s) && Occupancy(s) > 0 && !Switching(s)
    ensures i < QUEUE_SIZE && IsLive(Q(s, s.writeMode).entry[i])
  {
    var e := Q(s, s.writeMode).entry;
    CountZero(e, IsLive);
    CountZero(s.wq.entry, IsLive);
    i :| 0 <= i < QUEUE_SIZE && IsLive(e[i]);
  }

  /** One cycle: either everything pending still happens by h, or one of the remaining events happened
      and the horizon moved back by at most Stretch(t). */
  lemma Progress(t: Timing, s: Channel, now: nat, h: nat) returns (r: Channel, h': nat)
    requires Valid(t, s) && Within(t, s, now, h) && Occupancy(s) > 0
    requires h + Longest(t) < UINT64_MAX
    ensures r == Operate(t, s, now) && Valid(t, r) && Shaped(r) && Within(t, r, now + 1, h')
    ensures (h' == h && Rank(r) <= Rank(s)) || (h' == h + Stretch(t) && Rank(r) < Rank(s))
  {
    hide PendingKeys, ScheduledKeys, QueueOk, BanksOk, SwitchMode, TrySchedule, TryProcess, Cancelled, WaitingBy,
      DoneBy;
    var s1 := SwitchSettles(t, s, now);
    var g := h;
    if Switching(s) {
      SwitchedWithin(t, s, s1, now, h);
      g := h + t.turnAround;
    }
    var s2 := ScheduleStep(t, s1, now, h, g);
    var g' := if Busy(Q(s1, s1.writeMode).entry) || !Busy(Q(s2, s2.writeMode).entry) then g else g + Longest(t);
    var completes;
    r, completes := ProcessStep(t, s2, now, h, g');
    h' := h + Stretch(t);
    if completes {
    } else if Switching(s) || (!Busy(Q(s1, s1.writeMode).entry) && Busy(Q(s2, s2.writeMode).entry)) {
      WithinLater(t, r, now, g', now + 1, h');
    } else {
      h' := h;
      if !Busy(Q(s2, s2.writeMode).entry) { NothingDue(t, s, now, h); }
      WithinLater(t, r, now, h, now + 1, h);
    }
  }

  lemma NothingDue(t: Timing, s: Channel, now: nat, h: nat)
    requires Valid(t, s) && Within(t, s, now, h) && Occupancy(s) > 0 && !Switching(s) && h < UINT64_MAX
    requires !Busy(Q(s, s.writeMode).entry)
    requires forall i :: 0 <= i < QUEUE_SIZE && Waiting(Q(s, s.writeMode).entry[i])
                         && Q(s, s.writeMode).entry[i].eventCycle < UINT64_MAX
                         ==> now < Q(s, s.writeMode).entry[i].eventCycle
    ensures now < h
  {
    var i := ActiveHasWork(t, s);
    assert Waiting(Q(s, s.writeMode).entry[i]);
  }

  // ---------- the theorem ----------

  lemma EmptyStaysEmpty(t: Timing, s: Channel, now: nat)
    requires Valid(t, s) && Occupancy(s) == 0 && now + Longest(t) < UINT64_MAX
    ensures Occupancy(Operate(t, s, now)) == 0
  {
    hide PendingKeys, ScheduledKeys, BanksOk, SwitchMode, TrySchedule, TryProcess;
    OperateKeeps(t, s, now);
    var s1 := SwitchSettles(t, s, now);
    var h := now + s1.bus;
    CountZero(s1.rq.entry, IsLive);
    CountZero(s1.wq.entry, IsLive);
    assert Within(t, s1, now, h);
    var s2 := ScheduleStep(t, s1, now, h, h);
    CountZero(s2.rq.entry, IsLive);
    CountZero(s2.wq.entry, IsLive);
    assert Within(t, s2, now, h);
    var r, completes := ProcessStep(t, s2, now, h, h);
  }

  lemma {:induction false} StaysEmpty(t: Timing, s: Channel, now: nat, n: nat)
    requires Valid(t, s) && Occupancy(s) == 0 && now + n + Longest(t) < UINT64_MAX
    ensures Occupancy(Ticks(t, s, now, n)) == 0
    decreases n
  {
    hide Valid, Operate;
    if n > 0 {
      RankBound(t, s);
      EmptyStaysEmpty(t, s, now);
      OperateKeeps(t, s, now);
      StaysEmpty(t, Operate(t, s, now), now + 1, n - 1);
    }
  }

  lemma RankBound(t: Timing, s: Channel)
    requires Valid(t, s)
    ensures Shaped(s) && 0 <= 4 * Occupancy(s) <= Rank(s) <= 4 * Occupancy(s) + 3
  {
  }

  lemma Times(a: int, b: int, c: nat)
    requires a <= b
    ensures a * c <= b * c
    ensures a < b ==> a * c + c <= b * c
  {
    assert (b - a) * c == b * c - a * c;
    if a < b { assert (b - a - 1) * c >= 0; }
  }

  lemma {:induction false} DrainsByRank(t: Timing, s: Channel, now: nat, h: nat, n: nat)
    requires Valid(t, s) && Within(t, s, now, h)
    requires now + n > h + Rank(s) * Stretch(t)
    requires h + Rank(s) * Stretch(t) + Longest(t) < UINT64_MAX && now + n + Longest(t) < UINT64_MAX
    ensures Occupancy(Ticks(t, s, now, n)) == 0
    decreases n
  {
    hide Valid, Operate, Within;
    RankBound(t, s);
    Times(0, Rank(s), Stretch(t));
    if Occupancy(s) == 0 {
      StaysEmpty(t, s, now, n);
    } else {
      WithinNow(t, s, now, h);
      Times(1, Rank(s), Stretch(t));
      var r, h' := Progress(t, s, now, h);
      Times(Rank(r), Rank(s), Stretch(t));
      DrainsByRank(t, r, now + 1, h', n - 1);
    }
  }

  lemma WithinNow(t: Timing, s: Channel, now: nat, h: nat)
    requires Shaped(s) && Within(t, s, now, h)
    ensures now <= h
  {
  }

  // ---------- a horizon computed from the state ----------

  function Max(a: nat, b: nat): nat { if a < b then b else a }

  /** The latest real event cycle among the requests in a queue. */
  function Latest(e: seq<Packet>): (m: nat)
    ensures forall i :: 0 <= i < |e| && IsLive(e[i]) && e[i].eventCycle < UINT64_MAX ==> e[i].eventCycle <= m
  {
    if e == [] then 0 else
    var p := e[|e| - 1];
    var m := Latest(e[..|e| - 1]);
    assert forall i :: 0 <= i < |e| - 1 ==> e[i] == e[..|e| - 1][i];
    if IsLive(p) && p.eventCycle < UINT64_MAX then Max(m, p.eventCycle) else m
  }

  function Horizon(s: Channel, now: nat): nat {
    Max(Max(now, s.bus), Max(Latest(s.rq.entry), Latest(s.wq.entry)))
  }

  /** The cycle by which the channel is certainly empty: each request costs at most four more events,
      and each event takes at most Stretch(t). */
  function EmptyBy(t: Timing, s: Channel, now: nat): int {
    Horizon(s, now) + (4 * Occupancy(s) + 3) * Stretch(t)
  }

  /** No waiting request carries the sentinel event cycle. */
  predicate Timed(e: seq<Packet>) {
    forall i :: 0 <= i < |e| && Waiting(e[i]) ==> e[i].eventCycle < UINT64_MAX
  }

  lemma HorizonIsWithin(t: Timing, s: Channel, now: nat)
    requires Valid(t, s) && Timed(s.rq.entry) && Timed(s.wq.entry)
    ensures Within(t, s, now, Horizon(s, now))
  {
    hide BanksOk, PendingKeys, ScheduledKeys;
    NextProcess(Q(s, s.writeMode));
  }

  /** Once arrivals stop, the channel is empty from cycle EmptyBy on. */
  lemma Drains(t: Timing, s: Channel, now: nat, n: nat)
    requires Valid(t, s) && Timed(s.rq.entry) && Timed(s.wq.entry)
    requires now + n > EmptyBy(t, s, now) && now + n + Longest(t) < UINT64_MAX
    ensures Occupancy(Ticks(t, s, now, n)) == 0
  {
    HorizonIsWithin(t, s, now);
    hide Valid, Within, Timed, Horizon;
    RankBound(t, s);
    Times(Rank(s), 4 * Occupancy(s) + 3, Stretch(t));
    DrainsByRank(t, s, now, Horizon(s, now), n);
  }

  /** The drain needs real cycles: a request whose event cycle is UINT64_MAX is never chosen. */
  lemma {:induction false} NeverServed(t: Timing, s: Channel, now: nat, n: nat, write: bool, i: nat)
    requires Valid(t, s) && now + n + Longest(t) < UINT64_MAX && i < QUEUE_SIZE
    requires Waiting(Q(s, write).entry[i]) && Q(s, write).entry[i].eventCycle >= UINT64_MAX
    ensures Q(Ticks(t, s, now, n), write).entry[i] == Q(s, write).entry[i]
    ensures Occupancy(Ticks(t, s, now, n)) > 0
    decreases n
  {
    hide QueueOk, BanksOk, PendingKeys, ScheduledKeys, SwitchMode, TrySchedule, TryProcess;
    if n == 0 {
      SomethingLive(t, s, write, i);
    } else {
      var s1 := SwitchSettles(t, s, now);
      assert Q(s1, write).entry[i] == Q(s, write).entry[i];
      ScheduleSkips(t, s1, now, write, i);
      var s2 := TrySchedule(t, s1, now);
      var r, completes, k := ProcessShape(t, s2, now);
      assert Q(r, write).entry[i] == Q(s, write).entry[i];
      NeverServed(t, r, now + 1, n - 1, write, i);
    }
  }

  lemma SomethingLive(t: Timing, s: Channel, write: bool, i: nat)
    requires Valid(t, s) && i < QUEUE_SIZE && IsLive(Q(s, write).entry[i])
    ensures Occupancy(s) > 0
  {
    CountZero(Q(s, write).entry, IsLive);
  }

  lemma ScheduleSkips(t: Timing, s: Channel, now: nat, write: bool, i: nat)
    requires Valid(t, s) && now + Longest(t) < UINT64_MAX && i < QUEUE_SIZE
    requires Waiting(Q(s, write).entry[i]) && Q(s, write).entry[i].eventCycle >= UINT64_MAX
    ensures Valid(t, TrySchedule(t, s, now))
    ensures Q(TrySchedule(t, s, now), write).entry[i] == Q(s, write).entry[i]
    ensures TrySchedule(t, s, now).writeMode == s.writeMode
  {
    hide QueueOk, BanksOk, PendingKeys, ScheduledKeys, Schedule;
    ScheduleKeeps(t, s, now);
    var r, k, hit, done := ScheduleShape(t, s, now);
    PickIsFrFcfs(Q(s, s.writeMode).entry, s.bank);
  }

  /** Exactly when: once the bound has passed, the channel is empty if and only if no waiting request
      carried the sentinel event cycle. */
  lemma DrainsExactlyWhenTimed(t: Timing, s: Channel, now: nat, n: nat)
    requires Valid(t, s) && now + n > EmptyBy(t, s, now) && now + n + Longest(t) < UINT64_MAX
    ensures Occupancy(Ticks(t, s, now, n)) == 0 <==> Timed(s.rq.entry) && Timed(s.wq.entry)
  {
    hide QueueOk, BanksOk, Operate;
    if !Timed(s.rq.entry) {
      var i :| 0 <= i < |s.rq.entry| && Waiting(s.rq.entry[i]) && s.rq.entry[i].eventCycle >= UINT64_MAX;
      NeverServed(t, s, now, n, false, i);
    } else if !Timed(s.wq.entry) {
      var i :| 0 <= i < |s.wq.entry| && Waiting(s.wq.entry[i]) && s.wq.entry[i].eventCycle >= UINT64_MAX;
      NeverServed(t, s, now, n, true, i);
    } else {
      Drains(t, s, now, n);
    }
  }

  // ---------- mode switches are bounded ----------

  lemma SchedulingKeepsOccupancy(t: Timing, s: Channel, now: nat) returns (r: Channel)
    requires Valid(t, s) && now + Longest(t) < UINT64_MAX
    ensures r == TrySchedule(t, s, now) && Valid(t, r) && r.writeMode == s.writeMode
    ensures r.rq.occupancy == s.rq.occupancy && r.wq.occupancy == s.wq.occupancy
  {
    hide QueueOk, BanksOk, PendingKeys, ScheduledKeys, Schedule;
    ScheduleKeeps(t, s, now);
    var u, i, hit, done := ScheduleShape(t, s, now);
    r := TrySchedule(t, s, now);
  }

  /** Requests in the channel, and a switch that is due. */
  function Pending(s: Channel): int { Occupancy(s) + (if Switching(s) then 1 else 0) }

  /** A cycle that switches, or after which a switch is due, has completed a request or used up the one due. */
  lemma SwitchNeedsCompletion(t: Timing, s: Channel, now: nat) returns (r: Channel)
    requires Valid(t, s) && now + Longest(t) < UINT64_MAX
    ensures r == Operate(t, s, now) && Valid(t, r)
    ensures Pending(r) + (if Switching(s) then 1 else 0) <= Pending(s)
  {
    hide QueueOk, BanksOk, PendingKeys, ScheduledKeys, SwitchMode, TrySchedule, TryProcess;
    var s1 := SwitchSettles(t, s, now);
    var s2 := SchedulingKeepsOccupancy(t, s1, now);
    var completes, i;
    r, completes, i := ProcessShape(t, s2, now);
  }

  lemma NoNegativeOccupancy(t: Timing, s: Channel)
    requires Valid(t, s)
    ensures Shaped(s) && 0 <= Pending(s) <= Occupancy(s) + 1
  {
    hide BanksOk, PendingKeys, ScheduledKeys;
  }

  /** How often the mode switches in n cycles without arrivals. */
  function Switches(t: Timing, s: Channel, now: nat, n: nat): nat
    requires Shaped(s)
    decreases n
  {
    if n == 0 then 0 else
    (if Switching(s) then 1 else 0) + Switches(t, Operate(t, s, now), now + 1, n - 1)
  }

  /** Without arrivals, however long the clock runs: each switch but the first follows a completion of its own. */
  lemma {:induction false} SwitchesAreBounded(t: Timing, s: Channel, now: nat, n: nat)
    requires Valid(t, s) && now + n + Longest(t) < UINT64_MAX
    ensures Switches(t, s, now, n) + Pending(Ticks(t, s, now, n)) <= Pending(s) <= Occupancy(s) + 1
    ensures Pending(Ticks(t, s, now, n)) >= 0
    decreases n
  {
    hide Valid, Operate, Switching, Occupancy, Longest, Shaped, Pending;
    NoNegativeOccupancy(t, s);
    if n > 0 {
      var r := SwitchNeedsCompletion(t, s, now);
      SwitchesAreBounded(t, r, now + 1, n - 1);
    }
  }
}
