/** When requests are due: open rows, the data bus and what a mode switch leaves of both. */
module DramTiming {
  import opened FirstMin
  import opened DramModel
  import opened DramInvariant
  import opened DramDrain

  predicate RowIsOpen(s: Channel, p: Packet)
    requires Shaped(s)
  {
    s.bank[BankOf(p.address)].openRow == RowOf(p.address)
  }

  /** Slot i of the queue whose turn it is gets its bank between s and r. */
  predicate GetsBank(s: Channel, r: Channel, i: nat)
    requires Shaped(s) && Shaped(r) && i < QUEUE_SIZE
  {
    !Q(s, s.writeMode).entry[i].scheduled && Q(r, s.writeMode).entry[i].scheduled
  }

  /** The request that gets its bank is due tCAS later when its row was open there, and after precharge,
      activation and tCAS otherwise; its row is open from then on. No other bank and no other slot changes. */
  lemma DueExactly(t: Timing, s: Channel, now: nat, i: nat)
    requires Valid(t, s) && i < QUEUE_SIZE && GetsBank(s, TrySchedule(t, s, now), i)
    ensures var r, w := TrySchedule(t, s, now), s.writeMode;
            var p := Q(s, w).entry[i];
            var due := if RowIsOpen(s, p) then now + t.tCAS else now + t.tRP + t.tRCD + t.tCAS;
            && !s.bank[BankOf(p.address)].working && IsLive(p)
            && Q(r, w).entry == Q(s, w).entry[i := p.(scheduled := true, eventCycle := due)]
            && r.bank == s.bank[BankOf(p.address) := r.bank[BankOf(p.address)]]
            && r.bank[BankOf(p.address)].cycleAvailable == due && r.bank[BankOf(p.address)].working
            && r.bank[BankOf(p.address)].requestIndex == i && RowIsOpen(r, p)
  {
    hide QueueOk, BanksOk, PendingKeys, ScheduledKeys, EligibleKeys, Find;
    PickIsFrFcfs(Q(s, s.writeMode).entry, s.bank);
  }

  /** Without a request that gets a bank nothing is scheduled at all. */
  lemma NothingElse(t: Timing, s: Channel, now: nat)
    requires Valid(t, s)
    ensures TrySchedule(t, s, now) == s || exists i :: 0 <= i < QUEUE_SIZE && GetsBank(s, TrySchedule(t, s, now), i)
  {
    hide QueueOk, BanksOk, PendingKeys, ScheduledKeys, EligibleKeys, Find;
    PickIsFrFcfs(Q(s, s.writeMode).entry, s.bank);
    var (i, hit) := Pick(Q(s, s.writeMode).entry, s.bank);
    if TrySchedule(t, s, now) != s { assert GetsBank(s, TrySchedule(t, s, now), i); }
  }

  // ---------- open rows over runs ----------

  /** Slot i gets its bank in this cycle. */
  predicate Schedules(t: Timing, s: Channel, now: nat, i: nat)
    requires Shaped(s) && i < QUEUE_SIZE
  {
    var s1 := SwitchMode(t, s, now);
    GetsBank(s1, TrySchedule(t, s1, now), i)
  }

  /** The mode stays, and no request of bank b gets it. */
  ghost predicate LeavesBank(t: Timing, s: Channel, e: Event, b: nat)
    requires Shaped(s)
  {
    e.Tick? ==> !Switching(s) && forall i :: 0 <= i < QUEUE_SIZE && Schedules(t, s, e.now, i) ==>
                                  BankOf(Q(s, s.writeMode).entry[i].address) != b
  }

  ghost predicate RunLeavesBank(t: Timing, s: Channel, es: seq<Event>, b: nat)
    requires Shaped(s)
  {
    es == [] || (RunLeavesBank(t, s, es[..|es| - 1], b)
                 && LeavesBank(t, Run(t, s, es[..|es| - 1]), es[|es| - 1], b))
  }

  lemma StepIsValid(t: Timing, s: Channel, e: Event)
    requires Valid(t, s) && Admissible(t, e)
    ensures Valid(t, Step(t, s, e))
  {
    match e
    case Read(warm, p) => AddRqKeeps(t, s, warm, p);
    case Write(warm, p) => AddWqKeeps(t, s, warm, p);
    case Tick(now) => OperateKeeps(t, s, now);
  }

  /** Completion and waiting for the bus leave every row open. */
  lemma ProcessKeepsRows(t: Timing, s: Channel, now: nat, b: nat)
    requires Shaped(s) && b < BANKS
    ensures TryProcess(t, s, now).bank[b].openRow == s.bank[b].openRow
  {
    hide ScheduledKeys;
  }

  lemma RowSurvives(t: Timing, s: Channel, e: Event, b: nat)
    requires Valid(t, s) && Admissible(t, e) && b < BANKS && LeavesBank(t, s, e, b)
    ensures Step(t, s, e).bank[b].openRow == s.bank[b].openRow
  {
    hide QueueOk, BanksOk, PendingKeys, ScheduledKeys, TryProcess, TrySchedule;
    if e.Tick? {
      NothingElse(t, s, e.now);
      var r := TrySchedule(t, s, e.now);
      if r != s {
        var i :| 0 <= i < QUEUE_SIZE && GetsBank(s, r, i);
        DueExactly(t, s, e.now, i);
        assert Schedules(t, s, e.now, i);
      }
      ProcessKeepsRows(t, r, e.now, b);
    }
  }

  lemma {:induction false} RowStaysOpen(t: Timing, s: Channel, es: seq<Event>, b: nat)
    requires Valid(t, s) && b < BANKS && (forall e :: e in es ==> Admissible(t, e)) && RunLeavesBank(t, s, es, b)
    ensures Valid(t, Run(t, s, es)) && Run(t, s, es).bank[b].openRow == s.bank[b].openRow
  {
    hide QueueOk, BanksOk, Step, LeavesBank;
    if es != [] {
      var before, e := es[..|es| - 1], es[|es| - 1];
      RowStaysOpen(t, s, before, b);
      StepIsValid(t, Run(t, s, before), e);
      RowSurvives(t, Run(t, s, before), e, b);
    }
  }

  /** Over every run: after a request got its bank, the next request to the same row of that bank, with no other
      request to the bank and no mode switch between, finds the row open and is due tCAS after it gets the bank. */
  lemma NextIsRowHit(t: Timing, s: Channel, now: nat, i: nat, es: seq<Event>, now': nat, j: nat)
    requires Valid(t, s) && Admissible(t, Tick(now)) && i < QUEUE_SIZE && j < QUEUE_SIZE && Schedules(t, s, now, i)
    requires forall e :: e in es ==> Admissible(t, e)
    requires var r, p := Operate(t, s, now), Q(SwitchMode(t, s, now), SwitchMode(t, s, now).writeMode).entry[i];
             var u := Run(t, r, es);
             && RunLeavesBank(t, r, es, BankOf(p.address)) && !Switching(u) && Schedules(t, u, now', j)
             && BankOf(Q(u, u.writeMode).entry[j].address) == BankOf(p.address)
             && RowOf(Q(u, u.writeMode).entry[j].address) == RowOf(p.address)
    ensures var u := Run(t, Operate(t, s, now), es);
            && RowIsOpen(u, Q(u, u.writeMode).entry[j])
            && Q(TrySchedule(t, u, now'), u.writeMode).entry[j].eventCycle == now' + t.tCAS
  {
    hide QueueOk, BanksOk, PendingKeys, ScheduledKeys, TryProcess, TrySchedule, RunLeavesBank;
    var s1 := SwitchMode(t, s, now);
    SwitchModeKeeps(t, s, now);
    DueExactly(t, s1, now, i);
    var b := BankOf(Q(s1, s1.writeMode).entry[i].address);
    ProcessKeepsRows(t, TrySchedule(t, s1, now), now, b);
    OperateKeeps(t, s, now);
    var r := Operate(t, s, now);
    assert r == TryProcess(t, TrySchedule(t, s1, now), now);
    hide Operate, SwitchMode;
    RowStaysOpen(t, r, es, b);
    var u := Run(t, r, es);
    assert SwitchMode(t, u, now') == u by { StaysPut(t, u, now'); }
    DueExactly(t, u, now', j);
  }

  lemma StaysPut(t: Timing, s: Channel, now: nat)
    requires Shaped(s) && !Switching(s)
    ensures SwitchMode(t, s, now) == s
  {
  }

  // ---------- open rows across a mode switch ----------

  /** Scheduled requests are due at real cycles. */
  predicate AllTimed(e: seq<Packet>) { forall i :: 0 <= i < |e| && e[i].scheduled ==> e[i].eventCycle < UINT64_MAX }

  /** What cancelling the first n slots makes of bank b. */
  lemma {:induction false} CancelledBank(t: Timing, s: Channel, write: bool, now: nat, n: nat, b: nat)
    requires n <= QUEUE_SIZE && Cancelling(t, s, write, 0) && b < BANKS
    requires s.bus <= UINT64_MAX && AllTimed(Q(s, write).entry)
    ensures var k, r := s.bank[b], CancelUpTo(t, s, write, now, n).bank[b];
            if k.working && k.requestIndex < n then
              && r.cycleAvailable == now
              && r.openRow == if k.cycleAvailable <= now + t.tCAS
                              then RowOf(Q(s, write).entry[k.requestIndex].address) else UINT32_MAX
            else r == k
  {
    if n > 0 {
      CancelledBank(t, s, write, now, n - 1, b);
      CancelUpToKeeps(t, s, write, now, n - 1);
      var c := CancelUpTo(t, s, write, now, n - 1);
      hide CancelUpTo, Count;
      var e := Q(s, write).entry;
      assert BankOk(t, e, s.bank[b], write, s.bus, b) && OwnsBank(e, s.bank, n - 1);
      CancelledBankNext(t, c, write, now, n - 1, b);
    }
  }

  lemma NoWrap(a: nat, b: nat)
    requires b <= a && a - b <= UINT64_MAX
    ensures SubU64(a, b) == a - b
  {
  }

  lemma CancelledBankNext(t: Timing, c: Channel, write: bool, now: nat, i: nat, b: nat)
    requires Cancelling(t, c, write, i) && i < QUEUE_SIZE && b < BANKS
    requires c.bus <= UINT64_MAX && AllTimed(Q(c, write).entry)
    ensures var p, k, r := Q(c, write).entry[i], c.bank[b], Cancel(t, c, write, now, i).bank[b];
            if p.scheduled && BankOf(p.address) == b then
              && k.working && k.requestIndex == i && r.cycleAvailable == now
              && r.openRow == if k.cycleAvailable <= now + t.tCAS then RowOf(p.address) else UINT32_MAX
            else r == k
  {
    var p := Q(c, write).entry[i];
    assert OwnsBank(Q(c, write).entry, c.bank, i);
    if p.scheduled {
      var k := c.bank[BankOf(p.address)];
      assert BankOk(t, Q(c, write).entry, k, write, c.bus, BankOf(p.address));
      NoWrap(k.cycleAvailable, t.tCAS);
    }
  }

  /** A mode switch keeps the row of a cancelled access open exactly when its activation was over, closes it
      otherwise, and leaves idle banks alone. */
  lemma SwitchKeepsRowsExactly(t: Timing, s: Channel, now: nat, b: nat)
    requires Valid(t, s) && Switching(s) && b < BANKS && s.bus <= UINT64_MAX
    ensures var k, r := s.bank[b], SwitchMode(t, s, now).bank[b];
            if k.working then
              && r.cycleAvailable == now
              && r.openRow == if k.cycleAvailable <= now + t.tCAS
                              then RowOf(Q(s, s.writeMode).entry[k.requestIndex].address) else UINT32_MAX
            else r == k
  {
    assert BankOk(t, Q(s, s.writeMode).entry, s.bank[b], s.writeMode, s.bus, b);
    CancelledBank(t, s.(writeMode := !s.writeMode), s.writeMode, now, QUEUE_SIZE, b);
    hide CancelUpTo, BanksOk, QueueOk, PendingKeys, ScheduledKeys;
  }

  // ---------- the data bus ----------

  /** A request completes in this cycle. */
  predicate Completes(t: Timing, s: Channel, now: nat)
    requires Shaped(s)
  {
    Occupancy(Operate(t, s, now)) < Occupancy(s)
  }

  /** A completion takes the bus for busReturn cycles, and finds it free; every cycle leaves the bus as it is, or
      moves it on. */
  lemma BusAdvances(t: Timing, s: Channel, now: nat)
    requires Valid(t, s) && Admissible(t, Tick(now))
    ensures var r := Operate(t, s, now);
            && s.bus <= r.bus
            && (Completes(t, s, now) ==> s.bus <= now && r.bus == now + t.busReturn)
  {
    hide QueueOk, BanksOk, PendingKeys, ScheduledKeys, SwitchMode, TrySchedule, TryProcess;
    var s1 := SwitchSettles(t, s, now);
    var s2 := SchedulingKeepsOccupancy(t, s1, now);
    SchedulingKeepsBus(t, s1, now);
    var r, completes, i := ProcessShape(t, s2, now);
  }

  lemma SchedulingKeepsBus(t: Timing, s: Channel, now: nat)
    requires Shaped(s)
    ensures TrySchedule(t, s, now).bus == s.bus
  {
  }

  lemma {:induction false} BusNeverGoesBack(t: Timing, s: Channel, es: seq<Event>)
    requires Valid(t, s) && forall e :: e in es ==> Admissible(t, e)
    ensures Valid(t, Run(t, s, es)) && s.bus <= Run(t, s, es).bus
  {
    hide QueueOk, BanksOk, Operate;
    if es != [] {
      var before, e := es[..|es| - 1], es[|es| - 1];
      BusNeverGoesBack(t, s, before);
      StepIsValid(t, Run(t, s, before), e);
      if e.Tick? { BusAdvances(t, Run(t, s, before), e.now); }
    }
  }

  /** Over every run two completions are at least busReturn cycles apart, reads and writes alike. */
  lemma CompletionsAreApart(t: Timing, s: Channel, now: nat, es: seq<Event>, now': nat)
    requires Valid(t, s) && Admissible(t, Tick(now)) && Admissible(t, Tick(now'))
    requires forall e :: e in es ==> Admissible(t, e)
    requires Completes(t, s, now) && Completes(t, Run(t, Operate(t, s, now), es), now')
    ensures now + t.busReturn <= now'
  {
    OperateKeeps(t, s, now);
    hide QueueOk, BanksOk, Operate, Run;
    BusAdvances(t, s, now);
    BusNeverGoesBack(t, Operate(t, s, now), es);
    BusAdvances(t, Run(t, Operate(t, s, now), es), now');
  }

  /** A request whose data is due waits for the bus until the bank itself says so. */
  lemma DueCompletesExactly(t: Timing, s: Channel, now: nat)
    requires Valid(t, s) && now < UINT64_MAX && Q(s, s.writeMode).nextProcessCycle <= now
    ensures var i := Q(s, s.writeMode).nextProcessIndex; i < QUEUE_SIZE && Q(s, s.writeMode).entry[i].scheduled
    ensures var b := BankOf(Q(s, s.writeMode).entry[Q(s, s.writeMode).nextProcessIndex].address);
            var r := TryProcess(t, s, now);
            && (Occupancy(r) == Occupancy(s) - 1 <==> s.bank[b].cycleAvailable <= now && s.bus <= now)
            && (s.bank[b].cycleAvailable <= now < s.bus ==> r.bank[b].cycleAvailable == s.bus)
  {
    var q := Q(s, s.writeMode);
    NextProcess(q);
    hide QueueOk, BanksOk, PendingKeys, ScheduledKeys;
  }
}
