/** That requests are served: refused fills come back whole, no fill starves, no waiting load is lost. */
module CacheService {
  import opened FirstMin
  import opened CacheSet
  import opened LruOrder
  import opened CacheModel
  import opened CacheInvariant
  import opened CacheProvenance

  // ---------- refused speculative fills ----------

  /** A speculative fill is refused exactly when every way of its set holds a block no younger. It then comes
      back as the one register of its address, with its waiters, data complete and now as its cycle; nothing
      else in the cache changes. */
  lemma RefusedFillReturns(c: Config, s: State, now: nat, full: bool) returns (j: nat)
    requires Valid(c, s) && now < UINT64_MAX && FillReady(c, s, now) && s.mshr.entry[s.mshr.nextIndex].speculative
    ensures var t := HandleFill(c, s, now, full);
            var i, e := s.mshr.nextIndex, s.mshr.entry[s.mshr.nextIndex];
            if NoYounger(s.spec[e.address % c.specSets], e.id) < c.specWays then
              t.served == s.served + [e] && Slot(t.mshr.entry, e.address) == c.mshrSize
            else
              && j < c.mshrSize && t == s.(mshr := t.mshr) && t.mshr.occupancy == s.mshr.occupancy
              && t.mshr.entry == s.mshr.entry[i := EMPTY][j := e.(event := now)] && Slot(t.mshr.entry, e.address) == j
  {
    hide Find, Cycle, QueueOk, KeyedOk, RowsRanked, TimestampVictim, SpecFill;
    CandidateIsFirst(s.mshr);
    var i, e := s.mshr.nextIndex, s.mshr.entry[s.mshr.nextIndex];
    AdmittedExactly(s.spec[e.address % c.specSets], e.id);
    RemoveKeeps(s.mshr, i);
    AddKeeps(Remove(s.mshr, i), e.(event := now));
    j := Slot(Remove(s.mshr, i).entry, 0);
    if NoYounger(s.spec[e.address % c.specSets], e.id) == c.specWays {
      OneRegister(s.mshr.entry[i := EMPTY], e.(event := now), j);
    }
  }

  lemma OneRegister(entry: seq<Packet>, p: Packet, j: nat)
    requires j < |entry| && Slot(entry, p.address) == |entry|
    ensures Slot(entry[j := p], p.address) == j
  {
    SlotIsSlot(entry, p.address);
    FirstIs(At(entry[j := p], p.address), j);
  }

  // ---------- no fill starves ----------

  function Counted(e: Packet, address: nat, v: nat): nat {
    if e.done && e.event <= v && e.address != address then 1 else 0
  }

  /** Registers with data, other than the one for this address, that are due by cycle v. */
  function Ahead(entry: seq<Packet>, address: nat, v: nat): nat {
    if entry == [] then 0 else
    Ahead(entry[..|entry| - 1], address, v) + Counted(entry[|entry| - 1], address, v)
  }

  lemma {:induction false} AheadUpdate(entry: seq<Packet>, i: nat, p: Packet, address: nat, v: nat)
    requires i < |entry|
    ensures Ahead(entry[i := p], address, v) + Counted(entry[i], address, v)
         == Ahead(entry, address, v) + Counted(p, address, v)
  {
    var n := |entry| - 1;
    if i < n {
      AheadUpdate(entry[..n], i, p, address, v);
      assert entry[i := p][..n] == entry[..n][i := p];
    } else {
      assert entry[i := p][..n] == entry[..n];
    }
  }

  /** The register for this address holds data due at cycle v. */
  ghost predicate Due(c: Config, s: State, address: nat, v: nat)
    requires Shaped(c, s)
  {
    var i := Slot(s.mshr.entry, address);
    i < c.mshrSize && s.mshr.entry[i].done && s.mshr.entry[i].event == v
  }

  ghost predicate Tries(c: Config, s: State, e: Event, address: nat)
    requires Shaped(c, s)
  {
    e.Fills? && FillReady(c, s, e.now) && s.mshr.entry[s.mshr.nextIndex].address == address
  }

  /** Events after cycle v, with room for writebacks in the level below and no second answer for the address. */
  ghost predicate Later(e: Event, address: nat, v: nat) {
    match e
    case Fills(now, full) => now > v && !full
    case DataReturns(p, now) => now > v && p.address != address
    case _ => true
  }

  lemma SlotAfterUpdate(entry: seq<Packet>, i: nat, p: Packet, address: nat)
    requires i < |entry| && DistinctAddresses(entry) && DistinctAddresses(entry[i := p]) && address != 0
    requires entry[i].address != address
    requires p.address == entry[i].address || p.address == 0 || (entry[i].address == 0 && p.address != address)
    ensures Slot(entry[i := p], address) == Slot(entry, address)
  {
    SlotIsSlot(entry, address);
    FirstIs(At(entry[i := p], address), Slot(entry, address));
  }

  lemma SlotAfterMerge(entry: seq<Packet>, i: nat, p: Packet, address: nat)
    requires i < |entry| && p.address == entry[i].address
    ensures Slot(entry[i := p], address) == Slot(entry, address)
  {
    assert At(entry[i := p], address) == At(entry, address);
  }

  /** A new miss or a merge neither moves the register nor brings in data. */
  lemma MissKeepsDue(c: Config, s: State, p: Packet, merge: (Packet, Packet) -> Packet, lowerFull: bool, address: nat,
                     v: nat)
    requires Shaped(c, s) && MshrOk(s.mshr) && p.address != 0 && !MissStalls(c, s, p, lowerFull)
    requires forall e: Packet :: e.address == p.address ==>
               var r := merge(e, p); r.address == e.address && r.done == e.done && r.event == e.event
    requires Due(c, s, address, v) && address != 0
    ensures var t := s.(mshr := Miss(c, s, p, merge));
            Due(c, t, address, v) && Ahead(t.mshr.entry, address, v) == Ahead(s.mshr.entry, address, v)
  {
    var m := s.mshr;
    var i := Slot(m.entry, p.address);
    SlotIsSlot(m.entry, p.address);
    SlotIsSlot(m.entry, address);
    if i < c.mshrSize {
      SlotAfterMerge(m.entry, i, merge(m.entry[i], p), address);
      AheadUpdate(m.entry, i, merge(m.entry[i], p), address, v);
    } else {
      AddKeeps(m, p.(done := false));
      var j := Slot(m.entry, 0);
      AheadUpdate(m.entry, j, p.(done := false), address, v);
      SlotAfterUpdate(m.entry, j, p.(done := false), address);
    }
  }

  /** A fill for another address takes one register out of the way. */
  lemma FillAdvances(c: Config, s: State, now: nat, address: nat, v: nat)
    requires Valid(c, s) && Due(c, s, address, v) && address != 0 && v < now < UINT64_MAX
    requires !Tries(c, s, Fills(now, false), address)
    ensures Due(c, HandleFill(c, s, now, false), address, v)
    ensures Ahead(HandleFill(c, s, now, false).mshr.entry, address, v) < Ahead(s.mshr.entry, address, v)
  {
    hide QueueOk, KeyedOk, Find, Cycle, SpecFill, TimestampVictim, Install;
    var m := s.mshr;
    SlotIsSlot(m.entry, address);
    CandidateExists(m, Slot(m.entry, address));
    CandidateIsFirst(m);
    var i := m.nextIndex;
    var e := m.entry[i];
    assert FillReady(c, s, now) && e.address != address;
    RemoveKeeps(m, i);
    AheadUpdate(m.entry, i, EMPTY, address, v);
    SlotAfterUpdate(m.entry, i, EMPTY, address);
    if !e.speculative {
      hide MshrOk;
      InstallKeeps(c, s, e, DirtyFill(c, e));
      InstallFrame(c, s, e, DirtyFill(c, e));
    } else {
      var p := e.(done := true, event := now);
      var r := Remove(m, i);
      AddKeeps(r, p);
      var j := Slot(r.entry, 0);
      AheadUpdate(r.entry, j, p, address, v);
      SlotAfterUpdate(r.entry, j, p, address);
    }
  }

  lemma ReturnKeepsDue(c: Config, s: State, p: Packet, now: nat, address: nat, v: nat)
    requires Valid(c, s) && Enabled(c, s, DataReturns(p, now)) && Due(c, s, address, v) && address != 0
    requires Later(DataReturns(p, now), address, v)
    ensures Due(c, Return(c, s, p, now), address, v)
    ensures Ahead(Return(c, s, p, now).mshr.entry, address, v) <= Ahead(s.mshr.entry, address, v)
  {
    hide QueueOk, KeyedOk, Find, Cycle, RowsRanked;
    var m := s.mshr;
    var i := Slot(m.entry, p.address);
    SlotIsSlot(m.entry, p.address);
    SlotIsSlot(m.entry, address);
    var e := m.entry[i].(done := true, data := p.data, event := Delay(m.entry[i].event, now, c.latency));
    SlotAfterMerge(m.entry, i, e, address);
    AheadUpdate(m.entry, i, e, address, v);
  }

  lemma OtherStepsKeepDue(c: Config, s: State, e: Event, address: nat, v: nat)
    requires Valid(c, s) && Enabled(c, s, e) && Due(c, s, address, v) && address != 0
    requires !e.Fills? && !e.DataReturns?
    ensures Due(c, Step(c, s, e), address, v)
    ensures Ahead(Step(c, s, e).mshr.entry, address, v) <= Ahead(s.mshr.entry, address, v)
  {
    hide MshrOk, RowsRanked, Find, Cycle, Miss, MissStalls, Hit, SpecHit, Blocked, Ahead, Touch, MarkDirty, JoinRq,
      JoinPq, LruVictim, Put;
    match e
    case Writes(now, full) =>
      if HeadReady(s.wq, now) && !MissStalls(c, s, s.wq[0], false) {
        MissKeepsDue(c, s, s.wq[0], MergeWrite, false, address, v);
      }
    case Reads(now, full) =>
      var lowerFull := c.level.LLC? && full;
      if HeadReady(s.rq, now) && !MissStalls(c, s, s.rq[0], lowerFull) {
        MissKeepsDue(c, s, s.rq[0], MergeRead, lowerFull, address, v);
      }
    case Prefetches(now, full) =>
      if HeadReady(s.pq, now) && !MissStalls(c, s, s.pq[0], full) {
        MissKeepsDue(c, s, s.pq[0], Wider, full, address, v);
      }
    case _ =>
  }

  ghost predicate TriedIn(c: Config, s: State, es: seq<Event>, address: nat)
    requires Shaped(c, s)
    decreases |es|
  {
    es != [] && Enabled(c, s, es[0]) && (Tries(c, s, es[0], address) || TriedIn(c, Step(c, s, es[0]), es[1..], address))
  }

  function FillCount(es: seq<Event>): nat {
    if es == [] then 0 else (if es[0].Fills? then 1 else 0) + FillCount(es[1..])
  }

  lemma StepTowardsFill(c: Config, s: State, e: Event, address: nat, v: nat)
    requires Valid(c, s) && Enabled(c, s, e) && Due(c, s, address, v) && address != 0 && Later(e, address, v)
    requires !Tries(c, s, e, address)
    ensures Valid(c, Step(c, s, e)) && Due(c, Step(c, s, e), address, v)
    ensures Ahead(Step(c, s, e).mshr.entry, address, v) + (if e.Fills? then 1 else 0) <= Ahead(s.mshr.entry, address, v)
  {
    StepKeeps(c, s, e);
    hide MshrOk, RowsRanked, QueueOk, KeyedOk, Due, Ahead;
    match e
    case Fills(now, full) => FillAdvances(c, s, now, address, v);
    case DataReturns(p, now) => ReturnKeepsDue(c, s, p, now, address, v);
    case _ => OtherStepsKeepDue(c, s, e, address, v);
  }

  /** Over every run: once data has returned, the fill is attempted after at most as many other fills as there
      are registers due no later, refused speculative fills included, however often those come back. */
  lemma {:induction false} NoFillStarves(c: Config, s: State, es: seq<Event>, t: State, address: nat, v: nat)
    requires Valid(c, s) && Reaches(c, s, es, t) && Due(c, s, address, v) && address != 0
    requires forall e :: e in es ==> Later(e, address, v)
    requires FillCount(es) > Ahead(s.mshr.entry, address, v)
    ensures TriedIn(c, s, es, address)
    decreases |es|
  {
    assert Later(es[0], address, v);
    hide MshrOk, RowsRanked, QueueOk, KeyedOk, Step, Enabled, Due, Ahead, Tries, Later;
    if !Tries(c, s, es[0], address) {
      StepTowardsFill(c, s, es[0], address, v);
      assert forall e :: e in es[1..] ==> e in es;
      NoFillStarves(c, Step(c, s, es[0]), es[1..], t, address, v);
    }
  }

  /** A normal fill in front whose victim is dirty, with the write queue below full, holds up all others. */
  lemma BlockedFillHoldsUpAll(c: Config, s: State, now: nat)
    requires Valid(c, s) && FillReady(c, s, now) && !s.mshr.entry[s.mshr.nextIndex].speculative
    ensures var e := s.mshr.entry[s.mshr.nextIndex];
            var row := s.normal[e.address % c.sets];
            LruVictim(row) < c.ways && (HandleFill(c, s, now, true) == s <==> row[LruVictim(row)].line.dirty)
  {
    hide Find, Cycle, QueueOk, KeyedOk, MshrOk;
    var e := s.mshr.entry[s.mshr.nextIndex];
    InstallKeeps(c, s, e, DirtyFill(c, e));
    assert |Install(c, s, e, DirtyFill(c, e)).served| == |s.served| + 1;
  }

  // ---------- waiting loads ----------

  /** The load slots that an answer with this packet wakes up. */
  function Wakes(p: Packet): set<nat> { p.waiters + (if p.kind == Load then {p.slot} else {}) }

  ghost predicate In(q: seq<Packet>, address: nat, slot: nat) {
    exists i :: 0 <= i < |q| && q[i].address == address && slot in Wakes(q[i])
  }

  /** The load still waits here, or its answer has gone out. */
  ghost predicate Remembered(s: State, address: nat, slot: nat) {
    In(s.rq, address, slot) || In(s.mshr.entry, address, slot) || In(s.served, address, slot)
  }

  /** What the core sends to its own caches. */
  predicate FromCore(e: Event) {
    match e
    case ReadArrives(p, _) => (p.kind == Load || p.kind == Rfo) && p.waiters == {}
    case WriteArrives(p, _) => (p.kind == Rfo || p.kind == Writeback) && p.waiters == {}
    case PrefetchArrives(p, _) => p.kind == Prefetch && p.waiters == {}
    case _ => true
  }

  ghost predicate NoWaiters(q: seq<Packet>, kinds: set<Kind>) {
    forall i :: 0 <= i < |q| && q[i].kind in kinds ==> q[i].waiters == {}
  }

  /** Nothing waits behind a prefetch or a write that could be overtaken. */
  ghost predicate PlainOk(s: State) {
    && NoWaiters(s.mshr.entry, {Prefetch}) && NoWaiters(s.pq, {Load, Rfo, Prefetch, Writeback, CommitLoad, SquashLoad})
    && NoWaiters(s.wq, {Load, Rfo, Prefetch, Writeback, CommitLoad, SquashLoad})
    && (forall i :: 0 <= i < |s.rq| ==> s.rq[i].kind == Load || s.rq[i].kind == Rfo)
    && (forall i :: 0 <= i < |s.wq| ==> s.wq[i].kind == Rfo || s.wq[i].kind == Writeback)
    && (forall i :: 0 <= i < |s.pq| ==> s.pq[i].kind == Prefetch)
  }

  lemma InUpdate(q: seq<Packet>, i: nat, p: Packet, address: nat, slot: nat)
    requires i < |q| && In(q, address, slot)
    requires q[i].address == address && slot in Wakes(q[i]) ==> p.address == address && slot in Wakes(p)
    ensures In(q[i := p], address, slot)
  {
    var k :| 0 <= k < |q| && q[k].address == address && slot in Wakes(q[k]);
    assert q[i := p][k].address == address && slot in Wakes(q[i := p][k]);
  }

  lemma InAppend(q: seq<Packet>, p: Packet, address: nat, slot: nat)
    ensures In(q, address, slot) || (p.address == address && slot in Wakes(p)) ==> In(q + [p], address, slot)
  {
    if In(q, address, slot) {
      var k :| 0 <= k < |q| && q[k].address == address && slot in Wakes(q[k]);
      assert (q + [p])[k] == q[k];
    } else if p.address == address && slot in Wakes(p) {
      assert (q + [p])[|q|] == p;
    }
  }

  lemma InPop(q: seq<Packet>, address: nat, slot: nat)
    requires In(q, address, slot)
    ensures In(q[1..], address, slot) || (q[0].address == address && slot in Wakes(q[0]))
  {
    var k :| 0 <= k < |q| && q[k].address == address && slot in Wakes(q[k]);
    if k > 0 { assert q[1..][k - 1] == q[k]; }
  }

  /** A miss keeps every load that waits and takes on those of the request. */
  lemma MissRemembers(c: Config, s: State, p: Packet, merge: (Packet, Packet) -> Packet, full: bool, address: nat,
                      slot: nat)
    requires Shaped(c, s) && MshrOk(s.mshr) && p.address != 0 && !MissStalls(c, s, p, full) && address != 0
    requires var i := Slot(s.mshr.entry, p.address);
             i < c.mshrSize ==> (var e := s.mshr.entry[i];
               merge(e, p).address == e.address && Wakes(e) + Wakes(p) <= Wakes(merge(e, p)))
    ensures In(s.mshr.entry, address, slot) || (p.address == address && slot in Wakes(p))
            ==> In(Miss(c, s, p, merge).entry, address, slot)
  {
    var m := s.mshr;
    var i := Slot(m.entry, p.address);
    SlotIsSlot(m.entry, p.address);
    if i < c.mshrSize {
      if In(m.entry, address, slot) {
        InUpdate(m.entry, i, merge(m.entry[i], p), address, slot);
      } else if p.address == address && slot in Wakes(p) {
        assert m.entry[i := merge(m.entry[i], p)][i].address == address;
      }
    } else {
      var q := p.(done := false);
      AddKeeps(m, q);
      var j := Slot(m.entry, 0);
      if p.address == address && slot in Wakes(p) {
        assert m.entry[j := q][j] == q && slot in Wakes(q);
      } else if In(m.entry, address, slot) {
        var k :| 0 <= k < |m.entry| && m.entry[k].address == address && slot in Wakes(m.entry[k]);
        if k != j { assert m.entry[j := q][k] == m.entry[k]; }
      }
    }
  }

  lemma FillRemembers(c: Config, s: State, now: nat, full: bool, address: nat, slot: nat)
    requires Valid(c, s) && now < UINT64_MAX && Remembered(s, address, slot) && address != 0
    ensures Remembered(HandleFill(c, s, now, full), address, slot)
  {
    hide QueueOk, KeyedOk, RowsRanked, Find, Cycle, TimestampVictim, SpecFill, Install, Wakes;
    if FillReady(c, s, now) {
      CandidateIsFirst(s.mshr);
      var i, e := s.mshr.nextIndex, s.mshr.entry[s.mshr.nextIndex];
      RemoveKeeps(s.mshr, i);
      InAppend(s.served, e, address, slot);
      if !e.speculative {
        if !Blocked(c, s, e, full) { InstallFrame(c, s, e, DirtyFill(c, e)); InstallServes(c, s, e, DirtyFill(c, e)); }
      } else {
        var r := Remove(s.mshr, i);
        var p := e.(done := true, event := now);
        AddKeeps(r, p);
        assert Wakes(p) == Wakes(e) by { WakesSame(e, p); }
        var j := Slot(r.entry, 0);
        if e.address == address && slot in Wakes(e) { assert Add(r, p).entry[j] == p; }
      }
      if In(s.mshr.entry, address, slot) && !(e.address == address && slot in Wakes(e)) {
        InUpdate(s.mshr.entry, i, EMPTY, address, slot);
        if e.speculative {
          var r := Remove(s.mshr, i);
          var j := Slot(r.entry, 0);
          InUpdate(r.entry, j, e.(done := true, event := now), address, slot);
        }
      }
    }
  }

  lemma InstallServes(c: Config, s: State, p: Packet, dirty: bool)
    requires Shaped(c, s) && LruVictim(s.normal[p.address % c.sets]) < c.ways
    ensures Install(c, s, p, dirty).served == s.served + [p]
  {
  }

  lemma WakesSame(e: Packet, p: Packet)
    requires p.waiters == e.waiters && p.kind == e.kind && p.slot == e.slot
    ensures Wakes(p) == Wakes(e)
  {
  }

  lemma WriteRemembers(c: Config, s: State, now: nat, full: bool, address: nat, slot: nat)
    requires Valid(c, s) && PlainOk(s) && Remembered(s, address, slot) && address != 0
    ensures Remembered(HandleWriteback(c, s, now, full), address, slot)
  {
    hide MshrOk, QueueOk, RowsRanked, Install, Miss, MissStalls, Hit, Find, Cycle, In;
    if HeadReady(s.wq, now) {
      var p := s.wq[0];
      InAppend(s.served, p, address, slot);
      SlotIsSlot(s.mshr.entry, p.address);
      if !MissStalls(c, s, p, false) { MissRemembers(c, s, p, MergeWrite, false, address, slot); }
      if !Blocked(c, s, p, full) { InstallFrame(c, s, p, true); InstallServes(c, s, p, true); }
    }
  }

  lemma ReadRemembers(c: Config, s: State, now: nat, full: bool, address: nat, slot: nat)
    requires Valid(c, s) && PlainOk(s) && Remembered(s, address, slot) && address != 0
    ensures Remembered(HandleRead(c, s, now, full), address, slot)
  {
    hide MshrOk, KeyedOk, RowsRanked, Miss, MissStalls, Hit, SpecHit, Find, Cycle, In;
    if HeadReady(s.rq, now) {
      var p := s.rq[0];
      var lowerFull := c.level.LLC? && full;
      InAppend(s.served, p, address, slot);
      if In(s.rq, address, slot) { InPop(s.rq, address, slot); }
      SlotIsSlot(s.mshr.entry, p.address);
      if !MissStalls(c, s, p, lowerFull) { MissRemembers(c, s, p, MergeRead, lowerFull, address, slot); }
    }
  }

  lemma PrefetchRemembers(c: Config, s: State, now: nat, full: bool, address: nat, slot: nat)
    requires Valid(c, s) && PlainOk(s) && Remembered(s, address, slot) && address != 0
    ensures Remembered(HandlePrefetch(c, s, now, full), address, slot)
  {
    hide MshrOk, KeyedOk, RowsRanked, Miss, MissStalls, Hit, Find, Cycle, In;
    if HeadReady(s.pq, now) {
      var p := s.pq[0];
      InAppend(s.served, p, address, slot);
      if !MissStalls(c, s, p, full) { MissRemembers(c, s, p, Wider, full, address, slot); }
    }
  }

  lemma ArrivalRemembers(c: Config, s: State, e: Event, address: nat, slot: nat)
    requires Valid(c, s) && Enabled(c, s, e) && Remembered(s, address, slot) && address != 0
    requires e.ReadArrives? || e.WriteArrives? || e.PrefetchArrives? || e.CommitArrives? || e.DataReturns?
    ensures Remembered(Step(c, s, e), address, slot)
  {
    hide MshrOk, KeyedOk, RowsRanked, QueueOk, Find, Cycle, In;
    match e
    case ReadArrives(p, now) =>
      match RqOutcome(c, s, p) {
        case Forwarded => InAppend(s.served, FromWrite(c, s, p), address, slot);
        case Merged =>
          if In(s.rq, address, slot) {
            var i := Slot(s.rq, p.address);
            InUpdate(s.rq, i, AddRq(c, s, p, now).rq[i], address, slot);
          }
        case Queued => InAppend(s.rq, Late(c, p, now), address, slot);
        case Refused =>
      }
    case PrefetchArrives(p, now) =>
      if PqOutcome(c, s, p).Forwarded? { InAppend(s.served, FromWrite(c, s, p), address, slot); }
    case DataReturns(p, now) =>
      if In(s.mshr.entry, address, slot) {
        var i := Slot(s.mshr.entry, p.address);
        InUpdate(s.mshr.entry, i, Return(c, s, p, now).mshr.entry[i], address, slot);
      }
    case _ =>
  }

  lemma CommitRemembers(c: Config, s: State, address: nat, slot: nat)
    requires Shaped(c, s) && Remembered(s, address, slot)
    ensures Remembered(CommitOne(c, s), address, slot)
  {
    hide In, SpecHit, LruVictim;
  }

  lemma StepRemembers(c: Config, s: State, e: Event, address: nat, slot: nat)
    requires Valid(c, s) && PlainOk(s) && Enabled(c, s, e) && Remembered(s, address, slot) && address != 0
    ensures Remembered(Step(c, s, e), address, slot)
  {
    hide PlainOk, MshrOk, KeyedOk, RowsRanked, QueueOk, In;
    match e
    case Fills(now, full) => FillRemembers(c, s, now, full, address, slot);
    case Writes(now, full) => WriteRemembers(c, s, now, full, address, slot);
    case Reads(now, full) => ReadRemembers(c, s, now, full, address, slot);
    case Prefetches(now, full) => PrefetchRemembers(c, s, now, full, address, slot);
    case Commits => CommitRemembers(c, s, address, slot);
    case Invalidated(gone) => assert Invalidate(c, s, gone).served == s.served;
    case _ => ArrivalRemembers(c, s, e, address, slot);
  }

  // ---------- only demand requests collect waiters ----------

  lemma MissKeepsPlain(c: Config, s: State, p: Packet, merge: (Packet, Packet) -> Packet)
    requires Shaped(c, s) && NoWaiters(s.mshr.entry, {Prefetch}) && (p.kind == Prefetch ==> p.waiters == {})
    requires var i := Slot(s.mshr.entry, p.address);
             i < c.mshrSize ==> (merge(s.mshr.entry[i], p).kind == Prefetch ==>
               s.mshr.entry[i].kind == Prefetch && merge(s.mshr.entry[i], p).waiters == {})
    ensures NoWaiters(Miss(c, s, p, merge).entry, {Prefetch})
  {
  }

  lemma StepKeepsPlain(c: Config, s: State, e: Event)
    requires Valid(c, s) && PlainOk(s) && Enabled(c, s, e) && FromCore(e)
    ensures PlainOk(Step(c, s, e))
  {
    match e
    case Fills(now, full) => FillKeepsPlain(c, s, now, full);
    case Writes(now, full) => WriteKeepsPlain(c, s, now, full);
    case Reads(now, full) => ReadKeepsPlain(c, s, now, full);
    case Prefetches(now, full) => PrefetchKeepsPlain(c, s, now, full);
    case Commits => assert CommitOne(c, s).rq == s.rq;
    case Invalidated(address) => assert Invalidate(c, s, address).rq == s.rq;
    case _ => ArrivalKeepsPlain(c, s, e);
  }

  lemma ArrivalKeepsPlain(c: Config, s: State, e: Event)
    requires Shaped(c, s) && PlainOk(s) && Enabled(c, s, e) && FromCore(e)
    requires e.ReadArrives? || e.WriteArrives? || e.PrefetchArrives? || e.CommitArrives? || e.DataReturns?
    ensures PlainOk(Step(c, s, e))
  {
    hide Find, Cycle, First;
  }

  lemma WriteKeepsPlain(c: Config, s: State, now: nat, full: bool)
    requires Shaped(c, s) && PlainOk(s)
    ensures PlainOk(HandleWriteback(c, s, now, full))
  {
    hide Miss, MissStalls, Hit, LruVictim;
    if HeadReady(s.wq, now) { MissKeepsPlain(c, s, s.wq[0], MergeWrite); }
  }

  lemma ReadKeepsPlain(c: Config, s: State, now: nat, full: bool)
    requires Shaped(c, s) && PlainOk(s)
    ensures PlainOk(HandleRead(c, s, now, full))
  {
    hide Miss, MissStalls, Hit, SpecHit;
    if HeadReady(s.rq, now) { MissKeepsPlain(c, s, s.rq[0], MergeRead); }
  }

  lemma PrefetchKeepsPlain(c: Config, s: State, now: nat, full: bool)
    requires Shaped(c, s) && PlainOk(s)
    ensures PlainOk(HandlePrefetch(c, s, now, full))
  {
    hide Miss, MissStalls, Hit;
    if HeadReady(s.pq, now) { MissKeepsPlain(c, s, s.pq[0], Wider); }
  }

  lemma FillKeepsPlain(c: Config, s: State, now: nat, full: bool)
    requires Valid(c, s) && PlainOk(s)
    ensures PlainOk(HandleFill(c, s, now, full))
  {
    hide MshrOk, KeyedOk, RowsRanked, QueueOk, Find, Cycle, TimestampVictim, SpecFill, Install;
    if FillReady(c, s, now) {
      var e := s.mshr.entry[s.mshr.nextIndex];
      if !e.speculative && !Blocked(c, s, e, full) { InstallFrame(c, s, e, DirtyFill(c, e)); }
    }
  }

  /** The loads an event brings in, unless the read queue turns the request away. */
  ghost predicate Accepts(c: Config, s: State, e: Event, address: nat, slot: nat)
    requires Shaped(c, s)
  {
    e.ReadArrives? && e.p.kind == Load && e.p.address == address && e.p.slot == slot && !RqOutcome(c, s, e.p).Refused?
  }

  ghost predicate AcceptedIn(c: Config, s: State, es: seq<Event>, address: nat, slot: nat)
    requires Shaped(c, s)
    decreases |es|
  {
    es != [] && Enabled(c, s, es[0])
    && (Accepts(c, s, es[0], address, slot) || AcceptedIn(c, Step(c, s, es[0]), es[1..], address, slot))
  }

  lemma AcceptedIsRemembered(c: Config, s: State, e: Event, address: nat, slot: nat)
    requires Valid(c, s) && Enabled(c, s, e) && Accepts(c, s, e, address, slot)
    ensures Remembered(Step(c, s, e), address, slot)
  {
    hide MshrOk, KeyedOk, RowsRanked, Find, Cycle;
    var p := e.p;
    match RqOutcome(c, s, p) {
      case Forwarded => InAppend(s.served, FromWrite(c, s, p), address, slot);
      case Merged =>
        SlotIsSlot(s.rq, p.address);
        var i := Slot(s.rq, p.address);
        assert slot in Wakes(AddRq(c, s, p, e.now).rq[i]);
      case Queued => InAppend(s.rq, Late(c, p, e.now), address, slot);
    }
  }

  /** Over every run of a cache the core talks to: each load accepted is still waiting in the read queue or in
      the miss register of its line, or the answer that wakes it has gone out. */
  lemma {:induction false} NoLoadIsLost(c: Config, s: State, es: seq<Event>, t: State, address: nat, slot: nat)
    requires Valid(c, s) && PlainOk(s) && Reaches(c, s, es, t) && forall e :: e in es ==> FromCore(e)
    requires Remembered(s, address, slot) || AcceptedIn(c, s, es, address, slot)
    requires address != 0
    ensures Remembered(t, address, slot)
    decreases |es|
  {
    if es != [] {
      var e := es[0];
      assert FromCore(e);
      assert forall f :: f in es[1..] ==> f in es;
      hide MshrOk, KeyedOk, RowsRanked, QueueOk, Step, Enabled, Remembered, PlainOk, Accepts, FromCore;
      StepKeeps(c, s, e);
      StepKeepsPlain(c, s, e);
      if Remembered(s, address, slot) { StepRemembers(c, s, e, address, slot); }
      if Accepts(c, s, e, address, slot) { AcceptedIsRemembered(c, s, e, address, slot); }
      NoLoadIsLost(c, Step(c, s, e), es[1..], t, address, slot);
    }
  }

  // ---------- commit messages ----------

  /** The messages the queue takes, in order; duplicates of a waiting line and messages at a full queue are
      not among them. */
  function Taken(c: Config, s: State, es: seq<Event>): seq<Packet>
    requires Shaped(c, s)
    decreases |es|
  {
    if es == [] || !Enabled(c, s, es[0]) then [] else
    (if es[0].CommitArrives? && CqOutcome(c, s, es[0].p).Queued? then [Late(c, es[0].p, es[0].now)] else [])
      + Taken(c, Step(c, s, es[0]), es[1..])
  }

  lemma StepQueuesMessages(c: Config, s: State, e: Event)
    requires Shaped(c, s) && Enabled(c, s, e)
    ensures Step(c, s, e).passed + Step(c, s, e).cq == s.passed + s.cq
              + (if e.CommitArrives? && CqOutcome(c, s, e.p).Queued? then [Late(c, e.p, e.now)] else [])
  {
    hide Find, Cycle, Miss, MissStalls, Hit, SpecHit, LruVictim, TimestampVictim, First;
    if e.Commits? && s.cq != [] {
      assert s.passed + s.cq == s.passed + [s.cq[0]] + s.cq[1..];
    }
  }

  /** Over every run: the messages handed on, then those waiting, are exactly those taken, in their order. */
  lemma {:induction false} MessagesKeepTheirOrder(c: Config, s: State, es: seq<Event>, t: State)
    requires Shaped(c, s) && Reaches(c, s, es, t)
    ensures t.passed + t.cq == s.passed + s.cq + Taken(c, s, es)
    decreases |es|
  {
    hide Step, Enabled, CqOutcome;
    if es != [] {
      StepQueuesMessages(c, s, es[0]);
      MessagesKeepTheirOrder(c, Step(c, s, es[0]), es[1..], t);
    }
  }
}
