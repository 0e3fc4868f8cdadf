/** Whether a level above gets its copy: what becomes of the fill_l1i and fill_l1d flags of requests. */
module CacheFlags {
  import opened FirstMin
  import opened CacheSet
  import opened LruOrder
  import opened CacheModel
  import opened CacheInvariant

  /** A flag to follow: of the requests for one line, those that ask for a copy in L1D, or in L1I. */
  datatype Flag = Flag(address: nat, l1d: bool)

  predicate Has(p: Packet, f: Flag) { p.address == f.address && if f.l1d then p.fillL1d else p.fillL1i }

  ghost predicate Carries(q: seq<Packet>, f: Flag) { exists i :: 0 <= i < |q| && Has(q[i], f) }

  ghost predicate Waits(s: State, f: Flag) {
    Carries(s.rq, f) || Carries(s.wq, f) || Carries(s.pq, f) || Carries(s.mshr.entry, f)
  }

  /** The flag still waits, or is part of an answer given since there were n. */
  ghost predicate Held(s: State, f: Flag, n: nat)
    requires n <= |s.served|
  {
    Waits(s, f) || Carries(s.served[n..], f)
  }

  // ---------- queues ----------

  lemma CarriesAppend(q: seq<Packet>, p: Packet, f: Flag)
    ensures Carries(q + [p], f) <==> Carries(q, f) || Has(p, f)
  {
    if Carries(q, f) {
      var i :| 0 <= i < |q| && Has(q[i], f);
      assert Has((q + [p])[i], f);
    }
    if Has(p, f) { assert Has((q + [p])[|q|], f); }
  }

  lemma CarriesPop(q: seq<Packet>, f: Flag)
    requires q != []
    ensures Carries(q, f) <==> Has(q[0], f) || Carries(q[1..], f)
  {
    if Carries(q, f) {
      var i :| 0 <= i < |q| && Has(q[i], f);
      if i > 0 { assert Has(q[1..][i - 1], f); }
    }
    if Carries(q[1..], f) {
      var i :| 0 <= i < |q| - 1 && Has(q[1..][i], f);
      assert Has(q[i + 1], f);
    }
  }

  lemma CarriesUpdate(q: seq<Packet>, i: nat, p: Packet, f: Flag)
    requires i < |q|
    ensures Has(p, f) ==> Carries(q[i := p], f)
    ensures Has(p, f) == Has(q[i], f) ==> (Carries(q[i := p], f) <==> Carries(q, f))
    ensures !Has(p, f) && DistinctAddresses(q) && q[i].address == f.address != 0 ==> !Carries(q[i := p], f)
  {
    var r := q[i := p];
    if Has(p, f) { assert Has(r[i], f); }
    if Carries(q, f) {
      var j :| 0 <= j < |q| && Has(q[j], f);
      if j != i { assert Has(r[j], f); }
    }
    if Carries(r, f) {
      var j :| 0 <= j < |q| && Has(r[j], f);
      if j != i { assert Has(q[j], f); }
    }
  }

  lemma HeldAfterAnswer(s: State, p: Packet, f: Flag, n: nat)
    requires n <= |s.served|
    ensures Carries((s.served + [p])[n..], f) <==> Carries(s.served[n..], f) || Has(p, f)
  {
    assert (s.served + [p])[n..] == s.served[n..] + [p];
    CarriesAppend(s.served[n..], p, f);
  }

  // ---------- events ----------

  /** The event brings a request with the flag, and the level takes it. */
  ghost predicate Brings(c: Config, s: State, e: Event, f: Flag)
    requires Shaped(c, s)
  {
    match e
    case ReadArrives(p, _) => Has(p, f) && !RqOutcome(c, s, p).Refused?
    case WriteArrives(p, _) => Has(p, f) && First(SameKey(c, s.wq, p)) == |s.wq|
    case PrefetchArrives(p, _) => Has(p, f) && !PqOutcome(c, s, p).Refused?
    case _ => false
  }

  /** A demand request without the flag takes over the register of a prefetch that has it. */
  ghost predicate TakesOver(c: Config, s: State, p: Packet, f: Flag)
    requires Shaped(c, s)
  {
    var i := Slot(s.mshr.entry, p.address);
    i < c.mshrSize && s.mshr.entry[i].kind == Prefetch && Has(s.mshr.entry[i], f) && !Has(p, f)
  }

  ghost predicate Overtakes(c: Config, s: State, e: Event, f: Flag)
    requires Shaped(c, s)
  {
    match e
    case Reads(now, _) =>
      && HeadReady(s.rq, now)
      && var p := s.rq[0];
      && Hit(s.normal[p.address % c.sets], p.address) == c.ways
      && SpecHit(s.spec[p.address % c.specSets], p.address, p.id) == c.specWays && TakesOver(c, s, p, f)
    case Writes(now, _) =>
      && c.level.L1D? && HeadReady(s.wq, now)
      && var p := s.wq[0];
      && Hit(s.normal[p.address % c.sets], p.address) == c.ways && TakesOver(c, s, p, f)
    case _ => false
  }

  /** A prefetch with the flag, meant for a level further down, is handed on there. */
  ghost predicate HandsDown(c: Config, s: State, e: Event, f: Flag)
    requires Shaped(c, s)
  {
    && e.Prefetches? && HeadReady(s.pq, e.now)
    && var p := s.pq[0];
    && Has(p, f) && p.fillLevel > c.fillLevel && Hit(s.normal[p.address % c.sets], p.address) == c.ways
    && Slot(s.mshr.entry, p.address) == c.mshrSize && !MissStalls(c, s, p, e.full)
  }

  /** The event takes the flag away from the only request that still carried it. */
  ghost predicate Loses(c: Config, s: State, e: Event, f: Flag, n: nat)
    requires Shaped(c, s) && n <= |s.served|
  {
    && !Carries(s.rq, f) && !Carries(s.wq, f) && !Carries(s.served[n..], f)
    && ((Overtakes(c, s, e, f) && !Carries(s.pq, f)) || (HandsDown(c, s, e, f) && !Carries(s.mshr.entry, f)))
  }

  lemma MissCarries(c: Config, s: State, p: Packet, merge: (Packet, Packet) -> Packet, full: bool, f: Flag)
    requires Shaped(c, s) && MshrOk(s.mshr) && p.address != 0 && !MissStalls(c, s, p, full) && f.address != 0
    requires forall e: Packet :: e.address == p.address ==> merge(e, p).address == e.address
    ensures var i := Slot(s.mshr.entry, p.address);
            Carries(Miss(c, s, p, merge).entry, f) <==>
              if i < c.mshrSize && p.address == f.address then Has(merge(s.mshr.entry[i], p), f)
              else Carries(s.mshr.entry, f) || Has(p, f)
  {
    var m := s.mshr;
    var i := Slot(m.entry, p.address);
    SlotIsSlot(m.entry, p.address);
    if i < c.mshrSize {
      CarriesUpdate(m.entry, i, merge(m.entry[i], p), f);
    } else {
      var q := p.(done := false);
      AddKeeps(m, q);
      CarriesUpdate(m.entry, Slot(m.entry, 0), q, f);
    }
  }

  lemma SlotCarries(c: Config, s: State, p: Packet, f: Flag)
    requires Shaped(c, s) && MshrOk(s.mshr) && p.address == f.address != 0
    ensures var i := Slot(s.mshr.entry, p.address);
            if i < c.mshrSize then
              s.mshr.entry[i].address == f.address && (Carries(s.mshr.entry, f) <==> Has(s.mshr.entry[i], f))
            else !Carries(s.mshr.entry, f)
  {
    SlotIsSlot(s.mshr.entry, p.address);
    var i := Slot(s.mshr.entry, p.address);
    if i < c.mshrSize { CarriesUpdate(s.mshr.entry, i, s.mshr.entry[i], f); }
  }

  lemma ReadHolds(c: Config, s: State, now: nat, full: bool, f: Flag, n: nat)
    requires Valid(c, s) && f.address != 0 && n <= |s.served|
    ensures var t := HandleRead(c, s, now, full);
            n <= |t.served| && (Held(t, f, n) <==> Held(s, f, n) && !Loses(c, s, Reads(now, full), f, n))
  {
    hide RowsRanked, KeyedOk, MshrOk, Miss, Find, Cycle, Carries, Slot;
    if HeadReady(s.rq, now) {
      var p := s.rq[0];
      CarriesPop(s.rq, f);
      SlotIsSlot(s.mshr.entry, p.address);
      HeldAfterAnswer(s, p, f, n);
      if !MissStalls(c, s, p, c.level.LLC? && full) {
        MissCarries(c, s, p, MergeRead, c.level.LLC? && full, f);
        if p.address == f.address { SlotCarries(c, s, p, f); }
      }
    }
  }

  lemma WriteHolds(c: Config, s: State, now: nat, full: bool, f: Flag, n: nat)
    requires Valid(c, s) && f.address != 0 && n <= |s.served|
    ensures var t := HandleWriteback(c, s, now, full);
            n <= |t.served| && (Held(t, f, n) <==> Held(s, f, n) && !Loses(c, s, Writes(now, full), f, n))
  {
    hide RowsRanked, QueueOk, MshrOk, Miss, Find, Cycle, Carries, Slot, Install, Blocked;
    if HeadReady(s.wq, now) {
      var p := s.wq[0];
      CarriesPop(s.wq, f);
      SlotIsSlot(s.mshr.entry, p.address);
      HeldAfterAnswer(s, p, f, n);
      if !MissStalls(c, s, p, false) {
        MissCarries(c, s, p, MergeWrite, false, f);
        if p.address == f.address { SlotCarries(c, s, p, f); }
      }
      if !Blocked(c, s, p, full) { InstallServes(c, s, p, true, full); }
    }
  }

  lemma InstallServes(c: Config, s: State, p: Packet, dirty: bool, full: bool)
    requires Shaped(c, s) && !Blocked(c, s, p, full)
    ensures var t := Install(c, s, p, dirty);
            t == s.(normal := t.normal, writebacks := t.writebacks, served := s.served + [p])
  {
  }

  lemma PrefetchHolds(c: Config, s: State, now: nat, full: bool, f: Flag, n: nat)
    requires Valid(c, s) && f.address != 0 && n <= |s.served|
    ensures var t := HandlePrefetch(c, s, now, full);
            n <= |t.served| && (Held(t, f, n) <==> Held(s, f, n) && !Loses(c, s, Prefetches(now, full), f, n))
  {
    hide RowsRanked, KeyedOk, MshrOk, Miss, Find, Cycle, Carries, Slot;
    if HeadReady(s.pq, now) {
      var p := s.pq[0];
      CarriesPop(s.pq, f);
      if Has(p, f) { OnlyTheHead(s.pq, f); }
      HeldAfterAnswer(s, p, f, n);
      if p.address == f.address { SlotCarries(c, s, p, f); }
      if !MissStalls(c, s, p, full) { MissCarries(c, s, p, Wider, full, f); }
    }
  }

  lemma OnlyTheHead(q: seq<Packet>, f: Flag)
    requires q != [] && DistinctAddresses(q) && Has(q[0], f) && f.address != 0
    ensures !Carries(q[1..], f)
  {
    forall i | 0 <= i < |q| - 1 ensures !Has(q[1..][i], f) { assert q[1..][i] == q[i + 1]; }
  }

  lemma FillHolds(c: Config, s: State, now: nat, full: bool, f: Flag, n: nat)
    requires Valid(c, s) && now < UINT64_MAX && f.address != 0 && n <= |s.served|
    ensures var t := HandleFill(c, s, now, full); n <= |t.served| && (Held(t, f, n) <==> Held(s, f, n))
  {
    hide RowsRanked, KeyedOk, QueueOk, Find, Cycle, Carries, Slot, Install, Blocked, SpecFill, TimestampVictim;
    if FillReady(c, s, now) {
      CandidateIsFirst(s.mshr);
      var i, e := s.mshr.nextIndex, s.mshr.entry[s.mshr.nextIndex];
      var r, p := Remove(s.mshr, i), e.(done := true, event := now);
      RemoveKeeps(s.mshr, i);
      AddKeeps(r, p);
      CarriesUpdate(s.mshr.entry, i, e, f);
      CarriesUpdate(s.mshr.entry, i, EMPTY, f);
      CarriesUpdate(r.entry, Slot(r.entry, 0), p, f);
      HeldAfterAnswer(s, e, f, n);
      if !e.speculative && !Blocked(c, s, e, full) { InstallServes(c, s, e, DirtyFill(c, e), full); }
    }
  }

  lemma ArrivalHolds(c: Config, s: State, e: Event, f: Flag, n: nat)
    requires Valid(c, s) && Enabled(c, s, e) && f.address != 0 && n <= |s.served|
    requires e.ReadArrives? || e.WriteArrives? || e.PrefetchArrives? || e.CommitArrives? || e.DataReturns?
    ensures var t := Step(c, s, e); n <= |t.served| && (Held(t, f, n) <==> Held(s, f, n) || Brings(c, s, e, f))
  {
    hide RowsRanked, KeyedOk, MshrOk, Find, Cycle, Carries, Slot, First;
    match e
    case ReadArrives(p, now) =>
      CarriesAppend(s.rq, Late(c, p, now), f);
      match RqOutcome(c, s, p) {
        case Forwarded => HeldAfterAnswer(s, FromWrite(c, s, p), f, n);
        case Merged =>
          SlotIsSlot(s.rq, p.address);
          CarriesUpdate(s.rq, Slot(s.rq, p.address), AddRq(c, s, p, now).rq[Slot(s.rq, p.address)], f);
        case _ =>
      }
    case PrefetchArrives(p, now) =>
      CarriesAppend(s.pq, Late(c, p, now), f);
      match PqOutcome(c, s, p) {
        case Forwarded => HeldAfterAnswer(s, FromWrite(c, s, p), f, n);
        case Merged =>
          SlotIsSlot(s.pq, p.address);
          CarriesUpdate(s.pq, Slot(s.pq, p.address), Wider(s.pq[Slot(s.pq, p.address)], p), f);
        case _ =>
      }
    case WriteArrives(p, now) => CarriesAppend(s.wq, Late(c, p, now), f);
    case DataReturns(p, now) =>
      var i := Slot(s.mshr.entry, p.address);
      CarriesUpdate(s.mshr.entry, i, Return(c, s, p, now).mshr.entry[i], f);
    case CommitArrives(_, _) =>
  }

  /** One step: the flag is held afterwards exactly when the event brings it, or it was held and is not lost. */
  lemma StepHolds(c: Config, s: State, e: Event, f: Flag, n: nat)
    requires Valid(c, s) && Enabled(c, s, e) && f.address != 0 && n <= |s.served|
    ensures var t := Step(c, s, e);
            n <= |t.served| && (Held(t, f, n) <==> (Held(s, f, n) && !Loses(c, s, e, f, n)) || Brings(c, s, e, f))
  {
    assert Shaped(c, s);
    hide Valid, Held;
    match e
    case Fills(now, full) => FillHolds(c, s, now, full, f, n);
    case Writes(now, full) => WriteHolds(c, s, now, full, f, n);
    case Reads(now, full) => ReadHolds(c, s, now, full, f, n);
    case Prefetches(now, full) => PrefetchHolds(c, s, now, full, f, n);
    case Commits => CommitHolds(c, s, f, n);
    case Invalidated(address) => InvalidateHolds(c, s, address, f, n);
    case _ => ArrivalHolds(c, s, e, f, n);
  }

  lemma CommitHolds(c: Config, s: State, f: Flag, n: nat)
    requires Shaped(c, s) && n <= |s.served|
    ensures var t := CommitOne(c, s); t.served == s.served && (Held(t, f, n) <==> Held(s, f, n))
  {
    hide SpecHit, LruVictim;
  }

  lemma InvalidateHolds(c: Config, s: State, address: nat, f: Flag, n: nat)
    requires Shaped(c, s) && n <= |s.served|
    ensures var t := Invalidate(c, s, address); t.served == s.served && (Held(t, f, n) <==> Held(s, f, n))
  {
  }

  // ---------- whole runs ----------

  ghost predicate LostIn(c: Config, s: State, es: seq<Event>, f: Flag, n: nat)
    requires Shaped(c, s)
    decreases |es|
  {
    && es != [] && Enabled(c, s, es[0]) && n <= |s.served|
    && (Loses(c, s, es[0], f, n) || LostIn(c, Step(c, s, es[0]), es[1..], f, n))
  }

  ghost predicate BroughtIn(c: Config, s: State, es: seq<Event>, f: Flag)
    requires Shaped(c, s)
    decreases |es|
  {
    && es != [] && Enabled(c, s, es[0])
    && (Brings(c, s, es[0], f) || BroughtIn(c, Step(c, s, es[0]), es[1..], f))
  }

  /** Over every run: a flag that was held still waits, or is part of an answer given since, unless the last
      request that carried it lost it; with no later request for it that is exactly when it is gone. */
  lemma {:induction false} FlagsAreLostExactly(c: Config, s: State, es: seq<Event>, t: State, f: Flag, n: nat)
    requires Valid(c, s) && Reaches(c, s, es, t) && f.address != 0 && n <= |s.served|
    ensures n <= |t.served|
    ensures Held(s, f, n) && !LostIn(c, s, es, f, n) ==> Held(t, f, n)
    ensures !BroughtIn(c, s, es, f) ==> (Held(t, f, n) <==> Held(s, f, n) && !LostIn(c, s, es, f, n))
    decreases |es|
  {
    hide MshrOk, KeyedOk, RowsRanked, QueueOk, Step, Enabled, Held, Loses, Brings;
    if es != [] {
      StepKeeps(c, s, es[0]);
      StepHolds(c, s, es[0], f, n);
      FlagsAreLostExactly(c, Step(c, s, es[0]), es[1..], t, f, n);
    }
  }
}
