/** What every run of one cache level keeps: miss registers, recency order and queues. */
module CacheInvariant {
  import opened FirstMin
  import opened CacheSet
  import opened LruOrder
  import opened CacheModel

  // ---------- miss registers ----------

  function Live(entry: seq<Packet>): (n: nat)
    ensures n <= |entry|
  {
    if entry == [] then 0 else
    Live(entry[..|entry| - 1]) + (if entry[|entry| - 1].address != 0 then 1 else 0)
  }

  ghost predicate DistinctAddresses(q: seq<Packet>) {
    forall i, j :: 0 <= i < j < |q| && q[i].address != 0 ==> q[i].address != q[j].address
  }

  /** Live addresses are distinct, occupancy counts them, and only a live register can hold returned data. */
  ghost predicate RegistersOk(m: Mshr) {
    && m.occupancy == Live(m.entry) && DistinctAddresses(m.entry)
    && forall i :: 0 <= i < |m.entry| && m.entry[i].done ==> m.entry[i].address != 0 && m.entry[i].event < UINT64_MAX
  }

  /** The cached candidate is the lowest register of the smallest event cycle among those with data; before
      any data has returned the index is still 0. */
  ghost predicate CandidateOk(m: Mshr) {
    && m.nextIndex <= |m.entry| && m.nextCycle == Cycle(DoneKeys(m.entry))
    && (m.nextCycle < UINT64_MAX ==> m.nextIndex == Find(DoneKeys(m.entry)))
  }

  ghost predicate MshrOk(m: Mshr) { RegistersOk(m) && CandidateOk(m) }

  lemma {:induction false} LiveUpdate(entry: seq<Packet>, i: nat, p: Packet)
    requires i < |entry|
    ensures Live(entry[i := p]) + (if entry[i].address != 0 then 1 else 0)
         == Live(entry) + (if p.address != 0 then 1 else 0)
  {
    var n := |entry| - 1;
    if i < n {
      LiveUpdate(entry[..n], i, p);
      assert entry[i := p][..n] == entry[..n][i := p];
    } else {
      assert entry[i := p][..n] == entry[..n];
    }
  }

  lemma {:induction false} FullWhenAllLive(entry: seq<Packet>)
    requires Slot(entry, 0) == |entry|
    ensures Live(entry) == |entry|
  {
    FirstIsFirst(At(entry, 0));
    forall i | 0 <= i < |entry| ensures entry[i].address != 0 { assert !At(entry, 0)[i]; }
    AllLive(entry);
  }

  lemma {:induction false} AllLive(entry: seq<Packet>)
    requires forall i :: 0 <= i < |entry| ==> entry[i].address != 0
    ensures Live(entry) == |entry|
  {
    if entry != [] { AllLive(entry[..|entry| - 1]); }
  }

  lemma SlotIsSlot(entry: seq<Packet>, address: nat)
    ensures var i := Slot(entry, address);
            && (i < |entry| ==> entry[i].address == address)
            && (forall j :: 0 <= j < i ==> entry[j].address != address)
  {
    FirstIsFirst(At(entry, address));
    var i := Slot(entry, address);
    assert i < |entry| ==> At(entry, address)[i];
    forall j | 0 <= j < i ensures entry[j].address != address { assert !At(entry, address)[j]; }
  }

  lemma RemoveKeeps(m: Mshr, i: nat)
    requires RegistersOk(m) && i < |m.entry| && m.entry[i].address != 0
    ensures RegistersOk(Remove(m, i))
    ensures Slot(Remove(m, i).entry, m.entry[i].address) == |m.entry| && Live(Remove(m, i).entry) < |m.entry|
  {
    LiveUpdate(m.entry, i, EMPTY);
    SlotIsSlot(Remove(m, i).entry, m.entry[i].address);
  }

  /** With fewer live registers than registers, a new address finds a free one. */
  lemma AddKeeps(m: Mshr, p: Packet)
    requires RegistersOk(m) && m.occupancy < |m.entry| && p.address != 0 && Slot(m.entry, p.address) == |m.entry|
    requires p.done ==> p.event < UINT64_MAX
    ensures RegistersOk(Add(m, p)) && Slot(m.entry, 0) < |m.entry|
    ensures var i := Slot(m.entry, 0); Add(m, p).entry == m.entry[i := p] && m.entry[i].address == 0 && !m.entry[i].done
  {
    var i := Slot(m.entry, 0);
    if i == |m.entry| { FullWhenAllLive(m.entry); }
    SlotIsSlot(m.entry, 0);
    SlotIsSlot(m.entry, p.address);
    LiveUpdate(m.entry, i, p);
  }

  lemma NewMissKeeps(m: Mshr, p: Packet)
    requires MshrOk(m) && m.occupancy < |m.entry| && p.address != 0 && Slot(m.entry, p.address) == |m.entry| && !p.done
    ensures MshrOk(Add(m, p))
  {
    AddKeeps(m, p);
    assert DoneKeys(Add(m, p).entry) == DoneKeys(m.entry);
  }

  /** Merging changes neither the address nor whether and when the data came. */
  lemma MergeKeeps(m: Mshr, i: nat, e: Packet)
    requires MshrOk(m) && i < |m.entry| && m.entry[i].address != 0
    requires e.address == m.entry[i].address && e.done == m.entry[i].done && e.event == m.entry[i].event
    ensures MshrOk(m.(entry := m.entry[i := e]))
  {
    LiveUpdate(m.entry, i, e);
    assert DoneKeys(m.entry[i := e]) == DoneKeys(m.entry);
  }

  lemma ReturnKeeps(m: Mshr, i: nat, e: Packet)
    requires MshrOk(m) && i < |m.entry| && m.entry[i].address != 0 && e.address == m.entry[i].address
    requires e.done && e.event < UINT64_MAX
    ensures MshrOk(Refresh(m.(entry := m.entry[i := e])))
  {
    LiveUpdate(m.entry, i, e);
  }

  /** The register handle_fill works on holds returned data, and no other such register comes first. */
  lemma CandidateIsFirst(m: Mshr)
    requires MshrOk(m) && m.nextCycle < UINT64_MAX
    ensures m.nextIndex < |m.entry| && m.entry[m.nextIndex].done && m.entry[m.nextIndex].event == m.nextCycle
    ensures m.entry[m.nextIndex].address != 0
    ensures forall i :: 0 <= i < |m.entry| && m.entry[i].done ==>
              m.nextCycle <= m.entry[i].event && (i < m.nextIndex ==> m.nextCycle < m.entry[i].event)
  {
    FindIsFirstMin(DoneKeys(m.entry));
    assert forall i :: 0 <= i < |m.entry| && m.entry[i].done ==> DoneKeys(m.entry)[i] == m.entry[i].event;
  }

  /** There is a candidate as soon as any register holds returned data. */
  lemma CandidateExists(m: Mshr, i: nat)
    requires MshrOk(m) && i < |m.entry| && m.entry[i].done
    ensures m.nextCycle <= m.entry[i].event < UINT64_MAX
  {
    FindIsFirstMin(DoneKeys(m.entry));
    assert DoneKeys(m.entry)[i] == m.entry[i].event;
  }

  // ---------- queues ----------

  ghost predicate QueueOk(q: seq<Packet>, size: nat) {
    |q| <= size && DistinctAddresses(q) && forall i :: 0 <= i < |q| ==> q[i].address != 0
  }

  ghost predicate KeyedOk(c: Config, q: seq<Packet>, size: nat, speculative: bool) {
    && |q| <= size
    && (forall i :: 0 <= i < |q| ==> q[i].address != 0 && q[i].speculative == speculative)
    && (forall i, j :: 0 <= i < j < |q| ==> WriteKey(c, q[i]) != WriteKey(c, q[j]))
  }

  ghost predicate RowsRanked(rows: seq<seq<Block>>) { forall i :: 0 <= i < |rows| ==> Ranked(rows[i]) }

  ghost predicate Valid(c: Config, s: State) {
    && Shaped(c, s) && MshrOk(s.mshr) && RowsRanked(s.normal)
    && QueueOk(s.rq, c.rqSize) && QueueOk(s.pq, c.pqSize)
    && KeyedOk(c, s.wq, c.wqSize, false) && KeyedOk(c, s.cq, c.cqSize, true)
  }

  lemma PushKeeps(q: seq<Packet>, size: nat, p: Packet)
    requires QueueOk(q, size) && |q| < size && Slot(q, p.address) == |q| && p.address != 0
    ensures QueueOk(q + [p], size)
  {
    SlotIsSlot(q, p.address);
  }

  lemma PushKeyed(c: Config, q: seq<Packet>, size: nat, speculative: bool, p: Packet, r: Packet)
    requires KeyedOk(c, q, size, speculative) && |q| < size && First(SameKey(c, q, p)) == |q|
    requires r.address == p.address != 0 && r.fullAddr == p.fullAddr && r.speculative == speculative
    ensures KeyedOk(c, q + [r], size, speculative)
  {
    FirstIsFirst(SameKey(c, q, p));
    forall i | 0 <= i < |q| ensures WriteKey(c, q[i]) != WriteKey(c, r) { assert !SameKey(c, q, p)[i]; }
  }

  lemma InstallKeeps(c: Config, s: State, p: Packet, dirty: bool)
    requires Shaped(c, s) && RowsRanked(s.normal)
    ensures LruVictim(s.normal[p.address % c.sets]) < c.ways
    ensures RowsRanked(Install(c, s, p, dirty).normal)
  {
    var row := s.normal[p.address % c.sets];
    VictimExists(row);
    var way := LruVictim(row);
    TouchKeeps(row, way);
    SameRanks(Touch(row, way), Put(Touch(row, way), way, LineOf(p, dirty)));
  }

  // ---------- each step ----------

  lemma MissKeeps(c: Config, s: State, p: Packet, merge: (Packet, Packet) -> Packet, lowerFull: bool)
    requires Shaped(c, s) && MshrOk(s.mshr) && p.address != 0 && !MissStalls(c, s, p, lowerFull)
    requires forall e: Packet :: e.address == p.address ==>
               var r := merge(e, p); r.address == e.address && r.done == e.done && r.event == e.event
    ensures MshrOk(Miss(c, s, p, merge))
  {
    var i := Slot(s.mshr.entry, p.address);
    SlotIsSlot(s.mshr.entry, p.address);
    if i < c.mshrSize {
      MergeKeeps(s.mshr, i, merge(s.mshr.entry[i], p));
    } else {
      NewMissKeeps(s.mshr, p.(done := false));
    }
  }

  lemma FillKeeps(c: Config, s: State, now: nat, wqFull: bool)
    requires Valid(c, s) && now < UINT64_MAX
    ensures Valid(c, HandleFill(c, s, now, wqFull))
  {
    hide Find, Cycle, QueueOk, KeyedOk, Install;
    if FillReady(c, s, now) {
      CandidateIsFirst(s.mshr);
      var i := s.mshr.nextIndex;
      var e := s.mshr.entry[i];
      RemoveKeeps(s.mshr, i);
      if !e.speculative {
        InstallKeeps(c, s, e, DirtyFill(c, e));
        InstallFrame(c, s, e, DirtyFill(c, e));
      } else {
        AddKeeps(Remove(s.mshr, i), e.(done := true, event := now));
      }
    }
  }

  lemma InstallFrame(c: Config, s: State, p: Packet, dirty: bool)
    requires Shaped(c, s) && LruVictim(s.normal[p.address % c.sets]) < c.ways
    ensures var r := Install(c, s, p, dirty);
            r == s.(normal := r.normal, writebacks := r.writebacks, served := r.served)
  {
  }

  lemma WriteKeeps(c: Config, s: State, now: nat, wqFull: bool)
    requires Valid(c, s)
    ensures Valid(c, HandleWriteback(c, s, now, wqFull))
  {
    hide Find, Cycle, MshrOk, Install, Miss, MissStalls;
    if HeadReady(s.wq, now) {
      var p := s.wq[0];
      var at := p.address % c.sets;
      var row := s.normal[at];
      var way := Hit(row, p.address);
      if way < c.ways {
        TouchKeeps(row, way);
        SameRanks(row, MarkDirty(row, way));
        SameRanks(Touch(row, way), MarkDirty(Touch(row, way), way));
      } else if c.level.L1D? {
        if !MissStalls(c, s, p, false) { MissKeeps(c, s, p, MergeWrite, false); }
      } else {
        InstallKeeps(c, s, p, true);
        InstallFrame(c, s, p, true);
      }
    }
  }

  lemma ReadKeeps(c: Config, s: State, now: nat, lowerFull: bool)
    requires Valid(c, s)
    ensures Valid(c, HandleRead(c, s, now, lowerFull))
  {
    hide Find, Cycle, MshrOk, KeyedOk, Miss, MissStalls;
    if HeadReady(s.rq, now) {
      var p := s.rq[0];
      var row := s.normal[p.address % c.sets];
      var way := Hit(row, p.address);
      if way < c.ways { TouchKeeps(row, way); }
      if !MissStalls(c, s, p, c.level.LLC? && lowerFull) { MissKeeps(c, s, p, MergeRead, c.level.LLC? && lowerFull); }
    }
  }

  lemma PrefetchKeeps(c: Config, s: State, now: nat, lowerFull: bool)
    requires Valid(c, s)
    ensures Valid(c, HandlePrefetch(c, s, now, lowerFull))
  {
    hide Find, Cycle, MshrOk, KeyedOk, Miss, MissStalls;
    if HeadReady(s.pq, now) {
      var p := s.pq[0];
      var row := s.normal[p.address % c.sets];
      var way := Hit(row, p.address);
      if way < c.ways { TouchKeeps(row, way); }
      if !MissStalls(c, s, p, lowerFull) { MissKeeps(c, s, p, Wider, lowerFull); }
    }
  }

  lemma CommitKeeps(c: Config, s: State)
    requires Valid(c, s)
    ensures Valid(c, CommitOne(c, s))
  {
    hide Find, Cycle, MshrOk, QueueOk;
    if s.cq != [] {
      var k := s.cq[0];
      var at := k.address % c.specSets;
      var way := SpecHit(s.spec[at], k.address, k.id);
      if way < c.specWays {
        var row := s.normal[k.address % c.sets];
        SameRanks(row, Promote(row, s.spec[at][way].line));
      }
    }
  }

  lemma InvalidateKeeps(c: Config, s: State, address: nat)
    requires Valid(c, s)
    ensures Valid(c, Invalidate(c, s, address))
  {
    hide MshrOk, KeyedOk, QueueOk;
    var row := s.normal[address % c.sets];
    var way := Hit(row, address);
    if way < c.ways { SameRanks(row, Drop(row, way)); }
  }

  lemma ArrivalKeeps(c: Config, s: State, e: Event)
    requires Valid(c, s) && Enabled(c, s, e)
    requires e.ReadArrives? || e.WriteArrives? || e.PrefetchArrives? || e.CommitArrives? || e.DataReturns?
    ensures Valid(c, Step(c, s, e))
  {
    hide Find, Cycle, RowsRanked, KeyedOk, QueueOk, MshrOk;
    match e
    case ReadArrives(p, now) => ReadArrivalKeeps(c, s, p, now);
    case PrefetchArrives(p, now) => PrefetchArrivalKeeps(c, s, p, now);
    case WriteArrives(p, now) => WriteArrivalKeeps(c, s, p, now);
    case CommitArrives(p, now) => CommitArrivalKeeps(c, s, p, now);
    case DataReturns(p, now) => DataReturnKeeps(c, s, p, now);
  }

  lemma WriteArrivalKeeps(c: Config, s: State, p: Packet, now: nat)
    requires Valid(c, s) && Enabled(c, s, WriteArrives(p, now))
    ensures Valid(c, AddWq(c, s, p, now))
  {
    hide MshrOk, RowsRanked, KeyedOk, QueueOk;
    if First(SameKey(c, s.wq, p)) == |s.wq| { PushKeyed(c, s.wq, c.wqSize, false, p, Late(c, p, now)); }
  }

  lemma CommitArrivalKeeps(c: Config, s: State, p: Packet, now: nat)
    requires Valid(c, s) && p.address != 0 && p.speculative
    ensures Valid(c, AddCq(c, s, p, now))
  {
    hide MshrOk, RowsRanked, KeyedOk, QueueOk;
    if CqOutcome(c, s, p).Queued? { PushKeyed(c, s.cq, c.cqSize, true, p, Late(c, p, now)); }
  }

  lemma DataReturnKeeps(c: Config, s: State, p: Packet, now: nat)
    requires Valid(c, s) && Enabled(c, s, DataReturns(p, now))
    ensures Valid(c, Return(c, s, p, now))
  {
    hide Find, Cycle, RowsRanked, KeyedOk, QueueOk, MshrOk;
    var i := Slot(s.mshr.entry, p.address);
    SlotIsSlot(s.mshr.entry, p.address);
    var r := s.mshr.entry[i];
    ReturnKeeps(s.mshr, i, r.(done := true, data := p.data, event := Delay(r.event, now, c.latency)));
  }

  lemma ReadArrivalKeeps(c: Config, s: State, p: Packet, now: nat)
    requires Valid(c, s) && p.address != 0
    ensures Valid(c, AddRq(c, s, p, now))
  {
    hide MshrOk, RowsRanked, KeyedOk;
    match RqOutcome(c, s, p)
    case Merged => SlotIsSlot(s.rq, p.address);
    case Queued => PushKeeps(s.rq, c.rqSize, Late(c, p, now));
    case _ =>
  }

  lemma PrefetchArrivalKeeps(c: Config, s: State, p: Packet, now: nat)
    requires Valid(c, s) && p.address != 0
    ensures Valid(c, AddPq(c, s, p, now))
  {
    hide MshrOk, RowsRanked, KeyedOk;
    match PqOutcome(c, s, p)
    case Merged => SlotIsSlot(s.pq, p.address);
    case Queued => PushKeeps(s.pq, c.pqSize, Late(c, p, now));
    case _ =>
  }

  lemma StepKeeps(c: Config, s: State, e: Event)
    requires Valid(c, s) && Enabled(c, s, e)
    ensures Valid(c, Step(c, s, e))
  {
    match e
    case Fills(now, full) => FillKeeps(c, s, now, full);
    case Writes(now, full) => WriteKeeps(c, s, now, full);
    case Reads(now, full) => ReadKeeps(c, s, now, full);
    case Prefetches(now, full) => PrefetchKeeps(c, s, now, full);
    case Commits => CommitKeeps(c, s);
    case Invalidated(address) => InvalidateKeeps(c, s, address);
    case _ => ArrivalKeeps(c, s, e);
  }

  lemma InitialIsValid(c: Config)
    requires Configured(c)
    ensures Valid(c, Initial(c))
  {
    var s := Initial(c);
    forall i | 0 <= i < c.sets ensures Ranked(s.normal[i]) { FreshIsRanked(c.ways); }
    FindIsFirstMin(DoneKeys(s.mshr.entry));
    NoneLive(c.mshrSize);
  }

  lemma {:induction false} NoneLive(n: nat)
    ensures Live(seq(n, _ => EMPTY)) == 0
  {
    if n > 0 {
      assert seq(n, _ => EMPTY)[..n - 1] == seq(n - 1, _ => EMPTY);
      NoneLive(n - 1);
    }
  }

  /** Every reachable state is valid, so no sanity check inside the steps can fire; that a write finds room and
      that returned data finds its register is up to the callers. */
  lemma {:induction false} EveryRunIsValid(c: Config, s: State, es: seq<Event>, t: State)
    requires Valid(c, s) && Reaches(c, s, es, t)
    ensures Valid(c, t)
    decreases |es|
  {
    if es != [] {
      StepKeeps(c, s, es[0]);
      EveryRunIsValid(c, Step(c, s, es[0]), es[1..], t);
    }
  }

  // ---------- cycles as runs ----------

  lemma Extend(c: Config, s: State, es: seq<Event>, t: State, e: Event)
    requires Shaped(c, s) && Reaches(c, s, es, t) && Shaped(c, t) && Enabled(c, t, e)
    ensures Reaches(c, s, es + [e], Step(c, t, e))
  {
    hide Step, Enabled;
    assert Reaches(c, t, [e], Step(c, t, e)) by { assert [e][1..] == []; }
    Join(c, s, es, t, [e], Step(c, t, e));
  }

  /** n rounds of reading, and of prefetching. */
  function ReadEvents(now: nat, full: nat -> bool, n: nat): seq<Event> {
    if n == 0 then [] else ReadEvents(now, full, n - 1) + [Reads(now, full(n - 1))]
  }

  function PrefetchEvents(now: nat, full: nat -> bool, n: nat): seq<Event> {
    if n == 0 then [] else PrefetchEvents(now, full, n - 1) + [Prefetches(now, full(n - 1))]
  }

  function FillAndWrite(now: nat, lower: Lower): seq<Event> {
    [Fills(now, lower.fillFull), Writes(now, lower.writeFull)]
  }

  const FOUR_MESSAGES: seq<Event> := [Commits, Commits, Commits, Commits]

  /** What happens in a cycle, in this order: one fill, one write, the reads, four messages, and, when a prefetch
      waits, as many prefetches as reads found nothing to do. */
  function CycleEvents(now: nat, lower: Lower, maxRead: nat, prefetchWaits: bool, readsDone: nat): seq<Event>
    requires readsDone <= maxRead
  {
    FillAndWrite(now, lower) + ReadEvents(now, lower.readFull, maxRead) + FOUR_MESSAGES
    + (if prefetchWaits then PrefetchEvents(now, lower.prefetchFull, maxRead - readsDone) else [])
  }

  lemma {:induction false} ReadsAreARun(c: Config, s: State, now: nat, full: nat -> bool, n: nat)
    requires Shaped(c, s)
    ensures Reaches(c, s, ReadEvents(now, full, n), ReadSome(c, s, now, full, n))
    ensures var t := ReadSome(c, s, now, full, n); t.pq == s.pq && |t.rq| <= |s.rq| <= |t.rq| + n
  {
    hide AddRq, AddWq, AddPq, AddCq, Return, HandleFill, HandleWriteback, HandleRead, HandlePrefetch, CommitOne,
      Invalidate;
    if n > 0 {
      ReadsAreARun(c, s, now, full, n - 1);
      hide Reaches;
      Extend(c, s, ReadEvents(now, full, n - 1), ReadSome(c, s, now, full, n - 1), Reads(now, full(n - 1)));
      ReadTakesOne(c, ReadSome(c, s, now, full, n - 1), now, full(n - 1));
    }
  }

  lemma ReadTakesOne(c: Config, s: State, now: nat, full: bool)
    requires Shaped(c, s)
    ensures var t := HandleRead(c, s, now, full); t.pq == s.pq && |t.rq| <= |s.rq| <= |t.rq| + 1
  {
    hide Miss, MissStalls, Hit, SpecHit, Touch;
  }

  lemma {:induction false} PrefetchesAreARun(c: Config, s: State, now: nat, full: nat -> bool, n: nat)
    requires Shaped(c, s)
    ensures Reaches(c, s, PrefetchEvents(now, full, n), PrefetchSome(c, s, now, full, n))
    ensures PrefetchSome(c, s, now, full, n).rq == s.rq
  {
    hide AddRq, AddWq, AddPq, AddCq, Return, HandleFill, HandleWriteback, HandleRead, HandlePrefetch, CommitOne,
      Invalidate;
    if n > 0 {
      PrefetchesAreARun(c, s, now, full, n - 1);
      hide Reaches;
      Extend(c, s, PrefetchEvents(now, full, n - 1), PrefetchSome(c, s, now, full, n - 1),
             Prefetches(now, full(n - 1)));
      PrefetchKeepsReads(c, PrefetchSome(c, s, now, full, n - 1), now, full(n - 1));
    }
  }

  lemma PrefetchKeepsReads(c: Config, s: State, now: nat, full: bool)
    requires Shaped(c, s)
    ensures HandlePrefetch(c, s, now, full).rq == s.rq
  {
    hide Miss, MissStalls, Hit, Touch;
  }

  function MessageEvents(n: nat): seq<Event> { if n == 0 then [] else MessageEvents(n - 1) + [Commits] }

  lemma {:induction false} CommitsAreARun(c: Config, s: State, n: nat)
    requires Shaped(c, s)
    ensures Reaches(c, s, MessageEvents(n), CommitSome(c, s, n))
    ensures var t := CommitSome(c, s, n); t.rq == s.rq && t.pq == s.pq
  {
    hide AddRq, AddWq, AddPq, AddCq, Return, HandleFill, HandleWriteback, HandleRead, HandlePrefetch, CommitOne,
      Invalidate;
    if n > 0 {
      CommitsAreARun(c, s, n - 1);
      hide Reaches;
      Extend(c, s, MessageEvents(n - 1), CommitSome(c, s, n - 1), Commits);
      CommitKeepsQueues(c, CommitSome(c, s, n - 1));
    }
  }

  lemma FourMessages()
    ensures MessageEvents(COMMIT_WIDTH) == FOUR_MESSAGES
  {
    assert MessageEvents(1) == [Commits] && MessageEvents(2) == [Commits, Commits];
    assert MessageEvents(3) == [Commits, Commits, Commits];
  }

  lemma CommitKeepsQueues(c: Config, s: State)
    requires Shaped(c, s)
    ensures CommitOne(c, s).rq == s.rq && CommitOne(c, s).pq == s.pq
  {
    hide SpecHit, LruVictim;
  }

  lemma FillAndWriteKeepQueues(c: Config, s: State, now: nat, full: bool)
    requires Shaped(c, s)
    ensures var t := HandleFill(c, s, now, full); t.rq == s.rq && t.pq == s.pq && t.cq == s.cq
    ensures var t := HandleWriteback(c, s, now, full); t.rq == s.rq && t.pq == s.pq && t.cq == s.cq
  {
    hide Find, Cycle, Miss, MissStalls, LruVictim, TimestampVictim, Hit, Add, Remove, Refresh;
  }

  lemma {:induction false} Join(c: Config, s: State, es: seq<Event>, t: State, fs: seq<Event>, u: State)
    requires Shaped(c, s) && Shaped(c, t) && Reaches(c, s, es, t) && Reaches(c, t, fs, u)
    ensures Reaches(c, s, es + fs, u)
    decreases |es|
  {
    hide Step, Enabled;
    if es == [] {
      assert [] + fs == fs;
    } else {
      Join(c, Step(c, s, es[0]), es[1..], t, fs, u);
      assert (es + fs)[1..] == es[1..] + fs;
    }
  }

  lemma FillAndWriteAreARun(c: Config, s: State, now: nat, lower: Lower)
    requires Shaped(c, s) && now < UINT64_MAX
    ensures var write := HandleWriteback(c, HandleFill(c, s, now, lower.fillFull), now, lower.writeFull);
            && Reaches(c, s, FillAndWrite(now, lower), write)
            && write.rq == s.rq && write.pq == s.pq && write.cq == s.cq
  {
    hide AddRq, AddWq, AddPq, AddCq, Return, HandleFill, HandleWriteback, HandleRead, HandlePrefetch, CommitOne,
      Invalidate;
    var fill := HandleFill(c, s, now, lower.fillFull);
    FillAndWriteKeepQueues(c, s, now, lower.fillFull);
    FillAndWriteKeepQueues(c, fill, now, lower.writeFull);
    var es := FillAndWrite(now, lower);
    assert es[1..] == [Writes(now, lower.writeFull)] && es[1..][1..] == [];
    assert Reaches(c, fill, es[1..], HandleWriteback(c, fill, now, lower.writeFull));
  }

  /** The states between the stages of a cycle. */
  ghost predicate Stages(c: Config, s: State, now: nat, lower: Lower, maxRead: nat,
                         write: State, read: State, commit: State, t: State)
    requires Shaped(c, s)
  {
    && write == HandleWriteback(c, HandleFill(c, s, now, lower.fillFull), now, lower.writeFull)
    && read == ReadSome(c, write, now, lower.readFull, maxRead) && |read.rq| <= |write.rq| <= |read.rq| + maxRead
    && commit == CommitSome(c, read, COMMIT_WIDTH)
    && t == if s.pq == [] then commit
            else PrefetchSome(c, commit, now, lower.prefetchFull, maxRead - (|write.rq| - |read.rq|))
  }

  lemma StagesOfCycle(c: Config, s: State, now: nat, lower: Lower, maxRead: nat)
    returns (write: State, read: State, commit: State)
    requires Shaped(c, s) && now < UINT64_MAX
    ensures Stages(c, s, now, lower, maxRead, write, read, commit, Operate(c, s, now, lower, maxRead))
    ensures write.rq == s.rq && Operate(c, s, now, lower, maxRead).rq == read.rq
    ensures Shaped(c, write) && Shaped(c, read) && Shaped(c, commit)
  {
    hide HandleFill, HandleWriteback, ReadSome, PrefetchSome, CommitSome, ReadEvents, PrefetchEvents, MessageEvents,
      FillAndWrite, Reaches, Shaped;
    write := HandleWriteback(c, HandleFill(c, s, now, lower.fillFull), now, lower.writeFull);
    read := ReadSome(c, write, now, lower.readFull, maxRead);
    commit := CommitSome(c, read, COMMIT_WIDTH);
    FillAndWriteAreARun(c, s, now, lower);
    ReadsAreARun(c, write, now, lower.readFull, maxRead);
    CommitsAreARun(c, read, COMMIT_WIDTH);
    PrefetchesAreARun(c, commit, now, lower.prefetchFull, maxRead - (|write.rq| - |read.rq|));
    NoPrefetches(c, commit, now, lower.prefetchFull);
  }

  lemma NoPrefetches(c: Config, s: State, now: nat, full: nat -> bool)
    requires Shaped(c, s)
    ensures PrefetchSome(c, s, now, full, 0) == s
  {
  }

  /** A cycle of the level is exactly this run, whatever room the level below has at each stage: what holds over
      every run holds from cycle to cycle, and no stage is left out. */
  lemma CycleIsARun(c: Config, s: State, now: nat, lower: Lower, maxRead: nat)
    requires Shaped(c, s) && now < UINT64_MAX
    ensures var t := Operate(c, s, now, lower, maxRead);
            && 0 <= |s.rq| - |t.rq| <= maxRead
            && Reaches(c, s, CycleEvents(now, lower, maxRead, s.pq != [], |s.rq| - |t.rq|), t)
  {
    hide HandleFill, HandleWriteback, ReadSome, PrefetchSome, CommitSome, ReadEvents, PrefetchEvents, MessageEvents,
      FillAndWrite, Reaches, Shaped, Operate;
    var t := Operate(c, s, now, lower, maxRead);
    var write, read, commit := StagesOfCycle(c, s, now, lower, maxRead);
    FillAndWriteAreARun(c, s, now, lower);
    ReadsAreARun(c, write, now, lower.readFull, maxRead);
    CommitsAreARun(c, read, COMMIT_WIDTH);
    FourMessages();
    var left := maxRead - (|write.rq| - |read.rq|);
    var last := if s.pq != [] then PrefetchEvents(now, lower.prefetchFull, left) else [];
    PrefetchesAreARun(c, commit, now, lower.prefetchFull, left);
    NothingHappens(c, commit);
    JoinFour(c, s, FillAndWrite(now, lower), write, ReadEvents(now, lower.readFull, maxRead), read,
             FOUR_MESSAGES, commit, last, t);
  }

  lemma NothingHappens(c: Config, s: State)
    requires Shaped(c, s)
    ensures Reaches(c, s, [], s)
  {
  }

  lemma JoinFour(c: Config, s: State, a: seq<Event>, s1: State, b: seq<Event>, s2: State, d: seq<Event>, s3: State,
                 e: seq<Event>, t: State)
    requires Shaped(c, s) && Reaches(c, s, a, s1) && Shaped(c, s1) && Reaches(c, s1, b, s2)
    requires Shaped(c, s2) && Reaches(c, s2, d, s3) && Shaped(c, s3) && Reaches(c, s3, e, t)
    ensures Reaches(c, s, a + b + d + e, t)
  {
    hide Reaches, Shaped;
    Join(c, s, a, s1, b, s2);
    Join(c, s, a + b, s2, d, s3);
    Join(c, s, a + b + d, s3, e, t);
  }
}
