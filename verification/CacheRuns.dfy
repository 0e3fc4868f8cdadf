/** Short runs from an empty cache with one way and one register, each losing something the code does not keep. */
module CacheRuns {
  import opened FirstMin
  import opened CacheSet
  import opened LruOrder
  import opened CacheModel
  import opened CacheInvariant
  import opened CacheProvenance
  import opened CacheFlags

  function Tiny(level: Level): Config { Config(level, 1, 1, 1, 1, 1, 1, 1, 1, 1, 0, 2) }

  function Request(address: nat, id: nat, kind: Kind, speculative: bool, fillL1i: bool, fillL1d: bool): Packet {
    Packet(address, address, 0, id, kind, speculative, 0, false, 1, fillL1i, fillL1d, 0, {})
  }

  // ---------- searches in one way and one register ----------

  lemma OneWay(b: Block, address: nat, id: nat)
    ensures Hit([b], address) == if b.valid && b.line.tag == address then 0 else 1
    ensures SpecHit([b], address, id) == if b.valid && b.line.tag == address && b.line.id <= id then 0 else 1
    ensures TimestampVictim([b], id) == if !b.valid || b.line.id > id then 0 else 1
    ensures b.lru == 0 ==> LruVictim([b]) == 0 && Touch([b], 0) == [b]
  {
  }

  lemma OneRegister(e: Packet, address: nat)
    ensures Slot([e], address) == if e.address == address then 0 else 1
    ensures Slot([], address) == 0
  {
  }

  lemma OneKey(e: Packet)
    ensures Find(DoneKeys([e])) == if e.done && e.event < UINT64_MAX then 0 else 1
    ensures Cycle(DoneKeys([e])) == if e.done && e.event < UINT64_MAX then e.event else UINT64_MAX
  {
    var keys := DoneKeys([e]);
    FindIsFirstMin(keys);
  }

  // ---------- steps ----------

  /** An empty queue takes a request as it comes. */
  lemma Arrives(c: Config, s: State, p: Packet)
    requires c == Tiny(c.level) && s.wq == [] && p.event == 0
    ensures s.rq == [] ==> AddRq(c, s, p, 0) == s.(rq := [p])
    ensures s.pq == [] ==> AddPq(c, s, p, 0) == s.(pq := [p])
    ensures s.cq == [] ==> AddCq(c, s, p, 0) == s.(cq := [p])
    ensures AddWq(c, s, p, 0) == s.(wq := [p])
  {
    OneRegister(p, p.address);
  }

  /** A miss takes the free register. */
  lemma Misses(c: Config, s: State, p: Packet, merge: (Packet, Packet) -> Packet)
    requires c == Tiny(c.level) && Shaped(c, s) && s.mshr.entry == [EMPTY] && s.mshr.occupancy == 0 && p.address != 0
    ensures !MissStalls(c, s, p, false)
    ensures Miss(c, s, p, merge) == s.mshr.(entry := [p.(done := false)], occupancy := 1)
  {
    OneRegister(EMPTY, p.address);
    OneRegister(EMPTY, 0);
  }

  lemma DataComes(c: Config, s: State, e: Packet)
    requires c == Tiny(c.level) && Shaped(c, s) && s.mshr.entry == [e] && e.address != 0 && e.event == 0 && e.data == 0
    ensures Enabled(c, s, DataReturns(e, 0))
    ensures Return(c, s, e, 0) == s.(mshr := Mshr([e.(done := true)], s.mshr.occupancy, 0, 0))
  {
    OneRegister(e, e.address);
    OneKey(e.(done := true));
  }

  /** The one normal way takes the line; what it held was clean. */
  lemma Installs(c: Config, s: State, p: Packet, dirty: bool)
    requires c == Tiny(c.level) && Shaped(c, s) && s.normal[0][0].lru == 0 && !s.normal[0][0].line.dirty
    ensures !Blocked(c, s, p, false)
    ensures Install(c, s, p, dirty) == s.(normal := [[Block(true, LineOf(p, dirty), 0)]], served := s.served + [p])
  {
    var b := s.normal[0][0];
    assert s.normal[0] == [b];
    OneWay(b, p.address, p.id);
    hide LruVictim, Touch;
    assert Put([b], 0, LineOf(p, dirty)) == [Block(true, LineOf(p, dirty), 0)];
    assert s.writebacks + DirtyOf(b) == s.writebacks;
  }

  /** A register with data is filled, into a clean or a free way. */
  lemma NormalFill(c: Config, s: State, e: Packet)
    requires c == Tiny(c.level) && Shaped(c, s) && s.normal[0][0].lru == 0 && !s.normal[0][0].line.dirty
    requires s.mshr == Mshr([e], 1, 0, 0) && e.address != 0 && !e.speculative
    ensures HandleFill(c, s, 0, false)
         == s.(normal := [[Block(true, LineOf(e, DirtyFill(c, e)), 0)]], served := s.served + [e],
               mshr := Mshr([EMPTY], 0, 1, UINT64_MAX))
  {
    Installs(c, s, e, DirtyFill(c, e));
    OneKey(EMPTY);
    hide Blocked, Install, Find, Cycle;
  }

  lemma SpeculativeFill(c: Config, s: State, e: Packet)
    requires c == Tiny(c.level) && Shaped(c, s) && s.spec[0][0].lru == 0 && !s.spec[0][0].valid
    requires s.mshr == Mshr([e], 1, 0, 0) && e.address != 0 && e.speculative
    ensures HandleFill(c, s, 0, false)
         == s.(spec := [[Block(true, LineOf(e, DirtyFill(c, e)), 0)]], served := s.served + [e],
               mshr := Mshr([EMPTY], 0, 1, UINT64_MAX))
  {
    var b := s.spec[0][0];
    assert s.spec[0] == [b];
    OneWay(b, e.address, e.id);
    OneKey(EMPTY);
    hide TimestampVictim, Find, Cycle;
    assert SpecFill([b], LineOf(e, DirtyFill(c, e))) == [Block(true, LineOf(e, DirtyFill(c, e)), 0)];
  }

  predicate Absent(rows: seq<seq<Block>>, address: nat) {
    |rows| == 1 && |rows[0]| == 1 && !(rows[0][0].valid && rows[0][0].line.tag == address)
  }

  lemma ReadMisses(c: Config, s: State, p: Packet)
    requires c == Tiny(c.level) && Shaped(c, s) && s.rq == [p] && p.event == 0 && p.address != 0
    requires Absent(s.normal, p.address) && Absent(s.spec, p.address) && s.mshr.entry == [EMPTY]
             && s.mshr.occupancy == 0
    ensures HandleRead(c, s, 0, false) == s.(mshr := s.mshr.(entry := [p.(done := false)], occupancy := 1), rq := [])
  {
    assert s.normal[0] == [s.normal[0][0]] && s.spec[0] == [s.spec[0][0]];
    OneWay(s.normal[0][0], p.address, p.id);
    OneWay(s.spec[0][0], p.address, p.id);
    Misses(c, s, p, MergeRead);
    hide Hit, SpecHit, Miss, MissStalls;
  }

  lemma ReadMerges(c: Config, s: State, e: Packet, p: Packet)
    requires c == Tiny(c.level) && Shaped(c, s) && s.rq == [p] && p.event == 0 && p.address == e.address
    requires Absent(s.normal, p.address) && Absent(s.spec, p.address) && s.mshr.entry == [e]
    ensures HandleRead(c, s, 0, false) == s.(mshr := s.mshr.(entry := [MergeRead(e, p)]), rq := [])
  {
    assert s.normal[0] == [s.normal[0][0]] && s.spec[0] == [s.spec[0][0]];
    OneWay(s.normal[0][0], p.address, p.id);
    OneWay(s.spec[0][0], p.address, p.id);
    OneRegister(e, p.address);
    hide Hit, SpecHit, Slot;
  }

  lemma WriteMerges(c: Config, s: State, e: Packet, p: Packet)
    requires c == Tiny(L1D) && Shaped(c, s) && s.wq == [p] && p.event == 0 && p.address == e.address
    requires Absent(s.normal, p.address) && s.mshr.entry == [e]
    ensures HandleWriteback(c, s, 0, false) == s.(mshr := s.mshr.(entry := [MergeWrite(e, p)]), wq := [])
  {
    assert s.normal[0] == [s.normal[0][0]];
    OneWay(s.normal[0][0], p.address, p.id);
    OneRegister(e, p.address);
    hide Hit, Slot;
  }

  lemma WriteInstalls(c: Config, s: State, p: Packet)
    requires c == Tiny(L2C) && Shaped(c, s) && s.wq == [p] && p.event == 0
    requires Absent(s.normal, p.address) && s.normal[0][0].lru == 0 && !s.normal[0][0].line.dirty
    ensures HandleWriteback(c, s, 0, false)
         == s.(normal := [[Block(true, LineOf(p, true), 0)]], served := s.served + [p], wq := [])
  {
    assert s.normal[0] == [s.normal[0][0]];
    OneWay(s.normal[0][0], p.address, p.id);
    Installs(c, s, p, true);
    hide Hit, Blocked, Install;
  }

  lemma PrefetchMisses(c: Config, s: State, p: Packet)
    requires c == Tiny(c.level) && Shaped(c, s) && s.pq == [p] && p.event == 0 && p.address != 0
             && p.fillLevel <= c.fillLevel
    requires Absent(s.normal, p.address) && s.mshr.entry == [EMPTY] && s.mshr.occupancy == 0
    ensures HandlePrefetch(c, s, 0, false)
            == s.(mshr := s.mshr.(entry := [p.(done := false)], occupancy := 1), pq := [])
  {
    assert s.normal[0] == [s.normal[0][0]];
    OneWay(s.normal[0][0], p.address, p.id);
    Misses(c, s, p, Wider);
    hide Hit, Miss, MissStalls;
  }

  // ---------- runs ----------

  /** A run from the empty cache. */
  ghost predicate Runs(c: Config, es: seq<Event>, s: State) {
    Configured(c) && Shaped(c, s) && Reaches(c, Initial(c), es, s)
  }

  lemma Then(c: Config, es: seq<Event>, s: State, e: Event) returns (es': seq<Event>, t: State)
    requires Runs(c, es, s) && Enabled(c, s, e)
    ensures es' == es + [e] && Runs(c, es', t) && t == Step(c, s, e)
  {
    Extend(c, Initial(c), es, s, e);
    es', t := es + [e], Step(c, s, e);
  }

  lemma Start(c: Config)
    requires c == Tiny(c.level)
    ensures Runs(c, [], Initial(c))
    ensures Initial(c).normal == Initial(c).spec == [[Initial(c).normal[0][0]]]
    ensures var b := Initial(c).normal[0][0]; !b.valid && !b.line.dirty && b.lru == 0
    ensures Initial(c).mshr == Mshr([EMPTY], 0, 0, UINT64_MAX)
  {
    assert FreshRow(1) == [FreshRow(1)[0]];
    assert seq(1, _ => FreshRow(1)) == [FreshRow(1)];
    assert seq(1, _ => EMPTY) == [EMPTY];
  }

  /** A read arrives in an idle cache, misses, and its data comes. */
  lemma ReadAndData(c: Config, es: seq<Event>, s: State, p: Packet) returns (es': seq<Event>, t: State)
    requires Runs(c, es, s) && c == Tiny(c.level) && s.rq == s.wq == [] && s.mshr.entry == [EMPTY]
             && s.mshr.occupancy == 0
    requires p.address != 0 && p.event == 0 && p.data == 0 && !p.done
    requires Absent(s.normal, p.address) && Absent(s.spec, p.address)
    ensures Runs(c, es', t) && t == s.(mshr := Mshr([p.(done := true)], 1, 0, 0))
  {
    hide Reaches, Find, Cycle, HandleRead, Return, AddRq, Slot;
    Arrives(c, s, p);
    es', t := Then(c, es, s, ReadArrives(p, 0));
    ReadMisses(c, t, p);
    es', t := Then(c, es', t, Reads(0, false));
    DataComes(c, t, p);
    es', t := Then(c, es', t, DataReturns(p, 0));
  }

  // ---------- what is lost ----------

  /** A dirty line is lost: a write installs it, and the commit of a speculative load promotes another line of
      the set over it. */
  lemma DirtyLineIsLost() returns (es: seq<Event>, s: State)
    ensures var c := Tiny(L2C);
            && Runs(c, es, s) && s.normal[0][0].valid && s.normal[0][0].line.dirty
            && !Safe(Step(c, s, Commits), 0, 0, s.normal[0][0].line, |s.writebacks|)
  {
    var c := Tiny(L2C);
    var w, r := Request(1, 1, Writeback, false, false, false), Request(2, 2, Load, true, false, false);
    var k := r.(kind := CommitLoad);
    Start(c);
    Arrives(c, Initial(c), w);
    hide Reaches, Find, Cycle, HandleRead, Return, HandleFill, HandleWriteback, AddRq, AddCq, Slot, Safe, CommitOne,
      Initial;
    es, s := Then(c, [], Initial(c), WriteArrives(w, 0));
    WriteInstalls(c, s, w);
    es, s := Then(c, es, s, Writes(0, false));
    es, s := ReadAndData(c, es, s, r);
    SpeculativeFill(c, s, r.(done := true));
    es, s := Then(c, es, s, Fills(0, false));
    Arrives(c, s, k);
    es, s := Then(c, es, s, CommitArrives(k, 0));
    CommitOverwrites(c, es, s);
  }

  lemma CommitOverwrites(c: Config, es: seq<Event>, s: State)
    requires Runs(c, es, s) && c == Tiny(c.level) && s.cq != [] && s.cq[0].kind == CommitLoad
    requires var b := s.spec[0][0]; b.valid && b.line.tag == s.cq[0].address && b.line.id <= s.cq[0].id
    requires s.normal[0][0].line.dirty && s.normal[0][0].lru == 0
    ensures !Safe(Step(c, s, Commits), 0, 0, s.normal[0][0].line, |s.writebacks|)
  {
    InitialIsValid(c);
    EveryRunIsValid(c, Initial(c), es, s);
    assert s.normal[0] == [s.normal[0][0]] && s.spec[0] == [s.spec[0][0]];
    OneWay(s.normal[0][0], 0, 0);
    OneWay(s.spec[0][0], s.cq[0].address, s.cq[0].id);
    hide Valid, Safe, Step;
    DirtyLinesAreLostExactly(c, s, Commits, 0, 0);
  }

  /** A store is lost: it merges with the register of an earlier load, whose fill leaves the line clean. */
  lemma StoreIsLost() returns (es: seq<Event>, s: State)
    ensures var c, store := Tiny(L1D), Request(1, 2, Rfo, false, false, true);
            && Runs(c, es, s) && WriteArrives(store, 0) in es
            && s.wq == [] && s.writebacks == [] && s.mshr.entry == [EMPTY] && !s.spec[0][0].valid
            && s.normal[0][0].valid && s.normal[0][0].line.tag == store.address && !s.normal[0][0].line.dirty
  {
    var c, store := Tiny(L1D), Request(1, 2, Rfo, false, false, true);
    var load := Request(1, 1, Load, false, false, true);
    Start(c);
    Arrives(c, Initial(c), load);
    hide Reaches, Find, Cycle, HandleRead, Return, HandleFill, HandleWriteback, AddRq, AddWq, Slot, Initial;
    es, s := Then(c, [], Initial(c), ReadArrives(load, 0));
    ReadMisses(c, s, load);
    es, s := Then(c, es, s, Reads(0, false));
    Arrives(c, s, store);
    es, s := Then(c, es, s, WriteArrives(store, 0));
    WriteMerges(c, s, load, store);
    es, s := Then(c, es, s, Writes(0, false));
    DataComes(c, s, load);
    es, s := Then(c, es, s, DataReturns(load, 0));
    NormalFill(c, s, load.(done := true));
    es, s := Then(c, es, s, Fills(0, false));
  }

  /** A fill flag is lost: the prefetch for L1D is overtaken by a demand request from L1I. However the run goes
      on, L1D is not answered before another request of its own. */
  lemma FlagIsLost() returns (es: seq<Event>, s: State)
    ensures var c, f := Tiny(L2C), Flag(1, true);
            && Runs(c, es, s) && Held(s, f, 0) && Overtakes(c, s, Reads(0, false), f)
            && var lost := Step(c, s, Reads(0, false));
               forall more, t :: Reaches(c, lost, more, t) && !BroughtIn(c, lost, more, f) ==> !Held(t, f, 0)
  {
    var c, f := Tiny(L2C), Flag(1, true);
    var prefetch := Request(1, 1, Prefetch, false, false, true);
    var demand := Request(1, 2, Load, false, true, false);
    Start(c);
    Arrives(c, Initial(c), prefetch);
    hide Reaches, Find, Cycle, HandleRead, HandlePrefetch, AddRq, AddPq, Slot, Initial, Overtakes, Held, BroughtIn;
    es, s := Then(c, [], Initial(c), PrefetchArrives(prefetch, 0));
    PrefetchMisses(c, s, prefetch);
    es, s := Then(c, es, s, Prefetches(0, false));
    Arrives(c, s, demand);
    es, s := Then(c, es, s, ReadArrives(demand, 0));
    DemandOvertakes(c, s, prefetch, demand, f);
    GoneForGood(c, es, s, Reads(0, false), f);
  }

  lemma DemandOvertakes(c: Config, s: State, e: Packet, p: Packet, f: Flag)
    requires c == Tiny(L2C) && Shaped(c, s) && s.rq == [p] && s.wq == [] && s.pq == [] && s.served == []
    requires Absent(s.normal, p.address) && Absent(s.spec, p.address) && s.mshr.entry == [e]
    requires p.event == 0 && e.kind == Prefetch && Has(e, f) && !Has(p, f) && p.address == e.address
    ensures Held(s, f, 0) && Overtakes(c, s, Reads(0, false), f) && !Held(Step(c, s, Reads(0, false)), f, 0)
  {
    assert Has(s.mshr.entry[0], f);
    ReadMerges(c, s, e, p);
    assert s.normal[0] == [s.normal[0][0]] && s.spec[0] == [s.spec[0][0]];
    OneWay(s.normal[0][0], p.address, p.id);
    OneWay(s.spec[0][0], p.address, p.id);
    OneRegister(e, p.address);
    hide HandleRead, Find, Cycle, Slot, Hit, SpecHit, Miss;
  }

  lemma GoneForGood(c: Config, es: seq<Event>, s: State, e: Event, f: Flag)
    requires Runs(c, es, s) && Enabled(c, s, e) && f.address != 0 && !Held(Step(c, s, e), f, 0)
    ensures forall more, t :: Reaches(c, Step(c, s, e), more, t) && !BroughtIn(c, Step(c, s, e), more, f) ==>
              !Held(t, f, 0)
  {
    var lost := Step(c, s, e);
    InitialIsValid(c);
    EveryRunIsValid(c, Initial(c), es, s);
    StepKeeps(c, s, e);
    hide Valid, Held, Step, Enabled, BroughtIn;
    forall more, t | Reaches(c, lost, more, t) && !BroughtIn(c, lost, more, f) ensures !Held(t, f, 0) {
      FlagsAreLostExactly(c, lost, more, t, f, 0);
    }
  }
}
