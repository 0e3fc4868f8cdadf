/** What whole cycles of a cache level achieve: fills are tried, messages are passed on. */
module CacheCycles {
  import opened FirstMin
  import opened CacheSet
  import opened LruOrder
  import opened CacheModel
  import opened CacheInvariant
  import opened CacheService

  /** A cycle of the level, or something that happens between two cycles. */
  datatype Tick = Cycle(now: nat, lower: Lower, maxRead: nat) | Between(e: Event)

  predicate Happens(c: Config, s: State, tick: Tick)
    requires Shaped(c, s)
  {
    match tick
    case Cycle(now, _, _) => now < UINT64_MAX
    case Between(e) => Enabled(c, s, e) && !e.Fills? && !e.Writes? && !e.Reads? && !e.Prefetches? && !e.Commits?
  }

  function After(c: Config, s: State, tick: Tick): (r: State)
    requires Shaped(c, s) && Happens(c, s, tick)
    ensures Shaped(c, r)
  {
    match tick
    case Cycle(now, lower, maxRead) => Operate(c, s, now, lower, maxRead)
    case Between(e) => Step(c, s, e)
  }

  ghost predicate Runs(c: Config, s: State, ticks: seq<Tick>, t: State)
    requires Shaped(c, s)
    decreases |ticks|
  {
    if ticks == [] then t == s else Happens(c, s, ticks[0]) && Runs(c, After(c, s, ticks[0]), ticks[1..], t)
  }

  // ---------- no fill starves ----------

  lemma {:induction false} OnlyReads(now: nat, full: nat -> bool, n: nat)
    ensures forall e :: e in ReadEvents(now, full, n) ==> e.Reads?
  {
    if n > 0 { OnlyReads(now, full, n - 1); }
  }

  lemma {:induction false} OnlyPrefetches(now: nat, full: nat -> bool, n: nat)
    ensures forall e :: e in PrefetchEvents(now, full, n) ==> e.Prefetches?
  {
    if n > 0 { OnlyPrefetches(now, full, n - 1); }
  }

  /** The one fill of a cycle comes first. */
  lemma FillComesFirst(now: nat, lower: Lower, maxRead: nat, waits: bool, done: nat)
    requires done <= maxRead
    ensures var es := CycleEvents(now, lower, maxRead, waits, done);
            es != [] && es[0] == Fills(now, lower.fillFull) && forall e :: e in es[1..] ==> !e.Fills? && !e.DataReturns?
  {
    OnlyReads(now, lower.readFull, maxRead);
    OnlyPrefetches(now, lower.prefetchFull, maxRead - done);
    var es := CycleEvents(now, lower, maxRead, waits, done);
    var last := if waits then PrefetchEvents(now, lower.prefetchFull, maxRead - done) else [];
    var rest := [Writes(now, lower.writeFull)] + ReadEvents(now, lower.readFull, maxRead) + FOUR_MESSAGES + last;
    hide ReadEvents, PrefetchEvents;
    assert es == [Fills(now, lower.fillFull)] + rest;
    assert es[1..] == rest;
  }

  /** Without fills and data the register stays where it is, and no more come before it. */
  lemma {:induction false} RestKeepsDue(c: Config, s: State, es: seq<Event>, t: State, address: nat, v: nat)
    requires Valid(c, s) && Reaches(c, s, es, t) && Due(c, s, address, v) && address != 0
    requires forall e :: e in es ==> !e.Fills? && !e.DataReturns?
    ensures Valid(c, t) && Due(c, t, address, v) && Ahead(t.mshr.entry, address, v) <= Ahead(s.mshr.entry, address, v)
    decreases |es|
  {
    if es != [] {
      assert es[0] in es && forall e :: e in es[1..] ==> e in es;
      hide MshrOk, RowsRanked, QueueOk, KeyedOk, Due, Ahead, Step, Enabled;
      StepKeeps(c, s, es[0]);
      OtherStepsKeepDue(c, s, es[0], address, v);
      RestKeepsDue(c, Step(c, s, es[0]), es[1..], t, address, v);
    }
  }

  /** A cycle that does not try the fill takes one register out of its way. */
  lemma CycleAdvances(c: Config, s: State, now: nat, lower: Lower, maxRead: nat, address: nat, v: nat)
    requires Valid(c, s) && Due(c, s, address, v) && address != 0 && v < now < UINT64_MAX && !lower.fillFull
    requires !Tries(c, s, Fills(now, false), address)
    ensures var t := Operate(c, s, now, lower, maxRead);
            Valid(c, t) && Due(c, t, address, v) && Ahead(t.mshr.entry, address, v) < Ahead(s.mshr.entry, address, v)
  {
    hide MshrOk, RowsRanked, QueueOk, KeyedOk, Due, Ahead, Step, Operate, CycleEvents, Tries;
    var t := Operate(c, s, now, lower, maxRead);
    CycleIsARun(c, s, now, lower, maxRead);
    var es := CycleEvents(now, lower, maxRead, s.pq != [], |s.rq| - |t.rq|);
    FillComesFirst(now, lower, maxRead, s.pq != [], |s.rq| - |t.rq|);
    StepTowardsFill(c, s, es[0], address, v);
    RestKeepsDue(c, Step(c, s, es[0]), es[1..], t, address, v);
  }

  /** After cycle v, with room for writebacks below and no second answer for the address. */
  ghost predicate LaterTick(tick: Tick, address: nat, v: nat) {
    match tick
    case Cycle(now, lower, _) => now > v && !lower.fillFull
    case Between(e) => Later(e, address, v)
  }

  /** Some cycle of the run tries the fill of this address. */
  ghost predicate Tried(c: Config, s: State, ticks: seq<Tick>, address: nat)
    requires Shaped(c, s)
    decreases |ticks|
  {
    && ticks != [] && Happens(c, s, ticks[0])
    && ((ticks[0].Cycle? && Tries(c, s, Fills(ticks[0].now, ticks[0].lower.fillFull), address))
        || Tried(c, After(c, s, ticks[0]), ticks[1..], address))
  }

  function Cycles(ticks: seq<Tick>): nat {
    if ticks == [] then 0 else (if ticks[0].Cycle? then 1 else 0) + Cycles(ticks[1..])
  }

  /** Over every run of cycles, with anything arriving between them: once data has returned, its fill is tried
      within as many cycles as there are registers due no later, and one. */
  lemma {:induction false} NoFillStarvesOverCycles(c: Config, s: State, ticks: seq<Tick>, t: State, address: nat,
                                                   v: nat)
    requires Valid(c, s) && Runs(c, s, ticks, t) && Due(c, s, address, v) && address != 0
    requires forall tick :: tick in ticks ==> LaterTick(tick, address, v)
    requires Cycles(ticks) > Ahead(s.mshr.entry, address, v)
    ensures Tried(c, s, ticks, address)
    decreases |ticks|
  {
    var tick := ticks[0];
    assert LaterTick(tick, address, v) && forall k :: k in ticks[1..] ==> k in ticks;
    hide MshrOk, RowsRanked, QueueOk, KeyedOk, Step, Enabled, Operate, Due, Ahead, Later;
    match tick
    case Cycle(now, lower, maxRead) =>
      if !Tries(c, s, Fills(now, false), address) {
        hide Tries;
        CycleAdvances(c, s, now, lower, maxRead, address, v);
        NoFillStarvesOverCycles(c, After(c, s, tick), ticks[1..], t, address, v);
      }
    case Between(e) =>
      assert !Tries(c, s, e, address);
      hide Tries;
      StepTowardsFill(c, s, e, address, v);
      NoFillStarvesOverCycles(c, After(c, s, tick), ticks[1..], t, address, v);
  }

  // ---------- messages ----------

  /** The messages that wait and those passed on are the same. */
  ghost predicate SameMessages(s: State, t: State) { t.cq == s.cq && t.passed == s.passed }

  // The handlers other than commit leave both alone.

  lemma HandleFillKeepsMessages(c: Config, s: State, now: nat, full: bool)
    requires Shaped(c, s)
    ensures SameMessages(s, HandleFill(c, s, now, full))
  {
    hide FirstMin.Find, FirstMin.Cycle, Miss, MissStalls, LruVictim, TimestampVictim, Hit, SpecHit, Add, Remove;
    hide Refresh, Touch, SpecFill;
  }

  lemma HandleWritebackKeepsMessages(c: Config, s: State, now: nat, full: bool)
    requires Shaped(c, s)
    ensures SameMessages(s, HandleWriteback(c, s, now, full))
  {
    hide FirstMin.Find, FirstMin.Cycle, Miss, MissStalls, LruVictim, TimestampVictim, Hit, SpecHit, Add, Remove;
    hide Refresh, Touch, SpecFill;
  }

  lemma HandleReadKeepsMessages(c: Config, s: State, now: nat, full: bool)
    requires Shaped(c, s)
    ensures SameMessages(s, HandleRead(c, s, now, full))
  {
    hide FirstMin.Find, FirstMin.Cycle, Miss, MissStalls, LruVictim, TimestampVictim, Hit, SpecHit, Add, Remove;
    hide Refresh, Touch, SpecFill;
  }

  lemma HandlePrefetchKeepsMessages(c: Config, s: State, now: nat, full: bool)
    requires Shaped(c, s)
    ensures SameMessages(s, HandlePrefetch(c, s, now, full))
  {
    hide FirstMin.Find, FirstMin.Cycle, Miss, MissStalls, LruVictim, TimestampVictim, Hit, SpecHit, Add, Remove;
    hide Refresh, Touch, SpecFill;
  }

  lemma {:induction false} ReadsKeepMessages(c: Config, s: State, now: nat, full: nat -> bool, n: nat)
    requires Shaped(c, s)
    ensures SameMessages(s, ReadSome(c, s, now, full, n)) && SameMessages(s, PrefetchSome(c, s, now, full, n))
  {
    hide HandleFill, HandleWriteback, HandleRead, HandlePrefetch;
    if n > 0 {
      ReadsKeepMessages(c, s, now, full, n - 1);
      HandleReadKeepsMessages(c, ReadSome(c, s, now, full, n - 1), now, full(n - 1));
      HandlePrefetchKeepsMessages(c, PrefetchSome(c, s, now, full, n - 1), now, full(n - 1));
    }
  }

  function Min(a: nat, b: nat): nat { if a < b then a else b }

  lemma {:induction false} CommitsPass(c: Config, s: State, n: nat)
    requires Shaped(c, s)
    ensures var t, m := CommitSome(c, s, n), Min(n, |s.cq|); t.passed == s.passed + s.cq[..m] && t.cq == s.cq[m..]
  {
    hide CommitOne;
    if n > 0 {
      CommitsPass(c, s, n - 1);
      CommitPassesOne(c, CommitSome(c, s, n - 1));
    }
  }

  lemma CommitPassesOne(c: Config, s: State)
    requires Shaped(c, s)
    ensures var t := CommitOne(c, s);
            if s.cq == [] then t == s else t.passed == s.passed + [s.cq[0]] && t.cq == s.cq[1..]
  {
    hide SpecHit, LruVictim;
  }

  /** A cycle handles and passes on exactly the first four messages that wait, or all of fewer. */
  lemma CyclePassesMessages(c: Config, s: State, now: nat, lower: Lower, maxRead: nat)
    requires Shaped(c, s) && now < UINT64_MAX
    ensures var t, m := Operate(c, s, now, lower, maxRead), Min(4, |s.cq|);
            t.passed == s.passed + s.cq[..m] && t.cq == s.cq[m..]
  {
    hide HandleFill, HandleWriteback, ReadSome, PrefetchSome, CommitSome, Operate, Shaped;
    var write, read, commit := StagesOfCycle(c, s, now, lower, maxRead);
    HandleFillKeepsMessages(c, s, now, lower.fillFull);
    HandleWritebackKeepsMessages(c, HandleFill(c, s, now, lower.fillFull), now, lower.writeFull);
    ReadsKeepMessages(c, write, now, lower.readFull, maxRead);
    CommitsPass(c, read, COMMIT_WIDTH);
    ReadsKeepMessages(c, commit, now, lower.prefetchFull, maxRead - (|write.rq| - |read.rq|));
  }
}
