/** Where the lines of the two arrays come from and what makes them leave, over every run. */
module CacheProvenance {
  import opened FirstMin
  import opened CacheSet
  import opened LruOrder
  import opened CacheModel
  import opened CacheInvariant

  // ---------- what a step can do to the normal array ----------

  /** The same lines in the same ways; only the recency order may differ. */
  ghost predicate SameLines(a: seq<seq<Block>>, b: seq<seq<Block>>) {
    && |a| == |b|
    && (forall i :: 0 <= i < |a| ==> |a[i]| == |b[i]|)
    && (forall i, w :: 0 <= i < |a| && 0 <= w < |a[i]| ==>
          a[i][w].valid == b[i][w].valid && a[i][w].line == b[i][w].line)
  }

  /** The event acts for a request that is not speculative, writes, moves a committed line, or swaps a page out. */
  ghost predicate MayChangeLines(c: Config, s: State, e: Event)
    requires Shaped(c, s)
  {
    match e
    case Fills(now, _) => FillReady(c, s, now) && !s.mshr.entry[s.mshr.nextIndex].speculative
    case Writes(now, _) => HeadReady(s.wq, now)
    case Commits => s.cq != [] && s.cq[0].kind == CommitLoad
    case Invalidated(_) => true
    case _ => false
  }

  /** Speculation alone never changes which lines the normal array holds. */
  lemma SpeculationKeepsLines(c: Config, s: State, e: Event)
    requires Valid(c, s) && Enabled(c, s, e) && !MayChangeLines(c, s, e)
    ensures SameLines(s.normal, Step(c, s, e).normal)
  {
    hide MshrOk, RowsRanked, QueueOk, KeyedOk, Miss, MissStalls, Find, Cycle, SameLines, HandleRead, HandlePrefetch,
      Hit, SpecFill, TimestampVictim, Add, Remove, Refresh, JoinRq, JoinPq;
    match e
    case Reads(now, full) => ReadKeepsLines(c, s, now, full);
    case Prefetches(now, full) => PrefetchKeepsLines(c, s, now, full);
    case _ => NothingChanges(s.normal);
  }

  lemma NothingChanges(rows: seq<seq<Block>>)
    ensures SameLines(rows, rows)
  {
  }

  lemma ReadKeepsLines(c: Config, s: State, now: nat, full: bool)
    requires Shaped(c, s)
    ensures SameLines(s.normal, HandleRead(c, s, now, full).normal)
  {
    hide Miss, MissStalls, Hit, SpecHit;
  }

  lemma PrefetchKeepsLines(c: Config, s: State, now: nat, full: bool)
    requires Shaped(c, s)
    ensures SameLines(s.normal, HandlePrefetch(c, s, now, full).normal)
  {
    hide Miss, MissStalls, Hit;
  }

  /** It does move the recency order: a speculative read that hits the normal array leaves it untouched
      exactly when the line was already the most recent of its set. */
  lemma SpeculativeReadIsInvisibleExactly(c: Config, s: State, now: nat, full: bool)
    requires Valid(c, s) && HeadReady(s.rq, now) && s.rq[0].kind != Writeback
    requires Hit(s.normal[s.rq[0].address % c.sets], s.rq[0].address) < c.ways
    ensures var p := s.rq[0];
            var row := s.normal[p.address % c.sets];
            HandleRead(c, s, now, full).normal == s.normal <==> row[Hit(row, p.address)].lru == 0
  {
    hide MshrOk, QueueOk, KeyedOk, Miss, MissStalls, Find, Cycle;
    var p := s.rq[0];
    var at := p.address % c.sets;
    var row := s.normal[at];
    var way := Hit(row, p.address);
    var t := HandleRead(c, s, now, full);
    assert t.normal == s.normal[at := Touch(row, way)];
    if row[way].lru == 0 {
      assert Touch(row, way) == row;
    } else {
      assert t.normal[at][way].lru == 0;
    }
  }

  // ---------- provenance ----------

  /** A request as far as provenance goes. */
  datatype Key = Key(address: nat, id: nat, speculative: bool)

  function KeyOf(p: Packet): Key { Key(p.address, p.id, p.speculative) }

  function AskedBy(e: Event): set<Key> {
    match e
    case ReadArrives(p, _) => {KeyOf(p)}
    case WriteArrives(p, _) => {KeyOf(p)}
    case PrefetchArrives(p, _) => {KeyOf(p)}
    case _ => {}
  }

  function CommittedBy(e: Event): set<(nat, nat)> {
    if e.CommitArrives? && e.p.kind == CommitLoad then {(e.p.address, e.p.id)} else {}
  }

  function Asked(es: seq<Event>): set<Key> { if es == [] then {} else AskedBy(es[0]) + Asked(es[1..]) }

  function Committed(es: seq<Event>): set<(nat, nat)> {
    if es == [] then {} else CommittedBy(es[0]) + Committed(es[1..])
  }

  /** Why a block with this line and timestamp may be visible: its own request was not speculative, or it was
      and a commit at least as young named the line. */
  ghost predicate Allowed(asked: set<Key>, committed: set<(nat, nat)>, address: nat, id: nat) {
    || Key(address, id, false) in asked
    || (Key(address, id, true) in asked && exists m: nat :: id <= m && (address, m) in committed)
  }

  ghost predicate QueueAsked(asked: set<Key>, q: seq<Packet>) {
    forall i :: 0 <= i < |q| && q[i].address != 0 ==> KeyOf(q[i]) in asked
  }

  ghost predicate MessagesSent(committed: set<(nat, nat)>, q: seq<Packet>) {
    forall i :: 0 <= i < |q| && q[i].kind == CommitLoad ==> (q[i].address, q[i].id) in committed
  }

  ghost predicate SpecAsked(asked: set<Key>, rows: seq<seq<Block>>) {
    forall i, w :: 0 <= i < |rows| && 0 <= w < |rows[i]| && rows[i][w].valid ==>
      Key(rows[i][w].line.tag, rows[i][w].line.id, true) in asked
  }

  ghost predicate NormalAllowed(asked: set<Key>, committed: set<(nat, nat)>, rows: seq<seq<Block>>) {
    forall i, w :: 0 <= i < |rows| && 0 <= w < |rows[i]| && rows[i][w].valid ==>
      Allowed(asked, committed, rows[i][w].line.tag, rows[i][w].line.id)
  }

  ghost predicate Explained(asked: set<Key>, committed: set<(nat, nat)>, s: State) {
    && QueueAsked(asked, s.rq) && QueueAsked(asked, s.wq) && QueueAsked(asked, s.pq) && QueueAsked(asked, s.mshr.entry)
    && MessagesSent(committed, s.cq) && SpecAsked(asked, s.spec) && NormalAllowed(asked, committed, s.normal)
  }

  lemma MoreExplains(a: set<Key>, k: set<(nat, nat)>, a': set<Key>, k': set<(nat, nat)>, s: State)
    requires Explained(a, k, s) && a <= a' && k <= k'
    ensures Explained(a', k', s)
  {
    forall i, w | 0 <= i < |s.normal| && 0 <= w < |s.normal[i]| && s.normal[i][w].valid
      ensures Allowed(a', k', s.normal[i][w].line.tag, s.normal[i][w].line.id)
    {
      assert Allowed(a, k, s.normal[i][w].line.tag, s.normal[i][w].line.id);
    }
  }

  lemma PutAllowed(a: set<Key>, k: set<(nat, nat)>, rows: seq<seq<Block>>, at: nat, row: seq<Block>, way: nat, x: Line)
    requires NormalAllowed(a, k, rows) && at < |rows| && |row| == |rows[at]| && way < |row|
             && Allowed(a, k, x.tag, x.id)
    requires forall w :: 0 <= w < |row| ==> row[w].valid == rows[at][w].valid && row[w].line == rows[at][w].line
    ensures NormalAllowed(a, k, rows[at := Put(row, way, x)])
  {
    hide Allowed;
  }

  lemma MergedAsked(a: set<Key>, m: Mshr, c: Config, s: State, p: Packet, merge: (Packet, Packet) -> Packet)
    requires Shaped(c, s) && m == s.mshr && QueueAsked(a, m.entry) && KeyOf(p) in a
    requires var i := Slot(m.entry, p.address);
             i < c.mshrSize ==>
               KeyOf(merge(m.entry[i], p)) == KeyOf(m.entry[i]) || KeyOf(merge(m.entry[i], p)) == KeyOf(p)
    ensures QueueAsked(a, Miss(c, s, p, merge).entry)
  {
    SlotIsSlot(m.entry, p.address);
  }

  lemma InstallExplained(a: set<Key>, k: set<(nat, nat)>, c: Config, s: State, p: Packet, dirty: bool)
    requires Shaped(c, s) && LruVictim(s.normal[p.address % c.sets]) < c.ways
    requires NormalAllowed(a, k, s.normal) && KeyOf(p) in a && !p.speculative
    ensures NormalAllowed(a, k, Install(c, s, p, dirty).normal)
  {
    var at := p.address % c.sets;
    var row := s.normal[at];
    var way := LruVictim(row);
    assert Allowed(a, k, p.address, p.id);
    hide Allowed;
    PutAllowed(a, k, s.normal, at, Touch(row, way), way, LineOf(p, dirty));
  }

  lemma FillExplained(a: set<Key>, k: set<(nat, nat)>, c: Config, s: State, now: nat, full: bool)
    requires Valid(c, s) && Explained(a, k, s)
    ensures Explained(a, k, HandleFill(c, s, now, full))
  {
    hide MshrOk, RowsRanked, QueueOk, KeyedOk, Install, NormalAllowed, Allowed, Find, Cycle;
    if FillReady(c, s, now) {
      var e := s.mshr.entry[s.mshr.nextIndex];
      if !e.speculative && !Blocked(c, s, e, full) {
        InstallExplained(a, k, c, s, e, DirtyFill(c, e));
        InstallFrame(c, s, e, DirtyFill(c, e));
      }
    }
  }

  lemma WriteExplained(a: set<Key>, k: set<(nat, nat)>, c: Config, s: State, now: nat, full: bool)
    requires Valid(c, s) && Explained(a, k, s)
    ensures Explained(a, k, HandleWriteback(c, s, now, full))
  {
    hide MshrOk, RowsRanked, QueueOk, Install, Miss, Allowed, Find, Cycle;
    if HeadReady(s.wq, now) {
      var p := s.wq[0];
      assert KeyOf(p) in a;
      MergedAsked(a, s.mshr, c, s, p, MergeWrite);
      if !Blocked(c, s, p, full) {
        InstallExplained(a, k, c, s, p, true);
        InstallFrame(c, s, p, true);
      }
    }
  }

  lemma SameLinesAllowed(a: set<Key>, k: set<(nat, nat)>, rows: seq<seq<Block>>, r: seq<seq<Block>>)
    requires NormalAllowed(a, k, rows) && SameLines(rows, r)
    ensures NormalAllowed(a, k, r)
  {
    hide Allowed;
  }

  lemma ReadExplained(a: set<Key>, k: set<(nat, nat)>, c: Config, s: State, now: nat, full: bool)
    requires Valid(c, s) && Explained(a, k, s)
    ensures Explained(a, k, HandleRead(c, s, now, full))
  {
    hide MshrOk, RowsRanked, KeyedOk, Miss, MissStalls, Allowed, Find, Cycle, SameLines, NormalAllowed, Hit, SpecHit,
      SpecAsked, Touch;
    ReadKeepsLines(c, s, now, full);
    SameLinesAllowed(a, k, s.normal, HandleRead(c, s, now, full).normal);
    if HeadReady(s.rq, now) {
      assert KeyOf(s.rq[0]) in a;
      MergedAsked(a, s.mshr, c, s, s.rq[0], MergeRead);
    }
  }

  lemma PrefetchShape(c: Config, s: State, now: nat, full: bool) returns (t: State)
    requires Shaped(c, s)
    ensures t == HandlePrefetch(c, s, now, full)
    ensures t == s.(normal := t.normal, pq := t.pq, mshr := t.mshr, served := t.served)
    ensures t.pq == s.pq || (s.pq != [] && t.pq == s.pq[1..])
    ensures t.mshr == s.mshr || (s.pq != [] && t.mshr == Miss(c, s, s.pq[0], Wider))
  {
    hide Miss, MissStalls, Hit;
    t := HandlePrefetch(c, s, now, full);
  }

  lemma PrefetchExplained(a: set<Key>, k: set<(nat, nat)>, c: Config, s: State, now: nat, full: bool)
    requires Valid(c, s) && Explained(a, k, s)
    ensures Explained(a, k, HandlePrefetch(c, s, now, full))
  {
    hide MshrOk, RowsRanked, KeyedOk, Miss, Allowed, Find, Cycle, SameLines, NormalAllowed, HandlePrefetch, SpecAsked;
    PrefetchKeepsLines(c, s, now, full);
    var t := PrefetchShape(c, s, now, full);
    SameLinesAllowed(a, k, s.normal, t.normal);
    if s.pq != [] {
      assert KeyOf(s.pq[0]) in a;
      MergedAsked(a, s.mshr, c, s, s.pq[0], Wider);
    }
  }

  lemma SpecHitMatches(row: seq<Block>, address: nat, id: nat)
    requires SpecHit(row, address, id) < |row|
    ensures var b := row[SpecHit(row, address, id)]; b.valid && b.line.tag == address && b.line.id <= id
  {
    FirstIsFirst(MatchingUpTo(row, address, id));
    assert MatchingUpTo(row, address, id)[SpecHit(row, address, id)];
  }

  lemma CommitExplained(a: set<Key>, k: set<(nat, nat)>, c: Config, s: State)
    requires Valid(c, s) && Explained(a, k, s)
    ensures Explained(a, k, CommitOne(c, s))
  {
    hide MshrOk, RowsRanked, QueueOk, KeyedOk, Find, Cycle, SpecHit, LruVictim;
    if s.cq != [] {
      var m := s.cq[0];
      var row := s.spec[m.address % c.specSets];
      var way := SpecHit(row, m.address, m.id);
      if way < c.specWays && m.kind == CommitLoad {
        SpecHitMatches(row, m.address, m.id);
        var x := row[way].line;
        assert Allowed(a, k, x.tag, x.id) by { assert Key(x.tag, x.id, true) in a && (x.tag, m.id) in k; }
        hide Allowed;
        var at := m.address % c.sets;
        if LruVictim(s.normal[at]) < c.ways {
          PutAllowed(a, k, s.normal, at, s.normal[at], LruVictim(s.normal[at]), x.(dirty := false));
        }
      }
    }
  }

  lemma InvalidateExplained(a: set<Key>, k: set<(nat, nat)>, c: Config, s: State, address: nat)
    requires Shaped(c, s) && Explained(a, k, s)
    ensures Explained(a, k, Invalidate(c, s, address))
  {
    hide Allowed, Hit;
  }

  lemma ArrivalExplained(a: set<Key>, k: set<(nat, nat)>, c: Config, s: State, e: Event)
    requires Valid(c, s) && Enabled(c, s, e) && Explained(a, k, s) && AskedBy(e) <= a && CommittedBy(e) <= k
    requires e.ReadArrives? || e.WriteArrives? || e.PrefetchArrives? || e.CommitArrives? || e.DataReturns?
    ensures Explained(a, k, Step(c, s, e))
  {
    hide MshrOk, RowsRanked, QueueOk, KeyedOk, Find, Cycle, NormalAllowed, SpecAsked;
    match e
    case ReadArrives(p, now) => if RqOutcome(c, s, p).Merged? { SlotIsSlot(s.rq, p.address); }
    case PrefetchArrives(p, now) => if PqOutcome(c, s, p).Merged? { SlotIsSlot(s.pq, p.address); }
    case DataReturns(p, now) => SlotIsSlot(s.mshr.entry, p.address);
    case _ =>
  }

  lemma StepExplained(a: set<Key>, k: set<(nat, nat)>, c: Config, s: State, e: Event)
    requires Valid(c, s) && Enabled(c, s, e) && Explained(a, k, s)
    ensures Explained(a + AskedBy(e), k + CommittedBy(e), Step(c, s, e))
  {
    var a', k' := a + AskedBy(e), k + CommittedBy(e);
    MoreExplains(a, k, a', k', s);
    hide Explained, Valid, AskedBy, CommittedBy;
    match e
    case Fills(now, full) => FillExplained(a', k', c, s, now, full);
    case Writes(now, full) => WriteExplained(a', k', c, s, now, full);
    case Reads(now, full) => ReadExplained(a', k', c, s, now, full);
    case Prefetches(now, full) => PrefetchExplained(a', k', c, s, now, full);
    case Commits => CommitExplained(a', k', c, s);
    case Invalidated(address) => InvalidateExplained(a', k', c, s, address);
    case _ => ArrivalExplained(a', k', c, s, e);
  }

  lemma {:induction false} RunExplained(a: set<Key>, k: set<(nat, nat)>, c: Config, s: State, es: seq<Event>, t: State)
    requires Valid(c, s) && Explained(a, k, s) && Reaches(c, s, es, t)
    ensures Explained(a + Asked(es), k + Committed(es), t)
    decreases |es|
  {
    hide Explained, Step, AskedBy, CommittedBy, MshrOk, RowsRanked, QueueOk, KeyedOk;
    if es == [] {
      assert a + Asked(es) == a && k + Committed(es) == k;
    } else {
      StepKeeps(c, s, es[0]);
      StepExplained(a, k, c, s, es[0]);
      RunExplained(a + AskedBy(es[0]), k + CommittedBy(es[0]), c, Step(c, s, es[0]), es[1..], t);
      assert a + AskedBy(es[0]) + Asked(es[1..]) == a + Asked(es);
      assert k + CommittedBy(es[0]) + Committed(es[1..]) == k + Committed(es);
    }
  }

  lemma {:induction false} AskedIsSeen(es: seq<Event>, key: Key)
    requires key in Asked(es)
    ensures exists e :: e in es && key in AskedBy(e)
  {
    if key in AskedBy(es[0]) { assert es[0] in es; } else { AskedIsSeen(es[1..], key); }
  }

  lemma {:induction false} CommittedIsSeen(es: seq<Event>, m: (nat, nat))
    requires m in Committed(es)
    ensures exists e :: e in es && m in CommittedBy(e)
  {
    if m in CommittedBy(es[0]) { assert es[0] in es; } else { CommittedIsSeen(es[1..], m); }
  }

  /** Over every run: a line that only speculative requests asked for, and that no commit message at least as
      young as such a request named, is nowhere in the normal array. */
  lemma UncommittedLinesStayHidden(c: Config, es: seq<Event>, t: State, address: nat, i: nat, w: nat)
    requires Configured(c) && Reaches(c, Initial(c), es, t)
    requires forall e, id: nat :: e in es ==> Key(address, id, false) !in AskedBy(e)
    requires forall e, f, id: nat, m: nat ::
               e in es && f in es && Key(address, id, true) in AskedBy(e) && (address, m) in CommittedBy(f) ==> m < id
    requires i < c.sets && w < c.ways
    ensures Valid(c, t) && !(t.normal[i][w].valid && t.normal[i][w].line.tag == address)
  {
    InitialIsValid(c);
    EveryRunIsValid(c, Initial(c), es, t);
    RunExplained({}, {}, c, Initial(c), es, t);
    hide AskedBy, CommittedBy;
    if t.normal[i][w].valid && t.normal[i][w].line.tag == address {
      var id := t.normal[i][w].line.id;
      assert Allowed({} + Asked(es), {} + Committed(es), address, id);
      if Key(address, id, false) in Asked(es) {
        AskedIsSeen(es, Key(address, id, false));
      } else {
        var m: nat :| id <= m && (address, m) in Committed(es);
        AskedIsSeen(es, Key(address, id, true));
        CommittedIsSeen(es, (address, m));
      }
    }
  }

  // ---------- how a speculative block leaves ----------

  /** The event takes the block out of way w of set i: a strictly older speculative fill of this set whose victim
      the way is, or a commit or squash of its line, at least as young, that finds it first. */
  ghost predicate Displaces(c: Config, s: State, e: Event, i: nat, w: nat)
    requires Shaped(c, s) && i < c.specSets && w < c.specWays
  {
    match e
    case Fills(now, _) =>
      && FillReady(c, s, now)
      && var p := s.mshr.entry[s.mshr.nextIndex];
      && p.speculative && p.address % c.specSets == i && TimestampVictim(s.spec[i], p.id) == w
      && p.id < s.spec[i][w].line.id
    case Commits =>
      && s.cq != [] && s.cq[0].address % c.specSets == i && SpecHit(s.spec[i], s.cq[0].address, s.cq[0].id) == w
      && s.cq[0].address == s.spec[i][w].line.tag && s.cq[0].id >= s.spec[i][w].line.id
    case _ => false
  }

  lemma FillDisplaces(c: Config, s: State, now: nat, full: bool, i: nat, w: nat)
    requires Shaped(c, s) && i < c.specSets && w < c.specWays && s.spec[i][w].valid
    ensures HandleFill(c, s, now, full).spec[i][w] == s.spec[i][w] <==> !Displaces(c, s, Fills(now, full), i, w)
  {
    hide Find, Cycle, Install, Blocked, TimestampVictim;
    if FillReady(c, s, now) {
      var p := s.mshr.entry[s.mshr.nextIndex];
      if !p.speculative {
        if !Blocked(c, s, p, full) { NormalFillKeepsSpec(c, s, p, full); }
      } else {
        VictimIsYounger(s.spec[p.address % c.specSets], p.id);
      }
    }
  }

  lemma NormalFillKeepsSpec(c: Config, s: State, p: Packet, full: bool)
    requires Shaped(c, s) && !Blocked(c, s, p, full)
    ensures Install(c, s, p, DirtyFill(c, p)).spec == s.spec
  {
  }

  lemma CommitDisplaces(c: Config, s: State, i: nat, w: nat)
    requires Shaped(c, s) && i < c.specSets && w < c.specWays && s.spec[i][w].valid
    ensures CommitOne(c, s).spec[i][w] == s.spec[i][w] <==> !Displaces(c, s, Commits, i, w)
  {
    hide SpecHit, LruVictim;
    if s.cq != [] {
      var row := s.spec[s.cq[0].address % c.specSets];
      if SpecHit(row, s.cq[0].address, s.cq[0].id) < |row| { SpecHitMatches(row, s.cq[0].address, s.cq[0].id); }
    }
  }

  /** One step leaves a speculative block where it is exactly when it does not displace it. */
  lemma BlockLeavesExactly(c: Config, s: State, e: Event, i: nat, w: nat)
    requires Shaped(c, s) && Enabled(c, s, e) && i < c.specSets && w < c.specWays && s.spec[i][w].valid
    ensures Step(c, s, e).spec[i][w] == s.spec[i][w] <==> !Displaces(c, s, e, i, w)
  {
    hide Find, Cycle, Miss, MissStalls, Install, SpecHit, LruVictim, TimestampVictim, HandleFill, CommitOne, Displaces,
      Hit, Blocked;
    if !e.Fills? && !e.Commits? { NothingElseDisplaces(c, s, e, i, w); }
    match e
    case Fills(now, full) => FillDisplaces(c, s, now, full, i, w);
    case Commits => CommitDisplaces(c, s, i, w);
    case Writes(now, full) => WriteKeepsSpec(c, s, now, full);
    case _ =>
  }

  lemma NothingElseDisplaces(c: Config, s: State, e: Event, i: nat, w: nat)
    requires Shaped(c, s) && i < c.specSets && w < c.specWays && !e.Fills? && !e.Commits?
    ensures !Displaces(c, s, e, i, w)
  {
  }

  lemma WriteKeepsSpec(c: Config, s: State, now: nat, full: bool)
    requires Shaped(c, s)
    ensures HandleWriteback(c, s, now, full).spec == s.spec
  {
    hide Find, Cycle, Miss, MissStalls, LruVictim, Hit;
  }

  ghost predicate DisplacedIn(c: Config, s: State, es: seq<Event>, i: nat, w: nat)
    requires Shaped(c, s) && i < c.specSets && w < c.specWays
    decreases |es|
  {
    && es != [] && Enabled(c, s, es[0])
    && (Displaces(c, s, es[0], i, w) || DisplacedIn(c, Step(c, s, es[0]), es[1..], i, w))
  }

  /** The way holds this block in every state of the run. */
  ghost predicate StaysThrough(c: Config, s: State, es: seq<Event>, i: nat, w: nat, b: Block)
    requires Shaped(c, s) && i < c.specSets && w < c.specWays
    decreases |es|
  {
    && s.spec[i][w] == b
    && (es == [] || (Enabled(c, s, es[0]) && StaysThrough(c, Step(c, s, es[0]), es[1..], i, w, b)))
  }

  /** Over every run: a speculative block stays where it is exactly as long as no strictly older fill takes its
      way and no commit or squash of its line by an instruction at least as young finds it. */
  lemma {:induction false} BlocksLeaveExactly(c: Config, s: State, es: seq<Event>, t: State, i: nat, w: nat)
    requires Shaped(c, s) && Reaches(c, s, es, t) && i < c.specSets && w < c.specWays && s.spec[i][w].valid
    ensures StaysThrough(c, s, es, i, w, s.spec[i][w]) <==> !DisplacedIn(c, s, es, i, w)
    ensures Shaped(c, t) && (t.spec[i][w] == s.spec[i][w] || DisplacedIn(c, s, es, i, w))
    decreases |es|
  {
    hide Step, Enabled, Displaces;
    if es != [] {
      BlockLeavesExactly(c, s, es[0], i, w);
      ReachesShaped(c, Step(c, s, es[0]), es[1..], t);
      if Step(c, s, es[0]).spec[i][w] == s.spec[i][w] {
        BlocksLeaveExactly(c, Step(c, s, es[0]), es[1..], t, i, w);
      }
    }
  }

  lemma {:induction false} ReachesShaped(c: Config, s: State, es: seq<Event>, t: State)
    requires Shaped(c, s) && Reaches(c, s, es, t)
    ensures Shaped(c, t)
    decreases |es|
  {
    hide Step, Enabled;
    if es != [] { ReachesShaped(c, Step(c, s, es[0]), es[1..], t); }
  }

  // ---------- dirty data ----------

  /** The commit message in front promotes a line over a dirty one. */
  ghost predicate OverwritesDirty(c: Config, s: State, i: nat, w: nat)
    requires Shaped(c, s) && i < c.sets && w < c.ways
  {
    && s.cq != [] && s.cq[0].kind == CommitLoad && s.cq[0].address % c.sets == i
    && SpecHit(s.spec[s.cq[0].address % c.specSets], s.cq[0].address, s.cq[0].id) < c.specWays
    && LruVictim(s.normal[i]) == w
  }

  /** The line is still dirty in its way, or has been sent down. */
  ghost predicate Safe(t: State, i: nat, w: nat, x: Line, sent: nat)
    requires i < |t.normal| && w < |t.normal[i]| && sent <= |t.writebacks|
  {
    t.normal[i][w].line == x || x in t.writebacks[sent..]
  }

  /** A dirty line is lost in exactly one way: a commit promotes another line over it. Fills and writebacks
      always send it down first. */
  lemma DirtyLinesAreLostExactly(c: Config, s: State, e: Event, i: nat, w: nat)
    requires Valid(c, s) && Enabled(c, s, e) && i < c.sets && w < c.ways && s.normal[i][w].line.dirty
    ensures |s.writebacks| <= |Step(c, s, e).writebacks|
    ensures Safe(Step(c, s, e), i, w, s.normal[i][w].line, |s.writebacks|)
            <==> !(e.Commits? && OverwritesDirty(c, s, i, w))
  {
    var x := s.normal[i][w].line;
    var t := Step(c, s, e);
    hide MshrOk, RowsRanked, QueueOk, KeyedOk, Find, Cycle, Miss, MissStalls, SpecHit, LruVictim, TimestampVictim;
    match e
    case Fills(now, full) => DirtyFillIsSafe(c, s, now, full, i, w);
    case Writes(now, full) => DirtyWriteIsSafe(c, s, now, full, i, w);
    case Invalidated(_) => assert t.normal[i][w].line == x;
    case Commits =>
      assert t.writebacks[|s.writebacks|..] == [];
      if OverwritesDirty(c, s, i, w) { assert !t.normal[i][w].line.dirty; }
    case _ =>
      assert t.normal[i][w].line == x by { SpeculationKeepsLines(c, s, e); }
  }

  lemma InstallIsSafe(c: Config, s: State, p: Packet, dirty: bool, i: nat, w: nat)
    requires Shaped(c, s) && LruVictim(s.normal[p.address % c.sets]) < c.ways && i < c.sets && w < c.ways
    requires s.normal[i][w].line.dirty
    ensures var t := Install(c, s, p, dirty);
            |s.writebacks| <= |t.writebacks| && Safe(t, i, w, s.normal[i][w].line, |s.writebacks|)
  {
    hide LruVictim;
    var at := p.address % c.sets;
    var way := LruVictim(s.normal[at]);
    var t := Install(c, s, p, dirty);
    assert t.writebacks[|s.writebacks|..] == DirtyOf(s.normal[at][way]);
  }

  lemma DirtyFillIsSafe(c: Config, s: State, now: nat, full: bool, i: nat, w: nat)
    requires Valid(c, s) && i < c.sets && w < c.ways && s.normal[i][w].line.dirty
    ensures var t := HandleFill(c, s, now, full);
            |s.writebacks| <= |t.writebacks| && Safe(t, i, w, s.normal[i][w].line, |s.writebacks|)
  {
    hide MshrOk, RowsRanked, QueueOk, KeyedOk, Find, Cycle, LruVictim, Install;
    if FillReady(c, s, now) {
      var e := s.mshr.entry[s.mshr.nextIndex];
      if !e.speculative && !Blocked(c, s, e, full) { InstallIsSafe(c, s, e, DirtyFill(c, e), i, w); }
    }
  }

  lemma DirtyWriteIsSafe(c: Config, s: State, now: nat, full: bool, i: nat, w: nat)
    requires Valid(c, s) && i < c.sets && w < c.ways && s.normal[i][w].line.dirty
    ensures var t := HandleWriteback(c, s, now, full);
            |s.writebacks| <= |t.writebacks| && Safe(t, i, w, s.normal[i][w].line, |s.writebacks|)
  {
    hide MshrOk, RowsRanked, QueueOk, KeyedOk, Find, Cycle, LruVictim, Install, Miss, MissStalls;
    if HeadReady(s.wq, now) {
      var p := s.wq[0];
      if Hit(s.normal[p.address % c.sets], p.address) >= c.ways && !c.level.L1D? && !Blocked(c, s, p, full) {
        InstallIsSafe(c, s, p, true, i, w);
      }
    }
  }
}
