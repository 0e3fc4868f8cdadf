/** What fills, commits and invalidations change: which way, which line, which order. */
module CacheFills {
  import opened FirstMin
  import opened CacheSet
  import opened LruOrder
  import opened CacheModel
  import opened CacheInvariant
  import opened CacheRequests

  /** way is the first free one, or without a free one the least recently used. */
  ghost predicate Replaces(row: seq<Block>, way: nat) {
    && way < |row|
    && if row[way].valid then row[way].lru == |row| - 1 && forall v :: 0 <= v < |row| ==> row[v].valid
       else forall v :: 0 <= v < way ==> row[v].valid
  }

  lemma ReplacedExactly(row: seq<Block>)
    requires Ranked(row) && row != []
    ensures Replaces(row, LruVictim(row))
  {
    VictimExists(row);
    FirstIsFirst(Invalid(row));
    FirstIsFirst(Oldest(row));
    var free, oldest := First(Invalid(row)), First(Oldest(row));
    assert free < |row| ==> Invalid(row)[free];
    assert oldest < |row| ==> Oldest(row)[oldest];
    forall v | 0 <= v < free ensures row[v].valid { assert !Invalid(row)[v]; }
  }

  /** The set with this line in this way, used last: what was used more recently than the way before moves back one. */
  ghost predicate Filled(row: seq<Block>, r: seq<Block>, way: nat, x: Line) {
    && |r| == |row| && way < |row| && r[way] == Block(true, x, 0)
    && forall v :: 0 <= v < |row| && v != way ==>
         r[v] == Block(row[v].valid, row[v].line, if row[v].lru < row[way].lru then row[v].lru + 1 else row[v].lru)
  }

  /** The line of this request goes into the set, and what was there goes below if it is dirty. */
  ghost predicate Installed(c: Config, s: State, t: State, p: Packet, dirty: bool, way: nat)
    requires Shaped(c, s)
  {
    && |t.normal| == c.sets && Filled(s.normal[p.address % c.sets], t.normal[p.address % c.sets], way, LineOf(p, dirty))
    && t.normal == s.normal[p.address % c.sets := t.normal[p.address % c.sets]]
    && t.served == s.served + [p]
    && var out := s.normal[p.address % c.sets][way].line;
    t.writebacks == s.writebacks + if out.dirty then [out] else []
  }

  lemma InstallExactly(c: Config, s: State, p: Packet, dirty: bool)
    requires Valid(c, s)
    ensures var way := LruVictim(s.normal[p.address % c.sets]);
            && Replaces(s.normal[p.address % c.sets], way)
            && Installed(c, s, Install(c, s, p, dirty), p, dirty, way)
            && Install(c, s, p, dirty)
               == s.(normal := Install(c, s, p, dirty).normal, served := Install(c, s, p, dirty).served,
                     writebacks := Install(c, s, p, dirty).writebacks)
  {
    ReplacedExactly(s.normal[p.address % c.sets]);
    hide MshrOk, QueueOk, KeyedOk, LruVictim, Replaces;
  }

  /** handle_fill on a normal register: held up exactly when the line replaced is dirty and there is no room for it
      below; else the line is in, dirty exactly for a store in L1D, and the register is free. */
  lemma NormalFillExactly(c: Config, s: State, now: nat, full: bool) returns (way: nat)
    requires Valid(c, s) && FillReady(c, s, now) && !s.mshr.entry[s.mshr.nextIndex].speculative
    ensures var e, t := s.mshr.entry[s.mshr.nextIndex], HandleFill(c, s, now, full);
            var row := s.normal[e.address % c.sets];
            && Replaces(row, way)
            && if row[way].line.dirty && full then t == s
               else
                 && Installed(c, s, t, e, c.level.L1D? && e.kind == Rfo, way)
                 && t.spec == s.spec && t.mshr.entry == s.mshr.entry[s.mshr.nextIndex := EMPTY]
  {
    var e := s.mshr.entry[s.mshr.nextIndex];
    way := LruVictim(s.normal[e.address % c.sets]);
    InstallExactly(c, s, e, DirtyFill(c, e));
    hide MshrOk, RowsRanked, QueueOk, KeyedOk, LruVictim, Install, FirstMin.Find, FirstMin.Cycle, Replaces;
  }

  /** A due write that misses below L1D: installed dirty, under the same condition. */
  lemma WritebackMissExactly(c: Config, s: State, now: nat, full: bool) returns (way: nat)
    requires Valid(c, s) && HeadReady(s.wq, now) && !c.level.L1D?
    requires Absent(s.normal[s.wq[0].address % c.sets], s.wq[0].address)
    ensures var p, t := s.wq[0], HandleWriteback(c, s, now, full);
            var row := s.normal[p.address % c.sets];
            && Replaces(row, way)
            && if row[way].line.dirty && full then t == s
               else Installed(c, s, t, p, true, way) && t.wq == s.wq[1..] && t.mshr == s.mshr && t.spec == s.spec
  {
    var p := s.wq[0];
    way := LruVictim(s.normal[p.address % c.sets]);
    HitIsFirst(s.normal[p.address % c.sets], p.address);
    InstallExactly(c, s, p, true);
    hide MshrOk, RowsRanked, QueueOk, KeyedOk, LruVictim, Install, Replaces, Hit, Absent;
  }

  /** way is the first free one, or without a free one the first that holds a younger block. */
  ghost predicate Yields(row: seq<Block>, id: nat, way: nat) {
    && way < |row|
    && if row[way].valid then
         && row[way].line.id > id && (forall v :: 0 <= v < |row| ==> row[v].valid)
         && forall v :: 0 <= v < way ==> row[v].line.id <= id
       else forall v :: 0 <= v < way ==> row[v].valid
  }

  lemma YieldsExactly(row: seq<Block>, id: nat)
    ensures var way := TimestampVictim(row, id);
            if way < |row| then Yields(row, id, way)
            else forall v :: 0 <= v < |row| ==> row[v].valid && row[v].line.id <= id
  {
    FirstIsFirst(Invalid(row));
    FirstIsFirst(Younger(row, id));
    var free, younger := First(Invalid(row)), First(Younger(row, id));
    assert free < |row| ==> Invalid(row)[free];
    assert younger < |row| ==> Younger(row, id)[younger];
    forall v | 0 <= v < free ensures row[v].valid { assert !Invalid(row)[v]; }
    forall v | 0 <= v < younger ensures row[v].line.id <= id { assert !Younger(row, id)[v]; }
  }

  /** handle_fill on a speculative register: with a way free or younger its line goes there, the recency order left
      alone, and the register is free; otherwise the arrays stay as they are. The normal array always does. */
  lemma SpeculativeFillExactly(c: Config, s: State, now: nat, full: bool) returns (way: nat)
    requires Valid(c, s) && FillReady(c, s, now) && s.mshr.entry[s.mshr.nextIndex].speculative
    ensures var e, t := s.mshr.entry[s.mshr.nextIndex], HandleFill(c, s, now, full);
            var at := e.address % c.specSets;
            var row := s.spec[at];
            && t.normal == s.normal && t.writebacks == s.writebacks
            && if (forall v :: 0 <= v < |row| ==> row[v].valid && row[v].line.id <= e.id)
               then t.spec == s.spec && t.served == s.served
               else
                 && Yields(row, e.id, way) && t.served == s.served + [e]
                 && t.mshr.entry == s.mshr.entry[s.mshr.nextIndex := EMPTY]
                 && t.spec == s.spec[at := row[way :=
                                               Block(true, LineOf(e, c.level.L1D? && e.kind == Rfo), row[way].lru)]]
  {
    var e := s.mshr.entry[s.mshr.nextIndex];
    var row := s.spec[e.address % c.specSets];
    way := TimestampVictim(row, e.id);
    YieldsExactly(row, e.id);
    hide MshrOk, RowsRanked, QueueOk, KeyedOk, TimestampVictim, FirstMin.Find, FirstMin.Cycle, Add;
    if way < |row| { assert row[way].valid ==> row[way].line.id > e.id; }
  }

  // ---------- commits ----------

  /** copy is the first way with the line that an instruction of this age can see. */
  ghost predicate FirstVisible(row: seq<Block>, address: nat, id: nat, copy: nat) {
    && copy < |row| && row[copy].valid && row[copy].line.tag == address && row[copy].line.id <= id
    && forall v :: 0 <= v < copy ==> !(row[v].valid && row[v].line.tag == address && row[v].line.id <= id)
  }

  ghost predicate NoneVisible(row: seq<Block>, address: nat, id: nat) {
    forall v :: 0 <= v < |row| ==> !(row[v].valid && row[v].line.tag == address && row[v].line.id <= id)
  }

  lemma VisibleExactly(row: seq<Block>, address: nat, id: nat)
    ensures var w := SpecHit(row, address, id);
            if w < |row| then FirstVisible(row, address, id, w) else NoneVisible(row, address, id)
  {
    FirstIsFirst(MatchingUpTo(row, address, id));
    var w := SpecHit(row, address, id);
    assert w < |row| ==> MatchingUpTo(row, address, id)[w];
    forall v | 0 <= v < w ensures !(row[v].valid && row[v].line.tag == address && row[v].line.id <= id) {
      assert !MatchingUpTo(row, address, id)[v];
    }
  }

  /** One message: the first visible copy is dropped, and a commit writes it, clean, over the way that would be replaced
      in the normal array, in its place in the recency order; nothing is written back. */
  lemma CommitExactly(c: Config, s: State) returns (copy: nat, way: nat)
    requires Valid(c, s) && s.cq != []
    ensures var k, t := s.cq[0], CommitOne(c, s);
            var at, target := k.address % c.specSets, k.address % c.sets;
            var rest := s.(cq := s.cq[1..], passed := s.passed + [k]);
            if NoneVisible(s.spec[at], k.address, k.id) then t == rest
            else
              && FirstVisible(s.spec[at], k.address, k.id, copy)
              && var dropped := rest.(spec := s.spec[at := s.spec[at][copy := s.spec[at][copy].(valid := false)]]);
              if k.kind != CommitLoad then t == dropped
              else
                && Replaces(s.normal[target], way)
                && t == dropped.(normal := s.normal[target := s.normal[target][way :=
                     Block(true, s.spec[at][copy].line.(dirty := false), s.normal[target][way].lru)]])
  {
    var k := s.cq[0];
    copy := SpecHit(s.spec[k.address % c.specSets], k.address, k.id);
    way := LruVictim(s.normal[k.address % c.sets]);
    VisibleExactly(s.spec[k.address % c.specSets], k.address, k.id);
    ReplacedExactly(s.normal[k.address % c.sets]);
    hide MshrOk, RowsRanked, QueueOk, KeyedOk, LruVictim, SpecHit, Replaces, NoneVisible;
    if copy < c.specWays { Seen(s.spec[k.address % c.specSets], k.address, k.id, copy); }
  }

  lemma Seen(row: seq<Block>, address: nat, id: nat, copy: nat)
    requires FirstVisible(row, address, id, copy)
    ensures !NoneVisible(row, address, id)
  {
  }

  /** invalidate_entry takes exactly the first copy out of the normal array; the line keeps its dirty flag and its
      place in the recency order. */
  lemma InvalidatedExactly(c: Config, s: State, address: nat) returns (way: nat)
    requires Shaped(c, s)
    ensures var t, at := Invalidate(c, s, address), address % c.sets;
            if Absent(s.normal[at], address) then t == s
            else
              && FirstHolder(s.normal[at], address, way)
              && t == s.(normal := s.normal[at := s.normal[at][way := s.normal[at][way].(valid := false)]])
  {
    way := Hit(s.normal[address % c.sets], address);
    HitIsFirst(s.normal[address % c.sets], address);
    hide Hit;
  }
}
