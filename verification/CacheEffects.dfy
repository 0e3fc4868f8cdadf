/** What one step of a cache level achieves for the request in front, stated without saying which way it uses. */
module CacheEffects {
  import opened FirstMin
  import opened CacheSet
  import opened LruOrder
  import opened CacheModel
  import opened CacheInvariant
  import opened CacheProvenance

  /** Some way of the set holds the line. */
  ghost predicate Present(row: seq<Block>, address: nat) {
    exists w :: 0 <= w < |row| && row[w].valid && row[w].line.tag == address
  }

  /** Some way holds the line and belongs to an instruction no younger than id. */
  ghost predicate VisibleTo(row: seq<Block>, address: nat, id: nat) {
    exists w :: 0 <= w < |row| && row[w].valid && row[w].line.tag == address && row[w].line.id <= id
  }

  ghost predicate PresentDirty(row: seq<Block>, address: nat) {
    exists w :: 0 <= w < |row| && row[w].valid && row[w].line.tag == address && row[w].line.dirty
  }

  /** The line is there and was used last. */
  ghost predicate PresentFirst(row: seq<Block>, x: Line) {
    exists w :: 0 <= w < |row| && row[w] == Block(true, x, 0)
  }

  lemma HitExactly(row: seq<Block>, address: nat)
    ensures Hit(row, address) < |row| <==> Present(row, address)
    ensures Hit(row, address) < |row| ==> row[Hit(row, address)].valid && row[Hit(row, address)].line.tag == address
  {
    FirstIsFirst(Matching(row, address));
    var h := Hit(row, address);
    if h < |row| { assert Matching(row, address)[h]; }
    if Present(row, address) {
      var w :| 0 <= w < |row| && row[w].valid && row[w].line.tag == address;
      assert Matching(row, address)[w];
    }
  }

  lemma SpecHitExactly(row: seq<Block>, address: nat, id: nat)
    ensures SpecHit(row, address, id) < |row| <==> VisibleTo(row, address, id)
  {
    FirstIsFirst(MatchingUpTo(row, address, id));
    var h := SpecHit(row, address, id);
    if h < |row| { assert MatchingUpTo(row, address, id)[h]; }
    if VisibleTo(row, address, id) {
      var w :| 0 <= w < |row| && row[w].valid && row[w].line.tag == address && row[w].line.id <= id;
      assert MatchingUpTo(row, address, id)[w];
    }
  }

  /** A read that is due is answered exactly when its line is in the normal array, or in the speculative one
      from an instruction no younger. Otherwise it stays in front or its line has a register. */
  lemma ReadIsServedExactly(c: Config, s: State, now: nat, full: bool)
    requires Valid(c, s) && HeadReady(s.rq, now)
    ensures var p, t := s.rq[0], HandleRead(c, s, now, full);
            var found := Present(s.normal[p.address % c.sets], p.address)
                || VisibleTo(s.spec[p.address % c.specSets], p.address, p.id);
            && (t.served == s.served + [p] <==> found)
            && (found ==> t.rq == s.rq[1..])
            && (!found ==> t.served == s.served)
            && (!found && t.rq != s.rq ==> t.rq == s.rq[1..] && Slot(t.mshr.entry, p.address) < c.mshrSize)
  {
    var p := s.rq[0];
    HitExactly(s.normal[p.address % c.sets], p.address);
    SpecHitExactly(s.spec[p.address % c.specSets], p.address, p.id);
    hide RowsRanked, KeyedOk, Hit, SpecHit, Present, VisibleTo, MissStalls, Find, Cycle;
    MissRegister(c, s, p, MergeRead, c.level.LLC? && full);
    hide Miss;
    assert |s.served + [p]| == |s.served| + 1;
  }

  /** After a miss that does not stall the line has its register: the request itself or merged into the one
      there was. */
  lemma MissRegister(c: Config, s: State, p: Packet, merge: (Packet, Packet) -> Packet, full: bool)
    requires Shaped(c, s) && MshrOk(s.mshr) && p.address != 0
    requires forall e: Packet :: e.address == p.address ==> merge(e, p).address == e.address
    ensures var i, t := Slot(s.mshr.entry, p.address), Miss(c, s, p, merge);
            !MissStalls(c, s, p, full) ==>
              var j := Slot(t.entry, p.address);
              && j < c.mshrSize
              && t.entry[j] == if i < c.mshrSize then merge(s.mshr.entry[i], p) else p.(done := false)
  {
    if !MissStalls(c, s, p, full) {
      var m := s.mshr;
      var i := Slot(m.entry, p.address);
      SlotIsSlot(m.entry, p.address);
      var t := Miss(c, s, p, merge);
      if i == c.mshrSize { AddKeeps(m, p.(done := false)); }
      var j := if i < c.mshrSize then i else Slot(m.entry, 0);
      FirstIs(At(t.entry, p.address), j);
    }
  }

  /** A write that leaves the queue has left its line dirty in its set, or, after a miss in L1D, a register. The
      fill of that register marks the line dirty exactly when the write did not merge with a read: then the
      store is lost, for the register keeps the kind of the read. */
  lemma WriteIsRecorded(c: Config, s: State, now: nat, full: bool)
    requires Valid(c, s) && HeadReady(s.wq, now)
    ensures var p, t := s.wq[0], HandleWriteback(c, s, now, full);
            var i, j := Slot(s.mshr.entry, p.address), Slot(t.mshr.entry, p.address);
            t.wq == s.wq
            || (t.wq == s.wq[1..]
                && if c.level.L1D? && !Present(s.normal[p.address % c.sets], p.address) then
                     && j < c.mshrSize
                     && (p.kind == Rfo ==> (DirtyFill(c, t.mshr.entry[j]) <==>
                           i == c.mshrSize || s.mshr.entry[i].kind == Prefetch || s.mshr.entry[i].kind == Rfo))
                   else PresentDirty(t.normal[p.address % c.sets], p.address))
  {
    var p := s.wq[0];
    var at := p.address % c.sets;
    var row := s.normal[at];
    HitExactly(row, p.address);
    MissRegister(c, s, p, MergeWrite, false);
    hide RowsRanked, QueueOk, Miss, MissStalls, Hit, Present, Find, Cycle, Install, LruVictim;
    var way := Hit(row, p.address);
    var t := HandleWriteback(c, s, now, full);
    if way < c.ways {
      assert t.normal[at][way].line.dirty && t.normal[at][way].line.tag == p.address && t.normal[at][way].valid;
    } else if !c.level.L1D? && !Blocked(c, s, p, full) {
      InstallPuts(c, s, p, true);
    }
  }

  lemma InstallPuts(c: Config, s: State, p: Packet, dirty: bool)
    requires Shaped(c, s) && LruVictim(s.normal[p.address % c.sets]) < c.ways
    ensures PresentFirst(Install(c, s, p, dirty).normal[p.address % c.sets], LineOf(p, dirty))
    ensures dirty ==> PresentDirty(Install(c, s, p, dirty).normal[p.address % c.sets], p.address)
    ensures Install(c, s, p, dirty).served == s.served + [p] && Install(c, s, p, dirty).wq == s.wq
  {
    var row := Install(c, s, p, dirty).normal[p.address % c.sets];
    var way := LruVictim(s.normal[p.address % c.sets]);
    assert row[way] == Block(true, LineOf(p, dirty), 0);
  }

  /** A normal fill that is not held up leaves its line in the set, most recent, and frees the register. */
  lemma NormalFillInstalls(c: Config, s: State, now: nat, full: bool)
    requires Valid(c, s) && now < UINT64_MAX && FillReady(c, s, now) && !s.mshr.entry[s.mshr.nextIndex].speculative
    ensures var e, t := s.mshr.entry[s.mshr.nextIndex], HandleFill(c, s, now, full);
            t == s || (PresentFirst(t.normal[e.address % c.sets], LineOf(e, DirtyFill(c, e)))
                       && t.served == s.served + [e] && Slot(t.mshr.entry, e.address) == c.mshrSize)
  {
    CandidateIsFirst(s.mshr);
    var e := s.mshr.entry[s.mshr.nextIndex];
    RemoveKeeps(s.mshr, s.mshr.nextIndex);
    hide MshrOk, RowsRanked, QueueOk, KeyedOk, Find, Cycle, Install, LruVictim, PresentFirst;
    if !Blocked(c, s, e, full) { InstallPuts(c, s, e, DirtyFill(c, e)); }
  }

  /** A speculative fill that is admitted leaves its line for its own and younger instructions. */
  lemma SpeculativeFillIsVisible(row: seq<Block>, x: Line)
    requires NoYounger(row, x.id) < |row|
    ensures forall id: nat :: VisibleTo(SpecFill(row, x), x.tag, id) <==> VisibleTo(row, x.tag, id) || x.id <= id
    ensures TimestampVictim(row, x.id) < |row| && SpecFill(row, x)[TimestampVictim(row, x.id)].line == x
  {
    AdmittedExactly(row, x.id);
    VictimIsYounger(row, x.id);
    var v := TimestampVictim(row, x.id);
    var r := SpecFill(row, x);
    hide NoYounger, TimestampVictim;
    assert r == Put(row, v, x);
    forall id: nat ensures VisibleTo(r, x.tag, id) <==> VisibleTo(row, x.tag, id) || x.id <= id {
      if VisibleTo(row, x.tag, id) {
        var w :| 0 <= w < |row| && row[w].valid && row[w].line.tag == x.tag && row[w].line.id <= id;
        assert r[if w == v then v else w].line.id <= id;
      }
      if x.id <= id { assert r[v].valid && r[v].line == x; }
      if VisibleTo(r, x.tag, id) {
        var w :| 0 <= w < |r| && r[w].valid && r[w].line.tag == x.tag && r[w].line.id <= id;
        if w != v { assert row[w] == r[w]; }
      }
    }
  }

  /** A commit that finds its line moves one copy: clean into the normal array, out of the speculative one.
      A squash only takes it out. Without a visible copy neither array changes. */
  lemma CommitMovesTheLine(c: Config, s: State)
    requires Valid(c, s) && s.cq != []
    ensures var k, t := s.cq[0], CommitOne(c, s);
            var row := s.spec[k.address % c.specSets];
            if !VisibleTo(row, k.address, k.id) then t.normal == s.normal && t.spec == s.spec
            else
              && SpecHit(row, k.address, k.id) < c.specWays
              && var x := row[SpecHit(row, k.address, k.id)].line;
              && x.tag == k.address && x.id <= k.id
              && Copies(t.spec[k.address % c.specSets], x) + 1 == Copies(row, x)
              && (if k.kind == CommitLoad then
                    Copies(t.normal[k.address % c.sets], x.(dirty := false)) >= 1
                  else t.normal == s.normal)
  {
    var k := s.cq[0];
    var row := s.spec[k.address % c.specSets];
    SpecHitExactly(row, k.address, k.id);
    var way := SpecHit(row, k.address, k.id);
    if way < c.specWays {
      SpecHitMatches(row, k.address, k.id);
      var x := row[way].line;
      CopiesUpdate(row, way, row[way].(valid := false), x);
      var target := s.normal[k.address % c.sets];
      VictimExists(target);
      var w := LruVictim(target);
      CopiesPositive(Put(target, w, x.(dirty := false)), w);
    }
    hide MshrOk, QueueOk, KeyedOk, SpecHit, LruVictim, Copies, VisibleTo, RowsRanked;
  }
}
