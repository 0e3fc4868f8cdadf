/** One set of a cache: its ways, how a block is found and how a victim way is chosen. */
module CacheSet {

  /** What a way holds; id is the instruction that brought the line in, its timestamp. */
  datatype Line = Line(dirty: bool, tag: nat, fullAddr: nat, data: nat, id: nat)

  datatype Block = Block(valid: bool, line: Line, lru: nat)

  /** The index of the first flag that holds, or the length: the scan over the ways with its break. */
  function First(flags: seq<bool>): (k: nat)
    ensures k <= |flags|
  {
    if flags == [] then 0 else if flags[0] then 0 else 1 + First(flags[1..])
  }

  lemma {:induction false} FirstIsFirst(flags: seq<bool>)
    ensures var k := First(flags); (k < |flags| ==> flags[k]) && forall j :: 0 <= j < k ==> !flags[j]
  {
    if flags != [] && !flags[0] {
      FirstIsFirst(flags[1..]);
      var k := First(flags[1..]);
      forall j | 0 <= j < k + 1 ensures !flags[j] { if j > 0 { assert flags[j] == flags[1..][j - 1]; } }
    }
  }

  lemma FirstIs(flags: seq<bool>, k: nat)
    requires k <= |flags| && (k < |flags| ==> flags[k]) && forall j :: 0 <= j < k ==> !flags[j]
    ensures First(flags) == k
  {
    FirstIsFirst(flags);
  }

  function Matching(row: seq<Block>, address: nat): seq<bool> {
    seq(|row|, w requires 0 <= w < |row| => row[w].valid && row[w].line.tag == address)
  }

  /** check_hit in the normal array. */
  function Hit(row: seq<Block>, address: nat): (w: nat)
    ensures w <= |row|
  {
    First(Matching(row, address))
  }

  function MatchingUpTo(row: seq<Block>, address: nat, id: nat): seq<bool> {
    seq(|row|, w requires 0 <= w < |row| => row[w].valid && row[w].line.tag == address && row[w].line.id <= id)
  }

  /** check_hit in the speculative array: a block is invisible to older requests. */
  function SpecHit(row: seq<Block>, address: nat, id: nat): (w: nat)
    ensures w <= |row|
  {
    First(MatchingUpTo(row, address, id))
  }

  function Invalid(row: seq<Block>): seq<bool> { seq(|row|, w requires 0 <= w < |row| => !row[w].valid) }

  function Younger(row: seq<Block>, id: nat): seq<bool> {
    seq(|row|, w requires 0 <= w < |row| => row[w].line.id > id)
  }

  function Oldest(row: seq<Block>): seq<bool> {
    seq(|row|, w requires 0 <= w < |row| => row[w].lru as int == |row| - 1)
  }

  /** timestamp_victim: a free way, else the first strictly younger block, else none. */
  function TimestampVictim(row: seq<Block>, id: nat): (w: nat)
    ensures w <= |row|
  {
    if First(Invalid(row)) < |row| then First(Invalid(row)) else First(Younger(row, id))
  }

  /** lru_victim: a free way, else the block at the end of the recency order. */
  function LruVictim(row: seq<Block>): (w: nat)
    ensures w <= |row|
  {
    if First(Invalid(row)) < |row| then First(Invalid(row)) else First(Oldest(row))
  }

  /** fill_cache on one way: the replacement state stays. */
  function Put(row: seq<Block>, w: nat, x: Line): (r: seq<Block>)
    requires w < |row|
    ensures |r| == |row|
  {
    row[w := Block(true, x, row[w].lru)]
  }

  function Drop(row: seq<Block>, w: nat): (r: seq<Block>)
    requires w < |row|
    ensures |r| == |row|
  {
    row[w := row[w].(valid := false)]
  }

  /** The effect of a speculative fill on its set: refused when there is no victim. */
  function SpecFill(row: seq<Block>, x: Line): (r: seq<Block>)
    ensures |r| == |row|
  {
    var w := TimestampVictim(row, x.id);
    if w < |row| then Put(row, w, x) else row
  }

  // ---------- admission ----------

  /** Valid ways whose block is no younger than id. */
  function NoYounger(row: seq<Block>, id: nat): (n: nat)
    ensures n <= |row|
  {
    if row == [] then 0 else
    var n := |row| - 1;
    NoYounger(row[..n], id) + (if row[n].valid && row[n].line.id <= id then 1 else 0)
  }

  lemma {:induction false} FullOfOlder(row: seq<Block>, id: nat)
    ensures NoYounger(row, id) == |row| <==> forall w :: 0 <= w < |row| ==> row[w].valid && row[w].line.id <= id
  {
    if row != [] {
      var n := |row| - 1;
      FullOfOlder(row[..n], id);
      assert forall w :: 0 <= w < n ==> row[w] == row[..n][w];
    }
  }

  /** A speculative fill is admitted exactly when some way is free or strictly younger. */
  lemma AdmittedExactly(row: seq<Block>, id: nat)
    ensures TimestampVictim(row, id) < |row| <==> NoYounger(row, id) < |row|
  {
    FullOfOlder(row, id);
    FirstIsFirst(Invalid(row));
    FirstIsFirst(Younger(row, id));
    var i, y := First(Invalid(row)), First(Younger(row, id));
    if i < |row| { assert !row[i].valid; }
    if y < |row| { assert row[y].line.id > id; }
    if i == |row| && y == |row| {
      forall w | 0 <= w < |row| ensures row[w].valid && row[w].line.id <= id {
        assert !Invalid(row)[w] && !Younger(row, id)[w];
      }
    }
  }

  /** The victim is free or strictly younger: a fill never replaces an older block or its own age. */
  lemma VictimIsYounger(row: seq<Block>, id: nat)
    ensures var w := TimestampVictim(row, id); w < |row| && row[w].valid ==> row[w].line.id > id
  {
    FirstIsFirst(Invalid(row));
    FirstIsFirst(Younger(row, id));
    var w := TimestampVictim(row, id);
    if w < |row| && row[w].valid { assert Younger(row, id)[w]; }
  }

  // ---------- what instructions up to t can see ----------

  /** How many valid ways hold exactly this line. */
  function Copies(row: seq<Block>, x: Line): nat {
    if row == [] then 0 else
    var n := |row| - 1;
    Copies(row[..n], x) + (if row[n].valid && row[n].line == x then 1 else 0)
  }

  /** The two sets hold the same lines as far as timestamps up to t go, wherever the ways are. */
  ghost predicate SameUpTo(t: nat, a: seq<Block>, b: seq<Block>) {
    forall x: Line :: x.id <= t ==> Copies(a, x) == Copies(b, x)
  }

  lemma {:induction false} CopiesUpdate(row: seq<Block>, w: nat, b: Block, x: Line)
    requires w < |row|
    ensures Copies(row[w := b], x) + (if row[w].valid && row[w].line == x then 1 else 0)
         == Copies(row, x) + (if b.valid && b.line == x then 1 else 0)
  {
    var n := |row| - 1;
    if w < n {
      CopiesUpdate(row[..n], w, b, x);
      assert row[w := b][..n] == row[..n][w := b];
    } else {
      assert row[w := b][..n] == row[..n];
    }
  }

  lemma {:induction false} CopiesPositive(row: seq<Block>, w: nat)
    requires w < |row| && row[w].valid
    ensures Copies(row, row[w].line) > 0
  {
    if w < |row| - 1 { CopiesPositive(row[..|row| - 1], w); }
  }

  lemma {:induction false} CopiesWitness(row: seq<Block>, x: Line) returns (w: nat)
    requires Copies(row, x) > 0
    ensures w < |row| && row[w].valid && row[w].line == x
  {
    var n := |row| - 1;
    if row[n].valid && row[n].line == x { w := n; } else { w := CopiesWitness(row[..n], x); }
  }

  /** A fill by an instruction younger than t changes nothing that instructions up to t can see. */
  lemma YoungerFillIsInvisible(row: seq<Block>, x: Line, t: nat)
    requires x.id > t
    ensures SameUpTo(t, SpecFill(row, x), row)
  {
    var w := TimestampVictim(row, x.id);
    VictimIsYounger(row, x.id);
    if w < |row| {
      forall y: Line | y.id <= t ensures Copies(SpecFill(row, x), y) == Copies(row, y) {
        CopiesUpdate(row, w, Block(true, x, row[w].lru), y);
      }
    }
  }

  /** The set as it would be without any block younger than t. */
  function Purged(row: seq<Block>, t: nat): (r: seq<Block>)
    ensures |r| == |row|
  {
    seq(|row|, w requires 0 <= w < |row| => row[w].(valid := row[w].valid && row[w].line.id <= t))
  }

  lemma {:induction false} PurgedLooksTheSame(row: seq<Block>, t: nat)
    ensures SameUpTo(t, row, Purged(row, t)) && NoYounger(Purged(row, t), t) == NoYounger(row, t)
  {
    if row != [] {
      var n := |row| - 1;
      PurgedLooksTheSame(row[..n], t);
      assert Purged(row, t)[..n] == Purged(row[..n], t);
    }
  }

  /** The fill evicts a block that instructions up to t can see. */
  ghost predicate EvictsVisible(row: seq<Block>, id: nat, t: nat) {
    var w := TimestampVictim(row, id);
    w < |row| && row[w].valid && row[w].line.id <= t
  }

  /** The first younger block is visible up to t although a block invisible at t could have gone instead. */
  ghost predicate Interferes(row: seq<Block>, id: nat, t: nat) {
    EvictsVisible(row, id, t) && NoYounger(row, t) < |row|
  }

  /** The lines seen up to t before and after a fill by an instruction up to t. */
  lemma FillUpTo(row: seq<Block>, x: Line, t: nat, y: Line)
    requires x.id <= t && y.id <= t
    ensures var w := TimestampVictim(row, x.id);
            Copies(SpecFill(row, x), y) == Copies(row, y)
              + (if w < |row| && y == x then 1 else 0)
              - (if EvictsVisible(row, x.id, t) && row[w].line == y then 1 else 0)
  {
    var w := TimestampVictim(row, x.id);
    if w < |row| { CopiesUpdate(row, w, Block(true, x, row[w].lru), y); }
  }

  lemma PurgedVictim(row: seq<Block>, id: nat, t: nat)
    requires id <= t
    ensures TimestampVictim(row, id) < |row| <==> TimestampVictim(Purged(row, t), id) < |row|
    ensures NoYounger(row, t) < |row| ==> !EvictsVisible(Purged(row, t), id, t)
    ensures NoYounger(row, t) == |row| ==> Purged(row, t) == row
  {
    PurgedLooksTheSame(row, t);
    AdmissionIgnoresYounger(row, Purged(row, t), id, t);
    FullOfOlder(row, t);
    if NoYounger(row, t) < |row| { RoomMeansFree(Purged(row, t), id, t); }
  }

  /** Exactly when younger blocks influence what an older fill leaves visible: the first strictly younger
      block is taken, not the youngest. */
  lemma OlderFillIsUndisturbedExactly(row: seq<Block>, x: Line, t: nat)
    requires x.id <= t
    ensures SameUpTo(t, SpecFill(row, x), SpecFill(Purged(row, t), x)) <==> !Interferes(row, x.id, t)
  {
    var p := Purged(row, t);
    PurgedLooksTheSame(row, t);
    PurgedVictim(row, x.id, t);
    var w := TimestampVictim(row, x.id);
    if Interferes(row, x.id, t) {
      var y := row[w].line;
      FillUpTo(row, x, t, y);
      FillUpTo(p, x, t, y);
      CopiesPositive(row, w);
    } else if NoYounger(row, t) < |row| {
      forall y: Line | y.id <= t ensures Copies(SpecFill(row, x), y) == Copies(SpecFill(p, x), y) {
        FillUpTo(row, x, t, y);
        FillUpTo(p, x, t, y);
      }
    }
  }

  // ---------- whole runs of fills ----------

  function Fills(row: seq<Block>, xs: seq<Line>): (r: seq<Block>)
    ensures |r| == |row|
  {
    if xs == [] then row else SpecFill(Fills(row, xs[..|xs| - 1]), xs[|xs| - 1])
  }

  /** The fills of instructions up to t. */
  function UpTo(xs: seq<Line>, t: nat): seq<Line> {
    if xs == [] then [] else
    UpTo(xs[..|xs| - 1], t) + (if xs[|xs| - 1].id <= t then [xs[|xs| - 1]] else [])
  }

  /** No fill of the run, by an instruction up to t, evicts a block visible up to t. */
  ghost predicate Undisturbed(row: seq<Block>, xs: seq<Line>, t: nat) {
    xs == [] || (
      var before, x := xs[..|xs| - 1], xs[|xs| - 1];
      Undisturbed(row, before, t) && (x.id <= t ==> !EvictsVisible(Fills(row, before), x.id, t)))
  }

  lemma {:induction false} CountAgrees(a: seq<Block>, b: seq<Block>, id: nat)
    requires SameUpTo(id, a, b)
    ensures NoYounger(a, id) == NoYounger(b, id)
    decreases |a|
  {
    if a == [] {
      CountNone(b, id);
    } else {
      var n := |a| - 1;
      var last := a[n];
      if last.valid && last.line.id <= id {
        CopiesPositive(a, n);
        var w := CopiesWitness(b, last.line);
        var b' := Drop(b, w);
        forall x: Line | x.id <= id ensures Copies(a[..n], x) == Copies(b', x) { CopiesUpdate(b, w, b'[w], x); }
        CountAgrees(a[..n], b', id);
        CountUpdate(b, w, b'[w], id);
      } else {
        CountAgrees(a[..n], b, id);
      }
    }
  }

  lemma {:induction false} CountNone(b: seq<Block>, id: nat)
    requires forall x: Line :: x.id <= id ==> Copies(b, x) == 0
    ensures NoYounger(b, id) == 0
  {
    if NoYounger(b, id) > 0 {
      var n := |b| - 1;
      if b[n].valid && b[n].line.id <= id {
        CopiesPositive(b, n);
        assert false;
      } else {
        forall x: Line | x.id <= id ensures Copies(b[..n], x) == 0 { assert Copies(b, x) == 0; }
        CountNone(b[..n], id);
      }
    }
  }

  lemma {:induction false} CountUpdate(row: seq<Block>, w: nat, b: Block, id: nat)
    requires w < |row|
    ensures NoYounger(row[w := b], id) + (if row[w].valid && row[w].line.id <= id then 1 else 0)
         == NoYounger(row, id) + (if b.valid && b.line.id <= id then 1 else 0)
  {
    var n := |row| - 1;
    if w < n {
      CountUpdate(row[..n], w, b, id);
      assert row[w := b][..n] == row[..n][w := b];
    } else {
      assert row[w := b][..n] == row[..n];
    }
  }

  /** Whether an older fill is admitted does not depend on younger blocks. */
  lemma AdmissionIgnoresYounger(a: seq<Block>, b: seq<Block>, id: nat, t: nat)
    requires |a| == |b| && id <= t && SameUpTo(t, a, b)
    ensures TimestampVictim(a, id) < |a| <==> TimestampVictim(b, id) < |b|
  {
    CountAgrees(a, b, id);
    AdmittedExactly(a, id);
    AdmittedExactly(b, id);
  }

  ghost predicate OnlyUpTo(row: seq<Block>, t: nat) {
    forall w :: 0 <= w < |row| && row[w].valid ==> row[w].line.id <= t
  }

  /** With room for all blocks up to t, a set holding only those has a free way. */
  lemma RoomMeansFree(row: seq<Block>, id: nat, t: nat)
    requires OnlyUpTo(row, t) && NoYounger(row, t) < |row|
    ensures !EvictsVisible(row, id, t)
  {
    FullOfOlder(row, t);
    FirstIsFirst(Invalid(row));
    var w :| 0 <= w < |row| && !(row[w].valid && row[w].line.id <= t);
    assert Invalid(row)[w];
    var v := First(Invalid(row));
    assert Invalid(row)[v];
  }

  lemma FillStaysUpTo(row: seq<Block>, x: Line, t: nat)
    requires OnlyUpTo(row, t) && x.id <= t
    ensures OnlyUpTo(SpecFill(row, x), t)
  {
  }

  /** One fill of the long run against the same fill of the short one. */
  lemma UndisturbedStep(a: seq<Block>, b: seq<Block>, x: Line, t: nat)
    requires |a| == |b| && SameUpTo(t, a, b) && OnlyUpTo(b, t) && x.id <= t && !EvictsVisible(a, x.id, t)
    ensures SameUpTo(t, SpecFill(a, x), SpecFill(b, x))
  {
    AdmissionIgnoresYounger(a, b, x.id, t);
    var w := TimestampVictim(a, x.id);
    if w < |a| {
      FullOfOlder(a, t);
      CountAgrees(a, b, t);
      RoomMeansFree(b, x.id, t);
    }
    forall y: Line | y.id <= t ensures Copies(SpecFill(a, x), y) == Copies(SpecFill(b, x), y) {
      FillUpTo(a, x, t, y);
      FillUpTo(b, x, t, y);
    }
  }

  /** Strictness ordering over every run of speculative fills: while no fill up to t evicts a block visible
      up to t, the set looks to every instruction up to t as if the younger fills had never happened. */
  lemma {:induction false} YoungerFillsLeaveNoTrace(row: seq<Block>, xs: seq<Line>, t: nat)
    requires Undisturbed(row, xs, t)
    ensures SameUpTo(t, Fills(row, xs), Fills(Purged(row, t), UpTo(xs, t)))
    ensures OnlyUpTo(Fills(Purged(row, t), UpTo(xs, t)), t)
  {
    if xs == [] {
      PurgedLooksTheSame(row, t);
    } else {
      var before, x := xs[..|xs| - 1], xs[|xs| - 1];
      YoungerFillsLeaveNoTrace(row, before, t);
      var a, b := Fills(row, before), Fills(Purged(row, t), UpTo(before, t));
      if x.id <= t {
        assert UpTo(xs, t)[..|UpTo(xs, t)| - 1] == UpTo(before, t);
        UndisturbedStep(a, b, x, t);
        FillStaysUpTo(b, x, t);
      } else {
        YoungerFillIsInvisible(a, x, t);
        assert UpTo(xs, t) == UpTo(before, t);
      }
    }
  }

  function FreshRow(n: nat): seq<Block> {
    seq(n, w requires 0 <= w < n => Block(false, Line(false, 0, 0, 0, 0), w))
  }

  /** Without that proviso it fails: in two ways, the fill of instruction 9 makes the later fill of
      instruction 3 evict the block of instruction 4, which an instruction 5 could see. */
  lemma YoungerFillMattersToOlder()
    ensures var a := Line(false, 10, 10, 0, 4);
            var b := Line(false, 20, 20, 0, 9);
            var c := Line(false, 30, 30, 0, 3);
            !SameUpTo(5, Fills(FreshRow(2), [a, b, c]), Fills(Purged(FreshRow(2), 5), UpTo([a, b, c], 5)))
  {
    var a := Line(false, 10, 10, 0, 4);
    var b := Line(false, 20, 20, 0, 9);
    var c := Line(false, 30, 30, 0, 3);
    var r0 := FreshRow(2);
    FirstIs(Invalid(r0), 0);
    var r1 := SpecFill(r0, a);
    FirstIs(Invalid(r1), 1);
    var r2 := SpecFill(r1, b);
    FirstIs(Invalid(r2), 2);
    FirstIs(Younger(r2, 3), 0);
    var r3 := SpecFill(r2, c);
    assert [a, b, c][..2] == [a, b] && [a, b][..1] == [a] && [a][..0] == [];
    assert Fills(r0, [a]) == r1 && Fills(r0, [a, b]) == r2 && Fills(r0, [a, b, c]) == r3;
    assert Purged(r0, 5) == r0;
    var s2 := SpecFill(r1, c);
    assert UpTo([a], 5) == [a] && UpTo([a, b], 5) == [a] && UpTo([a, b, c], 5) == [a, c];
    assert [a, c][..1] == [a];
    assert Fills(r0, [a, c]) == s2;
    CopiesPositive(s2, 0);
    assert s2[0].line == a;
    if Copies(r3, a) > 0 {
      var w := CopiesWitness(r3, a);
      assert false;
    }
  }
}
