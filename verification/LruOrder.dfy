/** The lru fields of a set as a recency order. */
module LruOrder {
  import opened CacheSet

  /** lru_update: everything more recent than the way moves back one place, the way moves to the front. */
  function Touch(row: seq<Block>, way: nat): (r: seq<Block>)
    requires way < |row|
    ensures |r| == |row|
  {
    seq(|row|, i requires 0 <= i < |row| =>
      if i == way then row[i].(lru := 0)
      else if row[i].lru < row[way].lru then row[i].(lru := row[i].lru + 1)
      else row[i])
  }

  ghost predicate HasRank(row: seq<Block>, k: nat) { exists i :: 0 <= i < |row| && row[i].lru == k }

  /** The lru fields are a permutation of 0 .. |row| - 1. */
  ghost predicate Ranked(row: seq<Block>) {
    && (forall i :: 0 <= i < |row| ==> row[i].lru < |row|)
    && (forall i, j :: 0 <= i < j < |row| ==> row[i].lru != row[j].lru)
    && (forall k :: 0 <= k < |row| ==> HasRank(row, k))
  }

  lemma TouchKeeps(row: seq<Block>, way: nat)
    requires Ranked(row) && way < |row|
    ensures Ranked(Touch(row, way))
  {
    var r := Touch(row, way);
    forall i | 0 <= i < |row| ensures r[i].lru < |row| {
      if row[i].lru < row[way].lru { assert row[way].lru < |row|; }
    }
    forall k | 0 <= k < |row| ensures HasRank(r, k) {
      if k == 0 {
        assert r[way].lru == k;
      } else {
        var was := if k <= row[way].lru then k - 1 else k;
        assert HasRank(row, was);
        var i :| 0 <= i < |row| && row[i].lru == was;
        assert r[i].lru == k;
      }
    }
  }

  /** Lines come and go without moving anything in the order. */
  lemma SameRanks(a: seq<Block>, b: seq<Block>)
    requires |a| == |b| && Ranked(a) && forall i :: 0 <= i < |a| ==> a[i].lru == b[i].lru
    ensures Ranked(b)
  {
    forall i, j | 0 <= i < j < |b| ensures b[i].lru != b[j].lru { assert a[i].lru != a[j].lru; }
    forall k | 0 <= k < |b| ensures HasRank(b, k) {
      assert HasRank(a, k);
      var i :| 0 <= i < |a| && a[i].lru == k;
      assert b[i].lru == k;
    }
  }

  lemma FreshIsRanked(n: nat)
    ensures Ranked(FreshRow(n))
  {
    forall k | 0 <= k < n ensures HasRank(FreshRow(n), k) { assert FreshRow(n)[k].lru == k; }
  }

  /** With the order intact lru_victim always finds a way: its assert cannot fire. */
  lemma VictimExists(row: seq<Block>)
    requires Ranked(row) && |row| > 0
    ensures LruVictim(row) < |row|
  {
    FirstIsFirst(Oldest(row));
    assert HasRank(row, |row| - 1);
    var i :| 0 <= i < |row| && row[i].lru == |row| - 1;
    assert Oldest(row)[i];
  }

  // ---------- the order is the history ----------

  /** The set after lru_update has been called for these ways, one after the other. */
  function Touches(row: seq<Block>, ways: seq<nat>): (r: seq<Block>)
    requires forall k :: 0 <= k < |ways| ==> ways[k] < |row|
    ensures |r| == |row|
  {
    if ways == [] then row else Touch(Touches(row, ways[..|ways| - 1]), ways[|ways| - 1])
  }

  /** When the way was last touched, counting from 1; ways never touched keep the order they were built in. */
  function LastUse(ways: seq<nat>, w: nat): int {
    if ways == [] then -(w as int)
    else if ways[|ways| - 1] == w then |ways|
    else LastUse(ways[..|ways| - 1], w)
  }

  lemma {:induction false} LastUseInPast(ways: seq<nat>, w: nat)
    ensures LastUse(ways, w) <= |ways|
  {
    if ways != [] { LastUseInPast(ways[..|ways| - 1], w); }
  }

  /** Over the whole history: one way ranks before another exactly when it was used later. */
  lemma {:induction false} RankIsRecency(n: nat, ways: seq<nat>, v: nat, w: nat)
    requires forall k :: 0 <= k < |ways| ==> ways[k] < n
    requires v < n && w < n
    ensures var row := Touches(FreshRow(n), ways);
            Ranked(row) && (row[v].lru < row[w].lru <==> LastUse(ways, v) > LastUse(ways, w))
  {
    if ways == [] {
      FreshIsRanked(n);
    } else {
      var before, u := ways[..|ways| - 1], ways[|ways| - 1];
      var row := Touches(FreshRow(n), before);
      RankIsRecency(n, before, v, w);
      RankIsRecency(n, before, v, u);
      RankIsRecency(n, before, w, u);
      TouchKeeps(row, u);
      LastUseInPast(before, v);
      LastUseInPast(before, w);
      assert v != w ==> row[v].lru != row[w].lru;
      assert v != u ==> row[v].lru != row[u].lru;
      assert w != u ==> row[w].lru != row[u].lru;
    }
  }

  /** With every way taken, the victim is the way whose last use lies furthest back. */
  lemma VictimIsLeastRecent(n: nat, ways: seq<nat>, lines: seq<Block>, v: nat)
    requires forall k :: 0 <= k < |ways| ==> ways[k] < n
    requires |lines| == n && v < n
    requires forall i :: 0 <= i < n ==> lines[i].valid && lines[i].lru == Touches(FreshRow(n), ways)[i].lru
    ensures var w := LruVictim(lines); w < n && (v != w ==> LastUse(ways, v) > LastUse(ways, w))
  {
    var row := Touches(FreshRow(n), ways);
    RankIsRecency(n, ways, v, v);
    SameRanks(row, lines);
    VictimExists(lines);
    var w := LruVictim(lines);
    FirstIsFirst(Invalid(lines));
    FirstIsFirst(Oldest(lines));
    assert First(Invalid(lines)) == n;
    assert Oldest(lines)[w];
    RankIsRecency(n, ways, v, w);
    assert v != w ==> lines[v].lru != lines[w].lru;
  }
}
