/** What L2_PT_update of the KPCP prefetcher learns and forgets, over whole runs of updates. */
module KpcpLearning {
  import opened SppModel
  import opened SppLearning
  import opened Kpcp

  /** What is left of a count when the signature has been seen this often before. */
  function Remains(cSig: nat, n: nat): nat { if cSig == CSIG_MAX - 1 then n / 2 else n }

  function NextSeen(cSig: nat): nat { if cSig == CSIG_MAX - 1 then 8 else cSig + 1 }

  /** Exactly way w changes, after all counts were halved if c_sig reached 16: a hit adds one to it; a miss gives the
      first way not used yet, or without one the first way of the smallest count, to the delta, with count 0. */
  ghost predicate Taught(r: Row, d: int, t: Row, w: nat) {
    && Wide(r) && Wide(t) && w < PT_WAY
    && t.cSig == NextSeen(r.cSig)
    && (forall v :: 0 <= v < PT_WAY && v != w ==>
          t.delta[v] == r.delta[v] && t.cDelta[v] == Remains(r.cSig, r.cDelta[v]))
    && t.delta[w] == d
    && (if d in r.delta then FirstWith(r.delta, d, w) && t.cDelta[w] == Remains(r.cSig, r.cDelta[w]) + 1
        else t.cDelta[w] == 0 && if 0 in r.delta then FirstWith(r.delta, 0, w) else SmallestLeft(r, w))
  }

  /** w is the first way of the smallest count once the counts were halved, where they are. */
  ghost predicate SmallestLeft(r: Row, w: nat) {
    && w < |r.cDelta|
    && (forall v :: 0 <= v < |r.cDelta| ==> Remains(r.cSig, r.cDelta[w]) <= Remains(r.cSig, r.cDelta[v]))
    && forall v :: 0 <= v < w ==> Remains(r.cSig, r.cDelta[w]) < Remains(r.cSig, r.cDelta[v])
  }

  lemma {:induction false} SmallestIsSmallest(c: seq<nat>, n: nat)
    requires n <= |c|
    ensures var w := Smallest(c, n);
            if w < |c| then (forall v :: 0 <= v < n ==> c[w] <= c[v]) && (forall v :: 0 <= v < w ==> c[w] < c[v])
            else forall v :: 0 <= v < n ==> c[v] >= CSIG_MAX
  {
    if n > 0 { SmallestIsSmallest(c, n - 1); }
  }

  lemma BumpedExactly(r: Row)
    requires Wide(r) && r.cSig < CSIG_MAX
    ensures var b := Bumped(r);
            && Wide(b) && b.delta == r.delta && b.cSig == NextSeen(r.cSig)
            && forall v :: 0 <= v < PT_WAY ==> b.cDelta[v] == Remains(r.cSig, r.cDelta[v])
  {
  }

  lemma HomeExactly(b: Row, d: int)
    requires Wide(b) && Home(b, d) < PT_WAY
    ensures var w := Home(b, d);
            if d in b.delta then FirstWith(b.delta, d, w)
            else if 0 in b.delta then FirstWith(b.delta, 0, w) else FirstSmallest(b.cDelta, w)
  {
    SmallestIsSmallest(b.cDelta, PT_WAY);
    hide Smallest, Match;
  }

  lemma LearnExactly(r: Row, d: int) returns (w: nat)
    requires Counts(r) && d != 0 && -64 < d < 64
    ensures Taught(r, d, Learn(r, d), w)
  {
    LearnKeeps(r, d);
    BumpedExactly(r);
    var b := Bumped(r);
    w := Home(b, d);
    HomeExactly(b, d);
    hide Bumped, Home, Sum, Remains;
  }

  // ---------- what stays ----------

  function AfterAll(r: Row, ds: seq<int>): (t: Row)
    requires Wide(r)
    ensures Wide(t)
    decreases |ds|
  {
    if ds == [] then r else AfterAll(Learn(r, ds[0]), ds[1..])
  }

  /** Nonzero deltas within a page. */
  ghost predicate Deltas(ds: seq<int>) { forall i :: 0 <= i < |ds| ==> ds[i] != 0 && -64 < ds[i] < 64 }

  /** The ways not used yet. */
  function Free(delta: seq<int>): nat {
    if delta == [] then 0 else (if delta[0] == 0 then 1 else 0) + Free(delta[1..])
  }

  lemma {:induction false} FreeUpdate(delta: seq<int>, w: nat, d: int)
    requires w < |delta| && d != 0
    ensures Free(delta[w := d]) + (if delta[w] == 0 then 1 else 0) == Free(delta)
  {
    if w > 0 {
      assert delta[w := d][1..] == delta[1..][w - 1 := d];
      FreeUpdate(delta[1..], w - 1, d);
    }
  }

  lemma {:induction false} FreeWay(delta: seq<int>)
    ensures Free(delta) > 0 <==> 0 in delta
  {
    if delta != [] { FreeWay(delta[1..]); }
  }

  /** One update keeps every delta while a way is free, and takes a free way at most. */
  lemma UpdateKeepsDeltas(r: Row, d: int, k: int)
    requires Counts(r) && d != 0 && -64 < d < 64 && k != 0
    ensures var t := Learn(r, d);
            && Counts(t) && d in t.delta && Free(t.delta) + 1 >= Free(r.delta)
            && (k in r.delta && Free(r.delta) > 0 ==> k in t.delta)
  {
    var w := LearnExactly(r, d);
    LearnKeeps(r, d);
    var t := Learn(r, d);
    hide Learn, Counts;
    assert t.delta == r.delta[w := d];
    FreeUpdate(r.delta, w, d);
    FreeWay(r.delta);
    assert t.delta[w] == d;
    if k in r.delta && Free(r.delta) > 0 && r.delta[w] != k {
      var v :| 0 <= v < PT_WAY && r.delta[v] == k;
      assert t.delta[v] == k;
    }
  }

  /** Over every run: as many updates as there are free ways forget nothing, and all of their deltas are held. */
  lemma {:induction false} NothingForgottenWhileFree(r: Row, ds: seq<int>, k: int)
    requires Counts(r) && Deltas(ds) && |ds| <= Free(r.delta) && k != 0 && (k in r.delta || k in ds)
    ensures k in AfterAll(r, ds).delta
    decreases |ds|
  {
    if ds != [] {
      assert ds[0] != 0 && -64 < ds[0] < 64;
      assert k in ds ==> k == ds[0] || k in ds[1..];
      UpdateKeepsDeltas(r, ds[0], k);
      var t := Learn(r, ds[0]);
      hide Learn, Counts, Free;
      NothingForgottenWhileFree(t, ds[1..], k);
    }
  }

  /** None of the updates finds its delta, and no way is free. */
  ghost predicate AllMiss(r: Row, ds: seq<int>)
    requires Wide(r)
    decreases |ds|
  {
    ds == [] || (ds[0] !in r.delta && 0 !in r.delta && AllMiss(Learn(r, ds[0]), ds[1..]))
  }

  /** A count after n more updates that do not raise it. */
  function CountAfter(cSig: nat, count: nat, n: nat): nat
    decreases n
  {
    if n == 0 then count else CountAfter(NextSeen(cSig), Remains(cSig, count), n - 1)
  }

  lemma {:induction false} CountFades(cSig: nat, count: nat, n: nat)
    ensures CountAfter(cSig, count, n) <= count
    decreases n
  {
    if n > 0 { CountFades(NextSeen(cSig), Remains(cSig, count), n - 1); }
  }

  /** A miss spares a way still counted while some other one is not, and leaves a way that counts nothing. */
  lemma MissSpares(r: Row, d: int, w: nat, u: nat, t: Row) returns (v: nat)
    requires Counts(r) && d != 0 && -64 < d < 64 && d !in r.delta && 0 !in r.delta && t == Learn(r, d)
    requires w < PT_WAY && u < PT_WAY && r.cDelta[u] == 0 && Remains(r.cSig, r.cDelta[w]) > 0
    ensures Counts(t) && v < PT_WAY && t.cDelta[v] == 0 && t.cSig == NextSeen(r.cSig)
    ensures t.delta[w] == r.delta[w] && t.cDelta[w] == Remains(r.cSig, r.cDelta[w])
  {
    v := LearnExactly(r, d);
    LearnKeeps(r, d);
    hide Learn, Counts;
  }

  /** Over every run of misses: a delta counted while some other way counts nothing survives, with its count only
      halved as c_sig reaches 16, as long as something is left of it. */
  lemma {:induction false} CountedDeltaSurvives(r: Row, ds: seq<int>, w: nat, u: nat)
    requires Counts(r) && Deltas(ds) && AllMiss(r, ds) && w < PT_WAY && u < PT_WAY && r.cDelta[u] == 0
    requires CountAfter(r.cSig, r.cDelta[w], |ds|) > 0
    ensures var t := AfterAll(r, ds);
            t.delta[w] == r.delta[w] && t.cDelta[w] == CountAfter(r.cSig, r.cDelta[w], |ds|)
    decreases |ds|
  {
    if ds != [] {
      assert ds[0] != 0 && -64 < ds[0] < 64;
      var t := Learn(r, ds[0]);
      CountFades(NextSeen(r.cSig), Remains(r.cSig, r.cDelta[w]), |ds| - 1);
      var v := MissSpares(r, ds[0], w, u, t);
      hide Learn, Counts, Remains;
      CountedDeltaSurvives(t, ds[1..], w, v);
    }
  }
}
