/** What update_pattern of the signature path prefetcher learns and forgets, over whole runs of updates. */
module SppLearning {
  import opened SppModel

  /** w is the first way with this delta. */
  ghost predicate FirstWith(delta: seq<int>, d: int, w: nat) {
    w < |delta| && delta[w] == d && forall v :: 0 <= v < w ==> delta[v] != d
  }

  /** w is the first way of the smallest count. */
  ghost predicate FirstSmallest(c: seq<nat>, w: nat) {
    w < |c| && (forall v :: 0 <= v < |c| ==> c[w] <= c[v]) && forall v :: 0 <= v < w ==> c[w] < c[v]
  }

  /** What is left of a count when the signature has been seen this often before. */
  function Kept(cSig: nat, n: nat): nat { if cSig == C_SIG_MAX then n / 2 else n }

  function NextCount(cSig: nat): nat { if cSig == C_SIG_MAX then 8 else cSig + 1 }

  /** Exactly way w changes: on a hit the way with the delta gains one, on a miss the first way of the smallest count
      is given to the delta, with count 0. Every count is halved when c_sig passes 15. */
  ghost predicate Learned(p: Pattern, d: int, t: Pattern, w: nat) {
    && Shaped(p) && Shaped(t) && w < PT_WAY
    && t.cSig == NextCount(p.cSig)
    && (forall v :: 0 <= v < PT_WAY && v != w ==> t.delta[v] == p.delta[v] && t.cDelta[v] == Kept(p.cSig, p.cDelta[v]))
    && t.delta[w] == d
    && (if d in p.delta then FirstWith(p.delta, d, w) && t.cDelta[w] == Kept(p.cSig, p.cDelta[w] + 1)
        else FirstSmallest(p.cDelta, w) && t.cDelta[w] == 0)
  }

  lemma UpdateExactly(p: Pattern, d: int) returns (w: nat)
    requires Trained(p)
    ensures Learned(p, d, Update(p, d), w)
  {
    w := Match(p.delta, d);
    if w == PT_WAY {
      VictimExists(p);
      LeastIsLeast(p.cDelta, PT_WAY);
      w := Least(p.cDelta, PT_WAY);
    }
    hide Sum, Least, Match;
  }

  // ---------- what stays ----------

  /** No delta is held twice; ways never used hold 0. */
  ghost predicate Distinct(delta: seq<int>) {
    forall v, w :: 0 <= v < w < |delta| && delta[v] == delta[w] ==> delta[v] == 0
  }

  lemma UpdateKeepsDistinct(p: Pattern, d: int)
    requires Trained(p) && Distinct(p.delta) && d != 0
    ensures Distinct(Update(p, d).delta)
  {
    var w := UpdateExactly(p, d);
    hide Update, Trained;
  }

  /** A delta is forgotten exactly when another one that is not held arrives and its way is the first of the smallest
      count. */
  lemma ForgottenExactly(p: Pattern, d: int, w: nat)
    requires Trained(p) && Distinct(p.delta) && w < PT_WAY && p.delta[w] != 0
    ensures p.delta[w] !in Update(p, d).delta <==> d !in p.delta && FirstSmallest(p.cDelta, w)
  {
    var v := UpdateExactly(p, d);
    hide Update, Trained;
    if v != w { assert Update(p, d).delta[w] == p.delta[w]; }
    if d !in p.delta && FirstSmallest(p.cDelta, w) { assert v == w; }
  }

  /** The set after these updates. */
  function AfterAll(p: Pattern, ds: seq<int>): (r: Pattern)
    requires Shaped(p)
    ensures Shaped(r)
    decreases |ds|
  {
    if ds == [] then p else AfterAll(Update(p, ds[0]), ds[1..])
  }

  /** None of the updates finds its delta. */
  ghost predicate AllMiss(p: Pattern, ds: seq<int>)
    requires Shaped(p)
    decreases |ds|
  {
    ds == [] || (ds[0] != 0 && ds[0] !in p.delta && AllMiss(Update(p, ds[0]), ds[1..]))
  }

  /** A count after n more updates that do not raise it. */
  function CountAfter(cSig: nat, count: nat, n: nat): nat
    decreases n
  {
    if n == 0 then count else CountAfter(NextCount(cSig), Kept(cSig, count), n - 1)
  }

  lemma {:induction false} CountFades(cSig: nat, count: nat, n: nat)
    ensures CountAfter(cSig, count, n) <= count
    decreases n
  {
    if n > 0 { CountFades(NextCount(cSig), Kept(cSig, count), n - 1); }
  }

  /** A miss spares a way counted more often than some other one, and leaves a way that counts nothing. */
  lemma MissSpares(p: Pattern, d: int, w: nat, u: nat, t: Pattern) returns (v: nat)
    requires Trained(p) && d != 0 && d !in p.delta && t == Update(p, d)
    requires w < PT_WAY && u < PT_WAY && p.cDelta[u] < p.cDelta[w]
    ensures Trained(t) && v < PT_WAY && t.cDelta[v] == 0 && t.cSig == NextCount(p.cSig)
    ensures t.delta[w] == p.delta[w] && t.cDelta[w] == Kept(p.cSig, p.cDelta[w])
  {
    v := UpdateExactly(p, d);
    UpdateKeeps(p, d);
    hide Update, Trained;
  }

  /** Over every run of misses: a delta counted more often than some other way survives, with its count only halved
      as c_sig passes 15, as long as something is left of that count before the last miss. */
  lemma {:induction false} CountedDeltaSurvives(p: Pattern, ds: seq<int>, w: nat, u: nat)
    requires Trained(p) && AllMiss(p, ds) && w < PT_WAY && u < PT_WAY && p.cDelta[u] < p.cDelta[w]
    requires ds != [] ==> CountAfter(p.cSig, p.cDelta[w], |ds| - 1) > 0
    ensures var t := AfterAll(p, ds);
            t.delta[w] == p.delta[w] && t.cDelta[w] == CountAfter(p.cSig, p.cDelta[w], |ds|)
    decreases |ds|
  {
    if ds != [] {
      var t := Update(p, ds[0]);
      var v := MissSpares(p, ds[0], w, u, t);
      hide Update, Trained;
      if |ds| == 1 {
        assert AfterAll(t, ds[1..]) == t;
      } else {
        CountFades(t.cSig, t.cDelta[w], |ds| - 2);
        CountedDeltaSurvives(t, ds[1..], w, v);
      }
    }
  }

  /** How often a delta occurs. */
  function Occurrences(ds: seq<int>, d: int): nat {
    if ds == [] then 0 else (if ds[0] == d then 1 else 0) + Occurrences(ds[1..], d)
  }

  /** Over every run of hits: the deltas stay where they are, and until c_sig passes 15 each count grows by exactly
      the occurrences of its delta. */
  lemma {:induction false} HitsAreCounted(p: Pattern, ds: seq<int>, w: nat)
    requires Trained(p) && Distinct(p.delta) && w < PT_WAY && p.delta[w] != 0
    requires p.cSig + |ds| <= C_SIG_MAX && forall d :: d in ds ==> d != 0 && d in p.delta
    ensures var t := AfterAll(p, ds);
            t.delta == p.delta && t.cSig == p.cSig + |ds|
            && t.cDelta[w] == p.cDelta[w] + Occurrences(ds, p.delta[w])
    decreases |ds|
  {
    if ds != [] {
      assert ds[0] in ds && forall d :: d in ds[1..] ==> d in ds;
      var v := UpdateExactly(p, ds[0]);
      UpdateKeeps(p, ds[0]);
      var t := Update(p, ds[0]);
      hide Update, Trained;
      assert t.delta == p.delta;
      assert v == w <==> ds[0] == p.delta[w];
      HitsAreCounted(t, ds[1..], w);
    }
  }
}
