/** The signature path prefetcher: counters of the pattern table and the lookahead loop over them. */
module SppModel {

  const PT_WAY: nat := 4
  const C_SIG_MAX: nat := 15
  const PF_THRESHOLD: nat := 25
  const QUEUE_SIZE: nat := 32

  /** One set of the pattern table. */
  datatype Pattern = Pattern(delta: seq<int>, cDelta: seq<nat>, cSig: nat)

  /** What read_pattern puts into the two queues. */
  datatype Candidate = Candidate(conf: nat, delta: int)

  function Sum(s: seq<nat>): nat { if s == [] then 0 else Sum(s[..|s| - 1]) + s[|s| - 1] }

  predicate Shaped(p: Pattern) { |p.delta| == PT_WAY && |p.cDelta| == PT_WAY }

  /** The delta counters always add up to less than the signature counter; an unused set is all zero. */
  predicate Trained(p: Pattern) {
    && Shaped(p) && p.cSig <= C_SIG_MAX
    && (if p.cSig == 0 then Sum(p.cDelta) == 0 && forall w :: 0 <= w < PT_WAY ==> p.delta[w] == 0
        else Sum(p.cDelta) < p.cSig)
  }

  const UNUSED := Pattern([0, 0, 0, 0], [0, 0, 0, 0], 0)

  // ---------- update_pattern ----------

  /** The first way with this delta, or the number of ways. */
  function Match(delta: seq<int>, d: int): (w: nat)
    ensures w <= |delta| && (w < |delta| ==> delta[w] == d) && forall v :: 0 <= v < w ==> delta[v] != d
  {
    if delta == [] then 0 else if delta[0] == d then 0 else 1 + Match(delta[1..], d)
  }

  method FindDelta(delta: seq<int>, d: int) returns (w: nat)
    ensures w == Match(delta, d)
  {
    w := 0;
    while w < |delta|
      invariant w <= |delta| && forall v :: 0 <= v < w ==> delta[v] != d
    {
      if delta[w] == d { break; }
      w := w + 1;
    }
  }

  /** The first way of the smallest counter among the first n; only counters below the maximum are considered. */
  function Least(c: seq<nat>, n: nat): (w: nat)
    requires n <= |c|
    ensures w < n || w == |c|
  {
    if n == 0 then |c| else
    var w := Least(c, n - 1);
    if c[n - 1] < (if w < |c| then c[w] else C_SIG_MAX) then n - 1 else w
  }

  function Halved(c: seq<nat>): (r: seq<nat>)
    ensures |r| == |c|
  {
    seq(|c|, w requires 0 <= w < |c| => c[w] / 2)
  }

  /** The signature counter moves on; past its maximum all counters are halved. */
  function Counted(p: Pattern): Pattern {
    if p.cSig + 1 > C_SIG_MAX then p.(cDelta := Halved(p.cDelta), cSig := (p.cSig + 1) / 2) else p.(cSig := p.cSig + 1)
  }

  function Update(p: Pattern, d: int): Pattern
    requires Shaped(p)
  {
    var w := Match(p.delta, d);
    if w < PT_WAY then Counted(p.(cDelta := p.cDelta[w := p.cDelta[w] + 1]))
    else
      var v := Least(p.cDelta, PT_WAY);
      if v < PT_WAY then Counted(p.(delta := p.delta[v := d], cDelta := p.cDelta[v := 0])) else p
  }

  lemma {:induction false} SumUpdate(c: seq<nat>, w: nat, x: nat)
    requires w < |c|
    ensures Sum(c[w := x]) + c[w] == Sum(c) + x
  {
    var n := |c| - 1;
    if w < n {
      SumUpdate(c[..n], w, x);
      assert c[w := x][..n] == c[..n][w := x];
    } else {
      assert c[w := x][..n] == c[..n];
    }
  }

  lemma {:induction false} SumAtLeast(c: seq<nat>, w: nat)
    requires w < |c|
    ensures c[w] <= Sum(c)
  {
    if w < |c| - 1 { SumAtLeast(c[..|c| - 1], w); }
  }

  lemma {:induction false} SumHalved(c: seq<nat>)
    ensures 2 * Sum(Halved(c)) <= Sum(c)
  {
    if c != [] {
      var n := |c| - 1;
      SumHalved(c[..n]);
      assert Halved(c)[..n] == Halved(c[..n]);
    }
  }

  lemma {:induction false} LeastIsLeast(c: seq<nat>, n: nat)
    requires n <= |c|
    ensures var w := Least(c, n);
            if w < |c| then c[w] < C_SIG_MAX && (forall v :: 0 <= v < n ==> c[w] <= c[v])
                            && (forall v :: 0 <= v < w ==> c[w] < c[v])
            else forall v :: 0 <= v < n ==> c[v] >= C_SIG_MAX
  {
    if n > 0 { LeastIsLeast(c, n - 1); }
  }

  /** A trained set always has a victim: the sanity check after the search cannot fire. */
  lemma VictimExists(p: Pattern)
    requires Trained(p)
    ensures Least(p.cDelta, PT_WAY) < PT_WAY
  {
    LeastIsLeast(p.cDelta, PT_WAY);
    SumAtLeast(p.cDelta, 0);
  }

  /** update_pattern keeps sum(c_delta) < c_sig <= 15; the caller never passes delta 0. */
  lemma UpdateKeeps(p: Pattern, d: int)
    requires Trained(p) && d != 0
    ensures Trained(Update(p, d))
  {
    hide Sum, Least;
    var w := Match(p.delta, d);
    if w < PT_WAY {
      var c := p.cDelta[w := p.cDelta[w] + 1];
      SumUpdate(p.cDelta, w, p.cDelta[w] + 1);
      SumHalved(c);
    } else {
      VictimExists(p);
      var v := Least(p.cDelta, PT_WAY);
      SumUpdate(p.cDelta, v, 0);
      SumHalved(p.cDelta[v := 0]);
    }
  }

  // ---------- read_pattern ----------

  /** acc percent of n out of s. */
  function Part(acc: nat, n: nat, s: nat): nat
    requires s > 0
  {
    acc * n / s
  }

  /** The share of a way, before path confidence. */
  function Share(p: Pattern, way: nat, acc: nat): nat
    requires Shaped(p) && way < PT_WAY && p.cSig > 0
  {
    Part(acc, p.cDelta[way], p.cSig)
  }

  /** pf_conf of one way: its own share at depth 0, discounted by accuracy and path confidence below. */
  function Conf(p: Pattern, way: nat, acc: nat, conf: nat, depth: nat): nat
    requires Shaped(p) && way < PT_WAY && p.cSig > 0
  {
    if depth > 0 then Share(p, way, acc) * conf / 100 else Share(p, way, 100)
  }

  /** The candidates among the first n ways, in way order. */
  function Passed(p: Pattern, acc: nat, conf: nat, depth: nat, n: nat): seq<Candidate>
    requires Shaped(p) && n <= PT_WAY && p.cSig > 0
  {
    if n == 0 then [] else
    var before := Passed(p, acc, conf, depth, n - 1);
    var f := Conf(p, n - 1, acc, conf, depth);
    if f >= PF_THRESHOLD then before + [Candidate(f, p.delta[n - 1])] else before
  }

  /** The confidence of the best candidate among the first n ways; 0 without candidates. */
  function BestConf(p: Pattern, acc: nat, conf: nat, depth: nat, n: nat): nat
    requires Shaped(p) && n <= PT_WAY && p.cSig > 0
  {
    if n == 0 then 0 else
    var best := BestConf(p, acc, conf, depth, n - 1);
    var f := Conf(p, n - 1, acc, conf, depth);
    if f >= PF_THRESHOLD && f > best then f else best
  }

  /** Its way, the first one among equals; the number of ways without candidates. */
  function BestWay(p: Pattern, acc: nat, conf: nat, depth: nat, n: nat): (w: nat)
    requires Shaped(p) && n <= PT_WAY && p.cSig > 0
    ensures w <= PT_WAY
  {
    if n == 0 then PT_WAY else
    var f := Conf(p, n - 1, acc, conf, depth);
    if f >= PF_THRESHOLD && f > BestConf(p, acc, conf, depth, n - 1) then n - 1 else BestWay(p, acc, conf, depth, n - 1)
  }

  // ---------- the lookahead loop ----------

  /** more: whether the do-while goes round again. */
  datatype Look = Look(sig: bv12, conf: nat, depth: nat, queue: seq<Candidate>, more: bool)

  /** 7-bit sign-magnitude form of a delta within a page. */
  function SignMagnitude(d: int): (r: nat)
    requires -64 < d < 64
    ensures r < 128
  {
    if d < 0 then -d + 64 else d
  }

  predicate InPage(p: Pattern) { forall w :: 0 <= w < |p.delta| ==> -64 < p.delta[w] < 64 }

  function NextSig(sig: bv12, d: int): bv12
    requires -64 < d < 64
  {
    (sig << 3) ^ (SignMagnitude(d) as bv12)
  }

  ghost predicate Usable(table: seq<Pattern>, hash: bv12 -> nat) {
    && (forall i :: 0 <= i < |table| ==> Trained(table[i]) && InPage(table[i]))
    && (forall sig: bv12 :: hash(sig) < |table|)
  }

  /** One round: read the set of the current signature, queue its candidates, follow the best. */
  ghost function Round(table: seq<Pattern>, hash: bv12 -> nat, acc: nat, l: Look): Look
    requires Usable(table, hash)
  {
    var p := table[hash(l.sig)];
    if p.cSig == 0 then l.(more := false) else
    var found := Passed(p, acc, l.conf, l.depth, PT_WAY);
    var best, way := BestConf(p, acc, l.conf, l.depth, PT_WAY), BestWay(p, acc, l.conf, l.depth, PT_WAY);
    Look(if way < PT_WAY then NextSig(l.sig, p.delta[way]) else l.sig,
         best, l.depth + (if best >= PF_THRESHOLD then 1 else 0), l.queue + found, found != [])
  }

  function Start(sig: bv12): Look { Look(sig, 100, 0, [], true) }

  /** After n rounds; a loop that has ended stays as it is. */
  ghost function After(table: seq<Pattern>, hash: bv12 -> nat, acc: nat, sig: bv12, n: nat): Look
    requires Usable(table, hash)
  {
    if n == 0 then Start(sig) else
    var l := After(table, hash, acc, sig, n - 1);
    if l.more then Round(table, hash, acc, l) else l
  }

  // ---------- how confidence fades ----------

  function Total(cs: seq<Candidate>): nat { if cs == [] then 0 else Total(cs[..|cs| - 1]) + cs[|cs| - 1].conf }

  lemma DivFacts(a: nat, s: nat)
    requires s > 0
    ensures s * (a / s) <= a < s * (a / s) + s
  {
  }

  lemma Distribute(s: nat, a: nat, b: nat)
    ensures s * (a + b) == s * a + s * b
  {
  }

  lemma MulMono(s: nat, a: nat, b: nat)
    requires a <= b
    ensures s * a <= s * b
  {
  }

  lemma DivAtLeast(a: nat, s: nat, k: nat)
    requires s > 0 && s * k <= a
    ensures k <= a / s
  {
    var q := a / s;
    DivFacts(a, s);
    if q < k {
      MulMono(s, q + 1, k);
      Distribute(s, q, 1);
      assert false;
    }
  }

  lemma DivAdd(a: nat, b: nat, s: nat)
    requires s > 0
    ensures a / s + b / s <= (a + b) / s
  {
    DivFacts(a, s);
    DivFacts(b, s);
    Distribute(s, a / s, b / s);
    DivAtLeast(a + b, s, a / s + b / s);
  }

  lemma DivMono(a: nat, b: nat, s: nat)
    requires a <= b && s > 0
    ensures a / s <= b / s
  {
    DivFacts(a, s);
    DivAtLeast(b, s, a / s);
  }

  function Shares(p: Pattern, acc: nat, n: nat): nat
    requires Shaped(p) && n <= PT_WAY && p.cSig > 0
  {
    if n == 0 then 0 else Shares(p, acc, n - 1) + Share(p, n - 1, acc)
  }

  lemma PartsAdd(acc: nat, u: nat, v: nat, s: nat)
    requires s > 0
    ensures Part(acc, u, s) + Part(acc, v, s) <= Part(acc, u + v, s)
  {
    DivAdd(acc * u, acc * v, s);
    Distribute(acc, u, v);
  }

  lemma {:induction false} SharesBySum(p: Pattern, acc: nat, n: nat)
    requires Shaped(p) && n <= PT_WAY && p.cSig > 0
    ensures Shares(p, acc, n) <= Part(acc, Sum(p.cDelta[..n]), p.cSig)
  {
    if n > 0 {
      hide Part;
      SharesBySum(p, acc, n - 1);
      assert p.cDelta[..n][..n - 1] == p.cDelta[..n - 1];
      PartsAdd(acc, Sum(p.cDelta[..n - 1]), p.cDelta[n - 1], p.cSig);
    }
  }

  /** The shares of a set stay below 97 percent up to accuracy 103, and below the whole up to 107. */
  lemma SharesAreLimited(p: Pattern, acc: nat)
    requires Trained(p) && p.cSig > 0
    ensures acc <= 107 ==> Shares(p, acc, PT_WAY) <= 99
    ensures acc <= 103 ==> Shares(p, acc, PT_WAY) <= 96
    ensures acc <= 100 ==> Shares(p, acc, PT_WAY) <= 93
  {
    SharesBySum(p, acc, PT_WAY);
    assert p.cDelta[..PT_WAY] == p.cDelta;
    var total, s := Sum(p.cDelta), p.cSig;
    hide Sum, Shares, Part;
    if acc <= 107 { ShareOfSum(acc, 107, total, s); }
    if acc <= 103 { ShareOfSum(acc, 103, total, s); }
    if acc <= 100 { ShareOfSum(acc, 100, total, s); }
  }

  lemma ShareOfSum(acc: nat, limit: nat, total: nat, s: nat)
    requires acc <= limit && (limit == 107 || limit == 103 || limit == 100) && total < s <= C_SIG_MAX
    ensures Part(acc, total, s) <= limit * 14 / 15
  {
    Grows(acc, limit, total, s - 1);
    DivMono(acc * total, limit * (s - 1), s);
    Fraction(limit, s);
  }

  lemma Grows(a: nat, b: nat, x: nat, y: nat)
    requires a <= b && x <= y
    ensures a * x <= b * y
  {
    MulMono(a, x, y);
    MulMono(y, a, b);
  }

  lemma Fraction(acc: nat, s: nat)
    requires 0 < s <= C_SIG_MAX && (acc == 107 || acc == 103 || acc == 100)
    ensures acc * (s - 1) / s <= acc * 14 / 15
  {
    if s == 1 {} else if s == 2 {} else if s == 3 {} else if s == 4 {} else if s == 5 {} else if s == 6 {}
    else if s == 7 {} else if s == 8 {} else if s == 9 {} else if s == 10 {} else if s == 11 {}
    else if s == 12 {} else if s == 13 {} else if s == 14 {} else { assert s == 15; }
  }
}
