/** The KPCP prefetcher: its pattern counters and the lookahead of PF_check. */
module Kpcp {
  import opened SppModel

  const CSIG_MAX: nat := 16
  const MAX_CONF_LIMIT: nat := 99

  /** One set of L2_PT. */
  datatype Row = Row(delta: seq<int>, cDelta: seq<nat>, cSig: nat)

  datatype Prefetch = Prefetch(delta: int, conf: nat, depth: nat)

  predicate Wide(r: Row) { |r.delta| == PT_WAY && |r.cDelta| == PT_WAY }

  /** Counters add up to no more than the signature counter, and an unused way counts nothing. */
  predicate Counts(r: Row) {
    && Wide(r) && r.cSig < CSIG_MAX && Sum(r.cDelta) <= r.cSig
    && forall w :: 0 <= w < PT_WAY ==> -64 < r.delta[w] < 64 && (r.delta[w] == 0 ==> r.cDelta[w] == 0)
  }

  /** The first way of the smallest counter among the first n. */
  function Smallest(c: seq<nat>, n: nat): (w: nat)
    requires n <= |c|
    ensures w < n || w == |c|
  {
    if n == 0 then |c| else
    var w := Smallest(c, n - 1);
    if c[n - 1] < (if w < |c| then c[w] else CSIG_MAX) then n - 1 else w
  }

  /** The signature counter saturates first: 16 becomes 8, and every counter is halved. */
  function Bumped(r: Row): Row {
    if r.cSig + 1 == CSIG_MAX then r.(cSig := CSIG_MAX / 2, cDelta := Halved(r.cDelta)) else r.(cSig := r.cSig + 1)
  }

  /** Where the delta is counted: its own way, else a free one, else the smallest. */
  function Home(r: Row, d: int): (w: nat)
    requires Wide(r)
  {
    if Match(r.delta, d) < PT_WAY then Match(r.delta, d)
    else if Match(r.delta, 0) < PT_WAY then Match(r.delta, 0)
    else Smallest(r.cDelta, PT_WAY)
  }

  function Learn(r: Row, d: int): Row
    requires Wide(r)
  {
    var b := Bumped(r);
    var w := Home(b, d);
    if w >= PT_WAY then b
    else if b.delta[w] == d then b.(cDelta := b.cDelta[w := b.cDelta[w] + 1])
    else b.(delta := b.delta[w := d], cDelta := b.cDelta[w := 0])
  }

  lemma LearnKeeps(r: Row, d: int)
    requires Counts(r) && d != 0 && -64 < d < 64
    ensures Counts(Learn(r, d)) && Home(Bumped(r), d) < PT_WAY
  {
    SumHalved(r.cDelta);
    var b := Bumped(r);
    forall w | 0 <= w < PT_WAY ensures b.cDelta[w] < CSIG_MAX { SumAtLeast(b.cDelta, w); }
    var w := Home(b, d);
    SumUpdate(b.cDelta, w, b.cDelta[w] + 1);
    SumUpdate(b.cDelta, w, 0);
    assert b.delta[w] == d ==> b.delta[w] != 0;
    hide Sum, Home;
  }

  // ---------- PF_check ----------

  predicate SamePage(block: int, d: int) { 0 <= block + d <= 63 }

  /** Confidence of a way: its share, times the path confidence and the accuracy in percent below the first level. */
  function PathConf(r: Row, w: nat, conf: nat, maxConf: nat): nat
    requires Wide(r) && w < PT_WAY && r.cSig > 0
  {
    conf * r.cDelta[w] / r.cSig * maxConf / 100
  }

  function FirstConf(r: Row, w: nat): nat
    requires Wide(r) && w < PT_WAY && r.cSig > 0
  {
    100 * r.cDelta[w] / r.cSig
  }

  /** The way of the largest counter among the first n that pass the threshold; the first among equals. */
  function Leading(r: Row, confs: seq<nat>, n: nat): (w: nat)
    requires Wide(r) && |confs| == PT_WAY && n <= PT_WAY
    ensures w < n || w == PT_WAY
    ensures w < PT_WAY ==> confs[w] >= PF_THRESHOLD
  {
    if n == 0 then PT_WAY else
    var w := Leading(r, confs, n - 1);
    if confs[n - 1] >= PF_THRESHOLD && (if w < PT_WAY then r.cDelta[w] else 0) < r.cDelta[n - 1] then n - 1 else w
  }

  function Confs(r: Row, conf: nat, maxConf: nat, first: bool): (c: seq<nat>)
    requires Wide(r) && r.cSig > 0
    ensures |c| == PT_WAY
  {
    seq(PT_WAY, w requires 0 <= w < PT_WAY => if first then FirstConf(r, w) else PathConf(r, w, conf, maxConf))
  }

  /** The first level queues every way that passes and stays in the page. */
  function Opening(r: Row, block: int, n: nat): (q: seq<Prefetch>)
    requires Wide(r) && r.cSig > 0 && n <= PT_WAY
    ensures |q| <= n
  {
    if n == 0 then [] else
    var q := Opening(r, block, n - 1);
    if FirstConf(r, n - 1) >= PF_THRESHOLD && SamePage(block, r.delta[n - 1])
    then q + [Prefetch(r.delta[n - 1], FirstConf(r, n - 1), 1)] else q
  }

  /** conf 0 ends the loop. step: the delta that leads to the next signature. */
  datatype Path = Path(sig: bv12, conf: nat, delta: int, step: int, queue: seq<Prefetch>)

  function NextSignature(sig: bv12, d: int): bv12
    requires -64 < d < 64
  {
    if d == 0 then sig else
    var n := NextSig(sig, d);
    if n == 0 then SignMagnitude(d) as bv12 else n
  }

  /** The first level of PF_check. */
  function Open(r: Row, sig: bv12, block: int): Path
    requires Counts(r)
  {
    if r.cSig == 0 then Path(sig, 0, 0, 0, []) else
    var confs := Confs(r, 100, 100, true);
    var w := Leading(r, confs, PT_WAY);
    var q := Opening(r, block, PT_WAY);
    if w < PT_WAY then Path(sig, confs[w], r.delta[w], r.delta[w], q) else Path(sig, 0, 0, 0, q)
  }

  /** One round of the lookahead on the set of the next signature. */
  function Advance(r: Row, sig: bv12, maxConf: nat, block: int, p: Path): Path
    requires Counts(r)
  {
    var stop := p.(sig := sig, conf := 0, delta := 0, step := 0);
    if r.cSig == 0 then stop else
    var confs := Confs(r, p.conf, maxConf, false);
    var w := Leading(r, confs, PT_WAY);
    if w >= PT_WAY || |p.queue| >= QUEUE_SIZE then stop else
    var d := p.delta + r.delta[w];
    Path(sig, confs[w], d, r.delta[w],
         if SamePage(block, d) && d != 0 then p.queue + [Prefetch(d, confs[w], |p.queue| + 1)] else p.queue)
  }

  ghost predicate TableOk(table: seq<Row>, hash: bv12 -> nat) {
    && (forall i :: 0 <= i < |table| ==> Counts(table[i]))
    && (forall sig: bv12 :: hash(sig) < |table|)
  }

  /** What every state of the loop satisfies: no zero delta, no prefetch outside the page, no overrun. */
  ghost predicate Sound(p: Path, block: int) {
    && |p.queue| <= QUEUE_SIZE && -64 < p.step < 64
    && (forall i :: 0 <= i < |p.queue| ==> p.queue[i].delta != 0 && SamePage(block, p.queue[i].delta))
  }

  lemma ShareAtMost(r: Row, w: nat, conf: nat, maxConf: nat)
    requires Counts(r) && r.cSig > 0 && w < PT_WAY && maxConf <= MAX_CONF_LIMIT && conf > 0
    ensures PathConf(r, w, conf, maxConf) < conf
  {
    SumAtLeast(r.cDelta, w);
    assert r.cDelta[w] <= r.cSig;
    hide Sum, Counts;
    ShareFades(conf, r.cDelta[w], r.cSig, maxConf);
  }

  lemma ShareFades(conf: nat, c: nat, s: nat, maxConf: nat)
    requires c <= s && s > 0 && maxConf <= MAX_CONF_LIMIT && conf > 0
    ensures conf * c / s * maxConf / 100 < conf
  {
    ShareOfWhole(conf, c, s);
    Fades(conf * c / s, conf, maxConf);
  }

  lemma ShareOfWhole(conf: nat, c: nat, s: nat)
    requires c <= s && s > 0
    ensures conf * c / s <= conf
  {
    MulMono(conf, c, s);
    DivMono(conf * c, conf * s, s);
    WholeShare(conf, s);
  }

  lemma Fades(share: nat, conf: nat, maxConf: nat)
    requires share <= conf && maxConf <= MAX_CONF_LIMIT && conf > 0
    ensures share * maxConf / 100 < conf
  {
    MulMono(maxConf, share, conf);
    MulMono(conf, maxConf, MAX_CONF_LIMIT);
    DivMono(share * maxConf, conf * MAX_CONF_LIMIT, 100);
  }

  lemma WholeShare(conf: nat, s: nat)
    requires s > 0
    ensures conf * s / s == conf
  {
    var q := conf * s / s;
    DivFacts(conf * s, s);
    DivAtLeast(conf * s, s, conf);
    if q > conf {
      MulMono(s, conf + 1, q);
      Distribute(s, conf, 1);
      assert false;
    }
  }

  lemma {:induction false} OpeningIsSound(r: Row, block: int, n: nat)
    requires Counts(r) && r.cSig > 0 && n <= PT_WAY
    ensures forall i :: 0 <= i < |Opening(r, block, n)| ==>
              Opening(r, block, n)[i].delta != 0 && SamePage(block, Opening(r, block, n)[i].delta)
  {
    if n > 0 {
      OpeningIsSound(r, block, n - 1);
      if r.delta[n - 1] == 0 { UnusedHasNone(r, n - 1); }
    }
  }

  /** Confidence comes from a counter, and an unused way has none. */
  lemma UnusedHasNone(r: Row, w: nat)
    requires Counts(r) && r.cSig > 0 && w < PT_WAY && r.delta[w] == 0
    ensures FirstConf(r, w) == 0
  {
    assert 100 * r.cDelta[w] == 0;
  }

  lemma OpenIsSound(r: Row, sig: bv12, block: int)
    requires Counts(r)
    ensures Sound(Open(r, sig, block), block)
  {
    if r.cSig > 0 { OpeningIsSound(r, block, PT_WAY); }
  }

  /** Each round keeps the queue sound and strictly loses confidence: the do-while ends. */
  lemma AdvanceIsSound(r: Row, sig: bv12, maxConf: nat, block: int, p: Path)
    requires Counts(r) && Sound(p, block) && maxConf <= MAX_CONF_LIMIT && p.conf > 0
    ensures Sound(Advance(r, sig, maxConf, block, p), block) && Advance(r, sig, maxConf, block, p).conf < p.conf
  {
    if r.cSig > 0 {
      var w := Leading(r, Confs(r, p.conf, maxConf, false), PT_WAY);
      if w < PT_WAY { ShareAtMost(r, w, p.conf, maxConf); }
    }
  }

  // ---------- the whole of PF_check ----------

  /** The rounds after p; each one looks up the signature its last step leads to. */
  ghost function Follow(table: seq<Row>, hash: bv12 -> nat, maxConf: nat, block: int, p: Path): Path
    requires TableOk(table, hash) && maxConf <= MAX_CONF_LIMIT && Sound(p, block)
    decreases p.conf
  {
    if p.conf < PF_THRESHOLD then p else
    var sig := NextSignature(p.sig, p.step);
    AdvanceIsSound(table[hash(sig)], sig, maxConf, block, p);
    Follow(table, hash, maxConf, block, Advance(table[hash(sig)], sig, maxConf, block, p))
  }

  /** Whatever the tables hold: the loop ends below the threshold, the queue never overruns, and every prefetch
      has a nonzero delta inside the page; the asserts in operate are unreachable. */
  lemma {:induction false} LookaheadIsSafe(table: seq<Row>, hash: bv12 -> nat, maxConf: nat, block: int, p: Path)
    requires TableOk(table, hash) && maxConf <= MAX_CONF_LIMIT && Sound(p, block)
    ensures var f := Follow(table, hash, maxConf, block, p);
            f.conf < PF_THRESHOLD && Sound(f, block) && p.queue <= f.queue
    decreases p.conf
  {
    if p.conf >= PF_THRESHOLD {
      var sig := NextSignature(p.sig, p.step);
      var r := table[hash(sig)];
      AdvanceIsSound(r, sig, maxConf, block, p);
      LookaheadIsSafe(table, hash, maxConf, block, Advance(r, sig, maxConf, block, p));
    }
  }

  class Prefetcher {
    const pt: array<Row>
    var pfBuffer: array<Prefetch>
    var numPf: nat
    var currConf: nat
    var currDelta: int

    ghost predicate Valid(hash: bv12 -> nat)
      reads this, pt
    {
      TableOk(pt[..], hash) && pfBuffer.Length == QUEUE_SIZE
    }

    constructor (sets: nat)
      ensures fresh(pt) && fresh(pfBuffer) && pt.Length == sets && numPf == 0
      ensures forall hash: bv12 -> nat :: (forall sig: bv12 :: hash(sig) < sets) ==> Valid(hash)
    {
      pt := new Row[sets](_ => Row([0, 0, 0, 0], [0, 0, 0, 0], 0));
      pfBuffer := new Prefetch[QUEUE_SIZE](_ => Prefetch(0, 0, 0));
      numPf, currConf, currDelta := 0, 0, 0;
      new;
      FreshRowCounts();
    }

    /** L2_PT_update; the caller skips delta 0. */
    method PtUpdate(at: nat, d: int)
      requires at < pt.Length && Counts(pt[at]) && d != 0 && -64 < d < 64
      modifies pt
      ensures pt[..] == old(pt[..])[at := Learn(old(pt[at]), d)] && Counts(pt[at])
    {
      var r := pt[at];
      LearnKeeps(r, d);
      hide Counts, Match, Smallest;
      r := r.(cSig := r.cSig + 1);
      if r.cSig == CSIG_MAX { r := r.(cSig := CSIG_MAX / 2, cDelta := Halved(r.cDelta)); }
      assert r == Bumped(pt[at]);
      var w := FindDelta(r.delta, d);
      if w < PT_WAY {
        r := r.(cDelta := r.cDelta[w := r.cDelta[w] + 1]);
      } else {
        w := FindDelta(r.delta, 0);
        if w == PT_WAY { w := FindSmallest(r.cDelta); }
        r := r.(delta := r.delta[w := d], cDelta := r.cDelta[w := 0]);
      }
      pt[at] := r;
    }

    method FindSmallest(c: seq<nat>) returns (minIdx: nat)
      ensures minIdx == Smallest(c, |c|)
    {
      minIdx := |c|;
      var minVal := CSIG_MAX;
      for w := 0 to |c|
        invariant minIdx == Smallest(c, w) && minVal == if minIdx < |c| then c[minIdx] else CSIG_MAX
      {
        if c[w] < minVal { minIdx, minVal := w, c[w]; }
      }
    }

    /** The search for the leading way of one set. */
    method FindLeading(r: Row, conf: nat, maxConf: nat, first: bool) returns (w: nat, confMax: nat)
      requires Wide(r) && r.cSig > 0
      ensures w == Leading(r, Confs(r, conf, maxConf, first), PT_WAY)
      ensures confMax == if w < PT_WAY then Confs(r, conf, maxConf, first)[w] else 0
    {
      ghost var confs := Confs(r, conf, maxConf, first);
      hide PathConf, FirstConf;
      var pfMax: nat := 0;
      w, confMax := PT_WAY, 0;
      for i := 0 to PT_WAY
        invariant w == Leading(r, confs, i) && pfMax == if w < PT_WAY then r.cDelta[w] else 0
        invariant confMax == if w < PT_WAY then confs[w] else 0
      {
        var tempConf := if first then FirstConf(r, i) else PathConf(r, i, conf, maxConf);
        if tempConf >= PF_THRESHOLD && pfMax < r.cDelta[i] { w, pfMax, confMax := i, r.cDelta[i], tempConf; }
      }
    }

    /** PF_check. */
    method PfCheck(hash: bv12 -> nat, signature: bv12, block: int, maxConf: nat)
      requires Valid(hash) && maxConf <= MAX_CONF_LIMIT
      modifies this`numPf, this`currConf, this`currDelta, pfBuffer
      ensures Valid(hash) && numPf <= QUEUE_SIZE && currConf < PF_THRESHOLD
      ensures forall i :: 0 <= i < numPf ==> pfBuffer[i].delta != 0 && SamePage(block, pfBuffer[i].delta)
      ensures var first := Open(pt[hash(signature)], signature, block);
              Sound(first, block) && pfBuffer[..numPf] == Follow(pt[..], hash, maxConf, block, first).queue
    {
      var r := pt[hash(signature)];
      assert r == pt[..][hash(signature)];
      OpenIsSound(r, signature, block);
      ghost var p := Open(r, signature, block);
      hide Counts, Sound, Open, Follow;
      FirstLevel(r, signature, block);
      Walk(hash, signature, currDelta, maxConf, block, p);
    }

    /** The do-while of PF_check. */
    method Walk(hash: bv12 -> nat, signature: bv12, start: int, maxConf: nat, block: int, ghost first: Path)
      requires Valid(hash) && maxConf <= MAX_CONF_LIMIT && Sound(first, block) && -64 < start < 64
               && numPf <= QUEUE_SIZE
      requires first == Path(signature, currConf, currDelta, start, pfBuffer[..numPf])
      modifies this`numPf, this`currConf, this`currDelta, pfBuffer
      ensures numPf <= QUEUE_SIZE && currConf < PF_THRESHOLD
      ensures forall i :: 0 <= i < numPf ==> pfBuffer[i].delta != 0 && SamePage(block, pfBuffer[i].delta)
      ensures pfBuffer[..numPf] == Follow(pt[..], hash, maxConf, block, first).queue
    {
      ghost var table, p := pt[..], first;
      ghost var end := Follow(table, hash, maxConf, block, first);
      hide Counts, Sound, NextSignature, Follow, TableOk;
      var sig, step := signature, start;
      while currConf >= PF_THRESHOLD
        invariant numPf <= QUEUE_SIZE && Sound(p, block) && Follow(table, hash, maxConf, block, p) == end
        invariant p == Path(sig, currConf, currDelta, step, pfBuffer[..numPf]) && -64 < step < 64
        decreases currConf
      {
        sig, step, p := NextRound(hash, sig, step, maxConf, block, p);
      }
      assert pfBuffer[..numPf] == p.queue;
    }

    /** One lookahead step: the next signature, its set, the round. */
    method NextRound(hash: bv12 -> nat, sig: bv12, step: int, maxConf: nat, block: int, ghost p: Path)
      returns (sig': bv12, step': int, ghost t: Path)
      requires Valid(hash) && maxConf <= MAX_CONF_LIMIT && Sound(p, block) && -64 < step < 64 && numPf <= QUEUE_SIZE
      requires p == Path(sig, currConf, currDelta, step, pfBuffer[..numPf]) && currConf >= PF_THRESHOLD
      modifies this`numPf, this`currConf, this`currDelta, pfBuffer
      ensures numPf <= QUEUE_SIZE && Sound(t, block) && t.conf < p.conf
      ensures Follow(pt[..], hash, maxConf, block, p) == Follow(pt[..], hash, maxConf, block, t)
      ensures t == Path(sig', currConf, currDelta, step', pfBuffer[..numPf]) && -64 < step' < 64
    {
      sig' := NextSignature(sig, step);
      var next := pt[hash(sig')];
      assert next == pt[..][hash(sig')];
      AdvanceIsSound(next, sig', maxConf, block, p);
      t := Advance(next, sig', maxConf, block, p);
      hide Counts, Sound, Advance, NextSignature, Follow;
      step' := Round(next, sig', maxConf, block, p);
    }

    method FirstLevel(r: Row, signature: bv12, block: int)
      requires Counts(r) && pfBuffer.Length == QUEUE_SIZE
      modifies this`numPf, this`currConf, this`currDelta, pfBuffer
      ensures numPf <= QUEUE_SIZE
      ensures var p := Open(r, signature, block);
              pfBuffer[..numPf] == p.queue && currConf == p.conf && currDelta == p.delta == p.step && p.sig == signature
    {
      numPf, currConf, currDelta := 0, 0, 0;
      if r.cSig > 0 {
        QueueOpening(r, block);
        hide Confs, Opening, Counts;
        var pfIdx, confMax := FindLeading(r, 100, 100, true);
        if pfIdx < PT_WAY { currConf, currDelta := confMax, r.delta[pfIdx]; }
      }
    }

    method QueueOpening(r: Row, block: int)
      requires Wide(r) && r.cSig > 0 && pfBuffer.Length == QUEUE_SIZE && numPf == 0
      modifies this`numPf, pfBuffer
      ensures numPf <= PT_WAY && pfBuffer[..numPf] == Opening(r, block, PT_WAY)
    {
      hide FirstConf;
      for i := 0 to PT_WAY
        invariant numPf <= i && pfBuffer[..numPf] == Opening(r, block, i)
      {
        var tempConf := FirstConf(r, i);
        if tempConf >= PF_THRESHOLD && SamePage(block, r.delta[i]) {
          ghost var before := pfBuffer[..numPf];
          pfBuffer[numPf] := Prefetch(r.delta[i], tempConf, 1);
          numPf := numPf + 1;
          assert pfBuffer[..numPf] == before + [Prefetch(r.delta[i], tempConf, 1)];
        }
      }
    }

    /** The body of the do-while; returns the delta that leads on. */
    method Round(r: Row, sig: bv12, maxConf: nat, block: int, ghost p: Path) returns (step: int)
      requires Counts(r) && pfBuffer.Length == QUEUE_SIZE && numPf <= QUEUE_SIZE
      requires pfBuffer[..numPf] == p.queue && p.conf == currConf && p.delta == currDelta
      modifies this`numPf, this`currConf, this`currDelta, pfBuffer
      ensures numPf <= QUEUE_SIZE
      ensures var t := Advance(r, sig, maxConf, block, p);
              && pfBuffer[..numPf] == t.queue && currConf == t.conf && currDelta == t.delta
              && step == t.step && t.sig == sig
    {
      step := 0;
      if r.cSig == 0 {
        currConf, currDelta := 0, 0;
        return;
      }
      hide Counts, Confs;
      var laPfIdx, confMax := FindLeading(r, currConf, maxConf, false);
      if laPfIdx < PT_WAY && numPf < QUEUE_SIZE {
        var d := currDelta + r.delta[laPfIdx];
        if SamePage(block, d) {
          if d != 0 {
            ghost var before := pfBuffer[..numPf];
            pfBuffer[numPf] := Prefetch(d, confMax, numPf + 1);
            numPf := numPf + 1;
            assert pfBuffer[..numPf] == before + [Prefetch(d, confMax, |before| + 1)];
          }
        }
        currConf, currDelta, step := confMax, d, r.delta[laPfIdx];
      } else {
        currConf, currDelta := 0, 0;
      }
    }
  }

  lemma FreshRowCounts()
    ensures Counts(Row([0, 0, 0, 0], [0, 0, 0, 0], 0))
  {
    assert Sum([0]) == 0 by { assert [0][..0] == []; }
    assert Sum([0, 0]) == 0 by { assert [0, 0][..1] == [0]; }
    assert Sum([0, 0, 0]) == 0 by { assert [0, 0, 0][..2] == [0, 0]; }
    assert Sum([0, 0, 0, 0]) == 0 by { assert [0, 0, 0, 0][..3] == [0, 0, 0]; }
  }
}
