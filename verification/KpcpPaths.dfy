/** Where PF_check of the KPCP prefetcher goes: which ways it queues, which one it follows and what it prefetches. */
module KpcpPaths {
  import opened SppModel
  import opened Kpcp

  // ---------- signatures ----------

  /** A delta of 0 leaves the signature alone; any other one leads to the next signature of the usual form, or, where
      that would be 0, to the code of the delta, which never is. */
  lemma SignatureIsNeverZero(sig: bv12, d: int)
    requires -64 < d < 64
    ensures d == 0 ==> NextSignature(sig, d) == sig
    ensures d != 0 ==> NextSignature(sig, d) != 0
    ensures d != 0 && NextSig(sig, d) != 0 ==> NextSignature(sig, d) == NextSig(sig, d)
  {
    if d != 0 { CodeIsNotZero(SignMagnitude(d)); }
    hide NextSig, SignMagnitude;
  }

  lemma CodeIsNotZero(code: nat)
    requires 0 < code < 128
    ensures code as bv12 != 0
  {
  }

  // ---------- the way that leads ----------

  /** w is the first way of the largest count among those that pass. */
  ghost predicate Leads(r: Row, confs: seq<nat>, n: nat, w: nat)
    requires Wide(r) && |confs| == PT_WAY && n <= PT_WAY
  {
    && w < n && confs[w] >= PF_THRESHOLD && r.cDelta[w] > 0
    && (forall v :: 0 <= v < n && confs[v] >= PF_THRESHOLD ==> r.cDelta[v] <= r.cDelta[w])
    && (forall v :: 0 <= v < w && confs[v] >= PF_THRESHOLD ==> r.cDelta[v] < r.cDelta[w])
  }

  lemma {:induction false} LeadingExactly(r: Row, confs: seq<nat>, n: nat)
    requires Wide(r) && |confs| == PT_WAY && n <= PT_WAY
    ensures var w := Leading(r, confs, n);
            if w < PT_WAY then Leads(r, confs, n, w)
            else forall v :: 0 <= v < n && confs[v] >= PF_THRESHOLD ==> r.cDelta[v] == 0
  {
    if n > 0 { LeadingExactly(r, confs, n - 1); }
  }

  /** A way that passes has been counted, so the first level leads on exactly when some way passes. */
  lemma PassingIsCounted(r: Row, w: nat, conf: nat, maxConf: nat, first: bool)
    requires Wide(r) && r.cSig > 0 && w < PT_WAY && r.cDelta[w] == 0
    ensures Confs(r, conf, maxConf, first)[w] == 0
  {
    assert conf * r.cDelta[w] == 0 && 0 / r.cSig == 0 && 0 * maxConf == 0;
  }

  // ---------- the first level ----------

  /** Way w is queued. */
  ghost predicate Opens(r: Row, block: int, w: nat)
    requires Wide(r) && r.cSig > 0 && w < PT_WAY
  {
    FirstConf(r, w) >= PF_THRESHOLD && SamePage(block, r.delta[w])
  }

  /** The queue lists exactly the ways that pass and stay in the page, in way order. */
  lemma {:induction false} OpeningExactly(r: Row, block: int, n: nat) returns (ws: seq<nat>)
    requires Wide(r) && r.cSig > 0 && n <= PT_WAY
    ensures var q := Opening(r, block, n);
            && |q| == |ws|
            && (forall i :: 0 <= i < |ws| ==> ws[i] < n && q[i] == Prefetch(r.delta[ws[i]], FirstConf(r, ws[i]), 1))
            && (forall i, j :: 0 <= i < j < |ws| ==> ws[i] < ws[j])
            && (forall w :: 0 <= w < n ==> (w in ws <==> Opens(r, block, w)))
  {
    hide FirstConf, SamePage;
    ws := [];
    if n > 0 {
      ws := OpeningExactly(r, block, n - 1);
      if Opens(r, block, n - 1) {
        var before := ws;
        ws := ws + [n - 1];
        assert forall w :: w in ws <==> w in before || w == n - 1;
      }
    }
  }

  /** The path starts along the way that leads, at its share; without a way that passes it ends at once. */
  lemma OpenExactly(r: Row, sig: bv12, block: int) returns (w: nat)
    requires Counts(r)
    ensures var p := Open(r, sig, block);
            if r.cSig == 0 || forall v :: 0 <= v < PT_WAY ==> 100 * r.cDelta[v] / r.cSig < PF_THRESHOLD
            then p.conf == 0
            else
              && Leads(r, Confs(r, 100, 100, true), PT_WAY, w) && p.conf == 100 * r.cDelta[w] / r.cSig
              && p.delta == p.step == r.delta[w] && p.sig == sig
  {
    w := 0;
    if r.cSig > 0 {
      var confs := Confs(r, 100, 100, true);
      LeadingExactly(r, confs, PT_WAY);
      w := Leading(r, confs, PT_WAY);
      assert forall v :: 0 <= v < PT_WAY ==> confs[v] == 100 * r.cDelta[v] / r.cSig;
      if w == PT_WAY {
        forall v | 0 <= v < PT_WAY ensures confs[v] < PF_THRESHOLD {
          if r.cDelta[v] == 0 { PassingIsCounted(r, v, 100, 100, true); }
        }
      }
      hide Opening, Leading, Counts;
    }
  }

  /** A delta stays in the page exactly when block and target are in one page of 64 blocks. */
  lemma SamePageExactly(page: nat, block: nat, d: int)
    requires block < 64
    ensures SamePage(block, d) <==> (page * 64 + block + d) / 64 == page
  {
  }

  // ---------- the rounds ----------

  /** A round follows the way that leads: the delta it reaches is queued when it is inside the page and not the block
      itself, behind what is queued already. Without such a way, or with a full queue, the loop ends. */
  lemma AdvanceExactly(r: Row, sig: bv12, maxConf: nat, block: int, p: Path) returns (w: nat)
    requires Counts(r)
    ensures var t := Advance(r, sig, maxConf, block, p);
            if r.cSig == 0 || |p.queue| >= QUEUE_SIZE
               || (forall v :: 0 <= v < PT_WAY ==> Confs(r, p.conf, maxConf, false)[v] < PF_THRESHOLD)
            then t.conf == 0 && t.queue == p.queue
            else
              && Leads(r, Confs(r, p.conf, maxConf, false), PT_WAY, w)
              && t.sig == sig && t.conf == p.conf * r.cDelta[w] / r.cSig * maxConf / 100
              && t.step == r.delta[w] && t.delta == p.delta + r.delta[w]
              && t.queue == p.queue + Landing(block, t.delta, t.conf, |p.queue| + 1)
  {
    w := 0;
    if r.cSig > 0 {
      var confs := Confs(r, p.conf, maxConf, false);
      LeadingExactly(r, confs, PT_WAY);
      w := Leading(r, confs, PT_WAY);
      if w == PT_WAY {
        forall v | 0 <= v < PT_WAY ensures confs[v] < PF_THRESHOLD {
          if r.cDelta[v] == 0 { PassingIsCounted(r, v, p.conf, maxConf, false); }
        }
      }
      assert forall v :: 0 <= v < PT_WAY ==> confs[v] == PathConf(r, v, p.conf, maxConf);
      hide FirstConf, Counts, Leading;
    }
  }

  /** What is queued where the path stands. */
  function Landing(block: int, d: int, conf: nat, depth: nat): seq<Prefetch> {
    if SamePage(block, d) && d != 0 then [Prefetch(d, conf, depth)] else []
  }

  function Deltas(q: seq<Prefetch>): seq<int> { seq(|q|, i requires 0 <= i < |q| => q[i].delta) }

  /** The places that a path of these steps touches inside the page, other than the block itself. */
  function Places(block: int, at: int, steps: seq<int>): seq<int>
    decreases |steps|
  {
    if steps == [] then [] else
    var d := at + steps[0];
    (if SamePage(block, d) && d != 0 then [d] else []) + Places(block, d, steps[1..])
  }

  /** The steps taken are the deltas of the ways that lead, one set after the other. */
  ghost predicate Walks(table: seq<Row>, hash: bv12 -> nat, maxConf: nat, block: int, p: Path, steps: seq<int>)
    requires TableOk(table, hash)
    decreases |steps|
  {
    steps == [] || (
      && -64 < p.step < 64 && p.conf >= PF_THRESHOLD
      && var sig := NextSignature(p.sig, p.step);
      var r := table[hash(sig)];
      && r.cSig > 0
      && (exists w: nat :: Leads(r, Confs(r, p.conf, maxConf, false), PT_WAY, w) && steps[0] == r.delta[w])
      && Walks(table, hash, maxConf, block, Advance(r, sig, maxConf, block, p), steps[1..]))
  }

  /** Over the whole loop: there are steps, each the delta of the way that leads in its set, and what is queued are
      exactly the places they touch. */
  lemma {:induction false} QueueIsPath(table: seq<Row>, hash: bv12 -> nat, maxConf: nat, block: int, p: Path)
    returns (steps: seq<int>)
    requires TableOk(table, hash) && maxConf <= MAX_CONF_LIMIT && Sound(p, block)
    ensures Walks(table, hash, maxConf, block, p, steps)
    ensures Deltas(Follow(table, hash, maxConf, block, p).queue) == Deltas(p.queue) + Places(block, p.delta, steps)
    decreases p.conf
  {
    steps := [];
    if p.conf >= PF_THRESHOLD {
      var sig := NextSignature(p.sig, p.step);
      var r := table[hash(sig)];
      var t := Advance(r, sig, maxConf, block, p);
      FollowsOn(table, hash, maxConf, block, p, t);
      hide Advance, NextSignature, Counts, Sound, Follow, Walks, Places, Deltas, Landing;
      if t.conf == 0 {
        Ended(table, hash, maxConf, block, p, t);
      } else {
        var rest := QueueIsPath(table, hash, maxConf, block, t);
        steps := [t.step] + rest;
        OneStepMore(table, hash, maxConf, block, p, t, rest);
      }
    } else {
      NoSteps(table, hash, maxConf, block, p);
    }
  }

  lemma NoSteps(table: seq<Row>, hash: bv12 -> nat, maxConf: nat, block: int, p: Path)
    requires TableOk(table, hash) && maxConf <= MAX_CONF_LIMIT && Sound(p, block) && p.conf < PF_THRESHOLD
    ensures Walks(table, hash, maxConf, block, p, [])
    ensures Deltas(Follow(table, hash, maxConf, block, p).queue) == Deltas(p.queue) + Places(block, p.delta, [])
  {
  }

  /** One round more in front of the walk from t. */
  lemma OneStepMore(table: seq<Row>, hash: bv12 -> nat, maxConf: nat, block: int, p: Path, t: Path, rest: seq<int>)
    requires TableOk(table, hash) && Sound(p, block) && p.conf >= PF_THRESHOLD && t.conf > 0
    requires var sig := NextSignature(p.sig, p.step); t == Advance(table[hash(sig)], sig, maxConf, block, p)
    requires Walks(table, hash, maxConf, block, t, rest)
    ensures Walks(table, hash, maxConf, block, p, [t.step] + rest)
    ensures Deltas(p.queue) + Places(block, p.delta, [t.step] + rest) == Deltas(t.queue) + Places(block, t.delta, rest)
  {
    var sig := NextSignature(p.sig, p.step);
    var r := table[hash(sig)];
    var w := AdvanceExactly(r, sig, maxConf, block, p);
    assert ([t.step] + rest)[1..] == rest;
    hide Advance, NextSignature, Counts, Confs, PathConf, Leads, Places, Deltas, Landing, TableOk;
    PlacesGrow(p, t, block, rest);
  }

  lemma PlacesGrow(p: Path, t: Path, block: int, rest: seq<int>)
    requires t.delta == p.delta + t.step && t.queue == p.queue + Landing(block, t.delta, t.conf, |p.queue| + 1)
    ensures Deltas(p.queue) + Places(block, p.delta, [t.step] + rest) == Deltas(t.queue) + Places(block, t.delta, rest)
  {
    QueuedPlace(p.queue, block, t.delta, t.conf, |p.queue| + 1);
    PlacesFrom(block, p.delta, t.step, rest);
    hide Places, Deltas, Landing;
  }

  lemma FollowsOn(table: seq<Row>, hash: bv12 -> nat, maxConf: nat, block: int, p: Path, t: Path)
    requires TableOk(table, hash) && maxConf <= MAX_CONF_LIMIT && Sound(p, block) && p.conf >= PF_THRESHOLD
    requires var sig := NextSignature(p.sig, p.step); t == Advance(table[hash(sig)], sig, maxConf, block, p)
    ensures Sound(t, block) && t.conf < p.conf
    ensures Follow(table, hash, maxConf, block, p) == Follow(table, hash, maxConf, block, t)
  {
    var sig := NextSignature(p.sig, p.step);
    AdvanceIsSound(table[hash(sig)], sig, maxConf, block, p);
    hide Advance, NextSignature, Counts, Sound;
  }

  lemma Ended(table: seq<Row>, hash: bv12 -> nat, maxConf: nat, block: int, p: Path, t: Path)
    requires TableOk(table, hash) && maxConf <= MAX_CONF_LIMIT && Sound(p, block) && Sound(t, block) && t.conf == 0
    requires var sig := NextSignature(p.sig, p.step); t == Advance(table[hash(sig)], sig, maxConf, block, p)
    ensures Follow(table, hash, maxConf, block, t) == t && Walks(table, hash, maxConf, block, p, [])
    ensures Deltas(t.queue) == Deltas(p.queue) + Places(block, p.delta, [])
  {
    var sig := NextSignature(p.sig, p.step);
    var w := AdvanceExactly(table[hash(sig)], sig, maxConf, block, p);
    hide Advance, NextSignature, Counts, Confs, PathConf, Leads;
  }

  lemma QueuedPlace(q: seq<Prefetch>, block: int, d: int, conf: nat, depth: nat)
    ensures Deltas(q + Landing(block, d, conf, depth)) == Deltas(q) + if SamePage(block, d) && d != 0 then [d] else []
  {
  }

  lemma PlacesFrom(block: int, at: int, step: int, rest: seq<int>)
    ensures var d := at + step;
            Places(block, at, [step] + rest)
            == (if SamePage(block, d) && d != 0 then [d] else []) + Places(block, d, rest)
  {
    assert ([step] + rest)[1..] == rest;
  }
}
