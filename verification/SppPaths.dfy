/** Where the lookahead of the signature path prefetcher goes: which candidates it lists, which delta it follows, and
    what its signature remembers. */
module SppPaths {
  import opened SppModel

  // ---------- signatures ----------

  /** The low six bits are the size of the delta, the seventh its sign: no two deltas have the same form. */
  lemma SignAndSize(d: int, e: int)
    requires -64 < d < 64 && -64 < e < 64
    ensures SignMagnitude(d) % 64 == (if d < 0 then -d else d) && (SignMagnitude(d) >= 64 <==> d < 0)
    ensures SignMagnitude(d) == SignMagnitude(e) <==> d == e
  {
  }

  /** Room for three more bits, and the next code on top. */
  ghost function Shifted(s: bv12, a: bv12): bv12 { (s << 3) ^ a }

  lemma ShiftedOut(s: bv12, a: bv12, b: bv12, c: bv12, d: bv12)
    ensures Shifted(Shifted(Shifted(Shifted(s, a), b), c), d) == Shifted(Shifted(Shifted(a, b), c), d)
  {
  }

  /** The three lowest bits. */
  ghost function Lowest(a: bv12): bv12 { a & 7 }

  ghost function Raised(a: bv12): bv12 { a << 9 }

  ghost function Added(x: bv12, r: bv12): bv12 { x ^ r }

  ghost function OnTop(a: bv12, r: bv12): bv12 { Added(Raised(a), r) }

  lemma RaisedKeepsLowest(a: bv12, b: bv12)
    ensures Raised(a) == Raised(b) <==> Lowest(a) == Lowest(b)
  {
  }

  lemma Cancels(x: bv12, y: bv12, r: bv12)
    ensures Added(x, r) == Added(y, r) <==> x == y
  {
  }

  lemma LowestStay(a: bv12, b: bv12, r: bv12)
    ensures OnTop(a, r) == OnTop(b, r) <==> Lowest(a) == Lowest(b)
  {
    hide Raised, Lowest, Added;
    RaisedKeepsLowest(a, b);
    Cancels(Raised(a), Raised(b), r);
  }

  lemma SameBits(s: bv12, a: bv12, b: bv12)
    ensures Shifted(s, a) == Shifted(s, b) <==> a == b
  {
  }

  /** What a delta adds to the signature. */
  ghost function Code(d: int): bv12
    requires -64 < d < 64
  {
    SignMagnitude(d) as bv12
  }

  lemma NextSigIs(sig: bv12, d: int)
    requires -64 < d < 64
    ensures NextSig(sig, d) == Shifted(sig, Code(d))
  {
  }

  /** Deltas within a page. */
  ghost predicate Deltas(ds: seq<int>) { forall i :: 0 <= i < |ds| ==> -64 < ds[i] < 64 }

  /** The signature after these deltas. */
  ghost function SigAfter(sig: bv12, ds: seq<int>): bv12
    requires Deltas(ds)
    decreases |ds|
  {
    if ds == [] then sig else NextSig(SigAfter(sig, ds[..|ds| - 1]), ds[|ds| - 1])
  }

  lemma LastStep(sig: bv12, ds: seq<int>)
    requires Deltas(ds) && ds != []
    ensures SigAfter(sig, ds) == Shifted(SigAfter(sig, ds[..|ds| - 1]), Code(ds[|ds| - 1]))
  {
    NextSigIs(SigAfter(sig, ds[..|ds| - 1]), ds[|ds| - 1]);
  }

  /** The four last deltas, oldest first. */
  ghost function FourCodes(a: bv12, b: bv12, c: bv12, d: bv12): bv12 {
    Shifted(Shifted(Shifted(a, b), c), d)
  }

  lemma FirstOfFour(a: bv12, b: bv12, c: bv12, d: bv12)
    ensures FourCodes(a, b, c, d) == OnTop(a, FourCodes(0, b, c, d))
  {
  }

  /** A signature is made of the last four deltas: whatever came before is shifted out. */
  lemma OnlyFourDeltasCount(sig: bv12, ds: seq<int>)
    requires Deltas(ds) && |ds| >= 4
    ensures var n := |ds|;
            SigAfter(sig, ds) == FourCodes(Code(ds[n - 4]), Code(ds[n - 3]), Code(ds[n - 2]), Code(ds[n - 1]))
  {
    var n := |ds|;
    hide SigAfter, Code, Shifted;
    assert ds[..n - 1][..n - 2] == ds[..n - 2];
    assert ds[..n - 2][..n - 3] == ds[..n - 3];
    assert ds[..n - 3][..n - 4] == ds[..n - 4];
    LastStep(sig, ds);
    LastStep(sig, ds[..n - 1]);
    LastStep(sig, ds[..n - 2]);
    LastStep(sig, ds[..n - 3]);
    ShiftedOut(SigAfter(sig, ds[..n - 4]), Code(ds[n - 4]), Code(ds[n - 3]), Code(ds[n - 2]), Code(ds[n - 1]));
  }

  /** Deltas with different codes lead to different signatures. */
  lemma LastDeltaCounts(sig: bv12, d: int, e: int)
    requires -64 < d < 64 && -64 < e < 64
    ensures NextSig(sig, d) == NextSig(sig, e) <==> Code(d) == Code(e)
  {
    NextSigIs(sig, d);
    NextSigIs(sig, e);
    hide NextSig, Code, Shifted;
    SameBits(sig, Code(d), Code(e));
  }

  /** Of the fourth last one exactly the three lowest bits are still there. */
  lemma FourthLastDeltaCounts(a: bv12, a': bv12, b: bv12, c: bv12, d: bv12)
    ensures FourCodes(a, b, c, d) == FourCodes(a', b, c, d) <==> Lowest(a) == Lowest(a')
  {
    FirstOfFour(a, b, c, d);
    FirstOfFour(a', b, c, d);
    hide FourCodes, OnTop, Lowest;
    LowestStay(a, a', FourCodes(0, b, c, d));
  }

  // ---------- one round ----------

  /** cs lists exactly the ways below n that pass, in way order. */
  ghost predicate Lists(p: Pattern, acc: nat, conf: nat, depth: nat, n: nat, cs: seq<Candidate>, ws: seq<nat>)
    requires Shaped(p) && n <= PT_WAY && p.cSig > 0
  {
    && |cs| == |ws|
    && (forall i :: 0 <= i < |ws| ==> ws[i] < n && cs[i] == Candidate(Conf(p, ws[i], acc, conf, depth), p.delta[ws[i]]))
    && (forall i, j :: 0 <= i < j < |ws| ==> ws[i] < ws[j])
    && (forall w :: 0 <= w < n ==> (w in ws <==> Conf(p, w, acc, conf, depth) >= PF_THRESHOLD))
  }

  lemma {:induction false} PassedExactly(p: Pattern, acc: nat, conf: nat, depth: nat, n: nat) returns (ws: seq<nat>)
    requires Shaped(p) && n <= PT_WAY && p.cSig > 0
    ensures Lists(p, acc, conf, depth, n, Passed(p, acc, conf, depth, n), ws)
  {
    hide Conf;
    ws := [];
    if n > 0 {
      ws := PassedExactly(p, acc, conf, depth, n - 1);
      if Conf(p, n - 1, acc, conf, depth) >= PF_THRESHOLD {
        ghost var before := ws;
        ws := ws + [n - 1];
        assert forall w :: w in ws <==> w in before || w == n - 1;
      }
    }
  }

  /** w is the first of the most confident ways, and passes. */
  ghost predicate Leads(p: Pattern, acc: nat, conf: nat, depth: nat, n: nat, w: nat)
    requires Shaped(p) && n <= PT_WAY && p.cSig > 0
  {
    && w < n && Conf(p, w, acc, conf, depth) >= PF_THRESHOLD
    && (forall v :: 0 <= v < n ==> Conf(p, v, acc, conf, depth) <= Conf(p, w, acc, conf, depth))
    && (forall v :: 0 <= v < w ==> Conf(p, v, acc, conf, depth) < Conf(p, w, acc, conf, depth))
  }

  ghost predicate NonePasses(p: Pattern, acc: nat, conf: nat, depth: nat, n: nat)
    requires Shaped(p) && n <= PT_WAY && p.cSig > 0
  {
    forall v :: 0 <= v < n ==> Conf(p, v, acc, conf, depth) < PF_THRESHOLD
  }

  lemma {:induction false} LeaderExactly(p: Pattern, acc: nat, conf: nat, depth: nat, n: nat)
    requires Shaped(p) && n <= PT_WAY && p.cSig > 0
    ensures var w, best := BestWay(p, acc, conf, depth, n), BestConf(p, acc, conf, depth, n);
            if w == PT_WAY then best == 0 && NonePasses(p, acc, conf, depth, n)
            else Leads(p, acc, conf, depth, n, w) && best == Conf(p, w, acc, conf, depth)
  {
    hide Conf;
    if n > 0 { LeaderExactly(p, acc, conf, depth, n - 1); }
  }

  /** One round of the loop lists every way that passes, and goes on along the delta of the first of the most
      confident ones; it is the last round exactly when no way passes. */
  lemma RoundExactly(table: seq<Pattern>, hash: bv12 -> nat, acc: nat, l: Look) returns (ws: seq<nat>, w: nat)
    requires Usable(table, hash)
    ensures var p, t := table[hash(l.sig)], Round(table, hash, acc, l);
            if p.cSig == 0 || NonePasses(p, acc, l.conf, l.depth, PT_WAY) then
              !t.more && t.sig == l.sig && t.depth == l.depth && t.queue == l.queue
            else
              && Leads(p, acc, l.conf, l.depth, PT_WAY, w) && t.more && t.depth == l.depth + 1
              && t.conf == Conf(p, w, acc, l.conf, l.depth) && t.sig == NextSig(l.sig, p.delta[w])
              && l.queue <= t.queue && Lists(p, acc, l.conf, l.depth, PT_WAY, t.queue[|l.queue|..], ws)
  {
    var p := table[hash(l.sig)];
    ws, w := [], 0;
    if p.cSig > 0 {
      var found := Passed(p, acc, l.conf, l.depth, PT_WAY);
      ws := PassedExactly(p, acc, l.conf, l.depth, PT_WAY);
      LeaderExactly(p, acc, l.conf, l.depth, PT_WAY);
      w := BestWay(p, acc, l.conf, l.depth, PT_WAY);
      hide Conf, Passed, BestWay, BestConf, NextSig;
      assert (l.queue + found)[|l.queue|..] == found;
      if found == [] {
        assert w == PT_WAY || w !in ws;
      } else {
        assert ws[0] in ws;
      }
    }
  }

  // ---------- the whole path ----------

  /** Step i follows the leader of the set that the signature of the deltas so far selects. */
  ghost predicate Follows(table: seq<Pattern>, hash: bv12 -> nat, acc: nat, sig: bv12, ds: seq<int>, i: nat)
    requires Usable(table, hash) && Deltas(ds) && i < |ds|
  {
    var p := table[hash(SigAfter(sig, ds[..i]))];
    p.cSig > 0
    && exists w: nat :: Leads(p, acc, After(table, hash, acc, sig, i).conf, i, PT_WAY, w) && p.delta[w] == ds[i]
  }

  /** After n rounds: the loop stands at the signature of the deltas it has followed, one a level, each of them the
      leader at its place. */
  lemma {:induction false} LookaheadFollowsItsPath(table: seq<Pattern>, hash: bv12 -> nat, acc: nat, sig: bv12, n: nat)
    returns (ds: seq<int>)
    requires Usable(table, hash)
    ensures var l := After(table, hash, acc, sig, n);
            && Deltas(ds) && l.sig == SigAfter(sig, ds) && l.depth == |ds| <= n && (l.more ==> |ds| == n)
            && forall i :: 0 <= i < |ds| ==> Follows(table, hash, acc, sig, ds, i)
  {
    ds := [];
    if n > 0 {
      ds := LookaheadFollowsItsPath(table, hash, acc, sig, n - 1);
      var l := After(table, hash, acc, sig, n - 1);
      if l.more {
        var ws, w := RoundExactly(table, hash, acc, l);
        var p := table[hash(l.sig)];
        hide Round, NextSig, Lists, NonePasses, Leads, Conf;
        if p.cSig > 0 && !NonePasses(p, acc, l.conf, l.depth, PT_WAY) {
          ds := OneFurther(table, hash, acc, sig, ds, l, w);
        }
      }
    }
  }

  lemma OneFurther(table: seq<Pattern>, hash: bv12 -> nat, acc: nat, sig: bv12, ds: seq<int>, l: Look, w: nat)
    returns (es: seq<int>)
    requires Usable(table, hash) && Deltas(ds) && l == After(table, hash, acc, sig, |ds|) && l.sig == SigAfter(sig, ds)
    requires l.depth == |ds| && forall i :: 0 <= i < |ds| ==> Follows(table, hash, acc, sig, ds, i)
    requires var p := table[hash(l.sig)]; p.cSig > 0 && Leads(p, acc, l.conf, l.depth, PT_WAY, w)
    ensures var d := table[hash(l.sig)].delta[w];
            -64 < d < 64 && es == ds + [d] && Deltas(es) && SigAfter(sig, es) == NextSig(l.sig, d)
    ensures forall i :: 0 <= i < |es| ==> Follows(table, hash, acc, sig, es, i)
  {
    var p := table[hash(l.sig)];
    var d := p.delta[w];
    es := ds + [d];
    assert es[..|ds|] == ds;
    hide NextSig, Conf, After;
    forall i | 0 <= i < |es| ensures Follows(table, hash, acc, sig, es, i) {
      if i < |ds| {
        assert es[..i] == ds[..i] && Follows(table, hash, acc, sig, ds, i);
      }
    }
  }
}
