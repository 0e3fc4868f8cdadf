/** Which blocks the signature path prefetcher asks for, and what it remembers of those outside the page. */
module SppTargets {
  import opened SppModel
  import opened SppPaths
  import opened SppTables
  import opened SppHistory

  // ---------- one round ----------

  /** A delta counts blocks: the target is the start of the block d places on, as long as the address space does not
      wrap around. */
  lemma TargetIsBlock(base: nat, d: int)
    requires 0 <= base / 64 + d < TWO64 / 64
    ensures Target(base, d) % 64 == 0 && Target(base, d) / 64 == base / 64 + d
  {
  }

  /** ks are the places of the candidates inside the page, in order, and the asks are for their blocks. */
  ghost predicate Picks(address: nat, base: nat, cs: seq<Candidate>, asks: seq<Ask>, ks: seq<nat>) {
    && |asks| == |ks|
    && (forall i :: 0 <= i < |ks| ==> ks[i] < |cs| && asks[i] == Ask(Target(base, cs[ks[i]].delta), cs[ks[i]].conf))
    && (forall i, j :: 0 <= i < j < |ks| ==> ks[i] < ks[j])
    && (forall k :: 0 <= k < |cs| ==> (k in ks <==> Target(base, cs[k].delta) / 4096 == address / 4096))
  }

  lemma PicksOneMore(address: nat, base: nat, cs: seq<Candidate>, c: Candidate, asks: seq<Ask>, ks: seq<nat>)
    requires Picks(address, base, cs, asks, ks)
    ensures var target := Target(base, c.delta);
            if target / 4096 == address / 4096
            then Picks(address, base, cs + [c], asks + [Ask(target, c.conf)], ks + [|cs|])
            else Picks(address, base, cs + [c], asks, ks)
  {
    hide Target;
    var more := ks + [|cs|];
    assert forall k :: k in more <==> k in ks || k == |cs|;
    assert forall k :: k in ks ==> k < |cs|;
  }

  /** The filter is asked about exactly the candidates inside the page, in order, each at its own block. */
  lemma {:induction false} AsksExactly(address: nat, base: nat, cs: seq<Candidate>) returns (ks: seq<nat>)
    ensures Picks(address, base, cs, Asks(address, base, cs), ks)
  {
    ks := [];
    if cs != [] {
      var n := |cs| - 1;
      ks := AsksExactly(address, base, cs[..n]);
      hide Target, Picks;
      assert cs[..n] + [cs[n]] == cs;
      PicksOneMore(address, base, cs[..n], cs[n], Asks(address, base, cs[..n]), ks);
      if SamePage(address, Target(base, cs[n].delta)) { ks := ks + [n]; }
    }
  }

  ghost predicate Partly(cs: seq<Candidate>) { forall i :: 0 <= i < |cs| ==> 0 < cs[i].conf < 100 }

  lemma {:induction false} NotedIsRegister(g: seq<History>, sig: bv12, address: nat, base: nat, cs: seq<Candidate>)
    requires Register(g) && g != [] && Partly(cs)
    ensures Register(Noted(g, sig, address, base, cs)) && |Noted(g, sig, address, base, cs)| == |g|
  {
    hide Target, Register;
    if cs != [] {
      var n := |cs| - 1;
      NotedIsRegister(g, sig, address, base, cs[..n]);
      var h, target := Noted(g, sig, address, base, cs[..n]), Target(base, cs[n].delta);
      RecordedIsRegister(h, sig, cs[n].conf, target / BLOCK_SIZE % 64, cs[n].delta);
    }
  }

  /** At the first access to the next page check_entry finds, for its block, the candidate that left the page there
      last. */
  lemma CrossingIsFound(g: seq<History>, sig: bv12, address: nat, base: nat, cs: seq<Candidate>, c: Candidate)
    requires Register(g) && g != [] && Partly(cs + [c]) && Target(base, c.delta) / 4096 != address / 4096
    ensures Found(Noted(g, sig, address, base, cs + [c]), Target(base, c.delta) / 64 % 64)
         == Remembers(sig, c.conf, c.delta)
  {
    assert Partly(cs) by { assert forall i :: 0 <= i < |cs| ==> (cs + [c])[i] == cs[i]; }
    assert (cs + [c])[|cs|] == c;
    NotedIsRegister(g, sig, address, base, cs);
    assert (cs + [c])[..|cs|] == cs;
    hide Target, Register, Found;
    var offset := Target(base, c.delta) / 64 % 64;
    RecordedIsFound(Noted(g, sig, address, base, cs), sig, c.conf, offset, c.delta, offset);
  }

  // ---------- the whole path ----------

  function Total(ds: seq<int>): int { if ds == [] then 0 else Total(ds[..|ds| - 1]) + ds[|ds| - 1] }

  lemma ModAdd(x: int, y: int)
    ensures (x % TWO64 + y) % TWO64 == (x + y) % TWO64
  {
  }

  /** The block d places on, in 64-bit arithmetic. */
  ghost function Moved(base: nat, d: int): nat { (base + d * 64) % TWO64 }

  /** One round moves signature and block by the same delta, or leaves both. */
  lemma RoundMoves(table: seq<Pattern>, hash: bv12 -> nat, acc: nat, address: nat, l: Look, t: Trail)
    returns (moves: bool, d: int)
    requires Usable(table, hash)
    ensures -64 < d < 64
    ensures var m, u := Round(table, hash, acc, l), Extended(table, hash, acc, address, l, t);
            if moves then m.sig == NextSig(l.sig, d) && u.base == Moved(t.base, d)
            else m.sig == l.sig && u.base == t.base
  {
    moves, d := false, 0;
    var p := table[hash(l.sig)];
    hide Passed, BestConf, BestWay, NextSig, Asks, Noted;
    if p.cSig > 0 {
      var way := BestWay(p, acc, l.conf, l.depth, PT_WAY);
      if way < PT_WAY { moves, d := true, p.delta[way]; }
    }
  }

  /** The deltas lead to this signature, and to this block from the one accessed, in 64-bit arithmetic. */
  ghost predicate LeadTo(sig: bv12, address: nat, ds: seq<int>, at: bv12, base: nat) {
    Deltas(ds) && at == SigAfter(sig, ds) && base == (address + Total(ds) * 64) % 0x1_0000_0000_0000_0000
  }

  lemma OneDeltaMore(sig: bv12, address: nat, ds: seq<int>, d: int, at: bv12, base: nat)
    requires LeadTo(sig, address, ds, at, base) && -64 < d < 64
    ensures LeadTo(sig, address, ds + [d], NextSig(at, d), Moved(base, d))
  {
    assert (ds + [d])[..|ds|] == ds;
    hide NextSig;
    ModAdd(address + Total(ds) * 64, d * 64);
  }

  lemma NoDeltas(sig: bv12, address: nat)
    requires address < TWO64
    ensures LeadTo(sig, address, [], sig, address)
  {
  }

  /** Round n + 1. */
  lemma OneRoundMore(table: seq<Pattern>, hash: bv12 -> nat, acc: nat, sig: bv12, address: nat, g: seq<History>, n: nat)
    requires Usable(table, hash)
    ensures var l, t := After(table, hash, acc, sig, n), TrailAfter(table, hash, acc, sig, address, g, n);
            var m, u := After(table, hash, acc, sig, n + 1), TrailAfter(table, hash, acc, sig, address, g, n + 1);
            if l.more then m == Round(table, hash, acc, l) && u == Extended(table, hash, acc, address, l, t)
            else m == l && u == t
  {
    hide Round, Extended;
  }

  /** After any number of rounds there are deltas that lead from the accessed block and its signature to where the loop
      stands. */
  lemma {:induction false} BaseFollowsPath(table: seq<Pattern>, hash: bv12 -> nat, acc: nat, sig: bv12, address: nat,
                                           g: seq<History>, n: nat) returns (ds: seq<int>)
    requires Usable(table, hash) && address < TWO64
    ensures var l, t := After(table, hash, acc, sig, n), TrailAfter(table, hash, acc, sig, address, g, n);
            |ds| <= n && LeadTo(sig, address, ds, l.sig, t.base)
  {
    ds := [];
    if n == 0 {
      NoDeltas(sig, address);
    } else {
      ds := BaseFollowsPath(table, hash, acc, sig, address, g, n - 1);
      ds := OneRoundFurther(table, hash, acc, sig, address, g, n - 1, ds);
    }
  }

  lemma OneRoundFurther(table: seq<Pattern>, hash: bv12 -> nat, acc: nat, sig: bv12, address: nat, g: seq<History>,
                        n: nat, ds: seq<int>) returns (es: seq<int>)
    requires Usable(table, hash)
    requires LeadTo(sig, address, ds, After(table, hash, acc, sig, n).sig,
                    TrailAfter(table, hash, acc, sig, address, g, n).base)
    ensures |es| <= |ds| + 1
    ensures LeadTo(sig, address, es, After(table, hash, acc, sig, n + 1).sig,
                   TrailAfter(table, hash, acc, sig, address, g, n + 1).base)
  {
    es := ds;
    OneRoundMore(table, hash, acc, sig, address, g, n);
    var l, t := After(table, hash, acc, sig, n), TrailAfter(table, hash, acc, sig, address, g, n);
    hide Round, Extended, NextSig, Usable, After, TrailAfter, LeadTo, Moved;
    if l.more {
      var moves, d := RoundMoves(table, hash, acc, address, l, t);
      OneDeltaMore(sig, address, ds, d, l.sig, t.base);
      if moves { es := ds + [d]; }
    }
  }
}
