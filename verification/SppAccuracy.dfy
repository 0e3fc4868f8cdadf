/** The prefetch filter and the two counters behind the global accuracy. */
module SppAccuracy {
  import opened SppLookahead

  const FILTER_SET: nat := 1024
  const GLOBAL_COUNTER_MAX: nat := 1023

  type Quotient = q: nat | q < FILTER_SET

  /** Where a line hashes to. */
  datatype Key = Key(quotient: Quotient, remainder: nat)

  datatype Slot = Slot(valid: bool, useful: bool, tag: nat)

  datatype Filter = Filter(slot: seq<Slot>, issued: nat, useful: nat)

  predicate Shaped(f: Filter) { |f.slot| == FILTER_SET }

  function Initial(): (f: Filter)
    ensures Shaped(f)
  {
    Filter(seq(FILTER_SET, _ => Slot(false, false, 0)), 0, 0)
  }

  /** The filter lets the prefetch pass: its line is not already there. */
  predicate Passes(f: Filter, k: Key)
    requires Shaped(f)
  {
    var s := f.slot[k.quotient];
    !((s.valid || s.useful) && s.tag == k.remainder)
  }

  /** A confident prefetch; past their maximum the counters are halved together. */
  function Prefetch(f: Filter, k: Key): (r: Filter)
    requires Shaped(f)
    ensures Shaped(r)
  {
    if !Passes(f, k) then f else
    var slot := f.slot[k.quotient := Slot(true, false, k.remainder)];
    if f.issued + 1 > GLOBAL_COUNTER_MAX then Filter(slot, (f.issued + 1) / 2, f.useful / 2)
    else Filter(slot, f.issued + 1, f.useful)
  }

  /** A demand access counts the first use of a prefetched line. */
  function Demand(f: Filter, k: Key): (r: Filter)
    requires Shaped(f)
    ensures Shaped(r)
  {
    var s := f.slot[k.quotient];
    if s.tag == k.remainder && !s.useful then
      Filter(f.slot[k.quotient := s.(useful := true)], f.issued, f.useful + (if s.valid then 1 else 0))
    else f
  }

  function Evict(f: Filter, q: Quotient): (r: Filter)
    requires Shaped(f)
    ensures Shaped(r)
  {
    var s := f.slot[q];
    Filter(f.slot[q := Slot(false, false, 0)], f.issued,
           if s.valid && !s.useful && f.useful > 0 then f.useful - 1 else f.useful)
  }

  function Accuracy(f: Filter): nat { if f.issued == 0 then 0 else 100 * f.useful / f.issued }

  // ---------- runs ----------

  datatype Access = Demands(key: Key) | Prefetches(key: Key) | Evicts(quotient: Quotient)

  function Step(f: Filter, a: Access): (r: Filter)
    requires Shaped(f)
    ensures Shaped(r)
  {
    match a
    case Demands(k) => Demand(f, k)
    case Prefetches(k) => Prefetch(f, k)
    case Evicts(q) => Evict(f, q)
  }

  function Run(accesses: seq<Access>): (r: Filter)
    ensures Shaped(r)
  {
    if accesses == [] then Initial() else Step(Run(accesses[..|accesses| - 1]), accesses[|accesses| - 1])
  }

  /** How many prefetches passed. */
  function Passed(accesses: seq<Access>): nat {
    if accesses == [] then 0 else
    var before, a := accesses[..|accesses| - 1], accesses[|accesses| - 1];
    Passed(before) + (if a.Prefetches? && Passes(Run(before), a.key) then 1 else 0)
  }

  /** What the cache calls: operate checks the demanded line first and then each confident prefetch of the
      lookahead, cache_fill reports the evicted line. */
  datatype Call = Operates(demand: Key, prefetches: seq<Key>) | Fills(evicted: Quotient)

  function AccessesOf(call: Call): seq<Access> {
    match call
    case Operates(d, ks) => [Demands(d)] + seq(|ks|, i requires 0 <= i < |ks| => Prefetches(ks[i]))
    case Fills(q) => [Evicts(q)]
  }

  function Accesses(calls: seq<Call>): seq<Access> {
    if calls == [] then [] else Accesses(calls[..|calls| - 1]) + AccessesOf(calls[|calls| - 1])
  }

  // ---------- without halving ----------

  /** Slots prefetched and not yet used. */
  function Unused(slot: seq<Slot>): nat {
    if slot == [] then 0 else
    var n := |slot| - 1;
    Unused(slot[..n]) + (if slot[n].valid && !slot[n].useful then 1 else 0)
  }

  lemma {:induction false} UnusedUpdate(slot: seq<Slot>, q: nat, s: Slot)
    requires q < |slot|
    ensures Unused(slot[q := s]) + (if slot[q].valid && !slot[q].useful then 1 else 0)
         == Unused(slot) + (if s.valid && !s.useful then 1 else 0)
  {
    var n := |slot| - 1;
    if q < n {
      UnusedUpdate(slot[..n], q, s);
      assert slot[q := s][..n] == slot[..n][q := s];
    } else {
      assert slot[q := s][..n] == slot[..n];
    }
  }

  lemma {:induction false} NoneUnused(n: nat)
    ensures Unused(seq(n, _ => Slot(false, false, 0))) == 0
  {
    if n > 0 {
      NoneUnused(n - 1);
      assert seq(n, _ => Slot(false, false, 0))[..n - 1] == seq(n - 1, _ => Slot(false, false, 0));
    }
  }

  /** Until the counters are halved, every used prefetch and every one still waiting for its use was issued. */
  lemma {:induction false} UsedWereIssued(accesses: seq<Access>)
    requires Passed(accesses) <= GLOBAL_COUNTER_MAX
    ensures var f := Run(accesses); f.useful + Unused(f.slot) <= f.issued <= Passed(accesses)
  {
    if accesses == [] {
      NoneUnused(FILTER_SET);
    } else {
      var before, a := accesses[..|accesses| - 1], accesses[|accesses| - 1];
      UsedWereIssued(before);
      var f := Run(before);
      var q := if a.Evicts? then a.quotient else a.key.quotient;
      UnusedUpdate(f.slot, q, Step(f, a).slot[q]);
      hide Unused, Run;
      assert Step(f, a).slot == f.slot || Step(f, a).slot == f.slot[q := Step(f, a).slot[q]];
    }
  }

  /** At most k prefetches pass, and still the accuracy is a percentage. */
  ghost predicate BoundHolds(k: nat) {
    forall calls :: Passed(Accesses(calls)) <= k ==> Accuracy(Run(Accesses(calls))) <= 100
  }

  // ---------- with halving ----------

  function Next(q: nat): Quotient { if q + 1 < FILTER_SET then q + 1 else 0 }

  /** n rounds: an access to a line the filter does not know prefetches one new line, whose fill evicts a line
      that hashes to the next slot. */
  function Rounds(n: nat): seq<Call>
    requires n <= FILTER_SET
  {
    if n == 0 then [] else
    Rounds(n - 1) + [Operates(Key(0, 2), [Key(n - 1, 1)]), Fills(Next(n - 1))]
  }

  /** Then demand accesses to the prefetched lines 1 to m. */
  function Uses(n: nat, m: nat): seq<Call>
    requires n <= FILTER_SET && m < FILTER_SET
  {
    if m == 0 then Rounds(n) else Uses(n, m - 1) + [Operates(Key(m, 1), [])]
  }

  /** The filter after n rounds, and after m uses. */
  ghost predicate Filled(f: Filter, n: nat) {
    && Shaped(f) && f.useful == 0 && f.issued == (if n < FILTER_SET then n else 512)
    && forall q :: 0 <= q < FILTER_SET ==>
         f.slot[q] == if q < n && (n < FILTER_SET || q > 0) then Slot(true, false, 1) else Slot(false, false, 0)
  }

  ghost predicate Used(f: Filter, m: nat) {
    && Shaped(f) && f.useful == m && f.issued == 512
    && forall q :: 0 < q < FILTER_SET ==> f.slot[q] == Slot(true, q <= m, 1)
  }

  lemma FillOne(f: Filter, n: nat)
    requires n < FILTER_SET && Filled(f, n)
    ensures Demand(f, Key(0, 2)) == f && Passes(f, Key(n, 1))
    ensures Filled(Evict(Prefetch(f, Key(n, 1)), Next(n)), n + 1)
  {
    assert f.slot[n] == Slot(false, false, 0);
    var g := Prefetch(f, Key(n, 1));
    assert g.slot == f.slot[n := Slot(true, false, 1)];
    assert f.slot[0].tag < 2;
    if n + 1 < FILTER_SET { assert g.slot[n + 1] == Slot(false, false, 0); }
  }

  lemma UseOne(f: Filter, m: nat)
    requires m + 1 < FILTER_SET && Used(f, m)
    ensures Used(Demand(f, Key(m + 1, 1)), m + 1)
  {
    assert f.slot[m + 1] == Slot(true, false, 1);
  }

  lemma RunAppend(before: seq<Access>, a: Access)
    ensures Run(before + [a]) == Step(Run(before), a)
    ensures Passed(before + [a]) == Passed(before) + (if a.Prefetches? && Passes(Run(before), a.key) then 1 else 0)
  {
    assert (before + [a])[..|before|] == before;
  }

  lemma AccessesAppend(calls: seq<Call>, c: Call)
    ensures Accesses(calls + [c]) == Accesses(calls) + AccessesOf(c)
  {
    assert (calls + [c])[..|calls|] == calls;
  }

  lemma RoundAccesses(calls: seq<Call>, d: Key, k: Key, q: Quotient)
    ensures Accesses(calls + [Operates(d, [k]), Fills(q)])
         == Accesses(calls) + [Demands(d)] + [Prefetches(k)] + [Evicts(q)]
  {
    hide Accesses;
    var a := Accesses(calls);
    AccessesAppend(calls, Operates(d, [k]));
    AccessesAppend(calls + [Operates(d, [k])], Fills(q));
    assert calls + [Operates(d, [k])] + [Fills(q)] == calls + [Operates(d, [k]), Fills(q)];
    assert AccessesOf(Operates(d, [k])) == [Demands(d), Prefetches(k)];
    hide AccessesOf;
    assert a + [Demands(d), Prefetches(k)] == a + [Demands(d)] + [Prefetches(k)];
  }

  lemma OneRound(calls: seq<Call>, d: Key, k: Key, q: Quotient)
    ensures var a := Accesses(calls);
            var b := Accesses(calls + [Operates(d, [k]), Fills(q)]);
            var f := Demand(Run(a), d);
            && Run(b) == Evict(Prefetch(f, k), q) && Passed(b) == Passed(a) + (if Passes(f, k) then 1 else 0)
  {
    hide Run, Passed, Accesses, Demand, Prefetch, Evict, Passes;
    var a := Accesses(calls);
    RoundAccesses(calls, d, k, q);
    hide AccessesOf;
    RunAppend(a, Demands(d));
    RunAppend(a + [Demands(d)], Prefetches(k));
    RunAppend(a + [Demands(d)] + [Prefetches(k)], Evicts(q));
  }

  lemma NothingFilled()
    ensures Filled(Run(Accesses([])), 0) && Passed(Accesses([])) == 0
  {
  }

  lemma {:induction false} AfterRounds(n: nat)
    requires n <= FILTER_SET
    ensures Filled(Run(Accesses(Rounds(n))), n) && Passed(Accesses(Rounds(n))) == n
  {
    hide Run, Passed, Accesses, Filled, Prefetch, Demand, Evict, Passes;
    if n == 0 {
      NothingFilled();
    } else {
      AfterRounds(n - 1);
      FillOne(Run(Accesses(Rounds(n - 1))), n - 1);
      OneRound(Rounds(n - 1), Key(0, 2), Key(n - 1, 1), Next(n - 1));
    }
  }

  lemma {:induction false} AfterUses(n: nat, m: nat)
    requires n == FILTER_SET && m < FILTER_SET
    ensures Used(Run(Accesses(Uses(n, m))), m) && Passed(Accesses(Uses(n, m))) == FILTER_SET
  {
    hide Run, Passed, Accesses, Demand, Step, Rounds, Filled;
    AfterRounds(n);
    if m == 0 {
      FilledIsUnused(Run(Accesses(Rounds(n))), n);
    } else {
      AfterUses(n, m - 1);
      var c := Operates(Key(m, 1), []);
      AccessesAppend(Uses(n, m - 1), c);
      assert AccessesOf(c) == [Demands(Key(m, 1))];
      hide AccessesOf, Used;
      UseOne(Run(Accesses(Uses(n, m - 1))), m - 1);
      OneUse(Accesses(Uses(n, m - 1)), Key(m, 1));
    }
  }

  lemma FilledIsUnused(f: Filter, n: nat)
    requires Filled(f, n) && n == FILTER_SET
    ensures Used(f, 0)
  {
  }

  lemma OneUse(before: seq<Access>, k: Key)
    ensures Run(before + [Demands(k)]) == Demand(Run(before), k) && Passed(before + [Demands(k)]) == Passed(before)
  {
    RunAppend(before, Demands(k));
  }

  /** The accuracy stays a percentage exactly as long as the counters have not been halved: halving forgets
      prefetches that wait for their use but counts the use. */
  lemma BoundHoldsExactly(k: nat)
    ensures BoundHolds(k) <==> k <= GLOBAL_COUNTER_MAX
  {
    if k <= GLOBAL_COUNTER_MAX {
      forall calls | Passed(Accesses(calls)) <= k ensures Accuracy(Run(Accesses(calls))) <= 100 {
        UsedWereIssued(Accesses(calls));
        AtMostAll(Run(Accesses(calls)));
      }
    } else {
      var calls := AccuracyOutrunsTheQueues();
    }
  }

  lemma AtMostAll(f: Filter)
    requires f.useful <= f.issued
    ensures Accuracy(f) <= 100
  {
  }

  /** Calls that take the accuracy past the limit the queues allow, for every hash of signatures. */
  lemma AccuracyOutrunsTheQueues() returns (calls: seq<Call>)
    ensures Accuracy(Run(Accesses(calls))) == 104 && Passed(Accesses(calls)) == FILTER_SET
    ensures forall hash, sets :: InTable(hash, sets) ==> !AlwaysFits(hash, sets, Accuracy(Run(Accesses(calls))))
  {
    hide Run, Passed, Accesses, Uses;
    var n, m := FILTER_SET, 533;
    AfterUses(n, m);
    calls := Uses(n, m);
    forall hash, sets | InTable(hash, sets)
      ensures !AlwaysFits(hash, sets, 104)
    {
      QueueSufficesExactly(hash, sets, 104);
    }
  }
}
