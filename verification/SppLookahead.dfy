/** When the lookahead of the signature path prefetcher ends inside its 32-place queues. */
module SppLookahead {
  import opened SppModel

  // ---------- one round ----------

  lemma {:induction false} BestAmongPassed(p: Pattern, acc: nat, conf: nat, depth: nat, n: nat)
    requires Shaped(p) && n <= PT_WAY && p.cSig > 0
    ensures var found, best := Passed(p, acc, conf, depth, n), BestConf(p, acc, conf, depth, n);
            var way := BestWay(p, acc, conf, depth, n);
            if found == [] then best == 0 && way == PT_WAY
            else way < n && best == Conf(p, way, acc, conf, depth) >= PF_THRESHOLD
                 && best + PF_THRESHOLD * (|found| - 1) <= Total(found)
  {
    hide Conf, Total;
    if n > 0 {
      BestAmongPassed(p, acc, conf, depth, n - 1);
      TotalAppend(Passed(p, acc, conf, depth, n - 1), Candidate(Conf(p, n - 1, acc, conf, depth), p.delta[n - 1]));
    }
  }

  /** Below the first level the candidates together keep the shares' part of the path confidence. */
  lemma {:induction false} TotalIsLimited(p: Pattern, acc: nat, conf: nat, depth: nat, n: nat)
    requires Shaped(p) && n <= PT_WAY && p.cSig > 0
    ensures Total(Passed(p, acc, conf, depth, n))
         <= if depth > 0 then Shares(p, acc, n) * conf / 100 else Shares(p, 100, n)
  {
    if n == 0 {
      DivFacts(0, 100);
    } else {
      TotalIsLimited(p, acc, conf, depth, n - 1);
      var f := Conf(p, n - 1, acc, conf, depth);
      var before := Passed(p, acc, conf, depth, n - 1);
      TotalAppend(before, Candidate(f, p.delta[n - 1]));
      assert Total(Passed(p, acc, conf, depth, n)) <= Total(before) + f by { hide Conf; }
      Discounted(Shares(p, acc, n - 1), Share(p, n - 1, acc), conf);
      hide Conf, Total, Share, Passed;
    }
  }

  lemma Discounted(x: nat, y: nat, conf: nat)
    ensures x * conf / 100 + y * conf / 100 <= (x + y) * conf / 100
  {
    DivAdd(x * conf, y * conf, 100);
    Distribute(conf, x, y);
  }

  lemma TotalAppend(cs: seq<Candidate>, c: Candidate)
    ensures Total(cs + [c]) == Total(cs) + c.conf
  {
    assert (cs + [c])[..|cs|] == cs;
  }

  lemma RoundIsLimited(p: Pattern, acc: nat, conf: nat, depth: nat)
    requires Trained(p) && p.cSig > 0 && acc <= 107
    ensures Total(Passed(p, acc, conf, depth, PT_WAY))
         <= if depth == 0 then 93 else if acc <= 103 then 96 * conf / 100 else 99 * conf / 100
  {
    TotalIsLimited(p, acc, conf, depth, PT_WAY);
    SharesAreLimited(p, acc);
    SharesAreLimited(p, 100);
    hide Shares, Passed, Total;
    if depth > 0 {
      var x := Shares(p, acc, PT_WAY);
      var kept := if acc <= 103 then 96 else 99;
      MulMono(conf, x, kept);
      DivMono(x * conf, kept * conf, 100);
    }
  }

  // ---------- how many rounds are left ----------

  /** The candidates that can still follow at this path confidence, one a round. */
  function Room(conf: nat): nat {
    if 96 * conf / 100 < PF_THRESHOLD then 0 else 1 + Room(96 * conf / 100)
  }

  lemma {:induction false} RoomGrows(a: nat, b: nat)
    requires a <= b
    ensures Room(a) <= Room(b)
  {
    if 96 * a / 100 >= PF_THRESHOLD { RoomGrows(96 * a / 100, 96 * b / 100); }
  }

  /** Splitting a round over several candidates costs more confidence than it gains places. */
  lemma {:induction false} RoomBuysPlaces(a: nat, k: nat)
    requires PF_THRESHOLD <= a && a + PF_THRESHOLD * k <= 100
    ensures Room(a + PF_THRESHOLD * k) >= k + Room(a)
  {
    if k > 0 {
      hide Room;
      RoomBuysPlaces(a, k - 1);
      var b := a + PF_THRESHOLD * (k - 1);
      assert a + PF_THRESHOLD * k == b + PF_THRESHOLD;
      RoomAbove(b);
    }
  }

  lemma RoomAbove(b: nat)
    requires PF_THRESHOLD <= b && b + PF_THRESHOLD <= 100
    ensures Room(b + PF_THRESHOLD) >= 1 + Room(b)
  {
    RoomGrows(b, 96 * (b + PF_THRESHOLD) / 100);
  }

  lemma RoomHalfWay()
    ensures Room(52) == 13
  {
    RoomIsOver(25);
    hide Room;
    RoomAfter(52, 49);
    RoomAfter(49, 47);
    RoomAfter(47, 45);
    RoomAfter(45, 43);
    RoomAfter(43, 41);
    RoomAfter(41, 39);
    RoomAfter(39, 37);
    RoomAfter(37, 35);
    RoomAfter(35, 33);
    RoomAfter(33, 31);
    RoomAfter(31, 29);
    RoomAfter(29, 27);
    RoomAfter(27, 25);
  }

  lemma RoomAtTheTop()
    ensures Room(93) == 25
  {
    RoomHalfWay();
    hide Room;
    RoomAfter(93, 89);
    RoomAfter(89, 85);
    RoomAfter(85, 81);
    RoomAfter(81, 77);
    RoomAfter(77, 73);
    RoomAfter(73, 70);
    RoomAfter(70, 67);
    RoomAfter(67, 64);
    RoomAfter(64, 61);
    RoomAfter(61, 58);
    RoomAfter(58, 55);
    RoomAfter(55, 52);
  }

  lemma RoomIsOver(conf: nat)
    requires 96 * conf / 100 < PF_THRESHOLD
    ensures Room(conf) == 0
  {
  }

  lemma RoomAfter(conf: nat, next: nat)
    requires 96 * conf / 100 == next >= PF_THRESHOLD
    ensures Room(conf) == 1 + Room(next)
  {
  }

  // ---------- the whole loop ----------

  /** A round spends path confidence on the places it takes. */
  lemma RoundSpends(p: Pattern, acc: nat, conf: nat, depth: nat)
    requires Trained(p) && p.cSig > 0 && acc <= 103 && conf <= 100 && (depth == 0 ==> conf == 100)
    ensures var found, best := Passed(p, acc, conf, depth, PT_WAY), BestConf(p, acc, conf, depth, PT_WAY);
            found != [] ==> best < conf && |found| + Room(best) <= (if depth > 0 then Room(conf) else 26)
  {
    assert Shaped(p);
    hide Passed, BestConf, BestWay, Conf, Total, Room, Trained;
    RoundIsLimited(p, acc, conf, depth);
    BestAmongPassed(p, acc, conf, depth, PT_WAY);
    var found, best := Passed(p, acc, conf, depth, PT_WAY), BestConf(p, acc, conf, depth, PT_WAY);
    if found != [] {
      var kept := if depth > 0 then 96 * conf / 100 else 93;
      Spend(|found|, best, kept);
      RoomAtTheTop();
      if depth > 0 { RoomAfter(conf, kept); }
    }
  }

  lemma Spend(places: nat, best: nat, kept: nat)
    requires places > 0 && best >= PF_THRESHOLD && best + PF_THRESHOLD * (places - 1) <= kept <= 100
    ensures places + Room(best) <= 1 + Room(kept)
  {
    hide Room;
    RoomBuysPlaces(best, places - 1);
    RoomGrows(best + PF_THRESHOLD * (places - 1), kept);
  }

  /** After n rounds: at least one place a round is taken, and places taken plus places to come stay within 26. */
  lemma {:induction false} PlacesAreLimited(table: seq<Pattern>, hash: bv12 -> nat, acc: nat, sig: bv12, n: nat)
    requires Usable(table, hash) && acc <= 103
    ensures var l := After(table, hash, acc, sig, n);
            && |l.queue| <= 26 && (l.more ==> n <= |l.queue|)
            && (l.more ==> l.conf <= 100 && (l.depth == 0 <==> n == 0))
            && (l.more && n == 0 ==> l == Start(sig))
            && (l.more && n > 0 ==> |l.queue| + Room(l.conf) <= 26)
            && (forall i :: 0 <= i < |l.queue| ==> l.queue[i].conf < 100)
  {
    if n > 0 {
      PlacesAreLimited(table, hash, acc, sig, n - 1);
      var l := After(table, hash, acc, sig, n - 1);
      var p := table[hash(l.sig)];
      if l.more && p.cSig > 0 {
        RoundSpends(p, acc, l.conf, l.depth);
        BestAmongPassed(p, acc, l.conf, l.depth, PT_WAY);
        PassedBelow(p, acc, l.conf, l.depth, PT_WAY);
        hide Passed, BestConf, BestWay, Room, Conf, Usable, NextSig;
      }
    }
  }

  ghost predicate Between(cs: seq<Candidate>, hi: nat) {
    forall i :: 0 <= i < |cs| ==> PF_THRESHOLD <= cs[i].conf <= hi
  }

  lemma BetweenAppend(cs: seq<Candidate>, hi: nat, ds: seq<Candidate>, top: nat)
    requires Between(cs, hi) && Between(ds, top) && hi <= top
    ensures Between(cs + ds, top)
  {
  }

  /** No candidate is more confident than the best. */
  lemma {:induction false} PassedBelow(p: Pattern, acc: nat, conf: nat, depth: nat, n: nat)
    requires Shaped(p) && n <= PT_WAY && p.cSig > 0
    ensures Between(Passed(p, acc, conf, depth, n), BestConf(p, acc, conf, depth, n))
  {
    hide Conf, Between;
    if n == 0 {
      NoneBetween(0);
    } else {
      PassedBelow(p, acc, conf, depth, n - 1);
      var before, hi := Passed(p, acc, conf, depth, n - 1), BestConf(p, acc, conf, depth, n - 1);
      var f, top := Conf(p, n - 1, acc, conf, depth), BestConf(p, acc, conf, depth, n);
      NoneBetween(top);
      BetweenAppend(before, hi, [], top);
      assert before + [] == before;
      if f >= PF_THRESHOLD {
        BetweenAppend(before, hi, [Candidate(f, p.delta[n - 1])], top);
      }
    }
  }

  lemma NoneBetween(hi: nat)
    ensures Between([], hi)
  {
  }

  // ---------- above the limit ----------

  /** The set after one miss and fourteen hits of delta 1. */
  const HOT := Pattern([1, 0, 0, 0], [14, 0, 0, 0], 15)

  function Updates(p: Pattern, d: int, n: nat): (r: Pattern)
    requires Shaped(p)
    ensures Shaped(r)
  {
    if n == 0 then p else Update(Updates(p, d, n - 1), d)
  }

  lemma {:induction false} HotIsReachable(n: nat)
    requires 1 <= n <= 15
    ensures Updates(UNUSED, 1, n) == Pattern([1, 0, 0, 0], [n - 1, 0, 0, 0], n)
  {
    hide Update;
    if n == 1 {
      HotStarts();
      assert Updates(UNUSED, 1, 0) == UNUSED;
    } else {
      HotIsReachable(n - 1);
      HotGrows(n - 1);
    }
  }

  lemma HotStarts()
    ensures Update(UNUSED, 1) == Pattern([1, 0, 0, 0], [0, 0, 0, 0], 1)
  {
    assert Match(UNUSED.delta, 1) == 4;
    LeastIsLeast(UNUSED.cDelta, PT_WAY);
    hide Match, Least;
    assert [0, 0, 0, 0][0 := 1] == [1, 0, 0, 0];
    assert [0, 0, 0, 0][0 := 0] == [0, 0, 0, 0];
  }

  lemma HotGrows(n: nat)
    requires 1 <= n <= 14
    ensures Update(Pattern([1, 0, 0, 0], [n - 1, 0, 0, 0], n), 1) == Pattern([1, 0, 0, 0], [n, 0, 0, 0], n + 1)
  {
    hide Match, Least;
    MatchFirst([1, 0, 0, 0]);
    assert [n - 1, 0, 0, 0][0 := n] == [n, 0, 0, 0];
  }

  lemma MatchFirst(delta: seq<int>)
    requires delta != []
    ensures Match(delta, delta[0]) == 0
  {
  }

  lemma HotIsTrained()
    ensures Trained(HOT) && InPage(HOT)
  {
    SumUpdate([0, 0, 0, 0], 0, 14);
    assert [0, 0, 0, 0][0 := 14] == [14, 0, 0, 0];
    assert Sum([0]) == 0 by { assert [0][..0] == []; }
    assert Sum([0, 0]) == 0 by { assert [0, 0][..1] == [0]; }
    assert Sum([0, 0, 0]) == 0 by { assert [0, 0, 0][..2] == [0, 0]; }
    assert Sum([0, 0, 0, 0]) == 0 by { assert [0, 0, 0, 0][..3] == [0, 0, 0]; }
  }

  /** The confidence that at least remains after n rounds when 97 percent is kept. */
  function Kept(n: nat): nat { if n == 0 then 100 else if n == 1 then 93 else 97 * Kept(n - 1) / 100 }

  lemma KeptFor33()
    ensures Kept(33) >= PF_THRESHOLD
  {
    assert Kept(1) == 93;
    hide Kept;
    KeptAfter(2, 93, 90);
    KeptAfter(3, 90, 87);
    KeptAfter(4, 87, 84);
    KeptAfter(5, 84, 81);
    KeptAfter(6, 81, 78);
    KeptAfter(7, 78, 75);
    KeptAfter(8, 75, 72);
    KeptAfter(9, 72, 69);
    KeptAfter(10, 69, 66);
    KeptAfter(11, 66, 64);
    KeptAfter(12, 64, 62);
    KeptAfter(13, 62, 60);
    KeptAfter(14, 60, 58);
    KeptAfter(15, 58, 56);
    KeptAfter(16, 56, 54);
    KeptAfter(17, 54, 52);
    KeptAfter(18, 52, 50);
    KeptAfter(19, 50, 48);
    KeptAfter(20, 48, 46);
    KeptAfter(21, 46, 44);
    KeptAfter(22, 44, 42);
    KeptAfter(23, 42, 40);
    KeptAfter(24, 40, 38);
    KeptAfter(25, 38, 36);
    KeptAfter(26, 36, 34);
    KeptAfter(27, 34, 32);
    KeptAfter(28, 32, 31);
    KeptAfter(29, 31, 30);
    KeptAfter(30, 30, 29);
    KeptAfter(31, 29, 28);
    KeptAfter(32, 28, 27);
    KeptAfter(33, 27, 26);
  }

  lemma KeptAfter(n: nat, before: nat, now: nat)
    requires n > 1 && Kept(n - 1) == before && 97 * before / 100 == now
    ensures Kept(n) == now
  {
  }

  lemma {:induction false} KeptFalls(n: nat, m: nat)
    requires n <= m
    ensures Kept(n) >= Kept(m)
  {
    if n < m { KeptFalls(n, m - 1); }
  }

  /** The signature of a path of deltas 1: it leads to itself. */
  const STEADY: bv12 := 0x249

  lemma SteadyStays()
    ensures NextSig(STEADY, 1) == STEADY
  {
  }

  ghost predicate InTable(hash: bv12 -> nat, sets: nat) { forall sig: bv12 :: hash(sig) < sets }

  /** A table with this one set trained, where the hash looks for the signature. */
  function OneHot(at: nat, sets: nat): seq<Pattern> { seq(sets, i => if i == at then HOT else UNUSED) }

  lemma OneHotIsUsable(hash: bv12 -> nat, sets: nat)
    requires InTable(hash, sets)
    ensures Usable(OneHot(hash(STEADY), sets), hash) && OneHot(hash(STEADY), sets)[hash(STEADY)] == HOT
  {
    HotIsTrained();
    UnusedIsTrained();
  }

  lemma UnusedIsTrained()
    ensures Trained(UNUSED) && InPage(UNUSED)
  {
    assert Sum([0]) == 0 by { assert [0][..0] == []; }
    assert Sum([0, 0]) == 0 by { assert [0, 0][..1] == [0]; }
    assert Sum([0, 0, 0]) == 0 by { assert [0, 0, 0][..2] == [0, 0]; }
    assert Sum([0, 0, 0, 0]) == 0 by { assert [0, 0, 0, 0][..3] == [0, 0, 0]; }
  }

  /** With accuracy 104 or more this set finds one more candidate in each of the first 33 rounds. */
  lemma {:induction false} HotKeepsGoing(hash: bv12 -> nat, sets: nat, acc: nat, n: nat)
    requires InTable(hash, sets) && acc >= 104 && n <= 33
    ensures var table := OneHot(hash(STEADY), sets);
            && Usable(table, hash)
            && var l := After(table, hash, acc, STEADY, n);
               l.more && |l.queue| == n && l.conf >= Kept(n) && (l.depth == 0 <==> n == 0) && l.sig == STEADY
  {
    OneHotIsUsable(hash, sets);
    hide Usable, OneHot, Trained, Kept, Passed, BestConf, BestWay, NextSig;
    if n == 0 {
      assert Kept(0) == 100 by { KeptAtFirst(); }
    } else {
      HotKeepsGoing(hash, sets, acc, n - 1);
      KeptFor33();
      KeptFalls(n, 33);
      SteadyStays();
      var l := After(OneHot(hash(STEADY), sets), hash, acc, STEADY, n - 1);
      HotRound(acc, l.conf, l.depth, n);
    }
  }

  lemma KeptAtFirst()
    ensures Kept(0) == 100
  {
  }

  lemma HotRound(acc: nat, conf: nat, depth: nat, n: nat)
    requires acc >= 104 && 0 < n <= 33 && conf >= Kept(n - 1) && (depth == 0 <==> n == 1) && Kept(n) >= PF_THRESHOLD
    ensures |Passed(HOT, acc, conf, depth, PT_WAY)| == 1
    ensures BestConf(HOT, acc, conf, depth, PT_WAY) >= Kept(n) && BestWay(HOT, acc, conf, depth, PT_WAY) == 0
  {
    hide Kept, Conf;
    HotConf(acc, conf, depth, n);
    OnlyHot(acc, conf, depth);
  }

  /** The other ways of this set never pass. */
  lemma OnlyHot(acc: nat, conf: nat, depth: nat)
    requires Conf(HOT, 0, acc, conf, depth) >= PF_THRESHOLD
    ensures |Passed(HOT, acc, conf, depth, PT_WAY)| == 1 && BestWay(HOT, acc, conf, depth, PT_WAY) == 0
    ensures BestConf(HOT, acc, conf, depth, PT_WAY) == Conf(HOT, 0, acc, conf, depth)
  {
    var f := Conf(HOT, 0, acc, conf, depth);
    hide Conf, Passed, BestConf, BestWay;
    NothingFound(HOT, acc, conf, depth, 2);
    NothingFound(HOT, acc, conf, depth, 3);
    NothingFound(HOT, acc, conf, depth, 4);
  }

  lemma NothingFound(p: Pattern, acc: nat, conf: nat, depth: nat, n: nat)
    requires Shaped(p) && 0 < n <= PT_WAY && p.cSig > 0 && Conf(p, n - 1, acc, conf, depth) == 0
    ensures Passed(p, acc, conf, depth, n) == Passed(p, acc, conf, depth, n - 1)
    ensures BestConf(p, acc, conf, depth, n) == BestConf(p, acc, conf, depth, n - 1)
    ensures BestWay(p, acc, conf, depth, n) == BestWay(p, acc, conf, depth, n - 1)
  {
    hide Conf;
  }

  lemma HotConf(acc: nat, conf: nat, depth: nat, n: nat)
    requires acc >= 104 && 0 < n && conf >= Kept(n - 1) && (depth == 0 <==> n == 1)
    ensures Conf(HOT, 0, acc, conf, depth) >= Kept(n)
  {
    if depth > 0 {
      var share := acc * 14 / 15;
      assert share >= 97;
      MulMono(conf, 97, share);
      MulMono(97, Kept(n - 1), conf);
      DivMono(97 * Kept(n - 1), share * conf, 100);
    }
  }

  // ---------- the exact limit ----------

  /** Whatever a trained table of this size holds, no round overruns the queues. */
  ghost predicate AlwaysFits(hash: bv12 -> nat, sets: nat, acc: nat) {
    forall table, sig, n :: |table| == sets && Usable(table, hash) ==>
      |After(table, hash, acc, sig, n).queue| <= QUEUE_SIZE
  }

  /** For every hash and table size: the 32 places suffice exactly up to a global accuracy of 103 percent; the
      code does not keep it there. */
  lemma QueueSufficesExactly(hash: bv12 -> nat, sets: nat, acc: nat)
    requires InTable(hash, sets)
    ensures AlwaysFits(hash, sets, acc) <==> acc <= 103
  {
    if acc <= 103 {
      forall table, sig, n | |table| == sets && Usable(table, hash)
        ensures |After(table, hash, acc, sig, n).queue| <= QUEUE_SIZE
      {
        PlacesAreLimited(table, hash, acc, sig, n);
      }
    } else {
      HotKeepsGoing(hash, sets, acc, 33);
      assert |After(OneHot(hash(STEADY), sets), hash, acc, STEADY, 33).queue| == 33;
    }
  }

  /** Up to that accuracy the loop ends within 27 rounds. */
  lemma LookaheadEnds(table: seq<Pattern>, hash: bv12 -> nat, acc: nat, sig: bv12)
    requires Usable(table, hash) && acc <= 103
    ensures !After(table, hash, acc, sig, 27).more
  {
    PlacesAreLimited(table, hash, acc, sig, 27);
  }

  // ---------- when the loop ends at all ----------

  /** While shares stay below the whole, each round costs at least one percent. */
  lemma {:induction false} ConfidenceFalls(table: seq<Pattern>, hash: bv12 -> nat, acc: nat, sig: bv12, n: nat)
    requires Usable(table, hash) && acc <= 107
    ensures var l := After(table, hash, acc, sig, n);
            l.more ==> l.conf + n <= 100 && (l.depth == 0 <==> n == 0) && (n == 0 || l.conf >= PF_THRESHOLD)
  {
    if n > 0 {
      ConfidenceFalls(table, hash, acc, sig, n - 1);
      var l := After(table, hash, acc, sig, n - 1);
      var p := table[hash(l.sig)];
      if l.more && p.cSig > 0 {
        RoundIsLimited(p, acc, l.conf, l.depth);
        BestAmongPassed(p, acc, l.conf, l.depth, PT_WAY);
        hide Passed, BestConf, BestWay, Conf, Usable, NextSig, Total;
      }
    }
  }

  /** From accuracy 108 on the one way of this set has no less than the whole share. */
  lemma {:induction false} HotNeverEnds(hash: bv12 -> nat, sets: nat, acc: nat, n: nat)
    requires InTable(hash, sets) && acc >= 108
    ensures var table := OneHot(hash(STEADY), sets);
            && Usable(table, hash)
            && var l := After(table, hash, acc, STEADY, n);
               l.more && l.conf >= 93 && (l.depth == 0 <==> n == 0) && l.sig == STEADY
  {
    OneHotIsUsable(hash, sets);
    hide Usable, OneHot, Trained, Passed, BestConf, BestWay, NextSig;
    if n > 0 {
      HotNeverEnds(hash, sets, acc, n - 1);
      SteadyStays();
      var l := After(OneHot(hash(STEADY), sets), hash, acc, STEADY, n - 1);
      HotKeepsConf(acc, l.conf, l.depth);
    }
  }

  lemma HotKeepsConf(acc: nat, conf: nat, depth: nat)
    requires acc >= 108 && conf >= 93
    ensures Passed(HOT, acc, conf, depth, PT_WAY) != []
    ensures BestConf(HOT, acc, conf, depth, PT_WAY) >= 93 && BestWay(HOT, acc, conf, depth, PT_WAY) == 0
  {
    HotShare(acc, conf, depth);
    hide Conf;
    OnlyHot(acc, conf, depth);
  }

  lemma HotShare(acc: nat, conf: nat, depth: nat)
    requires acc >= 108 && conf >= 93
    ensures Conf(HOT, 0, acc, conf, depth) >= 93
  {
    if depth > 0 {
      var share := acc * 14 / 15;
      MulMono(conf, 100, share);
      DivMono(100 * conf, share * conf, 100);
    }
  }

  ghost predicate Ends(table: seq<Pattern>, hash: bv12 -> nat, acc: nat, sig: bv12)
    requires Usable(table, hash)
  {
    exists n :: !After(table, hash, acc, sig, n).more
  }

  ghost predicate AlwaysEnds(hash: bv12 -> nat, sets: nat, acc: nat) {
    forall table, sig | |table| == sets && Usable(table, hash) :: Ends(table, hash, acc, sig)
  }

  /** For every hash and table size: the do-while ends, whatever the table holds, exactly up to a global accuracy
      of 107 percent; between 104 and 107 it may leave the queues first. */
  lemma LookaheadEndsExactly(hash: bv12 -> nat, sets: nat, acc: nat)
    requires InTable(hash, sets)
    ensures AlwaysEnds(hash, sets, acc) <==> acc <= 107
  {
    if acc <= 107 {
      forall table, sig | |table| == sets && Usable(table, hash) ensures Ends(table, hash, acc, sig) {
        ConfidenceFalls(table, hash, acc, sig, 76);
      }
    } else {
      var table := OneHot(hash(STEADY), sets);
      OneHotIsUsable(hash, sets);
      forall n ensures After(table, hash, acc, STEADY, n).more { HotNeverEnds(hash, sets, acc, n); }
      assert !Ends(table, hash, acc, STEADY);
    }
  }
}
