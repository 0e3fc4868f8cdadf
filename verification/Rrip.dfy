/** Re-reference intervals of a set: the unbounded search for a victim, and the SRRIP and DRRIP updates. */
module Rrip {

  const MAX_RRPV: nat := 3
  const BIP_MAX: nat := 32
  const PSEL_MAX: nat := 1023
  const PSEL_THRS: nat := 511

  ghost predicate InRange(row: seq<nat>) { forall w :: 0 <= w < |row| ==> row[w] <= MAX_RRPV }

  /** The largest interval of a set. */
  function Largest(row: seq<nat>): (m: nat)
    requires row != []
    ensures m in row && forall w :: 0 <= w < |row| ==> row[w] <= m
  {
    if |row| == 1 then row[0] else
    var m := Largest(row[..|row| - 1]);
    assert forall w :: 0 <= w < |row| - 1 ==> row[w] == row[..|row| - 1][w];
    if row[|row| - 1] > m then row[|row| - 1] else m
  }

  /** The victim is the first way with the largest interval. */
  ghost predicate IsVictim(row: seq<nat>, w: nat) {
    && w < |row|
    && (forall v :: 0 <= v < |row| ==> row[v] <= row[w])
    && (forall v :: 0 <= v < w ==> row[v] < row[w])
  }

  /** Every way has aged by the same amount. */
  function Aged(row: seq<nat>, steps: nat): (r: seq<nat>)
    ensures |r| == |row|
  {
    seq(|row|, w requires 0 <= w < |row| => row[w] + steps)
  }

  lemma NotAged(row: seq<nat>)
    ensures Aged(row, 0) == row
  {
  }

  /** Ageing up to the first way at the maximum keeps every interval in range and every difference. */
  lemma AgeingKeepsOrder(row: seq<nat>, w: nat)
    requires InRange(row) && IsVictim(row, w)
    ensures var r := Aged(row, MAX_RRPV - row[w]);
            && InRange(r) && r[w] == MAX_RRPV && IsVictim(r, w)
            && forall u, v :: 0 <= u < |row| && 0 <= v < |row| ==> r[u] + row[v] == row[u] + r[v]
  {
    var r := Aged(row, MAX_RRPV - row[w]);
    forall v | 0 <= v < |row| ensures r[v] <= MAX_RRPV && r[v] <= r[w] && (v < w ==> r[v] < r[w]) {
      assert row[v] <= row[w];
    }
  }

  /** None of the first n ways is at the maximum. */
  ghost predicate Short(row: seq<nat>, n: nat) { forall w :: 0 <= w < n && w < |row| ==> row[w] != MAX_RRPV }

  /** The first way that has reached the maximum is the victim, and all have aged by what it lacked. */
  lemma Stops(row: seq<nat>, steps: nat, i: nat)
    requires row != [] && i < |row| && Largest(row) + steps <= MAX_RRPV
    requires Aged(row, steps)[i] == MAX_RRPV && Short(Aged(row, steps), i)
    ensures IsVictim(row, i) && steps == MAX_RRPV - row[i]
  {
    forall w | 0 <= w < i ensures row[w] < row[i] { assert Aged(row, steps)[w] == row[w] + steps; }
  }

  /** With no way at the maximum there is room for one more round. */
  lemma GoesOn(row: seq<nat>, steps: nat)
    requires row != [] && Largest(row) + steps <= MAX_RRPV && Short(Aged(row, steps), |row|)
    ensures Largest(row) + steps < MAX_RRPV
  {
    hide Largest;
    var w :| 0 <= w < |row| && row[w] == Largest(row);
    assert Aged(row, steps)[w] == row[w] + steps;
  }

  lemma AgedAgain(row: seq<nat>, steps: nat)
    ensures Aged(Aged(row, steps), 1) == Aged(row, steps + 1)
  {
  }

  // ---------- a scan of misses ----------

  /** The way the search returns. */
  ghost function Victim(row: seq<nat>): (w: nat)
    requires row != []
    ensures IsVictim(row, w)
  {
    var m := Largest(row);
    FirstLargest(row, |row|);
    var w :| IsVictim(row, w);
    w
  }

  lemma {:induction false} FirstLargest(row: seq<nat>, n: nat)
    requires row != [] && n <= |row|
    ensures (exists w :: IsVictim(row, w)) || forall w :: 0 <= w < n ==> row[w] < Largest(row)
  {
    if n > 0 {
      FirstLargest(row, n - 1);
      hide Largest;
      if row[n - 1] >= Largest(row) && forall w :: 0 <= w < n - 1 ==> row[w] < Largest(row) {
        assert IsVictim(row, n - 1);
      }
    }
  }

  lemma VictimIsOne(row: seq<nat>, w: nat)
    requires IsVictim(row, w)
    ensures w == Victim(row)
  {
    var v := Victim(row);
    assert row[v] <= row[w] <= row[v];
  }

  /** A miss: every way ages until the victim is at the maximum, and the new line takes its way. */
  ghost function Miss(row: seq<nat>): (r: seq<nat>)
    requires row != []
    ensures |r| == |row|
  {
    var w := Victim(row);
    Aged(row, if row[w] <= MAX_RRPV then MAX_RRPV - row[w] else 0)[w := MAX_RRPV - 1]
  }

  /** The line in way v outlives n misses in a row. */
  ghost predicate Outlives(row: seq<nat>, v: nat, n: nat)
    requires v < |row|
    decreases n
  {
    n == 0 || (Victim(row) != v && Outlives(Miss(row), v, n - 1))
  }

  /** Ways at the maximum among the first n. */
  function AtMax(row: seq<nat>, n: nat): nat
    requires n <= |row|
  {
    if n == 0 then 0 else AtMax(row, n - 1) + (if row[n - 1] == MAX_RRPV then 1 else 0)
  }

  /** The set holds v and lines not used since they came. */
  ghost predicate Scanned(row: seq<nat>, v: nat) {
    v < |row| && row[v] < MAX_RRPV && forall w :: 0 <= w < |row| && w != v ==> MAX_RRPV - 1 <= row[w] <= MAX_RRPV
  }

  /** How many misses the line in way v is safe from: the lines at the maximum go first, and each full round of
      the other ways ages it by one. */
  function Credit(row: seq<nat>, v: nat): int
    requires v < |row|
  {
    (MAX_RRPV - 1 - row[v]) * (|row| - 1) + AtMax(row, |row|)
  }

  lemma {:induction false} AtMaxUpdate(row: seq<nat>, w: nat, x: nat, n: nat)
    requires w < |row| && n <= |row|
    ensures AtMax(row[w := x], n) == AtMax(row, n)
              + (if w < n then (if x == MAX_RRPV then 1 else 0) - (if row[w] == MAX_RRPV then 1 else 0) else 0)
  {
    if n > 0 { AtMaxUpdate(row, w, x, n - 1); }
  }

  lemma {:induction false} AllAtMax(row: seq<nat>, v: nat, n: nat)
    requires n <= |row| && forall w :: 0 <= w < n && w != v ==> row[w] == MAX_RRPV
    requires v < |row| && row[v] != MAX_RRPV
    ensures AtMax(row, n) == if v < n then n - 1 else n
  {
    if n > 0 { AllAtMax(row, v, n - 1); }
  }

  lemma {:induction false} NoneAtMax(row: seq<nat>, n: nat)
    requires n <= |row|
    ensures AtMax(row, n) == 0 <==> forall w :: 0 <= w < n ==> row[w] != MAX_RRPV
  {
    if n > 0 { NoneAtMax(row, n - 1); }
  }

  /** With credit left, a miss takes another way and one unit of credit. */
  lemma MissSpendsCredit(row: seq<nat>, v: nat)
    requires Scanned(row, v) && |row| > 1 && Credit(row, v) > 0
    ensures Victim(row) != v && Scanned(Miss(row), v) && Credit(Miss(row), v) == Credit(row, v) - 1
  {
    var w, r := Victim(row), Miss(row);
    NoneAtMax(row, |row|);
    var other := if v == 0 then 1 else 0;
    assert row[other] <= row[w];
    if row[w] == MAX_RRPV {
      assert Aged(row, 0) == row;
      AtMaxUpdate(row, w, MAX_RRPV - 1, |row|);
    } else {
      var aged := Aged(row, 1);
      assert row[w] == MAX_RRPV - 1 && row[v] < MAX_RRPV - 1;
      AllAtMax(aged, v, |row|);
      AtMaxUpdate(aged, w, MAX_RRPV - 1, |row|);
      OneRoundLess(MAX_RRPV - 1 - row[v], |row| - 1);
    }
  }

  lemma OneRoundLess(a: int, b: int)
    ensures (a - 1) * b == a * b - b
  {
  }

  /** A line is safe from as many misses in a row as it has credit; for the first way, whose turn comes first
      among equals, from exactly that many. */
  lemma {:induction false} ScanResistance(row: seq<nat>, v: nat, n: nat)
    requires Scanned(row, v) && |row| > 1
    ensures n <= Credit(row, v) ==> Outlives(row, v, n)
    ensures v == 0 ==> (Outlives(row, v, n) <==> n <= Credit(row, v))
    decreases n
  {
    CreditIsNat(row, v);
    if n > 0 {
      if Credit(row, v) > 0 {
        MissSpendsCredit(row, v);
        ScanResistance(Miss(row), v, n - 1);
      } else if v == 0 {
        NoCredit(row);
      }
    }
  }

  lemma CreditIsNat(row: seq<nat>, v: nat)
    requires Scanned(row, v)
    ensures Credit(row, v) >= 0
  {
    assert (MAX_RRPV - 1 - row[v]) * (|row| - 1) >= 0;
  }

  lemma NoCredit(row: seq<nat>)
    requires Scanned(row, 0) && |row| > 1 && Credit(row, 0) <= 0
    ensures Victim(row) == 0
  {
    NoneAtMax(row, |row|);
    assert (MAX_RRPV - 1 - row[0]) * (|row| - 1) >= 0;
    assert row[0] == MAX_RRPV - 1;
  }

  /** A line that was just used outlives two full rounds of misses over the other ways. */
  lemma PromotedOutlivesTwoRounds(row: seq<nat>, v: nat)
    requires Scanned(row, v) && |row| > 1
    ensures Outlives(row[v := 0], v, 2 * (|row| - 1))
  {
    ScanResistance(row[v := 0], v, 2 * (|row| - 1));
  }

  datatype Leader = Follower | Bip | Srrip

  datatype Duel = Duel(psel: nat, bip: nat)

  ghost predicate DuelOk(d: Duel) { d.psel <= PSEL_MAX && d.bip < BIP_MAX }

  /** A DRRIP miss: the leaders move the selector, BIP sets insert at the far end but for every 32nd line. */
  function Missed(d: Duel, leader: Leader): (r: (Duel, nat))
    requires d.bip < BIP_MAX
    ensures r.1 == MAX_RRPV || r.1 == MAX_RRPV - 1
  {
    var next := if d.bip + 1 == BIP_MAX then 0 else d.bip + 1;
    var far := if next == 0 then MAX_RRPV - 1 else MAX_RRPV;
    match leader
    case Follower => if d.psel > PSEL_THRS then (d.(bip := next), far) else (d, MAX_RRPV - 1)
    case Bip => (Duel(if d.psel > 0 then d.psel - 1 else 0, next), far)
    case Srrip => (d.(psel := if d.psel < PSEL_MAX then d.psel + 1 else d.psel), MAX_RRPV - 1)
  }

  /** n misses in sets that follow BIP. */
  function BipMisses(d: Duel, n: nat): (r: Duel)
    requires d.bip < BIP_MAX
    ensures r.bip < BIP_MAX
  {
    if n == 0 then d else Missed(BipMisses(d, n - 1), Bip).0
  }

  lemma Wraps(x: nat)
    ensures (x + 1) % BIP_MAX == if x % BIP_MAX + 1 == BIP_MAX then 0 else x % BIP_MAX + 1
  {
  }

  /** Among any 32 consecutive BIP misses exactly one line is inserted near: the one that wraps the counter. */
  lemma {:induction false} OneInThirtyTwo(d: Duel, n: nat)
    requires d.bip < BIP_MAX
    ensures BipMisses(d, n).bip == (d.bip + n) % BIP_MAX
    ensures Missed(BipMisses(d, n), Bip).1 == MAX_RRPV - 1 <==> (d.bip + n + 1) % BIP_MAX == 0
  {
    Wraps(d.bip + n);
    if n > 0 {
      OneInThirtyTwo(d, n - 1);
      Wraps(d.bip + n - 1);
    }
  }

  // ---------- the selector ----------

  /** Misses in sets of these kinds, one after the other. */
  function Duels(d: Duel, ls: seq<Leader>): (r: Duel)
    requires d.bip < BIP_MAX
    ensures r.bip < BIP_MAX
    decreases |ls|
  {
    if ls == [] then d else Duels(Missed(d, ls[0]).0, ls[1..])
  }

  /** Misses of one kind that find the selector able to move their way. */
  function Moves(d: Duel, ls: seq<Leader>, kind: Leader): nat
    requires d.bip < BIP_MAX
    decreases |ls|
  {
    if ls == [] then 0 else
    (if ls[0] == kind && (if kind.Srrip? then d.psel < PSEL_MAX else d.psel > 0) then 1 else 0)
      + Moves(Missed(d, ls[0]).0, ls[1..], kind)
  }

  /** Over every run of misses: the selector is its start plus the misses of SRRIP leaders minus those of BIP leaders,
      but for those that find it at its end; followers leave it alone. */
  lemma {:induction false} SelectorBalances(d: Duel, ls: seq<Leader>)
    requires DuelOk(d)
    ensures DuelOk(Duels(d, ls)) && Duels(d, ls).psel == d.psel + Moves(d, ls, Srrip) - Moves(d, ls, Bip)
    decreases |ls|
  {
    if ls != [] { SelectorBalances(Missed(d, ls[0]).0, ls[1..]); }
  }

  /** A follower inserts as a BIP leader would exactly when the selector has counted more than 511 misses against
      SRRIP, and otherwise as an SRRIP leader would; its own misses do not move the selector. */
  lemma FollowersFollow(d: Duel, ls: seq<Leader>)
    requires DuelOk(d)
    ensures var e := Duels(d, ls);
            var f := Missed(e, Follower);
            && f.0.psel == e.psel
            && (if d.psel + Moves(d, ls, Srrip) - Moves(d, ls, Bip) > 511
                then f.1 == Missed(e, Bip).1 && f.0.bip == Missed(e, Bip).0.bip
                else f.1 == Missed(e, Srrip).1 && f.0.bip == e.bip)
  {
    SelectorBalances(d, ls);
  }

  /** One set of the last-level cache. */
  class Intervals {
    const rrpv: array<nat>
    var psel: nat
    var bipCounter: nat

    ghost predicate Valid()
      reads this, rrpv
    {
      rrpv.Length > 0 && InRange(rrpv[..]) && DuelOk(Duel(psel, bipCounter))
    }

    constructor (ways: nat)
      requires ways > 0
      ensures Valid() && fresh(rrpv) && rrpv.Length == ways && forall w :: 0 <= w < ways ==> rrpv[w] == MAX_RRPV
    {
      rrpv := new nat[ways](_ => MAX_RRPV);
      psel, bipCounter := 0, 0;
    }

    /** llc_find_victim: the loop without a bound ends, because every round ages every way. */
    method FindVictim() returns (way: nat)
      requires Valid()
      modifies rrpv
      ensures Valid() && IsVictim(old(rrpv[..]), way) && way == Victim(old(rrpv[..]))
      ensures rrpv[..] == Aged(old(rrpv[..]), MAX_RRPV - old(rrpv[..])[way])
    {
      ghost var before := rrpv[..];
      ghost var rounds: nat := 0;
      NotAged(before);
      hide Aged, Largest, IsVictim, Short, Victim;
      while true
        invariant rounds + Largest(before) <= MAX_RRPV && rrpv[..] == Aged(before, rounds)
        decreases MAX_RRPV - rounds
      {
        var i := FindAtMax();
        if i < rrpv.Length {
          assert rrpv[..][i] == MAX_RRPV;
          Stops(before, rounds, i);
          AgeingKeepsOrder(before, i);
          VictimIsOne(before, i);
          return i;
        }
        GoesOn(before, rounds);
        AgedAgain(before, rounds);
        AgeAll();
        rounds := rounds + 1;
      }
    }

    /** The first way at the maximum, or the number of ways. */
    method FindAtMax() returns (i: nat)
      ensures i <= rrpv.Length && (i < rrpv.Length ==> rrpv[i] == MAX_RRPV)
      ensures Short(rrpv[..], i)
    {
      i := 0;
      while i < rrpv.Length
        invariant i <= rrpv.Length && forall w :: 0 <= w < i ==> rrpv[w] != MAX_RRPV
      {
        if rrpv[i] == MAX_RRPV { break; }
        i := i + 1;
      }
    }

    method AgeAll()
      modifies rrpv
      ensures rrpv[..] == Aged(old(rrpv[..]), 1)
    {
      ghost var before := rrpv[..];
      for i := 0 to rrpv.Length
        invariant forall w :: 0 <= w < rrpv.Length ==> rrpv[w] == before[w] + (if w < i then 1 else 0)
      {
        rrpv[i] := rrpv[i] + 1;
      }
      assert rrpv[..] == Aged(before, 1);
    }

    /** SRRIP: promoted on a hit, inserted one short of the end on a fill. */
    method UpdateSrrip(way: nat, hit: bool)
      requires Valid() && way < rrpv.Length
      modifies rrpv
      ensures Valid() && rrpv[..] == old(rrpv[..])[way := if hit then 0 else MAX_RRPV - 1]
    {
      if hit { rrpv[way] := 0; } else { rrpv[way] := MAX_RRPV - 1; }
    }

    /** A miss of the cache: the victim is found and the new line inserted in its way. */
    method Replace() returns (way: nat)
      requires Valid()
      modifies rrpv
      ensures Valid() && way == Victim(old(rrpv[..])) && rrpv[..] == Miss(old(rrpv[..]))
    {
      way := FindVictim();
      UpdateSrrip(way, false);
    }

    method UpdateDrrip(way: nat, hit: bool, writeback: bool, leader: Leader)
      requires Valid() && way < rrpv.Length
      modifies this, rrpv
      ensures Valid()
      ensures var d := Duel(old(psel), old(bipCounter));
              if writeback || hit then
                Duel(psel, bipCounter) == d && rrpv[..] == old(rrpv[..])[way := if writeback then MAX_RRPV - 1 else 0]
              else
                Duel(psel, bipCounter) == Missed(d, leader).0 && rrpv[..] == old(rrpv[..])[way := Missed(d, leader).1]
    {
      if writeback {
        rrpv[way] := MAX_RRPV - 1;
        return;
      }
      if hit {
        rrpv[way] := 0;
        return;
      }
      match leader {
        case Follower =>
          if psel > PSEL_THRS { InsertBip(way); } else { rrpv[way] := MAX_RRPV - 1; }
        case Bip =>
          if psel > 0 { psel := psel - 1; }
          InsertBip(way);
        case Srrip =>
          if psel < PSEL_MAX { psel := psel + 1; }
          rrpv[way] := MAX_RRPV - 1;
      }
    }

    method InsertBip(way: nat)
      requires way < rrpv.Length && bipCounter < BIP_MAX
      modifies this`bipCounter, rrpv
      ensures bipCounter == if old(bipCounter) + 1 == BIP_MAX then 0 else old(bipCounter) + 1
      ensures rrpv[..] == old(rrpv[..])[way := if bipCounter == 0 then MAX_RRPV - 1 else MAX_RRPV]
    {
      rrpv[way] := MAX_RRPV;
      bipCounter := bipCounter + 1;
      if bipCounter == BIP_MAX { bipCounter := 0; }
      if bipCounter == 0 { rrpv[way] := MAX_RRPV - 1; }
    }
  }
}
