/** fastset: a sorted list of up to twelve values and a 512-bit set in the same storage. */
module FastSet {
  import opened Numbers

  const MAX_SIZE: nat := 512
  const SMALL_SIZE: nat := 13
  const SMALLER_SIZE: nat := 6
  const TYPE_BITS: nat := 16

  // ---------- a 16-bit value as bits, lowest first ----------

  function ToBits(x: nat, n: nat): (b: seq<bool>)
    ensures |b| == n
  {
    if n == 0 then [] else [x % 2 == 1] + ToBits(x / 2, n - 1)
  }

  /** Storing a value and loading it again gives it back, as long as it fits. */
  lemma {:induction false} LoadAfterStore(x: nat, n: nat)
    requires x < Pow2(n)
    ensures Number(ToBits(x, n)) == x
  {
    if n > 0 {
      LoadAfterStore(x / 2, n - 1);
      assert ToBits(x, n)[1..] == ToBits(x / 2, n - 1);
    }
  }

  /** The k-th 16-bit value in the storage. */
  function Load(bits: seq<bool>, k: nat): nat
    requires |bits| == MAX_SIZE && k < SMALL_SIZE
  {
    Number(bits[TYPE_BITS * k..TYPE_BITS * k + TYPE_BITS])
  }

  /** The storage read as values. */
  function LoadAll(bits: seq<bool>): (v: seq<nat>)
    requires |bits| == MAX_SIZE
    ensures |v| == SMALL_SIZE && forall k :: 0 <= k < SMALL_SIZE ==> v[k] == Load(bits, k)
  {
    seq(SMALL_SIZE, k requires 0 <= k < SMALL_SIZE => Load(bits, k))
  }

  // ---------- sorted lists as sets ----------

  function Elements(v: seq<nat>): set<nat> { set k | 0 <= k < |v| :: v[k] }

  /** Where x belongs in a sorted list: after everything smaller. */
  function Rank(v: seq<nat>, x: nat): (i: nat)
    ensures i <= |v|
  {
    if v == [] || v[0] >= x then 0 else 1 + Rank(v[1..], x)
  }

  lemma {:induction false} RankSplits(v: seq<nat>, x: nat)
    requires Increasing(v)
    ensures var i := Rank(v, x); (forall k :: 0 <= k < i ==> v[k] < x) && (forall k :: i <= k < |v| ==> v[k] >= x)
  {
    if v != [] && v[0] < x {
      RankSplits(v[1..], x);
      var i := Rank(v, x);
      forall k | i <= k < |v| ensures v[k] >= x { assert v[k] == v[1..][k - 1]; }
      forall k | 0 <= k < i ensures v[k] < x { if k > 0 { assert v[k] == v[1..][k - 1]; } }
    }
  }

  function Inserted(v: seq<nat>, x: nat): seq<nat> {
    var i := Rank(v, x);
    if i < |v| && v[i] == x then v else v[..i] + [x] + v[i..]
  }

  lemma ElementsConcat(a: seq<nat>, b: seq<nat>)
    ensures Elements(a + b) == Elements(a) + Elements(b)
  {
    forall y | y in Elements(a) + Elements(b) ensures y in Elements(a + b) {
      if k :| 0 <= k < |a| && a[k] == y {
        assert (a + b)[k] == y;
      } else {
        var k :| 0 <= k < |b| && b[k] == y;
        assert (a + b)[|a| + k] == y;
      }
    }
  }

  /** The values from place j on, up to the n-th, moved up by one. */
  ghost function Moved(v: seq<nat>, j: nat, n: nat): (r: seq<nat>)
    requires j <= n < |v|
    ensures |r| == |v|
  {
    seq(|v|, k requires 0 <= k < |v| => v[if j < k <= n then k - 1 else k])
  }

  lemma NothingMoved(v: seq<nat>, n: nat)
    requires n < |v|
    ensures Moved(v, n, n) == v
  {
  }

  lemma MovedOneMore(v: seq<nat>, j: nat, n: nat)
    requires 0 < j <= n < |v|
    ensures Moved(v, j, n)[j - 1] == v[j - 1] && Moved(v, j, n)[j := v[j - 1]] == Moved(v, j - 1, n)
  {
  }

  lemma MovedInserts(v: seq<nat>, i: nat, x: nat, n: nat)
    requires i <= n < |v|
    ensures Moved(v, i, n)[i := x][..n + 1] == v[..n][..i] + [x] + v[..n][i..]
  {
  }

  lemma InsertedIsIncreasing(v: seq<nat>, x: nat)
    requires Increasing(v)
    ensures Increasing(Inserted(v, x))
  {
    RankSplits(v, x);
    hide Rank;
    var i, w := Rank(v, x), Inserted(v, x);
    if !(i < |v| && v[i] == x) {
      assert forall k :: i <= k < |v| ==> v[k] > x by {
        forall k | i < k < |v| ensures v[k] > x { assert v[i] < v[k]; }
      }
      assert forall k :: 0 <= k < |w| ==> w[k] == if k < i then v[k] else if k == i then x else v[k - 1];
    }
  }

  lemma InsertedIsUnion(v: seq<nat>, x: nat)
    requires Increasing(v)
    ensures Increasing(Inserted(v, x)) && Elements(Inserted(v, x)) == Elements(v) + {x}
    ensures |Inserted(v, x)| == |v| + (if x in Elements(v) then 0 else 1)
  {
    InsertedIsIncreasing(v, x);
    RankSplits(v, x);
    hide Rank, Increasing;
    var i := Rank(v, x);
    if i < |v| && v[i] == x {
      assert x in Elements(v);
    } else {
      ElementsConcat(v[..i], v[i..]);
      assert v[..i] + v[i..] == v;
      ElementsConcat(v[..i] + [x], v[i..]);
      ElementsConcat(v[..i], [x]);
      assert Elements([x]) == {x} by { assert [x][0] == x; }
    }
  }

  lemma {:induction false} IncreasingCount(v: seq<nat>)
    requires Increasing(v)
    ensures |Elements(v)| == |v|
  {
    if v != [] {
      var n := |v| - 1;
      IncreasingCount(v[..n]);
      assert Elements(v) == Elements(v[..n]) + {v[n]};
    }
  }

  // ---------- how much of the bit set join copies ----------

  /** The words join combines for elements below n: n rounded up past the next multiple of 64. */
  function JoinWords(n: nat): nat { (n / 64 * 64 + 63 + 1) / 64 }

  /** All elements below n are covered. The last word combined lies inside the set exactly when n < 512:
      for n = 512 the loop would run one word past the end. */
  lemma JoinCoversExactly(n: nat)
    ensures n <= 64 * JoinWords(n)
    ensures 64 * JoinWords(n) <= MAX_SIZE <==> n < MAX_SIZE
  {
  }

  ghost predicate Below(v: seq<nat>) { forall k :: 0 <= k < |v| ==> v[k] < MAX_SIZE }

  lemma InsertedIsBelow(v: seq<nat>, x: nat)
    requires Below(v) && x < MAX_SIZE
    ensures Below(Inserted(v, x))
  {
    hide Rank;
  }

  class Set {
    /** 512 bits: bit x of the set, and bit j of the k-th 16-bit value at place 16k + j. */
    const data: array<bool>
    var card: nat

    /** The storage as values, whether or not it holds values. */
    ghost function Slots(): (v: seq<nat>)
      requires data.Length == MAX_SIZE
      reads data
      ensures |v| == SMALL_SIZE
    {
      LoadAll(data[..])
    }

    ghost function Values(): (v: seq<nat>)
      requires data.Length == MAX_SIZE && card <= SMALL_SIZE
      reads this, data
      ensures |v| == card
    {
      Slots()[..card]
    }

    ghost predicate Valid()
      reads this, data
    {
      && data.Length == MAX_SIZE && card <= SMALL_SIZE
      && (card < SMALL_SIZE ==> Increasing(Values()) && Below(Values()))
    }

    /** The mathematical set. */
    ghost function Contents(): set<nat>
      requires data.Length == MAX_SIZE && card <= SMALL_SIZE
      reads this, data
    {
      if card < SMALL_SIZE then Elements(Values()) else set x: nat | x < MAX_SIZE && data[x]
    }

    constructor ()
      ensures Valid() && fresh(data) && Contents() == {}
    {
      data := new bool[MAX_SIZE];
      card := 0;
    }

    method GetValue(k: nat) returns (x: nat)
      requires data.Length == MAX_SIZE && k < SMALL_SIZE
      ensures x == Slots()[k]
    {
      x := Number(data[TYPE_BITS * k..TYPE_BITS * k + TYPE_BITS]);
      assert data[TYPE_BITS * k..TYPE_BITS * k + TYPE_BITS] == data[..][TYPE_BITS * k..TYPE_BITS * k + TYPE_BITS];
    }

    method SetValue(k: nat, x: nat)
      requires data.Length == MAX_SIZE && k < SMALL_SIZE && x < Pow2(TYPE_BITS)
      modifies data
      ensures Slots() == old(Slots())[k := x]
    {
      hide Pow2, Number, ToBits;
      ghost var base := TYPE_BITS * k;
      ghost var was := data[..];
      var b := ToBits(x, TYPE_BITS);
      for j := 0 to TYPE_BITS
        invariant forall i :: 0 <= i < MAX_SIZE ==> data[i] == if base <= i < base + j then b[i - base] else was[i]
      {
        data[TYPE_BITS * k + j] := b[j];
      }
      ghost var now := data[..];
      assert now[base..base + TYPE_BITS] == b;
      LoadAfterStore(x, TYPE_BITS);
      forall j | 0 <= j < SMALL_SIZE && j != k ensures Load(now, j) == Load(was, j) {
        assert now[TYPE_BITS * j..TYPE_BITS * j + TYPE_BITS] == was[TYPE_BITS * j..TYPE_BITS * j + TYPE_BITS];
      }
    }

    method SetBit(x: nat)
      requires data.Length == MAX_SIZE && x < MAX_SIZE
      modifies data
      ensures data[..] == old(data[..])[x := true]
    {
      data[x] := true;
    }

    /** The scan of insert_small: where x belongs, and whether it is there already. */
    method FindPlace(x: nat) returns (i: nat, present: bool)
      requires Valid() && card < SMALL_SIZE
      ensures i == Rank(Values(), x) && present == (i < card && Values()[i] == x)
    {
      ghost var v := Values();
      i, present := 0, false;
      while i < card
        invariant i <= card && forall k :: 0 <= k < i ==> v[k] < x
      {
        var y := GetValue(i);
        assert v[i] == y;
        if y == x {
          present := true;
          break;
        }
        if y > x { break; }
        i := i + 1;
      }
      RankIs(v, x, i);
    }

    /** insert_small: the larger values move up one place. */
    method InsertSmall(x: nat)
      requires Valid() && card < SMALL_SIZE && x < MAX_SIZE
      modifies this, data
      ensures card <= SMALL_SIZE && Values() == Inserted(old(Values()), x) && Below(Values())
    {
      ghost var s := Slots();
      Fits(MAX_SIZE);
      InsertedIsBelow(Values(), x);
      hide Slots, Pow2, Rank, Increasing, Moved, Below;
      var i, present := FindPlace(x);
      if present { return; }
      MovedInserts(s, i, x, card);
      ShiftUp(i);
      SetValue(i, x);
      card := card + 1;
    }

    /** Moves the values from place i on up by one. */
    method ShiftUp(i: nat)
      requires data.Length == MAX_SIZE && i <= card < SMALL_SIZE && Below(Values())
      modifies data
      ensures Slots() == Moved(old(Slots()), i, card)
    {
      ghost var v := Slots();
      Fits(MAX_SIZE);
      NothingMoved(v, card);
      hide Slots, Pow2, Moved;
      var j := card;
      while j > i
        invariant i <= j <= card && Slots() == Moved(v, j, card)
      {
        MovedOneMore(v, j, card);
        var y := GetValue(j - 1);
        assert y == v[..card][j - 1];
        SetValue(j, y);
        j := j - 1;
      }
    }

    method SearchSmallLinear(x: nat) returns (found: bool)
      requires Valid() && card < SMALL_SIZE
      ensures found == (x in Contents())
    {
      ghost var v := Values();
      for i := 0 to card
        invariant forall k :: 0 <= k < i ==> v[k] < x
      {
        var y := GetValue(i);
        if y > x {
          assert v[i] == y && forall k :: i < k < |v| ==> v[i] < v[k];
          return false;
        }
        if y == x {
          assert v[i] == x;
          return true;
        }
      }
      return false;
    }

    /** The binary search. */
    method SearchSmall(x: nat) returns (found: bool)
      requires Valid() && card < SMALL_SIZE
      ensures found == (x in Contents())
    {
      if card == 0 { return false; }
      if card < SMALLER_SIZE {
        found := SearchSmallLinear(x);
        return;
      }
      ghost var v := Values();
      var begin: nat, end: int := 0, card - 1;
      var middle := end / 2;
      while true
        invariant 0 <= begin <= middle <= end < card
        invariant forall k :: 0 <= k < begin ==> v[k] < x
        invariant forall k :: end < k < card ==> v[k] > x
        decreases end - begin
      {
        var y := GetValue(middle);
        assert v[middle] == y;
        if x < y {
          end := middle - 1;
        } else if x > y {
          begin := middle + 1;
        } else {
          return true;
        }
        if end < begin { break; }
        middle := (begin + end) / 2;
      }
      return false;
    }

    /** From here on the storage is read as bits. The values are copied out first: they share it. */
    method SmallToBit()
      requires data.Length == MAX_SIZE && card <= SMALL_SIZE && Below(Values())
      modifies data
      ensures forall x :: 0 <= x < MAX_SIZE ==> (data[x] <==> x in old(Elements(Values())))
    {
      ghost var v := Values();
      var tmp := new nat[SMALL_SIZE];
      for k := 0 to card
        invariant forall j :: 0 <= j < k ==> tmp[j] == v[j]
        invariant data[..] == old(data[..])
      {
        var y := GetValue(k);
        tmp[k] := y;
      }
      hide Slots;
      for x := 0 to MAX_SIZE
        invariant forall y :: 0 <= y < x ==> !data[y]
        invariant forall j :: 0 <= j < card ==> tmp[j] == v[j]
      {
        data[x] := false;
      }
      for k := 0 to card
        invariant forall x :: 0 <= x < MAX_SIZE ==> (data[x] <==> exists j :: 0 <= j < k && v[j] == x)
        invariant forall j :: 0 <= j < card ==> tmp[j] == v[j] < MAX_SIZE
      {
        SetBit(tmp[k]);
      }
    }

    /** insert, across the switch to bits at the thirteenth value. */
    method Insert(x: nat)
      requires Valid() && x < MAX_SIZE
      modifies this, data
      ensures Valid() && card <= SMALL_SIZE && Contents() == old(Contents()) + {x}
      ensures old(card) >= SMALL_SIZE ==> card == old(card)
    {
      ghost var v := Values();
      if card == 0 {
        Fits(MAX_SIZE);
        SetValue(0, x);
        card := 1;
        assert Values() == [x] && [x][0] == x;
        return;
      }
      if card < SMALL_SIZE {
        InsertedIsUnion(v, x);
        InsertSmall(x);
        if card == SMALL_SIZE { SmallToBit(); BitsAreElements(Inserted(v, x)); }
      } else {
        SetBit(x);
      }
    }

    lemma BitsAreElements(v: seq<nat>)
      requires data.Length == MAX_SIZE && card == SMALL_SIZE && Below(v)
      requires forall x :: 0 <= x < MAX_SIZE ==> (data[x] <==> x in Elements(v))
      ensures Contents() == Elements(v)
    {
    }

    method Search(x: nat) returns (found: bool)
      requires Valid() && x < MAX_SIZE
      ensures found == (x in Contents())
    {
      if card == 0 { return false; }
      if card == 1 {
        var y := GetValue(0);
        assert Values() == [y] && [y][0] == y;
        return y == x;
      }
      if card < SMALL_SIZE {
        found := SearchSmall(x);
        return;
      }
      return data[x];
    }

    /** join: set union, for elements below n < 512. */
    method Join(other: Set, n: nat)
      requires Valid() && other.Valid() && other != this && other.data != data && n < MAX_SIZE
      requires forall x :: x in other.Contents() ==> x < n
      modifies this, data
      ensures Valid() && Contents() == old(Contents()) + old(other.Contents())
    {
      if other.card == 0 { return; }
      JoinCoversExactly(n);
      if other.card < SMALL_SIZE {
        JoinSmall(other);
        return;
      }
      ghost var before := Contents();
      if card < SMALL_SIZE {
        ghost var v := Values();
        SmallToBit();
        card := SMALL_SIZE;
        BitsAreElements(v);
      }
      var lim := JoinWords(n);
      for x := 0 to 64 * lim
        invariant data.Length == MAX_SIZE && card == SMALL_SIZE
        invariant forall y :: 0 <= y < MAX_SIZE ==> data[y] == (y in before || (y < x && other.data[y]))
      {
        data[x] := data[x] || other.data[x];
      }
    }

    method JoinSmall(other: Set)
      requires Valid() && other.Valid() && other != this && other.data != data && other.card < SMALL_SIZE
      modifies this, data
      ensures Valid() && Contents() == old(Contents()) + old(other.Contents())
    {
      ghost var v := other.Values();
      ghost var before := Contents();
      assert other.Contents() == Elements(v) && Below(v);
      hide Set.Valid, Slots, Contents, Elements, Increasing;
      for i := 0 to other.card
        invariant Valid() && data.Length == MAX_SIZE && card <= SMALL_SIZE && Contents() == before + Elements(v[..i])
        invariant other.data.Length == MAX_SIZE && other.card == |v| && other.Values() == v
      {
        var x := other.GetValue(i);
        assert v[i] == x;
        InsertNext(v, i, x, before);
      }
      assert v[..|v|] == v;
    }

    method InsertNext(ghost v: seq<nat>, i: nat, x: nat, ghost before: set<nat>)
      requires Valid() && i < |v| && v[i] == x < MAX_SIZE && Contents() == before + Elements(v[..i])
      modifies this, data
      ensures Valid() && data.Length == MAX_SIZE && card <= SMALL_SIZE && Contents() == before + Elements(v[..i + 1])
    {
      AppendElements(v[..i], x);
      assert v[..i + 1] == v[..i] + [x];
      hide Elements, Contents;
      Insert(x);
    }

    /** expand: the elements in strictly increasing order. */
    method Expand(v: array<nat>, n: nat) returns (k: nat)
      requires Valid() && n <= MAX_SIZE && v.Length >= n && forall x :: x in Contents() ==> x < n
      modifies v
      ensures k == |Contents()| <= v.Length
      ensures Increasing(v[..k]) && Elements(v[..k]) == Contents()
    {
      if card == 0 { return 0; }
      if card < SMALL_SIZE {
        k := CopySmall(v, n);
        return;
      }
      k := 0;
      for x := 0 to n
        invariant k <= x && data.Length == MAX_SIZE && data[..] == old(data[..])
        invariant Increasing(v[..k]) && Elements(v[..k]) == set y: nat | y < x && data[y]
      {
        if data[x] {
          ghost var before := v[..k];
          v[k] := x;
          k := k + 1;
          assert v[..k] == before + [x];
          AppendElements(before, x);
          AppendIncreasing(before, x);
        }
      }
      assert Elements(v[..k]) == Contents();
      IncreasingCount(v[..k]);
    }

    method CopySmall(v: array<nat>, n: nat) returns (k: nat)
      requires Valid() && 0 < card < SMALL_SIZE && v.Length >= n && forall x :: x in Contents() ==> x < n
      modifies v
      ensures k == |Contents()| <= v.Length
      ensures Increasing(v[..k]) && Elements(v[..k]) == Contents()
    {
      ghost var w := Values();
      IncreasingCount(w);
      assert Contents() == Elements(w);
      IncreasingBelow(w, n);
      for i := 0 to card
        invariant forall j :: 0 <= j < i ==> v[j] == w[j]
      {
        var y := GetValue(i);
        v[i] := y;
      }
      assert v[..card] == w;
      return card;
    }
  }

  lemma {:induction false} Fits(x: nat)
    requires x <= MAX_SIZE
    ensures x <= Pow2(9) < Pow2(TYPE_BITS)
  {
    assert Pow2(3) == 8 && Pow2(6) == 64 && Pow2(9) == 512 && Pow2(12) == 4096 && Pow2(15) == 32768;
  }

  lemma {:induction false} RankIs(v: seq<nat>, x: nat, i: nat)
    requires Increasing(v) && i <= |v| && (i < |v| ==> v[i] >= x) && forall k :: 0 <= k < i ==> v[k] < x
    ensures Rank(v, x) == i
  {
    if v != [] && v[0] < x { RankIs(v[1..], x, i - 1); }
  }

  lemma AppendIncreasing(v: seq<nat>, x: nat)
    requires Increasing(v) && forall y :: y in Elements(v) ==> y < x
    ensures Increasing(v + [x])
  {
    forall k | 0 <= k < |v| ensures v[k] < x { assert v[k] in Elements(v); }
  }

  lemma AppendElements(v: seq<nat>, x: nat)
    ensures Elements(v + [x]) == Elements(v) + {x}
  {
    ElementsConcat(v, [x]);
    assert Elements([x]) == {x} by { assert [x][0] == x; }
  }

  /** A strictly increasing list of numbers below n has at most n of them. */
  lemma {:induction false} IncreasingBelow(v: seq<nat>, n: nat)
    requires Increasing(v) && forall x :: x in Elements(v) ==> x < n
    ensures |v| <= n
  {
    if v != [] {
      var k := |v| - 1;
      assert v[k] in Elements(v);
      forall x | x in Elements(v[..k]) ensures x < v[k] { }
      IncreasingBelow(v[..k], v[k]);
    }
  }
}
