/** The global history register: what a prefetch that leaves its page leaves behind for the first access to the next. */
module SppHistory {
  import opened SppTables

  /** Entry i holds this offset. */
  ghost predicate Holds(g: seq<History>, offset: nat, i: nat) { i < |g| && g[i].valid && g[i].offset == offset }

  /** i is the first entry of the smallest confidence. */
  ghost predicate FirstWeakest(g: seq<History>, i: nat) {
    && i < |g| && (forall j :: 0 <= j < |g| ==> g[i].conf <= g[j].conf)
    && forall j :: 0 <= j < i ==> g[i].conf < g[j].conf
  }

  /** Every offset is held once, with a confidence between 1 and 99; an entry never used has none. */
  ghost predicate Register(g: seq<History>) {
    && (forall i :: 0 <= i < |g| ==> g[i].conf < 100 && (g[i].valid <==> g[i].conf > 0))
    && forall i, j :: 0 <= i < j < |g| && g[i].valid && g[j].valid ==> g[i].offset != g[j].offset
  }

  /** What a register holds for an offset. */
  datatype Memory = Nothing | Remembers(sig: bv12, conf: nat, delta: int)

  /** update_entry changes exactly one entry: the one of this offset, else the first of the smallest confidence. */
  lemma RecordedExactly(g: seq<History>, sig: bv12, conf: nat, offset: nat, delta: int) returns (w: nat)
    requires Register(g) && g != [] && 0 < conf < 100
    ensures if exists i :: Holds(g, offset, i) then Holds(g, offset, w) else FirstWeakest(g, w)
    ensures Recorded(g, sig, conf, offset, delta) == g[w := History(true, sig, conf, offset, delta)]
  {
    var i := SameOffset(g, offset);
    LeastConfIsLeast(g, |g|);
    w := if i < |g| then i else LeastConf(g, |g|);
    assert g[0].conf < 100;
    hide SameOffset, LeastConf;
    if i < |g| { assert Holds(g, offset, i); }
  }

  lemma RecordedIsRegister(g: seq<History>, sig: bv12, conf: nat, offset: nat, delta: int)
    requires Register(g) && g != [] && 0 < conf < 100
    ensures Register(Recorded(g, sig, conf, offset, delta))
  {
    var w := RecordedExactly(g, sig, conf, offset, delta);
    hide Recorded;
    forall i | 0 <= i < |g| && i != w ensures !(g[i].valid && g[i].offset == offset) {
      assert Holds(g, offset, i) <==> g[i].valid && g[i].offset == offset;
    }
  }

  // ---------- check_entry ----------

  /** The first of the most confident entries with this offset among the first n, or the length. */
  function MostConf(g: seq<History>, offset: nat, n: nat): (w: nat)
    requires n <= |g|
    ensures w < n || w == |g|
  {
    if n == 0 then |g| else
    var w := MostConf(g, offset, n - 1);
    if g[n - 1].offset == offset && (if w < |g| then g[w].conf else 0) < g[n - 1].conf then n - 1 else w
  }

  method CheckEntry(ghr: array<History>, offset: nat) returns (way: nat)
    ensures way == MostConf(ghr[..], offset, ghr.Length)
  {
    var maxConf: nat := 0;
    way := ghr.Length;
    for i := 0 to ghr.Length
      invariant way == MostConf(ghr[..], offset, i) && maxConf == if way < ghr.Length then ghr[way].conf else 0
    {
      if ghr[i].offset == offset && maxConf < ghr[i].conf { maxConf, way := ghr[i].conf, i; }
    }
  }

  function Found(g: seq<History>, offset: nat): Memory {
    var w := MostConf(g, offset, |g|);
    if w < |g| then Remembers(g[w].sig, g[w].conf, g[w].delta) else Nothing
  }

  lemma {:induction false} MostConfIsHolder(g: seq<History>, offset: nat, n: nat, i: nat)
    requires Register(g) && n <= |g|
    ensures MostConf(g, offset, n) == i < n <==> Holds(g, offset, i) && i < n
  {
    if n > 0 {
      MostConfIsHolder(g, offset, n - 1, i);
      MostConfIsHolder(g, offset, n - 1, MostConf(g, offset, n - 1));
      MostConfIsHolder(g, offset, n - 1, n - 1);
    }
  }

  /** check_entry finds the entry that holds the offset, if one does. */
  lemma FoundExactly(g: seq<History>, offset: nat, i: nat)
    requires Register(g) && Holds(g, offset, i)
    ensures Found(g, offset) == Remembers(g[i].sig, g[i].conf, g[i].delta)
  {
    MostConfIsHolder(g, offset, |g|, i);
  }

  lemma NotFound(g: seq<History>, offset: nat)
    requires Register(g) && forall i :: !Holds(g, offset, i)
    ensures Found(g, offset) == Nothing
  {
    MostConfIsHolder(g, offset, |g|, MostConf(g, offset, |g|));
  }

  /** Round trip: what was recorded last for an offset is what check_entry finds there. Any other offset keeps what
      it had, unless this one is new and takes the place of the first of the smallest confidence. */
  lemma RecordedIsFound(g: seq<History>, sig: bv12, conf: nat, offset: nat, delta: int, other: nat)
    requires Register(g) && g != [] && 0 < conf < 100
    ensures var t := Recorded(g, sig, conf, offset, delta);
            && Found(t, offset) == Remembers(sig, conf, delta)
            && (other != offset ==>
                  Found(t, other) ==
                  if (forall i :: !Holds(g, offset, i)) && exists i :: Holds(g, other, i) && FirstWeakest(g, i)
                  then Nothing else Found(g, other))
  {
    var t := Recorded(g, sig, conf, offset, delta);
    var w := RecordedExactly(g, sig, conf, offset, delta);
    RecordedIsRegister(g, sig, conf, offset, delta);
    assert Holds(t, offset, w);
    FoundExactly(t, offset, w);
    if other != offset {
      hide Recorded, Found, Register;
      if i :| Holds(g, other, i) {
        FoundExactly(g, other, i);
        if i != w {
          assert Holds(t, other, i);
          FoundExactly(t, other, i);
          OneHolder(g, other, i);
        } else {
          Replaced(g, t, other, w);
        }
      } else {
        NotFound(g, other);
        forall j: nat ensures !Holds(t, other, j) { assert !Holds(g, other, j); }
        NotFound(t, other);
      }
    }
  }

  lemma OneHolder(g: seq<History>, offset: nat, i: nat)
    requires Register(g) && Holds(g, offset, i)
    ensures forall j :: Holds(g, offset, j) ==> j == i
  {
  }

  lemma Replaced(g: seq<History>, t: seq<History>, offset: nat, w: nat)
    requires Register(g) && Register(t) && Holds(g, offset, w) && |t| == |g| && t[w].offset != offset
    requires forall i :: 0 <= i < |g| && i != w ==> t[i] == g[i]
    ensures Found(t, offset) == Nothing
  {
    OneHolder(g, offset, w);
    hide Register;
    forall i: nat ensures !Holds(t, offset, i) { if i < |g| && i != w { assert !Holds(g, offset, i); } }
    NotFound(t, offset);
  }
}
