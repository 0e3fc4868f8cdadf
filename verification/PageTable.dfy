/** The two page maps behind va_to_pa. */
module PageTable {

  const PAGE: nat := 4096

  /** table: virtual to physical; inverse: physical to virtual. adjacentLeft: pages still to be placed next to
      the previous one. */
  datatype State = State(table: map<nat, nat>, inverse: map<nat, nat>, queue: seq<nat>,
                         previous: nat, adjacentLeft: nat, mapped: nat)

  const INITIAL := State(map[], map[], [], 0, 0, 0)

  /** The maps undo each other, the counters are the sizes, and the run length never wraps around. */
  ghost predicate Valid(s: State, pages: nat) {
    && (forall v :: v in s.table ==> s.table[v] in s.inverse && s.inverse[s.table[v]] == v)
    && (forall p :: p in s.inverse ==> s.inverse[p] in s.table && s.table[s.inverse[p]] == p)
    && s.mapped == |s.table| == |s.queue| <= pages && s.adjacentLeft <= 512
  }

  /** Two virtual pages never share a physical page. */
  lemma NoSharing(s: State, pages: nat, v: nat, w: nat)
    requires Valid(s, pages) && v in s.table && w in s.table && s.table[v] == s.table[w]
    ensures v == w
  {
    assert s.inverse[s.table[v]] == v && s.inverse[s.table[w]] == w;
  }

  ghost predicate IsLeast(s: set<nat>, v: nat) { v in s && forall w :: w in s ==> v <= w }

  lemma {:induction false} HasLeast(s: set<nat>)
    requires s != {}
    ensures exists v :: IsLeast(s, v)
  {
    var x :| x in s;
    var rest := s - {x};
    if rest == {} {
      assert s == {x};
      assert IsLeast(s, x);
    } else {
      HasLeast(rest);
      var v :| IsLeast(rest, v);
      var least := if v <= x then v else x;
      forall w | w in s ensures least <= w { if w != x { assert w in rest; } }
      assert IsLeast(s, least);
    }
  }

  /** The first page of the table in key order: no page is ever recorded as recently used. */
  ghost function Least(s: set<nat>): (v: nat)
    requires s != {}
    ensures IsLeast(s, v)
  {
    HasLeast(s);
    var v :| IsLeast(s, v);
    v
  }

  /** The first candidate page that is not taken; the code draws until it finds one. */
  function FirstFree(s: State, draws: seq<nat>): (k: nat)
    ensures k <= |draws| && (k < |draws| ==> draws[k] !in s.inverse)
    ensures forall j :: 0 <= j < k ==> draws[j] in s.inverse
  {
    if draws == [] then 0 else if draws[0] !in s.inverse then 0 else 1 + FirstFree(s, draws[1..])
  }

  /** The page tried before any is drawn: the neighbour of the previous one while a run lasts. */
  function Candidates(s: State, draws: seq<nat>): seq<nat> {
    if s.adjacentLeft > 0 then [s.previous + 1] + draws else draws
  }

  ghost predicate Enough(s: State, draws: seq<nat>) { exists k :: 0 <= k < |draws| && draws[k] !in s.inverse }

  /** A new page: next to the previous one, or drawn; a broken run starts a new one of length adjacent. */
  function Allocate(s: State, v: nat, draws: seq<nat>, adjacent: nat): State
    requires FirstFree(s, Candidates(s, draws)) < |Candidates(s, draws)|
  {
    var k := FirstFree(s, Candidates(s, draws));
    var p := Candidates(s, draws)[k];
    var fragmented := s.adjacentLeft == 0 || k > 0;
    State(s.table[v := p], s.inverse[p := v], s.queue + [v], p,
          if fragmented then adjacent else s.adjacentLeft - 1, s.mapped + 1)
  }

  /** With memory full the new page takes over the physical page of the first one in the table. */
  ghost function Swap(s: State, v: nat): State
    requires s.table != map[] && s.queue != []
  {
    var gone := Least(s.table.Keys);
    var p := s.table[gone];
    s.(table := (s.table - {gone})[v := p], inverse := s.inverse[p := v], queue := s.queue[1..] + [v])
  }

  ghost function Touch(s: State, pages: nat, v: nat, draws: seq<nat>, adjacent: nat): State
    requires Valid(s, pages) && pages > 0 && Enough(s, draws)
  {
    if v in s.table then s
    else if s.mapped >= pages then
      Swap(s, v)
    else Allocate(s, v, draws, adjacent)
  }

  lemma AllocateKeeps(s: State, pages: nat, v: nat, draws: seq<nat>, adjacent: nat)
    requires Valid(s, pages) && v !in s.table && s.mapped < pages && Enough(s, draws) && adjacent <= 512
    requires FirstFree(s, Candidates(s, draws)) < |Candidates(s, draws)|
    ensures Valid(Allocate(s, v, draws, adjacent), pages)
  {
    var t := Allocate(s, v, draws, adjacent);
    assert |t.table| == |s.table| + 1 by { AddedKey(s.table, v, t.table[v]); }
  }

  lemma AddedKey(m: map<nat, nat>, v: nat, p: nat)
    requires v !in m
    ensures |m[v := p]| == |m| + 1
  {
    assert m[v := p].Keys == m.Keys + {v};
  }

  lemma SwapKeeps(s: State, pages: nat, v: nat)
    requires Valid(s, pages) && v !in s.table && s.table != map[] && s.queue != []
    ensures Valid(Swap(s, v), pages)
    ensures Swap(s, v).inverse.Keys == s.inverse.Keys
  {
    var gone := Least(s.table.Keys);
    var p := s.table[gone];
    var t := Swap(s, v);
    AddedKey(s.table - {gone}, v, p);
    forall w | w in t.table ensures t.table[w] in t.inverse && t.inverse[t.table[w]] == w {
      if w != v { NoSharingWith(s, pages, w, gone); }
    }
    forall q | q in t.inverse ensures t.inverse[q] in t.table && t.table[t.inverse[q]] == q {
      if q != p { assert s.inverse[q] != gone; }
    }
  }

  lemma NoSharingWith(s: State, pages: nat, v: nat, w: nat)
    requires Valid(s, pages) && v in s.table && w in s.table && v != w
    ensures s.table[v] != s.table[w]
  {
    if s.table[v] == s.table[w] { NoSharing(s, pages, v, w); }
  }

  /** Every translation keeps the maps inverse to each other, swaps included. */
  lemma TouchKeeps(s: State, pages: nat, v: nat, draws: seq<nat>, adjacent: nat)
    requires Valid(s, pages) && pages > 0 && Enough(s, draws) && adjacent <= 512
    ensures Valid(Touch(s, pages, v, draws, adjacent), pages) && v in Touch(s, pages, v, draws, adjacent).table
  {
    hide Valid;
    if v !in s.table {
      if s.mapped >= pages {
        SwapHolds(s, pages, v);
      } else {
        AllocateKeeps(s, pages, v, draws, adjacent);
      }
    }
  }

  lemma SwapHolds(s: State, pages: nat, v: nat)
    requires Valid(s, pages) && v !in s.table && s.mapped >= pages > 0
    ensures s.table != map[] && s.queue != [] && Valid(Swap(s, v), pages) && v in Swap(s, v).table
  {
    SwapKeeps(s, pages, v);
  }

  /** A page keeps its translation until memory is full and it is the first in the table. */
  lemma TranslationsMoveExactly(s: State, pages: nat, v: nat, draws: seq<nat>, adjacent: nat, w: nat)
    requires Valid(s, pages) && pages > 0 && Enough(s, draws) && adjacent <= 512 && w in s.table
    ensures var t := Touch(s, pages, v, draws, adjacent);
            (w in t.table && t.table[w] == s.table[w])
            <==> !(v !in s.table && s.mapped >= pages && w == Least(s.table.Keys))
  {
    if v !in s.table && s.mapped >= pages { SwapHolds(s, pages, v); }
  }

  datatype Request = Request(v: nat, draws: seq<nat>, adjacent: nat)

  /** A run of translations from s to t; run lengths are powers of two up to 512. */
  ghost predicate Reaches(s: State, pages: nat, rs: seq<Request>, t: State)
    requires Valid(s, pages) && pages > 0
    decreases |rs|
  {
    if rs == [] then t == s else
    Enough(s, rs[0].draws) && rs[0].adjacent <= 512 && (
      TouchKeeps(s, pages, rs[0].v, rs[0].draws, rs[0].adjacent);
      Reaches(Touch(s, pages, rs[0].v, rs[0].draws, rs[0].adjacent), pages, rs[1..], t))
  }

  /** Over every run, whatever pages are drawn: the maps stay inverse, so no two live pages share memory. */
  lemma {:induction false} EveryRunKeepsTheMaps(s: State, pages: nat, rs: seq<Request>, t: State)
    requires Valid(s, pages) && pages > 0 && Reaches(s, pages, rs, t)
    ensures Valid(t, pages)
    ensures forall v, w :: v in t.table && w in t.table && t.table[v] == t.table[w] ==> v == w
    decreases |rs|
  {
    if rs == [] {
      forall v, w | v in t.table && w in t.table && t.table[v] == t.table[w]
        ensures v == w
      {
        NoSharing(t, pages, v, w);
      }
    } else {
      TouchKeeps(s, pages, rs[0].v, rs[0].draws, rs[0].adjacent);
      EveryRunKeepsTheMaps(Touch(s, pages, rs[0].v, rs[0].draws, rs[0].adjacent), pages, rs[1..], t);
    }
  }

  // ---------- addresses ----------

  function Physical(ppage: nat, va: nat): nat { ppage * PAGE + va % PAGE }

  /** The offset survives, and two addresses meet only in the same page at the same offset. */
  lemma AddressesStayApart(s: State, pages: nat, v: nat, va: nat, w: nat, wa: nat)
    requires Valid(s, pages) && v in s.table && w in s.table
    ensures Physical(s.table[v], va) % PAGE == va % PAGE && Physical(s.table[v], va) / PAGE == s.table[v]
    ensures Physical(s.table[v], va) == Physical(s.table[w], wa) <==> v == w && va % PAGE == wa % PAGE
  {
    Split(s.table[v], va % PAGE);
    Split(s.table[w], wa % PAGE);
    if s.table[v] == s.table[w] { NoSharing(s, pages, v, w); }
  }

  lemma Split(p: nat, offset: nat)
    requires offset < PAGE
    ensures (p * PAGE + offset) / PAGE == p && (p * PAGE + offset) % PAGE == offset
  {
  }

  // ---------- the code ----------

  class Pager {
    const pages: nat
    var pageTable: map<nat, nat>
    var inverseTable: map<nat, nat>
    var pageQueue: seq<nat>
    var previousPpage: nat
    var numAdjacentPage: nat
    var allocatedPages: nat

    ghost function Value(): State
      reads this
    {
      State(pageTable, inverseTable, pageQueue, previousPpage, numAdjacentPage, allocatedPages)
    }

    constructor (pages: nat)
      requires pages > 0
      ensures Value() == INITIAL && this.pages == pages && Valid(Value(), pages)
    {
      this.pages := pages;
      pageTable, inverseTable, pageQueue := map[], map[], [];
      previousPpage, numAdjacentPage, allocatedPages := 0, 0, 0;
    }

    /** va_to_pa: draws are the random page numbers still to come, adjacent the length of the next run. */
    method VaToPa(va: nat, vpage: nat, draws: seq<nat>, adjacent: nat) returns (pa: nat)
      requires Valid(Value(), pages) && pages > 0 && Enough(Value(), draws) && 1 <= adjacent <= 512
      modifies this
      ensures Value() == Touch(old(Value()), pages, vpage, draws, adjacent) && Valid(Value(), pages)
      ensures vpage in pageTable && pa == Physical(pageTable[vpage], va)
    {
      TouchKeeps(Value(), pages, vpage, draws, adjacent);
      hide Valid;
      if vpage !in pageTable {
        if allocatedPages >= pages {
          SwapPage(vpage);
        } else {
          PlacePage(vpage, draws, adjacent);
        }
      }
      pa := pageTable[vpage] * PAGE + va % PAGE;
    }

    method SwapPage(vpage: nat)
      requires Valid(Value(), pages) && vpage !in pageTable && allocatedPages >= pages > 0
      modifies this
      ensures old(pageTable != map[] && pageQueue != []) && Value() == Swap(old(Value()), vpage)
    {
      SwapHolds(Value(), pages, vpage);
      var nru := FirstPage();
      var frame := pageTable[nru];
      pageTable := pageTable - {nru};
      pageTable := pageTable[vpage := frame];
      inverseTable := inverseTable[frame := vpage];
      pageQueue := pageQueue[1..];
      pageQueue := pageQueue + [vpage];
    }

    method FirstPage() returns (v: nat)
      requires pageTable != map[]
      ensures v == Least(pageTable.Keys)
    {
      HasLeast(pageTable.Keys);
      v :| v in pageTable.Keys && forall w :: w in pageTable.Keys ==> v <= w;
    }

    method PlacePage(vpage: nat, draws: seq<nat>, adjacent: nat)
      requires FirstFree(Value(), Candidates(Value(), draws)) < |Candidates(Value(), draws)| && Enough(Value(), draws)
      modifies this
      ensures Value() == Allocate(old(Value()), vpage, draws, adjacent)
    {
      ghost var s := Value();
      ghost var cs := Candidates(s, draws);
      var drawn: nat := 0;
      var randomPpage: nat;
      var fragmented := false;
      ghost var taken: nat := 0;
      if numAdjacentPage > 0 {
        previousPpage := previousPpage + 1;
        randomPpage := previousPpage;
      } else {
        randomPpage := draws[0];
        drawn := 1;
        fragmented := true;
      }
      while randomPpage in inverseTable
        invariant taken < |cs| && randomPpage == cs[taken] && forall j :: 0 <= j < taken ==> cs[j] in s.inverse
        invariant drawn == if s.adjacentLeft > 0 then taken else taken + 1
        invariant fragmented == (s.adjacentLeft == 0 || taken > 0)
        invariant Value() == s.(previous := previousPpage) && FirstFree(s, cs) < |cs|
        decreases |cs| - taken
      {
        if numAdjacentPage > 0 { fragmented := true; }
        randomPpage := draws[drawn];
        drawn := drawn + 1;
        taken := taken + 1;
      }
      pageTable := pageTable[vpage := randomPpage];
      inverseTable := inverseTable[randomPpage := vpage];
      pageQueue := pageQueue + [vpage];
      previousPpage := randomPpage;
      // wraps around when it is 0, but then the run is set anew
      var wrapped := if numAdjacentPage == 0 then 0xFFFF_FFFF_FFFF_FFFF else numAdjacentPage - 1;
      numAdjacentPage := wrapped;
      allocatedPages := allocatedPages + 1;
      if fragmented { numAdjacentPage := adjacent; }
    }
  }
}
