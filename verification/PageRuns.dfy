/** Which physical pages new pages get: neighbours while a run lasts, random draws otherwise. */
module PageRuns {
  import opened PageTable

  /** While a run lasts and the neighbour of the previous page is free, the new page gets it and the run is one
      shorter; otherwise it gets the first free draw, and a new run begins. */
  lemma AllocateExactly(s: State, v: nat, draws: seq<nat>, adjacent: nat) returns (k: nat)
    requires FirstFree(s, Candidates(s, draws)) < |Candidates(s, draws)|
    ensures var t := Allocate(s, v, draws, adjacent);
            && t.table == s.table[v := t.previous] && t.inverse == s.inverse[t.previous := v]
            && t.queue == s.queue + [v] && t.mapped == s.mapped + 1
            && (if s.adjacentLeft > 0 && s.previous + 1 !in s.inverse then
                  t.previous == s.previous + 1 && t.adjacentLeft == s.adjacentLeft - 1
                else
                  && k < |draws| && draws[k] !in s.inverse && (forall j :: 0 <= j < k ==> draws[j] in s.inverse)
                  && t.previous == draws[k] && t.adjacentLeft == adjacent)
  {
    var cs := Candidates(s, draws);
    var first := FirstFree(s, cs);
    k := if s.adjacentLeft > 0 && first > 0 then first - 1 else first;
    if s.adjacentLeft > 0 {
      assert cs[0] == s.previous + 1;
      assert forall j :: 0 <= j < |draws| ==> cs[j + 1] == draws[j];
    }
  }

  /** Different pages, none of them translated yet. */
  ghost predicate AllNew(s: State, rs: seq<Request>) {
    && (forall i :: 0 <= i < |rs| ==> rs[i].v !in s.table)
    && forall i, j :: 0 <= i < j < |rs| ==> rs[i].v != rs[j].v
  }

  /** The n neighbours after the previous page are free. */
  ghost predicate FreeAfter(s: State, n: nat) {
    forall p :: s.previous < p <= s.previous + n ==> p !in s.inverse
  }

  /** One page of such a run. */
  lemma NextNeighbour(s: State, pages: nat, v: nat, draws: seq<nat>, adjacent: nat)
    requires Valid(s, pages) && pages > 0 && Enough(s, draws) && v !in s.table && s.mapped < pages
    requires s.adjacentLeft > 0 && s.previous + 1 !in s.inverse
    ensures var p := s.previous + 1;
            Touch(s, pages, v, draws, adjacent)
            == State(s.table[v := p], s.inverse[p := v], s.queue + [v], p, s.adjacentLeft - 1, s.mapped + 1)
  {
    var k := AllocateExactly(s, v, draws, adjacent);
  }

  /** Over every run of new pages that the current run of neighbours covers: they get consecutive physical pages,
      whatever is drawn. */
  lemma {:induction false} RunsAreConsecutive(s: State, pages: nat, rs: seq<Request>, t: State)
    requires Valid(s, pages) && pages > 0 && Reaches(s, pages, rs, t) && AllNew(s, rs)
    requires |rs| <= s.adjacentLeft && s.mapped + |rs| <= pages && FreeAfter(s, |rs|)
    ensures t.previous == s.previous + |rs| && t.adjacentLeft == s.adjacentLeft - |rs|
    ensures Extends(s.table, t.table) && Placed(t.table, rs, s.previous)
    decreases |rs|
  {
    hide Valid, Touch, Enough, AllNew, FreeAfter, Extends, Placed, Reaches;
    if rs == [] {
      NothingPlaced(s, pages, t);
    } else {
      var u := FirstNeighbour(s, pages, rs, t);
      RunsAreConsecutive(u, pages, rs[1..], t);
      OneInFront(s.table, u.table, t.table, rs, s.previous);
    }
  }

  lemma NothingPlaced(s: State, pages: nat, t: State)
    requires Valid(s, pages) && pages > 0 && Reaches(s, pages, [], t)
    ensures t == s && Extends(s.table, t.table) && Placed(t.table, [], s.previous)
  {
  }

  lemma FirstNeighbour(s: State, pages: nat, rs: seq<Request>, t: State) returns (u: State)
    requires Valid(s, pages) && pages > 0 && rs != [] && Reaches(s, pages, rs, t) && AllNew(s, rs)
    requires |rs| <= s.adjacentLeft && s.mapped + |rs| <= pages && FreeAfter(s, |rs|)
    ensures Valid(u, pages) && Reaches(u, pages, rs[1..], t) && AllNew(u, rs[1..]) && FreeAfter(u, |rs| - 1)
    ensures rs[0].v !in s.table && u.table == s.table[rs[0].v := s.previous + 1]
    ensures u.previous == s.previous + 1 && u.adjacentLeft == s.adjacentLeft - 1 && u.mapped == s.mapped + 1
  {
    var v, p := rs[0].v, s.previous + 1;
    assert v !in s.table && p !in s.inverse;
    TouchKeeps(s, pages, v, rs[0].draws, rs[0].adjacent);
    NextNeighbour(s, pages, v, rs[0].draws, rs[0].adjacent);
    u := Touch(s, pages, v, rs[0].draws, rs[0].adjacent);
    hide Valid, Touch, Enough;
    StillNew(s, u, rs, p);
  }

  /** The requests got the pages after p, in order. */
  ghost predicate Placed(table: map<nat, nat>, rs: seq<Request>, p: nat) {
    forall i :: 0 <= i < |rs| ==> rs[i].v in table && table[rs[i].v] == p + 1 + i
  }

  ghost predicate Extends(a: map<nat, nat>, b: map<nat, nat>) { forall v :: v in a ==> v in b && b[v] == a[v] }

  lemma OneInFront(a: map<nat, nat>, b: map<nat, nat>, c: map<nat, nat>, rs: seq<Request>, p: nat)
    requires rs != [] && rs[0].v !in a && b == a[rs[0].v := p + 1] && Extends(b, c) && Placed(c, rs[1..], p + 1)
    ensures Extends(a, c) && Placed(c, rs, p)
  {
    forall i | 0 <= i < |rs| ensures rs[i].v in c && c[rs[i].v] == p + 1 + i {
      if i > 0 { assert rs[i] == rs[1..][i - 1]; } else { assert rs[0].v in b; }
    }
  }

  lemma StillNew(s: State, u: State, rs: seq<Request>, p: nat)
    requires rs != [] && AllNew(s, rs) && FreeAfter(s, |rs|) && p == s.previous + 1
    requires u.table == s.table[rs[0].v := p] && u.inverse == s.inverse[p := rs[0].v] && u.previous == p
    ensures AllNew(u, rs[1..]) && FreeAfter(u, |rs| - 1) && p !in s.inverse && rs[0].v !in s.table
  {
    assert forall i :: 0 <= i < |rs| - 1 ==> rs[1..][i] == rs[i + 1];
  }

  // ---------- the page queue ----------

  /** What came before, and the pages that a run translates for the first time, in order. */
  ghost function Arrived(s: State, pages: nat, rs: seq<Request>, before: seq<nat>): seq<nat>
    requires Valid(s, pages) && pages > 0
    decreases |rs|
  {
    if rs == [] || !Enough(s, rs[0].draws) || rs[0].adjacent > 512 then before else
    TouchKeeps(s, pages, rs[0].v, rs[0].draws, rs[0].adjacent);
    Arrived(Touch(s, pages, rs[0].v, rs[0].draws, rs[0].adjacent), pages, rs[1..],
            if rs[0].v in s.table then before else before + [rs[0].v])
  }

  /** The last n of a sequence. */
  function Suffix(q: seq<nat>, n: nat): seq<nat> { if n <= |q| then q[|q| - n..] else q }

  /** Over every run: the queue holds the pages that came last, in the order they came, as many as memory has room
      for. */
  lemma {:induction false} QueueIsLastArrivals(s: State, pages: nat, rs: seq<Request>, t: State, before: seq<nat>)
    requires Valid(s, pages) && pages > 0 && Reaches(s, pages, rs, t) && s.queue == Suffix(before, pages)
    ensures t.queue == Suffix(Arrived(s, pages, rs, before), pages)
    decreases |rs|
  {
    if rs != [] {
      var v := rs[0].v;
      TouchKeeps(s, pages, v, rs[0].draws, rs[0].adjacent);
      var u := Touch(s, pages, v, rs[0].draws, rs[0].adjacent);
      OneArrival(s, pages, v, rs[0].draws, rs[0].adjacent, before);
      hide Touch, Valid, Suffix;
      QueueIsLastArrivals(u, pages, rs[1..], t, if v in s.table then before else before + [v]);
    }
  }

  lemma OneArrival(s: State, pages: nat, v: nat, draws: seq<nat>, adjacent: nat, before: seq<nat>)
    requires Valid(s, pages) && pages > 0 && Enough(s, draws) && s.queue == Suffix(before, pages)
    ensures Touch(s, pages, v, draws, adjacent).queue
         == Suffix(if v in s.table then before else before + [v], pages)
  {
    var q, n := s.queue, |before|;
    assert s.mapped == |q| <= pages;
    if v !in s.table && s.mapped >= pages { assert q[1..] + [v] == (before + [v])[n + 1 - pages..]; }
  }
}
