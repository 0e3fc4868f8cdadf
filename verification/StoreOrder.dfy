/** Stores occupy the store queue in program order, then in destination order, in every reachable state. */
module StoreOrder {
  import opened StoreModel

  /** How many stores in flight come before destination d of instruction w. */
  ghost function Position(window: seq<Instr>, w: nat, d: nat): nat
    requires w < |window| && d <= |window[w].dests|
  {
    |Stores(window[..w])| + |Own(window[w], d)|
  }

  ghost predicate IdsIncrease(window: seq<Instr>) {
    forall v, w :: 0 <= v < w < |window| ==> window[v].id < window[w].id
  }

  /** The ring holds exactly the oldest `occupancy` stores in flight, oldest at the head. */
  ghost predicate RingOk(s: State)
    requires Shaped(s)
  {
    && s.occupancy <= |Stores(s.window)| && s.tail == At(s.head, s.occupancy)
    && (forall k :: 0 <= k < s.occupancy ==> s.sq[At(s.head, k)] == Holds(Stores(s.window)[k]))
    && (forall k :: s.occupancy <= k < SQ_SIZE ==> s.sq[At(s.head, k)] == Empty)
  }

  ghost predicate DestOk(s: State, w: nat, d: nat)
    requires Shaped(s) && w < |s.window| && d < |s.window[w].dests|
  {
    var e, p := s.window[w], Position(s.window, w, d);
    && (e.added[d] <==> e.dests[d] != 0 && p < s.occupancy)
    && e.sqIndex[d] == (if e.added[d] then At(s.head, p) else -1)
  }

  ghost predicate DestsOk(s: State)
    requires Shaped(s)
  {
    forall w, d :: 0 <= w < |s.window| && 0 <= d < |s.window[w].dests| ==> DestOk(s, w, d)
  }

  ghost predicate StagesOk(s: State)
    requires Shaped(s)
  {
    forall w :: 0 <= w < |s.window| ==>
      && (s.window[w].issued ==> AllAdded(s.window[w]))
      && (s.window[w].completed ==> s.window[w].issued)
  }

  ghost predicate Valid(s: State) {
    && Shaped(s) && IdsIncrease(s.window)
    && RingOk(s) && s.sta == Ids(Stores(s.window)[s.occupancy..])
    && DestsOk(s) && StagesOk(s)
  }

  // ---------- the order of stores ----------

  lemma {:induction false} StoresConcat(a: seq<Instr>, b: seq<Instr>)
    ensures Stores(a + b) == Stores(a) + Stores(b)
  {
    if b == [] {
      assert a + b == a;
    } else {
      hide Own;
      var n := |b| - 1;
      StoresConcat(a, b[..n]);
      assert (a + b)[..|a + b| - 1] == a + b[..n] && (a + b)[|a + b| - 1] == b[n];
      Regroup(Stores(a), Stores(b[..n]), Own(b[n], |b[n].dests|));
    }
  }

  lemma StoresSplit(window: seq<Instr>, w: nat)
    requires w < |window|
    ensures Stores(window) == Stores(window[..w]) + Own(window[w], |window[w].dests|) + Stores(window[w + 1..])
  {
    assert window == window[..w] + [window[w]] + window[w + 1..];
    StoresConcat(window[..w] + [window[w]], window[w + 1..]);
    StoresConcat(window[..w], [window[w]]);
    assert [window[w]][..0] == [];
  }

  lemma {:induction false} OwnIsPrefix(e: Instr, d: nat, n: nat)
    requires d <= n <= |e.dests|
    ensures |Own(e, d)| <= |Own(e, n)| && Own(e, n)[..|Own(e, d)|] == Own(e, d)
    ensures d < n && e.dests[d] != 0 ==>
              |Own(e, d)| < |Own(e, n)| && Own(e, n)[|Own(e, d)|] == Store(e.id, d, e.dests[d])
  {
    if d < n { OwnIsPrefix(e, d, n - 1); }
  }

  lemma {:induction false} OwnIds(e: Instr, n: nat)
    requires n <= |e.dests|
    ensures forall k :: 0 <= k < |Own(e, n)| ==>
              Own(e, n)[k].id == e.id && Own(e, n)[k].address != 0 && Own(e, n)[k].slot < n
  {
    if n > 0 { OwnIds(e, n - 1); }
  }

  /** A used destination is the store at its position. */
  lemma StoreAtPosition(window: seq<Instr>, w: nat, d: nat)
    requires w < |window| && d < |window[w].dests| && window[w].dests[d] != 0
    ensures Position(window, w, d) < |Stores(window)|
    ensures Stores(window)[Position(window, w, d)] == Store(window[w].id, d, window[w].dests[d])
  {
    StoresSplit(window, w);
    OwnIsPrefix(window[w], d, |window[w].dests|);
  }

  lemma {:induction false} EarlierIds(window: seq<Instr>, id: nat)
    requires forall v :: 0 <= v < |window| ==> window[v].id < id
    ensures forall k :: 0 <= k < |Stores(window)| ==> Stores(window)[k].id < id
  {
    if window != [] {
      var n := |window| - 1;
      EarlierIds(window[..n], id);
      OwnIds(window[n], |window[n].dests|);
    }
  }

  /** Program order, then destination order: the stores in flight are sorted. */
  lemma {:induction false} StoresAreSorted(window: seq<Instr>)
    requires IdsIncrease(window)
    ensures forall j, k :: 0 <= j < k < |Stores(window)| ==>
              var a, b := Stores(window)[j], Stores(window)[k];
              a.id < b.id || (a.id == b.id && a.slot < b.slot)
  {
    if window != [] {
      var n := |window| - 1;
      StoresAreSorted(window[..n]);
      EarlierIds(window[..n], window[n].id);
      OwnIds(window[n], |window[n].dests|);
      OwnIsSorted(window[n], |window[n].dests|);
    }
  }

  lemma {:induction false} OwnIsSorted(e: Instr, n: nat)
    requires n <= |e.dests|
    ensures forall j, k :: 0 <= j < k < |Own(e, n)| ==> Own(e, n)[j].slot < Own(e, n)[k].slot
  {
    if n > 0 { OwnIsSorted(e, n - 1); OwnIds(e, n - 1); }
  }

  /** Flags and indices do not matter to which stores are in flight. */
  lemma {:induction false} SameStores(a: seq<Instr>, b: seq<Instr>)
    requires |a| == |b| && forall w :: 0 <= w < |a| ==> a[w].id == b[w].id && a[w].dests == b[w].dests
    ensures Stores(a) == Stores(b)
  {
    if a != [] {
      var n := |a| - 1;
      SameStores(a[..n], b[..n]);
      SameOwn(a[n], b[n], |a[n].dests|);
    }
  }

  lemma {:induction false} SameOwn(a: Instr, b: Instr, n: nat)
    requires a.id == b.id && a.dests == b.dests && n <= |a.dests|
    ensures Own(a, n) == Own(b, n)
  {
    if n > 0 { SameOwn(a, b, n - 1); }
  }

  lemma SamePosition(a: seq<Instr>, b: seq<Instr>, w: nat, d: nat)
    requires |a| == |b| && forall v :: 0 <= v < |a| ==> a[v].id == b[v].id && a[v].dests == b[v].dests
    requires w < |a| && d <= |a[w].dests|
    ensures Position(a, w, d) == Position(b, w, d)
  {
    SameStores(a[..w], b[..w]);
    SameOwn(a[w], b[w], d);
  }

  // ---------- reading the trace ----------

  lemma ReadKeeps(s: State, id: nat, dests: seq<nat>)
    requires Valid(s) && forall w :: 0 <= w < |s.window| ==> s.window[w].id < id
    ensures Valid(Read(s, id, dests))
  {
    var e := Fresh(id, dests);
    var t := Read(s, id, dests);
    var own := Own(e, |dests|);
    assert t.window[..|s.window|] == s.window;
    assert Stores(t.window) == Stores(s.window) + own;
    assert Stores(t.window)[s.occupancy..] == Stores(s.window)[s.occupancy..] + own;
    hide Own, Stores;
    forall w, d | 0 <= w < |t.window| && 0 <= d < |t.window[w].dests| ensures DestOk(t, w, d) {
      if w < |s.window| {
        assert t.window[..w] == s.window[..w];
        assert DestOk(s, w, d);
      }
    }
  }

  // ---------- insertion ----------

  /** The STA head names instruction w exactly while w owns the oldest store outside the queue; with the
      destinations below d already queued, that store is destination d. */
  lemma NextIsHere(s: State, w: nat, d: nat)
    requires Valid(s) && w < |s.window| && d < |s.window[w].dests| && s.window[w].dests[d] != 0 && !s.window[w].added[d]
    requires s.sta != [] && s.sta[0] == s.window[w].id
    requires forall x :: 0 <= x < d && s.window[w].dests[x] != 0 ==> s.window[w].added[x]
    ensures Position(s.window, w, d) == s.occupancy
  {
    var all, e := Stores(s.window), s.window[w];
    assert DestOk(s, w, d);
    assert all[s.occupancy].id == e.id;
    StoresSplit(s.window, w);
    EarlierIds(s.window[..w], e.id);
    assert s.occupancy >= |Stores(s.window[..w])|;
    OwnBelow(s, w, d);
  }

  /** With all used destinations below d queued, destination d is at most one past the queue. */
  lemma {:induction false} OwnBelow(s: State, w: nat, d: nat)
    requires Valid(s) && w < |s.window| && d <= |s.window[w].dests|
    requires forall x :: 0 <= x < d && s.window[w].dests[x] != 0 ==> s.window[w].added[x]
    ensures Position(s.window, w, d) <= s.occupancy || Own(s.window[w], d) == []
  {
    hide RingOk, StagesOk, Stores;
    if d > 0 {
      if s.window[w].dests[d - 1] != 0 {
        assert DestOk(s, w, d - 1);
      } else {
        OwnBelow(s, w, d - 1);
      }
    }
  }

  lemma AddStoreRing(s: State, w: nat, d: nat) returns (t: State)
    requires Valid(s) && w < |s.window| && d < |s.window[w].dests| && s.window[w].dests[d] != 0
    requires s.sta != [] && s.occupancy < SQ_SIZE && Position(s.window, w, d) == s.occupancy
    ensures t == AddStore(s, w, d) && Stores(t.window) == Stores(s.window)
    ensures s.sq[s.tail] == Empty
    ensures Shaped(t) && RingOk(t) && t.sta == Ids(Stores(t.window)[t.occupancy..]) && IdsIncrease(t.window)
    ensures t.head == s.head && t.occupancy == s.occupancy + 1 && t.tail == Next(s.tail)
  {
    hide DestsOk, StagesOk;
    t := AddStore(s, w, d);
    SameStores(s.window, t.window);
    StoreAtPosition(s.window, w, d);
    var all := Stores(s.window);
    assert Ids(all[s.occupancy..])[1..] == Ids(all[s.occupancy + 1..]);
    assert At(s.head, s.occupancy) == s.tail;
  }

  lemma AddStoreKeeps(s: State, w: nat, d: nat)
    requires Valid(s) && w < |s.window| && d < |s.window[w].dests| && s.window[w].dests[d] != 0
    requires s.sta != [] && s.occupancy < SQ_SIZE && Position(s.window, w, d) == s.occupancy
    ensures s.sq[s.tail] == Empty
    ensures Valid(AddStore(s, w, d))
  {
    hide RingOk, Stores, Own, DestsOk;
    var t := AddStoreRing(s, w, d);
    AddStoreDests(s, t, w, d);
  }

  lemma AddStoreDests(s: State, t: State, w: nat, d: nat)
    requires Valid(s) && w < |s.window| && d < |s.window[w].dests| && s.window[w].dests[d] != 0
    requires s.sta != [] && s.occupancy < SQ_SIZE && Position(s.window, w, d) == s.occupancy
    requires t == AddStore(s, w, d)
    ensures DestsOk(t)
  {
    hide Stores, Own, Position, StagesOk;
    assert At(s.head, s.occupancy) == s.tail by { assert RingOk(s); }
    hide RingOk;
    StoreAtPosition(s.window, w, d);
    forall v, x | 0 <= v < |t.window| && 0 <= x < |t.window[v].dests| ensures DestOk(t, v, x) {
      SamePosition(s.window, t.window, v, x);
      assert DestOk(s, v, x);
      if s.window[v].dests[x] != 0 { StoreAtPosition(s.window, v, x); }
    }
  }

  /** Why a store stays outside: the queue is full, or an older store must go first. */
  ghost predicate Blocked(s: State, id: nat) { s.occupancy == SQ_SIZE || s.sta == [] || s.sta[0] != id }

  /** check_and_add_lsq keeps the order whatever instruction it is called for, and every store it adds
      goes to an empty slot. */
  lemma {:induction false} AddStoresKeeps(s: State, w: nat, n: nat)
    requires Valid(s) && w < |s.window| && n <= |s.window[w].dests|
    ensures var r := AddStores(s, w, n);
            && Valid(r) && |r.window| == |s.window| && r.dispatched == s.dispatched && r.written == s.written
            && Stores(r.window) == Stores(s.window) && r.head == s.head && r.occupancy >= s.occupancy
            && (forall v :: 0 <= v < |s.window| ==>
                  r.window[v].id == s.window[v].id && r.window[v].dests == s.window[v].dests
                  && r.window[v].issued == s.window[v].issued && r.window[v].completed == s.window[v].completed)
            && (Blocked(r, s.window[w].id)
                || forall x :: 0 <= x < n && s.window[w].dests[x] != 0 ==> r.window[w].added[x])
  {
    hide RingOk, DestsOk, StagesOk, Stores, Position, IdsIncrease, AddStore;
    if n > 0 {
      AddStoresKeeps(s, w, n - 1);
      var before := AddStores(s, w, n - 1);
      var e := before.window[w];
      if e.dests[n - 1] != 0 && !e.added[n - 1] && before.occupancy < SQ_SIZE && before.sta != []
          && before.sta[0] == e.id {
        NextIsHere(before, w, n - 1);
        AddStoreKeeps(before, w, n - 1);
        var t := AddStoreRing(before, w, n - 1);
        AddStoreFrame(before, w, n - 1);
      }
    }
  }

  lemma AddStoreFrame(s: State, w: nat, d: nat)
    requires Shaped(s) && w < |s.window| && d < |s.window[w].dests| && s.sta != [] && s.occupancy < SQ_SIZE
    ensures var t := AddStore(s, w, d);
            && |t.window| == |s.window| && t.dispatched == s.dispatched && t.written == s.written
            && (forall v :: 0 <= v < |s.window| ==>
                  t.window[v].id == s.window[v].id && t.window[v].dests == s.window[v].dests
                  && t.window[v].issued == s.window[v].issued && t.window[v].completed == s.window[v].completed)
            && (forall x :: 0 <= x < |s.window[w].dests| ==> t.window[w].added[x] == (s.window[w].added[x] || x == d))
  {
  }

  lemma ScheduleKeeps(s: State, w: nat, loadsQueued: bool)
    requires Valid(s) && w < s.dispatched
    ensures Valid(Schedule(s, w, loadsQueued)) && Stores(Schedule(s, w, loadsQueued).window) == Stores(s.window)
  {
    var n := |s.window[w].dests|;
    AddStoresKeeps(s, w, n);
    var r := AddStores(s, w, n);
    if AllAdded(r.window[w]) && loadsQueued { StageKeeps(r, w, r.window[w].(issued := true)); }
  }

  lemma StageKeeps(s: State, w: nat, e: Instr)
    requires Valid(s) && w < |s.window| && e == s.window[w].(issued := e.issued, completed := e.completed)
    requires (e.issued ==> AllAdded(s.window[w])) && (e.completed ==> e.issued)
    ensures Valid(s.(window := s.window[w := e])) && Stores(s.window[w := e]) == Stores(s.window)
  {
    var t := s.(window := s.window[w := e]);
    SameStores(s.window, t.window);
    forall v, x | 0 <= v < |t.window| && 0 <= x < |t.window[v].dests| ensures DestOk(t, v, x) {
      SamePosition(s.window, t.window, v, x);
      assert DestOk(s, v, x);
    }
  }

  lemma CompleteKeeps(s: State, w: nat)
    requires Valid(s) && w < s.dispatched
    ensures Valid(Complete(s, w)) && Stores(Complete(s, w).window) == Stores(s.window)
    ensures Complete(s, w).written == s.written
  {
    if s.window[w].issued { StageKeeps(s, w, s.window[w].(completed := true)); }
  }

  // ---------- retirement ----------

  /** The k-th store of the oldest instruction sits in the k-th slot from the head. */
  lemma HeadDest(s: State, d: nat)
    requires Valid(s) && |s.window| > 0 && AllAdded(s.window[0]) && d < |s.window[0].dests|
    ensures var e, p := s.window[0], |Own(s.window[0], d)|;
            if e.dests[d] == 0 then e.sqIndex[d] == -1
            else p < s.occupancy && e.sqIndex[d] == At(s.head, p)
                 && s.sq[At(s.head, p)] == Holds(Store(e.id, d, e.dests[d]))
  {
    assert DestOk(s, 0, d);
    assert s.window[..0] == [];
    hide StagesOk, Own, DestsOk;
    if s.window[0].dests[d] != 0 { StoreAtPosition(s.window, 0, d); }
  }

  /** The retiring instruction frees its slots at the head, one after the other, and what it sends are
      exactly its own stores. */
  lemma {:induction false} ReleaseFromHead(s: State, n: nat)
    requires Valid(s) && |s.window| > 0 && AllAdded(s.window[0]) && n <= |s.window[0].dests|
    ensures var e := s.window[0];
            var r, m := Release(s, e, n), |Own(e, n)|;
            && m <= s.occupancy && r.head == At(s.head, m) && r.occupancy == s.occupancy - m
            && (forall k :: 0 <= k < SQ_SIZE ==> r.sq[At(s.head, k)] == if k < m then Empty else s.sq[At(s.head, k)])
            && Sent(s, e, n) == Own(e, n)
            && (n < |e.dests| && e.dests[n] != 0 ==> e.sqIndex[n] == r.head)
  {
    hide RingOk, DestsOk, StagesOk, Stores, IdsIncrease;
    if n < |s.window[0].dests| { HeadDest(s, n); }
    if n > 0 {
      ReleaseFromHead(s, n - 1);
      HeadDest(s, n - 1);
    }
  }

  /** Freeing the m slots at the head of a ring that holds `all` leaves a ring that holds the rest. */
  lemma RotateRing(a: seq<Entry>, b: seq<Entry>, head: nat, n: nat, m: nat, all: seq<Store>)
    requires |a| == |b| == SQ_SIZE && head < SQ_SIZE && m <= n <= SQ_SIZE && n <= |all|
    requires forall k :: 0 <= k < SQ_SIZE ==> a[At(head, k)] == if k < n then Holds(all[k]) else Empty
    requires forall k :: 0 <= k < SQ_SIZE ==> b[At(head, k)] == if k < m then Empty else a[At(head, k)]
    ensures var h := At(head, m) % SQ_SIZE;
            forall k :: 0 <= k < SQ_SIZE ==> b[At(h, k)] == if k < n - m then Holds(all[m..][k]) else Empty
  {
    var h := At(head, m) % SQ_SIZE;
    forall k | 0 <= k < SQ_SIZE ensures b[At(h, k)] == if k < n - m then Holds(all[m..][k]) else Empty {
      var j := if k + m < SQ_SIZE then k + m else k + m - SQ_SIZE;
      assert At(h, k) == At(head, j);
    }
  }

  lemma RetireParts(s: State) returns (t: State, m: nat)
    requires Valid(s) && s.dispatched > 0 && s.window[0].completed
    ensures t == Retire(s) && m == |Own(s.window[0], |s.window[0].dests|)|
    ensures Stores(s.window) == Own(s.window[0], |s.window[0].dests|) + Stores(t.window)
    ensures t.written == s.written + Own(s.window[0], |s.window[0].dests|)
    ensures m <= s.occupancy && t.occupancy == s.occupancy - m && t.head == At(s.head, m)
    ensures t.window == s.window[1..] && t.dispatched == s.dispatched - 1
    ensures Shaped(t) && RingOk(t) && t.sta == Ids(Stores(t.window)[t.occupancy..])
  {
    var e := s.window[0];
    var n := |e.dests|;
    assert AllAdded(e);
    ReleaseFromHead(s, n);
    StoresSplit(s.window, 0);
    assert s.window[..0] == [];
    t := Retire(s);
    m := |Own(e, n)|;
    hide DestsOk, StagesOk, IdsIncrease, Own, Release, Sent, Stores;
    var all, rest := Stores(s.window), Stores(t.window);
    assert all[s.occupancy..] == rest[t.occupancy..];
    assert all[m..] == rest;
    RetireRing(s, t, m);
  }

  lemma RetireRing(s: State, t: State, m: nat)
    requires Shaped(s) && RingOk(s) && Shaped(t) && m <= s.occupancy && t.occupancy == s.occupancy - m
    requires t.head == At(s.head, m) && t.tail == s.tail && Stores(t.window) == Stores(s.window)[m..]
    requires forall k :: 0 <= k < SQ_SIZE ==> t.sq[At(s.head, k)] == if k < m then Empty else s.sq[At(s.head, k)]
    ensures RingOk(t)
  {
    hide Stores;
    RotateRing(s.sq, t.sq, s.head, s.occupancy, m, Stores(s.window));
    assert At(s.head, m) % SQ_SIZE == t.head;
  }

  lemma RetireKeeps(s: State)
    requires Valid(s)
    ensures Valid(Retire(s))
    ensures Retire(s).written + Stores(Retire(s).window) == s.written + Stores(s.window)
  {
    hide RingOk, Own, Stores, Release, Sent;
    if s.dispatched > 0 && s.window[0].completed {
      var t, m := RetireParts(s);
      RetireDests(s, t, m);
      assert forall w :: 0 <= w < |t.window| ==> t.window[w] == s.window[w + 1];
    }
  }

  lemma RetireDests(s: State, t: State, m: nat)
    requires Valid(s) && |s.window| > 0 && t.window == s.window[1..] && Shaped(t)
             && m == |Own(s.window[0], |s.window[0].dests|)|
    requires m <= s.occupancy && t.occupancy == s.occupancy - m && t.head == At(s.head, m)
    ensures DestsOk(t)
  {
    hide RingOk, StagesOk;
    forall w, d | 0 <= w < |t.window| && 0 <= d < |t.window[w].dests| ensures DestOk(t, w, d) {
      assert DestOk(s, w + 1, d);
      assert t.window[w] == s.window[w + 1];
      ShiftedPosition(s.window, w, d);
    }
  }

  lemma ShiftedPosition(window: seq<Instr>, w: nat, d: nat)
    requires w + 1 < |window| && d <= |window[w + 1].dests|
    ensures Position(window, w + 1, d) == Position(window[1..], w, d) + |Own(window[0], |window[0].dests|)|
  {
    assert window[..w + 1] == [window[0]] + window[1..][..w];
    StoresConcat([window[0]], window[1..][..w]);
    assert [window[0]][..0] == [];
  }

  // ---------- whole runs ----------

  datatype Event =
    | Reads(id: nat, dests: seq<nat>)
    | Dispatches
    | Schedules(w: nat, loadsQueued: bool)
    | Completes(w: nat)
    | Retires

  ghost predicate Enabled(s: State, e: Event) {
    match e
    case Reads(id, _) => forall w :: 0 <= w < |s.window| ==> s.window[w].id < id
    case Dispatches => s.dispatched < |s.window|
    case Schedules(w, _) => w < s.dispatched
    case Completes(w) => w < s.dispatched
    case Retires => true
  }

  ghost function Step(s: State, e: Event): State
    requires Shaped(s) && Enabled(s, e)
  {
    match e
    case Reads(id, dests) => Read(s, id, dests)
    case Dispatches => Dispatch(s)
    case Schedules(w, loadsQueued) => Schedule(s, w, loadsQueued)
    case Completes(w) => Complete(s, w)
    case Retires => Retire(s)
  }

  /** The stores an event brings into the machine. */
  ghost function Brings(e: Event): seq<Store> {
    match e
    case Reads(id, dests) => Own(Fresh(id, dests), |dests|)
    case _ => []
  }

  lemma StepKeeps(s: State, e: Event)
    requires Valid(s) && Enabled(s, e)
    ensures Valid(Step(s, e))
    ensures Step(s, e).written + Stores(Step(s, e).window) == s.written + Stores(s.window) + Brings(e)
  {
    assert Shaped(s);
    hide Valid, Stores, Own, Fresh, Schedule, Complete, Retire, Dispatch, Read;
    var all := s.written + Stores(s.window);
    assert all + [] == all;
    match e
    case Reads(id, dests) =>
      ReadKeeps(s, id, dests);
      ReadBrings(s, id, dests);
    case Dispatches =>
      DispatchKeeps(s);
    case Schedules(w, loadsQueued) =>
      ScheduleKeeps(s, w, loadsQueued);
      ScheduleWrites(s, w, loadsQueued);
    case Completes(w) =>
      CompleteKeeps(s, w);
    case Retires =>
      RetireKeeps(s);
  }

  lemma ReadBrings(s: State, id: nat, dests: seq<nat>)
    ensures var t := Read(s, id, dests);
            t.written + Stores(t.window) == s.written + Stores(s.window) + Own(Fresh(id, dests), |dests|)
  {
    hide Own;
    assert Read(s, id, dests).window[..|s.window|] == s.window;
    Regroup(s.written, Stores(s.window), Own(Fresh(id, dests), |dests|));
  }

  lemma DispatchKeeps(s: State)
    requires Valid(s) && s.dispatched < |s.window|
    ensures Valid(Dispatch(s)) && Dispatch(s).written == s.written && Dispatch(s).window == s.window
  {
    var t := Dispatch(s);
    forall w, d | 0 <= w < |t.window| && 0 <= d < |t.window[w].dests|
      ensures DestOk(t, w, d)
    {
      assert DestOk(s, w, d);
    }
  }

  lemma ScheduleWrites(s: State, w: nat, loadsQueued: bool)
    requires Valid(s) && w < s.dispatched
    ensures Schedule(s, w, loadsQueued).written == s.written
  {
    AddStoresKeeps(s, w, |s.window[w].dests|);
  }

  ghost function Brought(es: seq<Event>): seq<Store> {
    if es == [] then [] else Brings(es[0]) + Brought(es[1..])
  }

  /** A run from s through the events es to t. */
  ghost predicate Reaches(s: State, es: seq<Event>, t: State)
    decreases |es|
  {
    if es == [] then t == s
    else Shaped(s) && Enabled(s, es[0]) && Reaches(Step(s, es[0]), es[1..], t)
  }

  lemma Regroup(a: seq<Store>, b: seq<Store>, c: seq<Store>)
    ensures a + b + c == a + (b + c)
  {
  }

  /** Over every run: the stores written so far, then those in flight, are exactly the stores read, in
      the order they were read. No store is lost, duplicated or reordered on its way to the write queue. */
  lemma {:induction false} StoresLeaveInProgramOrder(s: State, es: seq<Event>, t: State)
    requires Valid(s) && Reaches(s, es, t)
    ensures Valid(t) && t.written + Stores(t.window) == s.written + Stores(s.window) + Brought(es)
    decreases |es|
  {
    hide Valid, Stores, Step, Brings;
    if es == [] {
      assert s.written + Stores(s.window) + [] == s.written + Stores(s.window);
    } else {
      StepKeeps(s, es[0]);
      StoresLeaveInProgramOrder(Step(s, es[0]), es[1..], t);
      Regroup(s.written + Stores(s.window), Brings(es[0]), Brought(es[1..]));
    }
  }

  lemma InitialIsValid()
    ensures Valid(Initial())
  {
  }

  // ---------- the order queue has room ----------

  lemma {:induction false} StoresPerInstr(window: seq<Instr>, limit: nat)
    requires forall w :: 0 <= w < |window| ==> |window[w].dests| <= limit
    ensures |Stores(window)| <= limit * |window|
  {
    if window != [] {
      var n := |window| - 1;
      StoresPerInstr(window[..n], limit);
      OwnLength(window[n], |window[n].dests|);
      hide Own;
      OneMoreTimes(limit, n);
    }
  }

  lemma OneMoreTimes(limit: nat, n: nat)
    ensures limit * (n + 1) == limit * n + limit
  {
  }

  lemma {:induction false} OwnLength(e: Instr, n: nat)
    requires n <= |e.dests|
    ensures |Own(e, n)| <= n
  {
    if n > 0 { OwnLength(e, n - 1); }
  }

  /** The order queue never holds more than `limit` entries for each instruction in flight. */
  lemma StaIsBounded(s: State, limit: nat)
    requires Valid(s) && forall w :: 0 <= w < |s.window| ==> |s.window[w].dests| <= limit
    ensures |s.sta| <= limit * |s.window|
  {
    StoresPerInstr(s.window, limit);
  }

  const ROB_SIZE: nat := 352
  const FRONT_SIZE: nat := 12 + 18
  const STA_SIZE: nat := ROB_SIZE * 4

  /** What was dispatched fits the reorder buffer and the rest the fetch and decode buffers; no instruction
      has more than `limit` destinations. */
  ghost predicate Fits(s: State, limit: nat) {
    && s.dispatched <= ROB_SIZE && |s.window| <= s.dispatched + FRONT_SIZE
    && forall w :: 0 <= w < |s.window| ==> |s.window[w].dests| <= limit
  }

  /** A run from s to t that stays within the buffers. */
  ghost predicate RunsWithin(s: State, es: seq<Event>, t: State, limit: nat)
    decreases |es|
  {
    && Fits(s, limit)
    && (if es == [] then t == s
        else Shaped(s) && Enabled(s, es[0]) && RunsWithin(Step(s, es[0]), es[1..], t, limit))
  }

  lemma {:induction false} RunsWithinReaches(s: State, es: seq<Event>, t: State, limit: nat)
    requires RunsWithin(s, es, t, limit)
    ensures Reaches(s, es, t) && Fits(t, limit)
    decreases |es|
  {
    hide Step, Enabled, Fits;
    if es != [] { RunsWithinReaches(Step(s, es[0]), es[1..], t, limit); }
  }

  lemma {:induction false} OneStepFurther(s: State, es: seq<Event>, t: State, e: Event, limit: nat)
    requires RunsWithin(s, es, t, limit) && Shaped(t) && Enabled(t, e) && Fits(Step(t, e), limit)
    ensures RunsWithin(s, es + [e], Step(t, e), limit)
    decreases |es|
  {
    hide Step, Enabled, Fits;
    if es == [] {
      assert ([] + [e])[1..] == [];
    } else {
      OneStepFurther(Step(s, es[0]), es[1..], t, e, limit);
      assert (es + [e])[1..] == es[1..] + [e];
    }
  }

  /** Whatever runs, the order queue has a place for every store outside the store queue. */
  ghost predicate StaSuffices(limit: nat) {
    forall es, s :: RunsWithin(Initial(), es, s, limit) ==> |s.sta| <= STA_SIZE
  }

  /** The order queue never overflows, over all runs, exactly when no instruction has more than three
      destinations. Traces with two are safe; those with four, as for cloudsuite, are not. */
  lemma StaSufficesExactly(limit: nat)
    ensures StaSuffices(limit) <==> limit <= 3
  {
    InitialIsValid();
    if limit <= 3 {
      forall es, s | RunsWithin(Initial(), es, s, limit) ensures |s.sta| <= STA_SIZE {
        RunsWithinReaches(Initial(), es, s, limit);
        StoresLeaveInProgramOrder(Initial(), es, s);
        StaIsBounded(s, limit);
        Bounded(limit, |s.window|);
      }
    } else {
      var es, s := StaOverflows(limit);
    }
  }

  lemma Bounded(limit: nat, n: nat)
    requires limit <= 3 && n <= ROB_SIZE + FRONT_SIZE
    ensures limit * n <= STA_SIZE
  {
  }

  /** n instructions read and dispatched one after the other, each with four stores. */
  ghost function FourStoresEach(n: nat): State {
    if n == 0 then Initial() else Dispatch(Read(FourStoresEach(n - 1), n, [1, 1, 1, 1]))
  }

  lemma {:induction false} FourStoresReached(n: nat, limit: nat) returns (es: seq<Event>)
    requires n <= ROB_SIZE && limit >= 4
    ensures var s := FourStoresEach(n);
            && RunsWithin(Initial(), es, s, limit) && Valid(s) && s.dispatched == n
            && |s.window| == n && |s.sta| == 4 * n && (forall w :: 0 <= w < n ==> s.window[w].id <= n)
  {
    hide Valid, Own, Read, Fresh;
    if n == 0 {
      InitialIsValid();
      es := [];
    } else {
      es := FourStoresReached(n - 1, limit);
      var s := FourStoresEach(n - 1);
      var t;
      es, t := FourMore(s, es, n, limit);
      RunsWithinReaches(Initial(), es, t, limit);
      hide RunsWithin;
      DispatchKeeps(t);
      OneStepFurther(Initial(), es, t, Dispatches, limit);
      es := es + [Dispatches];
    }
  }

  /** One more instruction with four stores arrives. */
  lemma FourMore(s: State, es: seq<Event>, id: nat, limit: nat) returns (es': seq<Event>, t: State)
    requires RunsWithin(Initial(), es, s, limit) && Valid(s) && limit >= 4
    requires |s.window| < s.dispatched + FRONT_SIZE && forall w :: 0 <= w < |s.window| ==> s.window[w].id < id
    ensures RunsWithin(Initial(), es', t, limit) && Valid(t) && t == Read(s, id, [1, 1, 1, 1])
    ensures t.dispatched == s.dispatched && |t.window| == |s.window| + 1 && |t.sta| == |s.sta| + 4
    ensures t.window[..|s.window|] == s.window && t.window[|s.window|].id == id
  {
    var dests: seq<nat> := [1, 1, 1, 1];
    RunsWithinReaches(Initial(), es, s, limit);
    ReadKeeps(s, id, dests);
    FourOwn(id, dests);
    ReadGrows(s, id, dests);
    t := Read(s, id, dests);
    OneStepFurther(Initial(), es, s, Reads(id, dests), limit);
    es' := es + [Reads(id, dests)];
  }

  lemma ReadGrows(s: State, id: nat, dests: seq<nat>)
    ensures Fresh(id, dests).dests == dests
    ensures var t := Read(s, id, dests);
            && t.window == s.window + [Fresh(id, dests)] && Fresh(id, dests).id == id && t.dispatched == s.dispatched
            && |t.sta| == |s.sta| + |Own(Fresh(id, dests), |dests|)|
  {
    hide Own;
  }

  lemma FourOwn(id: nat, dests: seq<nat>)
    requires dests == [1, 1, 1, 1]
    ensures Fresh(id, dests).dests == dests && |Own(Fresh(id, dests), 4)| == 4
  {
    var e := Fresh(id, dests);
    assert |Own(e, 1)| == 1;
    assert |Own(e, 2)| == 2;
    assert |Own(e, 3)| == 3;
  }

  /** With the reorder buffer full of four-store instructions that wait, one more overflows the order queue. */
  lemma StaOverflows(limit: nat) returns (es: seq<Event>, s: State)
    requires limit >= 4
    ensures RunsWithin(Initial(), es, s, limit) && Reaches(Initial(), es, s) && |s.sta| > STA_SIZE
  {
    hide Valid, RunsWithin, Read, FourStoresEach;
    es := FourStoresReached(ROB_SIZE, limit);
    es, s := FourMore(FourStoresEach(ROB_SIZE), es, ROB_SIZE + 1, limit);
    RunsWithinReaches(Initial(), es, s, limit);
  }
}
