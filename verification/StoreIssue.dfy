/** How far each call brings the stores of an instruction, and that the stores in flight can always leave. */
module StoreIssue {
  import opened StoreModel
  import opened StoreOrder

  function Min(a: nat, b: nat): nat { if a < b then a else b }

  function Max(a: nat, b: nat): nat { if a < b then b else a }

  /** The stores in flight before the first store of instruction w. */
  ghost function Earlier(window: seq<Instr>, w: nat): nat
    requires w < |window|
  {
    |Stores(window[..w])|
  }

  /** The store queue after the stores of w below destination n were offered: nothing while an older instruction
      has a store outside, else as many as there is room for. */
  ghost function Reached(s: State, w: nat, n: nat): nat
    requires w < |s.window| && n <= |s.window[w].dests|
  {
    if s.occupancy < Earlier(s.window, w) then s.occupancy
    else Max(s.occupancy, Min(SQ_SIZE, Position(s.window, w, n)))
  }

  lemma PositionGrows(window: seq<Instr>, w: nat, d: nat)
    requires w < |window| && d < |window[w].dests|
    ensures Position(window, w, d + 1) == Position(window, w, d) + if window[w].dests[d] != 0 then 1 else 0
    ensures Position(window, w, d) >= Earlier(window, w)
  {
  }

  /** The order queue names w exactly when the oldest store outside the queue is one of w. */
  lemma HeadNamesOldest(s: State, w: nat, d: nat)
    requires Valid(s) && w < |s.window| && d < |s.window[w].dests| && s.window[w].dests[d] != 0
    ensures s.occupancy < Earlier(s.window, w) ==> s.sta != [] && s.sta[0] != s.window[w].id
    ensures s.occupancy == Position(s.window, w, d) ==> s.sta != [] && s.sta[0] == s.window[w].id
  {
    StoreAtPosition(s.window, w, d);
    if s.occupancy < Earlier(s.window, w) {
      EarlierIds(s.window[..w], s.window[w].id);
      StoresSplit(s.window, w);
      assert Stores(s.window)[s.occupancy] == Stores(s.window[..w])[s.occupancy];
    }
  }

  lemma NothingOffered(s: State, w: nat)
    requires w < |s.window|
    ensures Reached(s, w, 0) == s.occupancy
  {
  }

  /** check_and_add_lsq takes exactly the stores there is room for, once everything older is queued. */
  lemma {:induction false} QueuedExactly(s: State, w: nat, n: nat)
    requires Valid(s) && w < |s.window| && n <= |s.window[w].dests|
    ensures AddStores(s, w, n).occupancy == Reached(s, w, n)
  {
    hide Stores, Own, RingOk, DestsOk, StagesOk, Reached;
    if n == 0 {
      NothingOffered(s, w);
    } else {
      QueuedExactly(s, w, n - 1);
      AddStoresKeeps(s, w, n - 1);
      OneMore(s, AddStores(s, w, n - 1), w, n - 1);
    }
  }

  lemma OneMore(s: State, before: State, w: nat, d: nat)
    requires Valid(s) && w < |s.window| && d < |s.window[w].dests| && before == AddStores(s, w, d)
    requires before.occupancy == Reached(s, w, d) && Valid(before) && |before.window| == |s.window|
    requires forall v :: 0 <= v < |s.window| ==>
               before.window[v].id == s.window[v].id && before.window[v].dests == s.window[v].dests
    ensures AddStores(s, w, d + 1).occupancy == Reached(s, w, d + 1)
  {
    SamePosition(s.window, before.window, w, d);
    SamePosition(s.window, before.window, w, 0);
    PositionGrows(s.window, w, d);
    hide Stores, Own, RingOk, StagesOk, AddStores;
    assert before.occupancy < Earlier(s.window, w) <==> s.occupancy < Earlier(s.window, w);
    assert Position(s.window, w, 0) == Earlier(s.window, w) by { assert |Own(s.window[w], 0)| == 0; }
    assert DestOk(before, w, d);
    if s.window[w].dests[d] != 0 { HeadNamesOldest(before, w, d); }
    OneAddition(s, w, d);
  }

  lemma OneAddition(s: State, w: nat, d: nat)
    requires Shaped(s) && w < |s.window| && d < |s.window[w].dests|
    ensures var before := AddStores(s, w, d);
            var e := before.window[w];
            AddStores(s, w, d + 1).occupancy == before.occupancy
              + if e.dests[d] != 0 && !e.added[d] && before.occupancy < SQ_SIZE && before.sta != []
                   && before.sta[0] == e.id then 1 else 0
  {
  }

  /** An instruction has all its stores queued exactly when it has none or the queue reaches past the last. */
  lemma AllAddedExactly(s: State, w: nat)
    requires Valid(s) && w < |s.window|
    ensures var e := s.window[w]; var n := |e.dests|;
            AllAdded(e) <==> Own(e, n) == [] || s.occupancy >= Position(s.window, w, n)
  {
    var e := s.window[w];
    var n := |e.dests|;
    if AllAdded(e) { OwnBelow(s, w, n); }
    forall d | 0 <= d < n && e.dests[d] != 0 && s.occupancy >= Position(s.window, w, n) ensures e.added[d] {
      OwnIsPrefix(e, d, n);
      assert DestOk(s, w, d);
    }
    forall d | 0 <= d < n && e.dests[d] != 0 ensures Own(e, n) != [] { OwnIsPrefix(e, d, n); }
  }

  /** An instruction issues exactly when its loads are queued and every store of it is; nothing else is issued and
      nothing completed on the way. */
  lemma IssuesExactly(s: State, w: nat, loadsQueued: bool)
    requires Valid(s) && w < s.dispatched
    ensures var t, n := Schedule(s, w, loadsQueued), |s.window[w].dests|;
            && t.occupancy == Reached(s, w, n) && |t.window| == |s.window| && t.dispatched == s.dispatched
            && (t.window[w].issued <==>
                  s.window[w].issued
                  || (loadsQueued && (Own(s.window[w], n) == [] || t.occupancy >= Position(s.window, w, n))))
            && (forall v :: 0 <= v < |s.window| ==>
                  && t.window[v].id == s.window[v].id && t.window[v].dests == s.window[v].dests
                  && t.window[v].completed == s.window[v].completed
                  && (v != w ==> t.window[v].issued == s.window[v].issued))
  {
    var n := |s.window[w].dests|;
    QueuedExactly(s, w, n);
    AddStoresKeeps(s, w, n);
    var r := AddStores(s, w, n);
    AllAddedExactly(r, w);
    SamePosition(s.window, r.window, w, n);
    SameOwn(s.window[w], r.window[w], n);
    hide Stores, Own, RingOk, DestsOk, StagesOk, AddStores, Reached, AllAdded, Position;
  }

  /** The oldest instruction issues as soon as its loads are queued, exactly when the store queue can hold all its
      stores at once. */
  lemma OldestIssuesExactly(s: State)
    requires Valid(s) && s.dispatched > 0 && !s.window[0].issued
    ensures Schedule(s, 0, true).window[0].issued <==> |Own(s.window[0], |s.window[0].dests|)| <= SQ_SIZE
  {
    IssuesExactly(s, 0, true);
    assert s.window[..0] == [];
    hide Own, RingOk, DestsOk, StagesOk, Schedule;
  }

  /** complete_execution completes an issued instruction and leaves any other alone. */
  lemma CompletesExactly(s: State, w: nat)
    requires Valid(s) && w < s.dispatched
    ensures Complete(s, w) ==
              if s.window[w].issued then s.(window := s.window[w := s.window[w].(completed := true)]) else s
    ensures Complete(s, w).window[w].completed <==> s.window[w].issued
  {
  }

  // ---------- all stores can leave ----------

  /** The same instructions, whatever became of them. */
  ghost predicate SameInstructions(a: seq<Instr>, b: seq<Instr>) {
    |a| == |b| && forall v :: 0 <= v < |a| ==> a[v].id == b[v].id && a[v].dests == b[v].dests
  }

  lemma OldestIssues(s: State, t: State)
    requires Shaped(s) && Shaped(t) && s.dispatched > 0 && t == Schedule(s, 0, true)
    requires Valid(s) && |Own(s.window[0], |s.window[0].dests|)| <= SQ_SIZE
    ensures Valid(t) && t.dispatched == s.dispatched && SameInstructions(s.window, t.window) && t.window[0].issued
  {
    IssuesExactly(s, 0, true);
    ScheduleKeeps(s, 0, true);
    if !s.window[0].issued { OldestIssuesExactly(s); }
    hide Valid, Own, Reached, Position, Schedule;
  }

  lemma OldestCompletes(s: State) returns (t: State)
    requires Valid(s) && s.dispatched > 0 && s.window[0].issued
    ensures t == Complete(s, 0) && Valid(t) && t.window[0].completed
    ensures t.dispatched == s.dispatched && SameInstructions(s.window, t.window)
  {
    t := Complete(s, 0);
    CompleteKeeps(s, 0);
    hide Valid, Own;
  }

  lemma OldestRetires(s: State) returns (t: State)
    requires Valid(s) && s.dispatched > 0 && s.window[0].completed
    ensures t == Retire(s) && Valid(t) && t.window == s.window[1..] && t.dispatched == s.dispatched - 1
  {
    var m;
    t, m := RetireParts(s);
    RetireKeeps(s);
    hide Valid, Own, Retire;
  }

  /** Scheduled, completed and retired: the oldest instruction is gone. */
  lemma OldestLeaves(s: State) returns (t: State)
    requires Valid(s) && s.dispatched > 0 && |Own(s.window[0], |s.window[0].dests|)| <= SQ_SIZE
    ensures Reaches(s, [Schedules(0, true), Completes(0), Retires], t) && Valid(t)
    ensures SameInstructions(s.window[1..], t.window) && t.dispatched == s.dispatched - 1
  {
    var issued := Schedule(s, 0, true);
    ScheduleKeeps(s, 0, true);
    OldestIssues(s, issued);
    var done := OldestCompletes(issued);
    t := OldestRetires(done);
    hide Valid, Own, Step, Schedule;
    ThreeSteps(s, issued, done, t);
  }

  lemma ThreeSteps(s: State, issued: State, done: State, t: State)
    requires Shaped(s) && Shaped(issued) && Shaped(done) && s.dispatched > 0 && issued.dispatched > 0
    requires issued == Schedule(s, 0, true) && done == Complete(issued, 0) && t == Retire(done)
    ensures Reaches(s, [Schedules(0, true), Completes(0), Retires], t)
  {
    var es := [Schedules(0, true), Completes(0), Retires];
    assert es[1..] == [Completes(0), Retires] && es[1..][1..] == [Retires] && es[1..][1..][1..] == [];
    hide Shaped, Schedule, Complete, Retire;
    assert Reaches(done, es[1..][1..], t);
    assert Reaches(issued, es[1..], t);
  }

  /** Two runs one after the other. */
  lemma {:induction false} Chain(s: State, es: seq<Event>, t: State, fs: seq<Event>, u: State)
    requires Reaches(s, es, t) && Reaches(t, fs, u)
    ensures Reaches(s, es + fs, u)
    decreases |es|
  {
    hide Step, Enabled, Shaped;
    if es == [] {
      assert es + fs == fs;
    } else {
      Chain(Step(s, es[0]), es[1..], t, fs, u);
      assert (es + fs)[1..] == es[1..] + fs;
    }
  }

  /** No instruction has more stores than the queue has slots. */
  ghost predicate EachFits(window: seq<Instr>) {
    forall v :: 0 <= v < |window| ==> |Own(window[v], |window[v].dests|)| <= SQ_SIZE
  }

  lemma SameFits(a: seq<Instr>, b: seq<Instr>)
    requires SameInstructions(a, b) && EachFits(a)
    ensures EachFits(b)
  {
    forall v | 0 <= v < |b| ensures |Own(b[v], |b[v].dests|)| <= SQ_SIZE { SameOwn(a[v], b[v], |a[v].dests|); }
  }

  /** From every reachable state the machine can empty itself: nothing in flight is stuck behind anything else, and
      all stores end up written, in the order they were read. */
  lemma AllStoresCanLeave(s: State) returns (es: seq<Event>, t: State)
    requires Valid(s) && EachFits(s.window)
    ensures Reaches(s, es, t) && t.window == [] && t.written == s.written + Stores(s.window)
    ensures forall e :: e in es ==> !e.Reads?
  {
    es, t := CanEmpty(s);
    StoresLeaveInProgramOrder(s, es, t);
    NothingBrought(es);
    hide Valid, Reaches;
    assert s.written + Stores(s.window) + [] == s.written + Stores(s.window);
    assert t.written + Stores([]) == t.written;
  }

  lemma {:induction false} NothingBrought(es: seq<Event>)
    requires forall e :: e in es ==> !e.Reads?
    ensures Brought(es) == []
  {
    if es != [] {
      assert es[0] in es && forall e :: e in es[1..] ==> e in es;
      NothingBrought(es[1..]);
    }
  }

  lemma {:induction false} CanEmpty(s: State) returns (es: seq<Event>, t: State)
    requires Valid(s) && EachFits(s.window)
    ensures Reaches(s, es, t) && t.window == [] && forall e :: e in es ==> !e.Reads?
    decreases |s.window|
  {
    es, t := [], s;
    if s.window != [] {
      var first, u := FirstLeaves(s);
      hide Valid, EachFits, Own, Step, Reaches;
      var rest;
      rest, t := CanEmpty(u);
      Chain(s, first, u, rest, t);
      es := first + rest;
    }
  }

  /** The oldest instruction is dispatched, if it was not yet, and leaves. */
  lemma FirstLeaves(s: State) returns (es: seq<Event>, t: State)
    requires Valid(s) && EachFits(s.window) && s.window != []
    ensures Reaches(s, es, t) && Valid(t) && EachFits(t.window) && |t.window| < |s.window|
    ensures forall e :: e in es ==> !e.Reads?
  {
    var u := s;
    es := [];
    if s.dispatched == 0 {
      u := Dispatch(s);
      DispatchKeeps(s);
      es := [Dispatches];
      DispatchIsRun(s, u);
    }
    t := OldestLeaves(u);
    hide Valid, Own, Step, Reaches, Dispatch;
    SameFits(u.window[1..], t.window);
    StartsAt(s);
    Chain(s, es, u, [Schedules(0, true), Completes(0), Retires], t);
    es := es + [Schedules(0, true), Completes(0), Retires];
  }

  lemma DispatchIsRun(s: State, t: State)
    requires Shaped(s) && s.dispatched < |s.window| && t == Dispatch(s)
    ensures Reaches(s, [Dispatches], t)
  {
    assert [Dispatches][1..] == [];
    assert Reaches(t, [], t);
  }

  lemma StartsAt(s: State)
    ensures Reaches(s, [], s)
  {
  }
}
