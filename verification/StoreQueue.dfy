/** STA and SQ as the core keeps them: two circular arrays with sentinels for free places. */
module StoreQueue {
  import opened FirstMin
  import opened StoreModel
  import opened StoreOrder

  function StaAt(head: nat, k: nat): int { if head + k < STA_SIZE then head + k else head + k - STA_SIZE }

  /** From the head on the places hold the contents and then UINT64_MAX, which marks a free place. */
  ghost predicate Places(id: seq<nat>, head: nat, contents: seq<nat>) {
    && |id| == STA_SIZE && head < STA_SIZE && |contents| <= STA_SIZE
    && forall k :: 0 <= k < STA_SIZE ==>
         id[StaAt(head, k)] == (if k < |contents| then contents[k] else UINT64_MAX)
         && (k < |contents| ==> contents[k] < UINT64_MAX)
  }

  lemma Append(id: seq<nat>, head: nat, contents: seq<nat>, x: nat)
    requires Places(id, head, contents) && |contents| < STA_SIZE && x < UINT64_MAX
    ensures id[StaAt(head, |contents|)] == UINT64_MAX
    ensures Places(id[StaAt(head, |contents|) := x], head, contents + [x])
  {
  }

  lemma Overwrite(id: seq<nat>, head: nat, contents: seq<nat>, x: nat)
    requires Places(id, head, contents) && |contents| == STA_SIZE && x < UINT64_MAX
    ensures id[StaAt(head, 1)] < UINT64_MAX
    ensures Places(id[head := x], head, [x] + contents[1..])
  {
    assert StaAt(head, 0) == head && id[StaAt(head, 1)] == contents[1];
  }

  lemma RemoveFront(id: seq<nat>, head: nat, contents: seq<nat>)
    requires Places(id, head, contents) && contents != []
    ensures Places(id[head := UINT64_MAX], StaAt(head, 1), contents[1..])
  {
    var next := StaAt(head, 1);
    assert StaAt(head, 0) == head && StaAt(next, STA_SIZE - 1) == head;
    forall k | 0 <= k < STA_SIZE - 1
      ensures id[head := UINT64_MAX][StaAt(next, k)] == if k < |contents| - 1 then contents[k + 1] else UINT64_MAX
    {
      assert StaAt(next, k) == StaAt(head, k + 1);
    }
  }

  /** STA. */
  class OrderQueue {
    const id: array<nat>
    var head: nat
    var tail: nat
    ghost var contents: seq<nat>

    ghost predicate Valid()
      reads this, id
    {
      Places(id[..], head, contents) && tail == StaAt(head, |contents|)
    }

    /** A full queue took one more store: the oldest is gone and the tail has passed the head. */
    ghost predicate Overrun()
      reads this, id
    {
      Places(id[..], head, contents) && |contents| == STA_SIZE && tail == StaAt(head, 1)
    }

    constructor ()
      ensures Valid() && fresh(id) && contents == []
    {
      id := new nat[STA_SIZE](_ => UINT64_MAX);
      head, tail, contents := 0, 0, [];
    }

    /** The check before the write lets a full queue pass, because head and tail are equal then too. */
    method Push(x: nat) returns (sane: bool)
      requires (Valid() || Overrun()) && x < UINT64_MAX
      modifies this, id
      ensures sane <==> old(Valid())
      ensures old(Valid()) && |old(contents)| < STA_SIZE ==> Valid() && contents == old(contents) + [x]
      ensures old(Valid()) && |old(contents)| == STA_SIZE ==> Overrun() && contents == [x] + old(contents)[1..]
      ensures !old(Valid()) ==> unchanged(this) && unchanged(id)
    {
      if |contents| < STA_SIZE { Append(id[..], head, contents, x); } else { Overwrite(id[..], head, contents, x); }
      assert id.Length == |id[..]| && head < STA_SIZE && |contents| <= STA_SIZE;
      hide Places;
      sane := !(id[tail] < UINT64_MAX && head != tail);
      if !sane { return; }
      contents := if |contents| < STA_SIZE then contents + [x] else [x] + contents[1..];
      id[tail] := x;
      tail := tail + 1;
      if tail == STA_SIZE { tail := 0; }
    }

    /** After these stores were pushed in a row: they wait in order, or one too many was pushed. */
    ghost predicate Took(all: seq<nat>)
      reads this, id
    {
      if |all| <= STA_SIZE then Valid() && contents == all
      else |all| == STA_SIZE + 1 && Overrun() && contents == [all[STA_SIZE]] + all[1..STA_SIZE]
    }

    method Take(x: nat, ghost all: seq<nat>) returns (sane: bool)
      requires Took(all) && x < UINT64_MAX
      modifies this, id
      ensures sane <==> |all| <= STA_SIZE
      ensures sane ==> Took(all + [x])
    {
      hide Places;
      ValidIsNotOverrun();
      sane := Push(x);
    }

    lemma ValidIsNotOverrun()
      ensures !(Valid() && Overrun())
    {
    }

    method Pop()
      requires Valid() && contents != []
      modifies this, id
      ensures Valid() && contents == old(contents)[1..]
    {
      RemoveFront(id[..], head, contents);
      assert id.Length == |id[..]| && head < STA_SIZE && |contents| <= STA_SIZE;
      hide Places;
      id[head] := UINT64_MAX;
      head := head + 1;
      if head == STA_SIZE { head := 0; }
      contents := contents[1..];
    }

    method Front() returns (x: nat)
      requires Valid()
      ensures x == if contents == [] then UINT64_MAX else contents[0]
    {
      assert StaAt(head, 0) == head;
      x := id[head];
    }
  }

  class StoreBuffers {
    const sta: OrderQueue
    const sq: array<Entry>
    var head: nat
    var tail: nat
    var occupancy: nat
    var window: seq<Instr>
    var dispatched: nat
    var written: seq<Store>

    ghost function Repr(): set<object> { {this, sta, sta.id, sq} }

    ghost predicate Wired()
      reads Repr()
    {
      sq.Length == SQ_SIZE && sta.Valid() && forall w :: 0 <= w < |window| ==> window[w].id < UINT64_MAX
    }

    ghost function Value(): State
      reads Repr()
    {
      State(window, dispatched, sta.contents, sq[..], head, tail, occupancy, written)
    }

    constructor ()
      ensures Wired() && fresh(Repr()) && Value() == Initial()
    {
      sta := new OrderQueue();
      sq := new Entry[SQ_SIZE](_ => Empty);
      head, tail, occupancy, window, dispatched, written := 0, 0, 0, [], 0, [];
      new;
      assert sq[..] == Initial().sq;
    }

    /** The store part of read_from_trace. With one place too few the oldest waiting store is overwritten
        unnoticed; with more the sanity check stops the simulator. */
    method ReadFromTrace(id: nat, dests: seq<nat>) returns (sane: bool)
      requires Wired() && Valid(Value()) && id < UINT64_MAX && forall w :: 0 <= w < |window| ==> window[w].id < id
      modifies this, sta, sta.id
      ensures var s := Read(old(Value()), id, dests);
              && (sane <==> |s.sta| <= STA_SIZE + 1)
              && (|s.sta| <= STA_SIZE ==> Wired() && Value() == s && Valid(s))
              && (|s.sta| == STA_SIZE + 1 ==> sta.Overrun() && sta.contents == [s.sta[STA_SIZE]] + s.sta[1..STA_SIZE])
    {
      ReadKeeps(Value(), id, dests);
      hide Valid, Own, Ids, Places;
      sane := PushStores(id, dests);
      if sane { window := window + [Fresh(id, dests)]; }
    }

    method PushStores(id: nat, dests: seq<nat>) returns (sane: bool)
      requires Wired() && id < UINT64_MAX
      modifies sta, sta.id
      ensures var all := old(PushedSoFar(sta.contents, Fresh(id, dests), |dests|));
              (sane <==> |all| <= STA_SIZE + 1) && (sane ==> sta.Took(all))
    {
      assert sta.Took(sta.contents) && |sta.contents| <= STA_SIZE;
      ghost var e := Fresh(id, dests);
      assert e.dests == dests && e.id == id;
      hide OrderQueue.Took, PushedSoFar, Fresh;
      ghost var before := sta.contents;
      NoIds(before, e);
      for d := 0 to |dests|
        invariant |PushedSoFar(before, e, d)| <= STA_SIZE + 1 && sta.Took(PushedSoFar(before, e, d))
      {
        OneMoreId(before, e, d);
        if dests[d] != 0 {
          sane := sta.Take(id, PushedSoFar(before, e, d));
          if !sane { return; }
        }
      }
      sane := true;
    }

    /** add_store_queue. */
    method AddStoreQueue(w: nat, d: nat)
      requires Wired() && Valid(Value()) && w < |window| && d < |window[w].dests| && window[w].dests[d] != 0
      requires sta.contents != [] && occupancy < SQ_SIZE && Position(window, w, d) == occupancy
      modifies Repr()
      ensures Wired() && Value() == AddStore(old(Value()), w, d) && Valid(Value())
    {
      AddStoreKeeps(Value(), w, d);
      hide RingOk, DestsOk, StagesOk, IdsIncrease, Position, Stores;
      var sqIndex := tail;
      assert sq[sqIndex] == Empty;
      var e := window[w];
      sq[sqIndex] := Holds(Store(e.id, d, e.dests[d]));
      occupancy := occupancy + 1;
      tail := tail + 1;
      if tail == SQ_SIZE { tail := 0; }
      window := window[w := e.(added := e.added[d := true], sqIndex := e.sqIndex[d := sqIndex as int])];
      sta.Pop();
    }

    /** One destination in check_and_add_lsq; earlier destinations are queued or wait themselves. */
    method TryAddStore(w: nat, d: nat) returns (queued: bool)
      requires Wired() && Valid(Value()) && w < |window| && d < |window[w].dests| && window[w].dests[d] != 0
      requires Blocked(Value(), window[w].id) || QueuedBelow(window[w], d)
      modifies Repr()
      ensures Wired() && Valid(Value()) && |window| == |old(window)|
      ensures window[w].dests == old(window[w]).dests && WellFormed(window[w])
      ensures QueuedBelow(window[w], d + 1) <==> QueuedBelow(old(window[w]), d) && queued
      ensures Value() == (var s, e := old(Value()), old(window[w]);
                if !e.added[d] && s.occupancy < SQ_SIZE && s.sta != [] && s.sta[0] == e.id
                then AddStore(s, w, d) else s)
    {
      hide RingOk, DestsOk, StagesOk, IdsIncrease, Position, Stores, AddStore;
      queued := window[w].added[d];
      if !queued && occupancy < SQ_SIZE {
        var front := sta.Front();
        if front == window[w].id {
          NextIsHere(Value(), w, d);
          AddStoreFrame(Value(), w, d);
          AddStoreQueue(w, d);
          queued := true;
        }
      }
    }

    /** The store part of check_and_add_lsq: how many stores still wait outside the queue. */
    method CheckAndAddLsq(w: nat) returns (notAvailable: nat)
      requires Wired() && Valid(Value()) && w < |window|
      modifies Repr()
      ensures Wired() && Valid(Value()) && Value() == AddStores(old(Value()), w, |old(window[w]).dests|)
      ensures w < |window| && (notAvailable == 0 <==> AllAdded(window[w]))
    {
      hide RingOk, DestsOk, StagesOk, IdsIncrease, Stores, QueuedBelow, AddStore, Position;
      ghost var s := Value();
      var ops, queued := 0, 0;
      var dests := window[w].dests;
      QueuedEnds(window[w]);
      for d := 0 to |dests|
        invariant Wired() && Valid(Value()) && Value() == AddStores(s, w, d)
        invariant w < |window| && window[w].dests == dests && WellFormed(window[w])
        invariant queued <= ops && (queued == ops <==> QueuedBelow(window[w], d))
      {
        QueuedUnused(window[w], d);
        if dests[d] != 0 {
          BlockedOrAdded(s, w, d);
          ops := ops + 1;
          var q := TryAddStore(w, d);
          if q { queued := queued + 1; }
        }
      }
      QueuedEnds(window[w]);
      notAvailable := ops - queued;
    }

    /** do_memory_scheduling. */
    method DoMemoryScheduling(w: nat, loadsQueued: bool)
      requires Wired() && Valid(Value()) && w < dispatched
      modifies Repr()
      ensures Wired() && Valid(Value()) && Value() == Schedule(old(Value()), w, loadsQueued)
    {
      ScheduleKeeps(Value(), w, loadsQueued);
      hide RingOk, DestsOk, StagesOk, IdsIncrease, Stores;
      var notAvailable := CheckAndAddLsq(w);
      if notAvailable == 0 && loadsQueued { window := window[w := window[w].(issued := true)]; }
    }

    /** complete_execution for a memory instruction whose operations have all returned. */
    method CompleteExecution(w: nat)
      requires Wired() && Valid(Value()) && w < dispatched
      modifies Repr()
      ensures Wired() && Valid(Value()) && Value() == Complete(old(Value()), w)
    {
      CompleteKeeps(Value(), w);
      hide RingOk, DestsOk, StagesOk, IdsIncrease, Stores;
      if window[w].issued { window := window[w := window[w].(completed := true)]; }
    }

    /** The retiring instruction hands its stores to the L1D write queue. */
    method WriteStores(e: Instr)
      requires Wired() && Valid(Value()) && |window| > 0 && e == window[0] && AllAdded(e)
      modifies this`written
      ensures written == old(written) + Sent(old(Value()), e, |e.dests|)
    {
      ghost var s := Value();
      hide RingOk, DestsOk, IdsIncrease, Stores, StagesOk, Own;
      for d := 0 to |e.dests|
        invariant written == s.written + Sent(s, e, d)
      {
        if e.dests[d] != 0 {
          HeadDest(s, d);
          var k := e.sqIndex[d];
          written := written + [sq[k].store];
        }
      }
    }

    /** The slots of the retiring instruction are freed; each one is the head of the ring. */
    method ReleaseSlots(e: Instr)
      requires Wired() && Valid(Value()) && |window| > 0 && e == window[0] && AllAdded(e)
      modifies this`head, this`occupancy, sq
      ensures Wired() && Value() == StoreModel.Release(old(Value()), e, |e.dests|)
    {
      ghost var s := Value();
      hide RingOk, DestsOk, IdsIncrease, Stores, StagesOk, Own;
      for d := 0 to |e.dests|
        invariant Wired() && Value() == StoreModel.Release(s, e, d)
      {
        var k := e.sqIndex[d];
        HeadDest(s, d);
        if k != -1 {
          ReleaseFromHead(s, d);
          assert k == head;
          sq[k] := Empty;
          occupancy := occupancy - 1;
          head := head + 1;
          if head == SQ_SIZE { head := 0; }
        }
      }
    }

    /** One round of retire_rob: the oldest instruction, when completed, writes its stores and frees their slots. */
    method RetireOldest()
      requires Wired() && Valid(Value())
      modifies this, sq
      ensures Wired() && Valid(Value()) && Value() == Retire(old(Value()))
    {
      hide Valid, StoreModel.Release, Sent;
      ghost var s := Value();
      ghost var t := RetireResult(s);
      if dispatched == 0 || !window[0].completed { return; }
      var e := window[0];
      WriteStores(e);
      ReleaseSlots(e);
      window := window[1..];
      dispatched := dispatched - 1;
      assert Value() == t;
    }
  }

  /** What has been pushed before destination d, after the stores that waited already. */
  ghost function PushedSoFar(before: seq<nat>, e: Instr, d: nat): seq<nat>
    requires d <= |e.dests|
  {
    before + Ids(Own(e, d))
  }

  lemma OneMoreId(before: seq<nat>, e: Instr, d: nat)
    requires d < |e.dests|
    ensures |PushedSoFar(before, e, d + 1)| <= |PushedSoFar(before, e, |e.dests|)|
    ensures PushedSoFar(before, e, d + 1)
         == if e.dests[d] != 0 then PushedSoFar(before, e, d) + [e.id] else PushedSoFar(before, e, d)
  {
    OwnIsPrefix(e, d + 1, |e.dests|);
    assert Ids(Own(e, d + 1)) == Ids(Own(e, d)) + (if e.dests[d] != 0 then [e.id] else []);
    assert before + (Ids(Own(e, d)) + [e.id]) == before + Ids(Own(e, d)) + [e.id];
  }

  lemma NoIds(before: seq<nat>, e: Instr)
    ensures PushedSoFar(before, e, 0) == before
  {
  }

  ghost predicate QueuedBelow(e: Instr, n: nat)
    requires WellFormed(e) && n <= |e.dests|
  {
    forall x :: 0 <= x < n && e.dests[x] != 0 ==> e.added[x]
  }

  lemma QueuedEnds(e: Instr)
    requires WellFormed(e)
    ensures QueuedBelow(e, 0) && (QueuedBelow(e, |e.dests|) <==> AllAdded(e))
  {
  }

  lemma QueuedUnused(e: Instr, d: nat)
    requires WellFormed(e) && d < |e.dests|
    ensures e.dests[d] == 0 ==> (QueuedBelow(e, d + 1) <==> QueuedBelow(e, d))
  {
  }

  lemma BlockedOrAdded(s: State, w: nat, n: nat)
    requires Valid(s) && w < |s.window| && n <= |s.window[w].dests|
    ensures var r := AddStores(s, w, n);
            Blocked(r, r.window[w].id) || QueuedBelow(r.window[w], n)
  {
    AddStoresKeeps(s, w, n);
  }

  /** What one round of retirement leaves, in the order the code works: write first, then release. */
  lemma RetireResult(s: State) returns (t: State)
    requires Valid(s)
    ensures Shaped(s) && t == Retire(s) && Valid(t)
    ensures if s.dispatched == 0 || !s.window[0].completed then t == s
            else
              var e := s.window[0];
              var w := s.(written := s.written + Sent(s, e, |e.dests|));
              && AllAdded(e) && Valid(w)
              && t == StoreModel.Release(w, e, |e.dests|).(window := s.window[1..], dispatched := s.dispatched - 1)
  {
    RetireKeeps(s);
    t := Retire(s);
    if !(s.dispatched == 0 || !s.window[0].completed) {
      var e := s.window[0];
      WrittenIsFree(s, s.written + Sent(s, e, |e.dests|), e, |e.dests|);
    }
  }

  /** What was written before plays no part in the invariant or in freeing slots. */
  lemma {:induction false} WrittenIsFree(s: State, ss: seq<Store>, e: Instr, n: nat)
    requires Valid(s) && WellFormed(e) && n <= |e.dests|
    ensures Valid(s.(written := ss))
    ensures StoreModel.Release(s.(written := ss), e, n) == StoreModel.Release(s, e, n).(written := ss)
  {
    var t := s.(written := ss);
    forall w, d | 0 <= w < |t.window| && 0 <= d < |t.window[w].dests|
      ensures DestOk(t, w, d)
    {
      assert DestOk(s, w, d);
    }
    hide RingOk, DestsOk, StagesOk, Stores;
    if n > 0 { WrittenIsFree(s, ss, e, n - 1); }
  }
}
