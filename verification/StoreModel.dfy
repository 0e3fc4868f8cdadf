/** Stores from trace read to retirement: the STA order queue, the store queue ring and the instructions in flight. */
module StoreModel {

  const SQ_SIZE: nat := 72

  /** One destination of one instruction; address 0 means the destination is unused. */
  datatype Store = Store(id: nat, slot: nat, address: nat)

  /** An instruction in flight: its destinations, which of them are in the store queue, and how far it is. */
  datatype Instr = Instr(id: nat, dests: seq<nat>, added: seq<bool>, sqIndex: seq<int>, issued: bool, completed: bool)

  datatype Entry = Empty | Holds(store: Store)

  /** window: every instruction in flight in program order, the first `dispatched` of them in the ROB.
      sta: ids of the stores not yet in the store queue. written: stores sent to the L1D write queue. */
  datatype State = State(window: seq<Instr>, dispatched: nat, sta: seq<nat>,
                         sq: seq<Entry>, head: nat, tail: nat, occupancy: nat, written: seq<Store>)

  predicate WellFormed(e: Instr) { |e.added| == |e.dests| && |e.sqIndex| == |e.dests| }

  function At(head: nat, k: nat): int { if head + k < SQ_SIZE then head + k else head + k - SQ_SIZE }

  function Next(i: nat): nat { if i + 1 == SQ_SIZE then 0 else i + 1 }

  predicate Shaped(s: State) {
    && |s.sq| == SQ_SIZE && s.head < SQ_SIZE && s.tail < SQ_SIZE && s.occupancy <= SQ_SIZE
    && s.dispatched <= |s.window|
    && forall w :: 0 <= w < |s.window| ==> WellFormed(s.window[w])
  }

  /** The stores of one instruction below destination n, in destination order. */
  function Own(e: Instr, n: nat): seq<Store>
    requires n <= |e.dests|
  {
    if n == 0 then [] else
    Own(e, n - 1) + (if e.dests[n - 1] != 0 then [Store(e.id, n - 1, e.dests[n - 1])] else [])
  }

  /** All stores in flight, in program order and then in destination order. */
  function Stores(window: seq<Instr>): seq<Store> {
    if window == [] then [] else
    Stores(window[..|window| - 1]) + Own(window[|window| - 1], |window[|window| - 1].dests|)
  }

  function Ids(ss: seq<Store>): seq<nat> { seq(|ss|, k requires 0 <= k < |ss| => ss[k].id) }

  function Fresh(id: nat, dests: seq<nat>): (e: Instr)
    ensures WellFormed(e)
  {
    Instr(id, dests, seq(|dests|, _ => false), seq(|dests|, _ => -1), false, false)
  }

  // ---------- the steps ----------

  /** read_from_trace: every store of the instruction joins the order queue. */
  function Read(s: State, id: nat, dests: seq<nat>): State {
    var e := Fresh(id, dests);
    s.(window := s.window + [e], sta := s.sta + Ids(Own(e, |dests|)))
  }

  function Dispatch(s: State): State { s.(dispatched := s.dispatched + 1) }

  /** add_store_queue for destination d of instruction w. */
  function AddStore(s: State, w: nat, d: nat): (r: State)
    requires Shaped(s) && w < |s.window| && d < |s.window[w].dests| && s.sta != [] && s.occupancy < SQ_SIZE
    ensures Shaped(r) && |r.window| == |s.window| && r.window[w].dests == s.window[w].dests
  {
    var e := s.window[w];
    s.(window := s.window[w := e.(added := e.added[d := true], sqIndex := e.sqIndex[d := s.tail as int])],
       sta := s.sta[1..],
       sq := s.sq[s.tail := Holds(Store(e.id, d, e.dests[d]))], tail := Next(s.tail), occupancy := s.occupancy + 1)
  }

  /** check_and_add_lsq, store part: destinations below n. */
  function AddStores(s: State, w: nat, n: nat): (r: State)
    requires Shaped(s) && w < |s.window| && n <= |s.window[w].dests|
    ensures Shaped(r) && |r.window| == |s.window| && r.window[w].dests == s.window[w].dests
  {
    if n == 0 then s else
    var before := AddStores(s, w, n - 1);
    var e := before.window[w];
    if e.dests[n - 1] != 0 && !e.added[n - 1] && before.occupancy < SQ_SIZE && before.sta != [] && before.sta[0] == e.id
    then AddStore(before, w, n - 1) else before
  }

  predicate AllAdded(e: Instr)
    requires WellFormed(e)
  {
    forall d :: 0 <= d < |e.dests| && e.dests[d] != 0 ==> e.added[d]
  }

  /** do_memory_scheduling: the instruction issues once all its loads and stores are queued. */
  function Schedule(s: State, w: nat, loadsQueued: bool): State
    requires Shaped(s) && w < s.dispatched
  {
    var r := AddStores(s, w, |s.window[w].dests|);
    if AllAdded(r.window[w]) && loadsQueued then r.(window := r.window[w := r.window[w].(issued := true)]) else r
  }

  /** complete_execution: only an issued instruction completes. */
  function Complete(s: State, w: nat): State
    requires Shaped(s) && w < s.dispatched
  {
    var e := s.window[w];
    if e.issued then s.(window := s.window[w := e.(completed := true)]) else s
  }

  /** retire_rob, release part: destinations below n free the slot they point at and move the head. */
  function Release(s: State, e: Instr, n: nat): (r: State)
    requires Shaped(s) && WellFormed(e) && n <= |e.dests|
    ensures |r.sq| == SQ_SIZE && r == s.(sq := r.sq, head := r.head, occupancy := r.occupancy)
    ensures r.head < SQ_SIZE
  {
    if n == 0 then s else
    var before := Release(s, e, n - 1);
    var k := e.sqIndex[n - 1];
    if k < 0 then before
    else before.(sq := if k < SQ_SIZE then before.sq[k := Empty] else before.sq,
                 head := Next(before.head), occupancy := if before.occupancy > 0 then before.occupancy - 1 else 0)
  }

  /** What the retiring instruction sends to the write queue: the contents of its store-queue slots. */
  function Sent(s: State, e: Instr, n: nat): seq<Store>
    requires Shaped(s) && WellFormed(e) && n <= |e.dests|
  {
    if n == 0 then [] else
    Sent(s, e, n - 1) +
      (if e.dests[n - 1] != 0 && 0 <= e.sqIndex[n - 1] < SQ_SIZE && s.sq[e.sqIndex[n - 1]].Holds?
       then [s.sq[e.sqIndex[n - 1]].store] else [])
  }

  function Retire(s: State): State
    requires Shaped(s)
  {
    if s.dispatched == 0 || !s.window[0].completed then s else
    var e := s.window[0];
    var r := Release(s, e, |e.dests|);
    r.(window := s.window[1..], dispatched := s.dispatched - 1, written := s.written + Sent(s, e, |e.dests|))
  }

  function Initial(): State { State([], 0, [], seq(SQ_SIZE, _ => Empty), 0, 0, 0, []) }
}
