/** Register wake-up in the reorder buffer, as a value: what each step does, in closed form. */
module RobModel {

  const ROB_SIZE: nat := 352
  const SOURCES: nat := 4

  datatype Stage = Idle | Inflight | Completed

  /** ip 0 marks an empty slot; register 0 marks an unused operand. */
  datatype Instr = Instr(ip: nat, id: nat, isMemory: bool, memOps: int, sources: seq<nat>, dests: seq<nat>,
                         scheduled: Stage, executed: Stage, regReady: bool, numRegDependent: int,
                         rawChecked: seq<bool>, rawProducer: bool,
                         dependents: set<nat>, dependentsBy: seq<set<nat>>, eventCycle: nat)

  /** rte0 holds the instructions released by a producer, rte1 those ready when scheduled. */
  datatype Rob = Rob(entry: seq<Instr>, head: nat, tail: nat, occupancy: nat, rte0: seq<nat>, rte1: seq<nat>)

  predicate WellFormed(e: Instr) {
    |e.sources| == SOURCES && |e.rawChecked| == SOURCES && |e.dependentsBy| == SOURCES
  }

  function Fresh(ip: nat, id: nat, isMemory: bool, memOps: int, sources: seq<nat>, dests: seq<nat>): (e: Instr)
    requires |sources| == SOURCES
    ensures WellFormed(e)
  {
    Instr(ip, id, isMemory, memOps, sources, dests, Idle, Idle, false, 0,
          [false, false, false, false], false, {}, [{}, {}, {}, {}], 0)
  }

  const EMPTY_INSTR: Instr := Fresh(0, 0, false, 0, [0, 0, 0, 0], [])

  // ---------- the ring ----------

  function Next(i: nat): nat { if i + 1 >= ROB_SIZE then 0 else i + 1 }

  /** Program-order distance of slot i from the head. */
  function Age(s: Rob, i: nat): int { if i >= s.head then i - s.head else i + ROB_SIZE - s.head }

  function Slot(s: Rob, age: nat): int { if s.head + age < ROB_SIZE then s.head + age else s.head + age - ROB_SIZE }

  predicate Live(s: Rob, i: nat) { i < ROB_SIZE && Age(s, i) < s.occupancy }

  predicate Shaped(s: Rob) {
    && |s.entry| == ROB_SIZE && s.head < ROB_SIZE && s.tail < ROB_SIZE && s.occupancy <= ROB_SIZE
    && s.tail == (if s.head + s.occupancy < ROB_SIZE then s.head + s.occupancy else s.head + s.occupancy - ROB_SIZE)
    && forall i :: 0 <= i < ROB_SIZE ==> WellFormed(s.entry[i])
  }

  // ---------- dispatch and retirement ----------

  function Insert(s: Rob, e: Instr, now: nat): Rob
    requires Shaped(s) && s.occupancy < ROB_SIZE
  {
    s.(entry := s.entry[s.tail := e.(eventCycle := now)], tail := Next(s.tail), occupancy := s.occupancy + 1)
  }

  function Retire(s: Rob): Rob
    requires Shaped(s) && s.occupancy > 0
  {
    s.(entry := s.entry[s.head := EMPTY_INSTR], head := Next(s.head), occupancy := s.occupancy - 1)
  }

  // ---------- scheduling ----------

  predicate Writes(e: Instr, r: nat) { r != 0 && r in e.dests }

  /** The k-th instruction before slot i, for k <= Age(i). */
  function Prior(s: Rob, i: nat, k: nat): (p: nat)
    requires Shaped(s) && i < ROB_SIZE && k <= Age(s, i)
    ensures p < ROB_SIZE
  {
    Slot(s, Age(s, i) - k)
  }

  /** The youngest of the n instructions before i that is not completed and writes r, or -1. */
  function Producer(s: Rob, i: nat, r: nat, n: nat): (p: int)
    requires Shaped(s) && i < ROB_SIZE && n <= Age(s, i)
    ensures -1 <= p < ROB_SIZE
  {
    if n == 0 then -1 else
    var y := Producer(s, i, r, n - 1);
    if y != -1 then y
    else
      var p := Prior(s, i, n);
      if !s.entry[p].executed.Completed? && Writes(s.entry[p], r) then p else -1
  }

  function Producers(s: Rob, i: nat, n: nat): (ps: seq<int>)
    requires Shaped(s) && i < ROB_SIZE && n <= Age(s, i)
    ensures |ps| == SOURCES && forall j :: 0 <= j < SOURCES ==> -1 <= ps[j] < ROB_SIZE
  {
    seq(SOURCES, j requires 0 <= j < SOURCES => Producer(s, i, s.entry[i].sources[j], n))
  }

  function Linked(ps: seq<int>): nat
    requires |ps| == SOURCES
  {
    (if ps[0] != -1 then 1 else 0) + (if ps[1] != -1 then 1 else 0)
    + (if ps[2] != -1 then 1 else 0) + (if ps[3] != -1 then 1 else 0)
  }

  /** What slot k becomes when the source slots of instruction i are linked to the producers ps. */
  function LinkEntry(e: Instr, k: nat, i: nat, ps: seq<int>): (r: Instr)
    requires WellFormed(e) && |ps| == SOURCES
    ensures WellFormed(r)
  {
    if k == i then
      e.(regReady := Linked(ps) == 0, numRegDependent := e.numRegDependent + Linked(ps),
         rawChecked := seq(SOURCES, j requires 0 <= j < SOURCES => e.rawChecked[j] || ps[j] != -1))
    else if k in ps then
      e.(rawProducer := true, dependents := e.dependents + {i},
         dependentsBy := seq(SOURCES, j requires 0 <= j < SOURCES =>
           if ps[j] == k then e.dependentsBy[j] + {i} else e.dependentsBy[j]))
    else e
  }

  function Link(s: Rob, i: nat, ps: seq<int>): (r: Rob)
    requires Shaped(s) && |ps| == SOURCES
    ensures Shaped(r) && r == s.(entry := r.entry)
  {
    s.(entry := seq(ROB_SIZE, k requires 0 <= k < ROB_SIZE => LinkEntry(s.entry[k], k, i, ps)))
  }

  function Later(cycle: nat, now: nat, latency: nat): nat {
    if cycle < now then now + latency else cycle + latency
  }

  /** The second half of do_scheduling: a memory instruction goes on to the load/store queues, any
      other one is ready at once when it was linked to no producer. */
  function Place(s: Rob, i: nat, now: nat, latency: nat): Rob
    requires Shaped(s) && i < ROB_SIZE
  {
    var e := s.entry[i];
    if e.isMemory then s.(entry := s.entry[i := e.(scheduled := Inflight)])
    else
      var e' := e.(scheduled := Completed, eventCycle := Later(e.eventCycle, now, latency));
      s.(entry := s.entry[i := e'], rte1 := if e.regReady then s.rte1 + [i] else s.rte1)
  }

  /** do_scheduling: link every source slot to its youngest uncompleted producer, then place. */
  function Schedule(s: Rob, i: nat, now: nat, latency: nat): Rob
    requires Shaped(s) && i < ROB_SIZE
  {
    Place(Link(s, i, Producers(s, i, Age(s, i))), i, now, latency)
  }

  // ---------- execution ----------

  function Start(e: Instr, now: nat, latency: nat): Instr {
    e.(executed := Inflight, eventCycle := Later(e.eventCycle, now, latency))
  }

  /** The oldest entry of a ready ring starts executing once its cycle has come. */
  function IssueRte0(s: Rob, now: nat, latency: nat): (r: Rob)
    requires Shaped(s)
    ensures Shaped(r)
  {
    if s.rte0 == [] || s.rte0[0] >= ROB_SIZE || s.entry[s.rte0[0]].eventCycle > now then s else
    s.(entry := s.entry[s.rte0[0] := Start(s.entry[s.rte0[0]], now, latency)], rte0 := s.rte0[1..])
  }

  function IssueRte1(s: Rob, now: nat, latency: nat): (r: Rob)
    requires Shaped(s)
    ensures Shaped(r)
  {
    if s.rte1 == [] || s.rte1[0] >= ROB_SIZE || s.entry[s.rte1[0]].eventCycle > now then s else
    s.(entry := s.entry[s.rte1[0] := Start(s.entry[s.rte1[0]], now, latency)], rte1 := s.rte1[1..])
  }

  /** A memory instruction whose registers are ready and whose operations are all queued. */
  function IssueMemory(s: Rob, i: nat): Rob
    requires Shaped(s) && i < ROB_SIZE
  {
    var e := s.entry[i];
    if !(e.isMemory && e.regReady && e.scheduled == Inflight) then s else
    s.(entry := s.entry[i := e.(scheduled := Completed,
                                executed := if e.executed == Idle then Inflight else e.executed)])
  }

  /** One of its memory operations returns. */
  function MemoryReturns(s: Rob, i: nat, now: nat): Rob
    requires Shaped(s) && i < ROB_SIZE
  {
    s.(entry := s.entry[i := s.entry[i].(memOps := s.entry[i].memOps - 1, eventCycle := now)])
  }

  // ---------- completion and wake-up ----------

  predicate Completes(e: Instr, now: nat) {
    && e.executed == Inflight && e.eventCycle <= now
    && (e.isMemory ==> e.memOps == 0)
  }

  /** How many source slots of c wait for a producer with these dependents. */
  function Share(links: seq<set<nat>>, c: nat): nat
    requires |links| == SOURCES
  {
    (if c in links[0] then 1 else 0) + (if c in links[1] then 1 else 0)
    + (if c in links[2] then 1 else 0) + (if c in links[3] then 1 else 0)
  }

  predicate Wakes(e: Instr, share: nat) { share > 0 && e.numRegDependent == share }

  /** One waiting slot less; at zero the instruction becomes ready. */
  function LoseSlot(e: Instr): Instr {
    var e' := e.(numRegDependent := e.numRegDependent - 1);
    if e'.numRegDependent != 0 then e'
    else e'.(regReady := true, scheduled := if e.isMemory then Inflight else Completed)
  }

  function WakeEntry(e: Instr, share: nat): Instr {
    if share == 0 then e
    else if Wakes(e, share) then
      e.(numRegDependent := 0, regReady := true, scheduled := if e.isMemory then Inflight else Completed)
    else e.(numRegDependent := e.numRegDependent - share)
  }

  /** The non-memory instructions below n that this release makes ready, in slot order. */
  function Woken(entry: seq<Instr>, p: Instr, n: nat): (w: seq<nat>)
    requires |p.dependentsBy| == SOURCES && n <= |entry|
    ensures forall c :: c in w <==>
              c < n && c in p.dependents && !entry[c].isMemory && Wakes(entry[c], Share(p.dependentsBy, c))
  {
    if n == 0 then [] else
    var w := Woken(entry, p, n - 1);
    if n - 1 in p.dependents && !entry[n - 1].isMemory && Wakes(entry[n - 1], Share(p.dependentsBy, n - 1))
    then w + [n - 1] else w
  }

  /** reg_RAW_release: every dependent loses the slots it waited on; the ones left with none wake up. */
  function Release(s: Rob, p: Instr): Rob
    requires Shaped(s) && WellFormed(p)
  {
    s.(entry := seq(ROB_SIZE, c requires 0 <= c < ROB_SIZE =>
         if c in p.dependents then WakeEntry(s.entry[c], Share(p.dependentsBy, c)) else s.entry[c]),
       rte0 := s.rte0 + Woken(s.entry, p, ROB_SIZE))
  }

  function Complete(s: Rob, i: nat, now: nat): (r: Rob)
    requires Shaped(s) && i < ROB_SIZE
    ensures r == s.(entry := r.entry, rte0 := r.rte0)
  {
    var e := s.entry[i];
    if !Completes(e, now) then s else
    var done := s.(entry := s.entry[i := e.(executed := Completed)]);
    if e.rawProducer then Release(done, e) else done
  }

  function Initial(): Rob { Rob(seq(ROB_SIZE, _ => EMPTY_INSTR), 0, 0, 0, [], []) }
}
