/** One cache level as a value: the normal and the speculative array, the miss registers and four queues. */
module CacheModel {
  import opened FirstMin
  import opened CacheSet
  import opened LruOrder

  datatype Level = L1I | L1D | L2C | LLC

  datatype Kind = Load | Rfo | Prefetch | Writeback | CommitLoad | SquashLoad

  datatype Config = Config(level: Level, sets: nat, ways: nat, specSets: nat, specWays: nat, mshrSize: nat,
                           rqSize: nat, wqSize: nat, pqSize: nat, cqSize: nat, latency: nat, fillLevel: int)

  /** A request. Address 0 marks an empty place. slot is the load-queue entry (or, in L1I, the ROB entry) that
      waits for it, waiters those of the loads merged into it. */
  datatype Packet = Packet(address: nat, fullAddr: nat, data: nat, id: nat, kind: Kind, speculative: bool,
                           event: nat, done: bool, fillLevel: int, fillL1i: bool, fillL1d: bool,
                           slot: nat, waiters: set<nat>)

  const EMPTY := Packet(0, 0, 0, 0, Load, false, UINT64_MAX, false, -1, false, false, 0, {})

  datatype Mshr = Mshr(entry: seq<Packet>, occupancy: int, nextIndex: nat, nextCycle: nat)

  /** served: requests this level has completed. writebacks: dirty lines sent to the level below.
      passed: commit and squash messages handled and handed on. */
  datatype State = State(normal: seq<seq<Block>>, spec: seq<seq<Block>>, mshr: Mshr,
                         rq: seq<Packet>, wq: seq<Packet>, pq: seq<Packet>, cq: seq<Packet>,
                         served: seq<Packet>, writebacks: seq<Line>, passed: seq<Packet>)

  predicate Configured(c: Config) {
    c.sets > 0 && c.ways > 0 && c.specSets > 0 && c.specWays > 0 && c.mshrSize > 0
  }

  predicate Rows(rows: seq<seq<Block>>, sets: nat, ways: nat) {
    |rows| == sets && forall i :: 0 <= i < sets ==> |rows[i]| == ways
  }

  predicate Shaped(c: Config, s: State) {
    && Configured(c) && Rows(s.normal, c.sets, c.ways) && Rows(s.spec, c.specSets, c.specWays)
    && |s.mshr.entry| == c.mshrSize
  }

  function LineOf(p: Packet, dirty: bool): Line { Line(dirty, p.address, p.fullAddr, p.data, p.id) }

  function DirtyOf(b: Block): seq<Line> { if b.line.dirty then [b.line] else [] }

  // ---------- miss registers ----------

  function At(entry: seq<Packet>, address: nat): seq<bool> {
    seq(|entry|, i requires 0 <= i < |entry| => entry[i].address == address)
  }

  /** check_mshr: the first register with this address, or the size; address 0 finds a free one. */
  function Slot(entry: seq<Packet>, address: nat): (i: nat)
    ensures i <= |entry|
  {
    First(At(entry, address))
  }

  function DoneKeys(entry: seq<Packet>): seq<nat> {
    seq(|entry|, i requires 0 <= i < |entry| => if entry[i].done then entry[i].event else UINT64_MAX)
  }

  /** update_fill_cycle. */
  function Refresh(m: Mshr): Mshr {
    m.(nextIndex := Find(DoneKeys(m.entry)), nextCycle := Cycle(DoneKeys(m.entry)))
  }

  function Remove(m: Mshr, i: nat): (r: Mshr)
    requires i < |m.entry|
    ensures |r.entry| == |m.entry|
  {
    m.(entry := m.entry[i := EMPTY], occupancy := m.occupancy - 1)
  }

  /** add_mshr: the first free register; with none the request is dropped. */
  function Add(m: Mshr, p: Packet): (r: Mshr)
    ensures |r.entry| == |m.entry|
  {
    var i := Slot(m.entry, 0);
    if i < |m.entry| then m.(entry := m.entry[i := p], occupancy := m.occupancy + 1) else m
  }

  function Wider(e: Packet, p: Packet): Packet {
    e.(fillLevel := if p.fillLevel < e.fillLevel then p.fillLevel else e.fillLevel,
       fillL1i := e.fillL1i || p.fillL1i, fillL1d := e.fillL1d || p.fillL1d)
  }

  /** A demand request takes over the register of a prefetch. */
  function Overtake(e: Packet, p: Packet): Packet { p.(done := e.done, event := e.event) }

  function MergeRead(e: Packet, p: Packet): Packet {
    if e.kind == Prefetch then Overtake(e, p) else
    Wider(e.(waiters := e.waiters + p.waiters + (if p.kind == Rfo then {} else {p.slot})), p)
  }

  function MergeWrite(e: Packet, p: Packet): Packet {
    if e.kind == Prefetch then Overtake(e, p) else Wider(e, p)
  }

  function Delay(event: nat, now: nat, latency: nat): nat {
    if event < now then now + latency else event + latency
  }

  /** return_data: the data arrives for the register with this address. */
  function Return(c: Config, s: State, p: Packet, now: nat): (r: State)
    requires Shaped(c, s) && Slot(s.mshr.entry, p.address) < c.mshrSize
    ensures Shaped(c, r)
  {
    var i := Slot(s.mshr.entry, p.address);
    var e := s.mshr.entry[i];
    var e' := e.(done := true, data := p.data, event := Delay(e.event, now, c.latency));
    s.(mshr := Refresh(s.mshr.(entry := s.mshr.entry[i := e'])))
  }

  // ---------- handle_fill ----------

  predicate FillReady(c: Config, s: State, now: nat)
    requires Shaped(c, s)
  {
    && s.mshr.nextIndex < c.mshrSize && s.mshr.entry[s.mshr.nextIndex].address != 0
    && s.mshr.nextCycle <= now
  }

  /** Writes only L1D marks dirty at fill. */
  predicate DirtyFill(c: Config, p: Packet) { c.level.L1D? && p.kind == Rfo }

  /** The victim's line is written back and replaced, and the way becomes the most recent. */
  function Install(c: Config, s: State, p: Packet, dirty: bool): (r: State)
    requires Shaped(c, s) && LruVictim(s.normal[p.address % c.sets]) < c.ways
    ensures Shaped(c, r)
  {
    var at := p.address % c.sets;
    var row := s.normal[at];
    var way := LruVictim(row);
    s.(normal := s.normal[at := Put(Touch(row, way), way, LineOf(p, dirty))],
       writebacks := s.writebacks + DirtyOf(row[way]), served := s.served + [p])
  }

  /** No victim, or the victim is dirty and the level below cannot take it. */
  predicate Blocked(c: Config, s: State, p: Packet, wqFull: bool)
    requires Shaped(c, s)
  {
    var row := s.normal[p.address % c.sets];
    var way := LruVictim(row);
    way >= c.ways || (row[way].line.dirty && wqFull)
  }

  function HandleFill(c: Config, s: State, now: nat, wqFull: bool): (r: State)
    requires Shaped(c, s)
    ensures Shaped(c, r)
  {
    if !FillReady(c, s, now) then s else
    var i := s.mshr.nextIndex;
    var e := s.mshr.entry[i];
    if !e.speculative then
      if Blocked(c, s, e, wqFull) then s
      else Install(c, s, e, DirtyFill(c, e)).(mshr := Refresh(Remove(s.mshr, i)))
    else
      var at := e.address % c.specSets;
      if TimestampVictim(s.spec[at], e.id) < c.specWays then
        s.(spec := s.spec[at := SpecFill(s.spec[at], LineOf(e, DirtyFill(c, e)))],
           mshr := Refresh(Remove(s.mshr, i)), served := s.served + [e])
      else
        s.(mshr := Refresh(Add(Remove(s.mshr, i), e.(done := true, event := now))))
  }

  // ---------- handle_writeback ----------

  predicate HeadReady(q: seq<Packet>, now: nat) { q != [] && q[0].event <= now }

  function MarkDirty(row: seq<Block>, way: nat): (r: seq<Block>)
    requires way < |row|
    ensures |r| == |row|
  {
    row[way := row[way].(line := row[way].line.(dirty := true))]
  }

  /** A new miss takes a register, a known one merges; a full file stalls the queue. */
  predicate MissStalls(c: Config, s: State, p: Packet, lowerFull: bool)
    requires Shaped(c, s)
  {
    Slot(s.mshr.entry, p.address) == c.mshrSize && (s.mshr.occupancy >= c.mshrSize || lowerFull)
  }

  function Miss(c: Config, s: State, p: Packet, merge: (Packet, Packet) -> Packet): (r: Mshr)
    requires Shaped(c, s)
    ensures |r.entry| == c.mshrSize
  {
    var i := Slot(s.mshr.entry, p.address);
    if i < c.mshrSize then s.mshr.(entry := s.mshr.entry[i := merge(s.mshr.entry[i], p)])
    else Add(s.mshr, p.(done := false))
  }

  function HandleWriteback(c: Config, s: State, now: nat, wqFull: bool): (r: State)
    requires Shaped(c, s)
    ensures Shaped(c, r)
  {
    if !HeadReady(s.wq, now) then s else
    var p := s.wq[0];
    var at := p.address % c.sets;
    var row := s.normal[at];
    var way := Hit(row, p.address);
    if way < c.ways then
      var touched := if p.kind == Writeback then row else Touch(row, way);
      s.(normal := s.normal[at := MarkDirty(touched, way)], wq := s.wq[1..], served := s.served + [p])
    else if c.level.L1D? then
      if MissStalls(c, s, p, false) then s
      else s.(mshr := Miss(c, s, p, MergeWrite), wq := s.wq[1..])
    else if Blocked(c, s, p, wqFull) then s
    else Install(c, s, p, true).(wq := s.wq[1..])
  }

  // ---------- handle_read ----------

  /** One round of handle_read; lowerFull is the read queue below, which only the last level looks at. */
  function HandleRead(c: Config, s: State, now: nat, lowerFull: bool): (r: State)
    requires Shaped(c, s)
    ensures Shaped(c, r)
  {
    if !HeadReady(s.rq, now) then s else
    var p := s.rq[0];
    var at := p.address % c.sets;
    var row := s.normal[at];
    var way := Hit(row, p.address);
    if way < c.ways then
      var touched := if p.kind == Writeback then row else Touch(row, way);
      s.(normal := s.normal[at := touched], rq := s.rq[1..], served := s.served + [p])
    else if SpecHit(s.spec[p.address % c.specSets], p.address, p.id) < c.specWays then
      s.(rq := s.rq[1..], served := s.served + [p])
    else if MissStalls(c, s, p, c.level.LLC? && lowerFull) then s
    else s.(mshr := Miss(c, s, p, MergeRead), rq := s.rq[1..])
  }

  // ---------- handle_prefetch ----------

  /** Prefetches look at the normal array only, and may be meant for a level further down. */
  function HandlePrefetch(c: Config, s: State, now: nat, lowerFull: bool): (r: State)
    requires Shaped(c, s)
    ensures Shaped(c, r)
  {
    if !HeadReady(s.pq, now) then s else
    var p := s.pq[0];
    var at := p.address % c.sets;
    var row := s.normal[at];
    var way := Hit(row, p.address);
    if way < c.ways then
      var touched := if p.kind == Writeback then row else Touch(row, way);
      s.(normal := s.normal[at := touched], pq := s.pq[1..], served := s.served + [p])
    else if MissStalls(c, s, p, lowerFull) then s
    else if Slot(s.mshr.entry, p.address) == c.mshrSize && p.fillLevel > c.fillLevel then s.(pq := s.pq[1..])
    else s.(mshr := Miss(c, s, p, Wider), pq := s.pq[1..])
  }

  // ---------- commit_blocks ----------

  /** The line that commit moves: a fresh, clean copy; the victim is neither written back nor looked up. */
  function Promote(row: seq<Block>, x: Line): (r: seq<Block>)
    ensures |r| == |row|
  {
    var way := LruVictim(row);
    if way < |row| then Put(row, way, x.(dirty := false)) else row
  }

  /** One message of commit_blocks. */
  function CommitOne(c: Config, s: State): (r: State)
    requires Shaped(c, s)
    ensures Shaped(c, r)
  {
    if s.cq == [] then s else
    var k := s.cq[0];
    var rest := s.(cq := s.cq[1..], passed := s.passed + [k]);
    var at := k.address % c.specSets;
    var way := SpecHit(s.spec[at], k.address, k.id);
    if way >= c.specWays then rest else
    var dropped := rest.(spec := s.spec[at := Drop(s.spec[at], way)]);
    if k.kind != CommitLoad then dropped else
    var target := k.address % c.sets;
    dropped.(normal := s.normal[target := Promote(s.normal[target], s.spec[at][way].line)])
  }

  const COMMIT_WIDTH: nat := 4

  function CommitSome(c: Config, s: State, n: nat): (r: State)
    requires Shaped(c, s)
    ensures Shaped(c, r)
  {
    if n == 0 then s else CommitOne(c, CommitSome(c, s, n - 1))
  }

  // ---------- operate ----------

  /** n rounds of handle_read, each with its own view of the read queue below; a round that finds nothing due, or
      must stall, changes nothing. */
  function ReadSome(c: Config, s: State, now: nat, lowerFull: nat -> bool, n: nat): (r: State)
    requires Shaped(c, s)
    ensures Shaped(c, r)
  {
    if n == 0 then s else HandleRead(c, ReadSome(c, s, now, lowerFull, n - 1), now, lowerFull(n - 1))
  }

  function PrefetchSome(c: Config, s: State, now: nat, lowerFull: nat -> bool, n: nat): (r: State)
    requires Shaped(c, s)
    ensures Shaped(c, r)
  {
    if n == 0 then s else HandlePrefetch(c, PrefetchSome(c, s, now, lowerFull, n - 1), now, lowerFull(n - 1))
  }

  /** What the level below has no room for, stage by stage and round by round: what a stage sends down may take
      the last place before the next one. */
  datatype Lower = Lower(fillFull: bool, writeFull: bool, readFull: nat -> bool, prefetchFull: nat -> bool)

  /** One cycle: fill, write, read, commit; prefetches use the read slots left over. */
  function Operate(c: Config, s: State, now: nat, lower: Lower, maxRead: nat): (r: State)
    requires Shaped(c, s)
    ensures Shaped(c, r)
  {
    var write := HandleWriteback(c, HandleFill(c, s, now, lower.fillFull), now, lower.writeFull);
    var read := ReadSome(c, write, now, lower.readFull, maxRead);
    var left := maxRead - (|write.rq| - |read.rq|);
    var commit := CommitSome(c, read, COMMIT_WIDTH);
    if commit.pq != [] && left > 0 then PrefetchSome(c, commit, now, lower.prefetchFull, left) else commit
  }

  /** invalidate_entry in the normal array, when a page is swapped out; the dirty flag stays behind. */
  function Invalidate(c: Config, s: State, address: nat): (r: State)
    requires Shaped(c, s)
    ensures Shaped(c, r)
  {
    var at := address % c.sets;
    var way := Hit(s.normal[at], address);
    if way < c.ways then s.(normal := s.normal[at := Drop(s.normal[at], way)]) else s
  }

  // ---------- arrivals ----------

  /** L1D compares full addresses in its write queue, and in its commit queue, which carries the same name. */
  function WriteKey(c: Config, p: Packet): nat { if c.level.L1D? then p.fullAddr else p.address }

  function SameKey(c: Config, q: seq<Packet>, p: Packet): seq<bool> {
    seq(|q|, i requires 0 <= i < |q| => WriteKey(c, q[i]) == WriteKey(c, p))
  }

  function Late(c: Config, p: Packet, now: nat): Packet { p.(event := Delay(p.event, now, c.latency)) }

  /** What add_rq, add_pq and add_cq did with a request. */
  datatype Outcome = Forwarded | Merged | Refused | Queued

  function RqOutcome(c: Config, s: State, p: Packet): Outcome {
    if First(SameKey(c, s.wq, p)) < |s.wq| then Forwarded
    else if Slot(s.rq, p.address) < |s.rq| then Merged
    else if |s.rq| >= c.rqSize then Refused
    else Queued
  }

  function FromWrite(c: Config, s: State, p: Packet): Packet
    requires First(SameKey(c, s.wq, p)) < |s.wq|
  {
    if p.fillLevel < c.fillLevel then p.(data := s.wq[First(SameKey(c, s.wq, p))].data) else p
  }

  /** The read queue after a request that no write answers: merged, refused, or at the tail. */
  function JoinRq(c: Config, q: seq<Packet>, p: Packet, now: nat): seq<Packet> {
    var i := Slot(q, p.address);
    if i < |q| then
      var e := q[i];
      q[i := e.(waiters := e.waiters + (if p.kind == Rfo then {} else {p.slot}),
                fillL1i := e.fillL1i || p.fillL1i, fillL1d := e.fillL1d || p.fillL1d)]
    else if |q| >= c.rqSize then q
    else q + [Late(c, p, now)]
  }

  function AddRq(c: Config, s: State, p: Packet, now: nat): State {
    if RqOutcome(c, s, p).Forwarded? then s.(served := s.served + [FromWrite(c, s, p)])
    else s.(rq := JoinRq(c, s.rq, p, now))
  }

  /** add_wq asserts that a new write finds room. */
  function AddWq(c: Config, s: State, p: Packet, now: nat): State
    requires First(SameKey(c, s.wq, p)) == |s.wq| ==> |s.wq| < c.wqSize
  {
    if First(SameKey(c, s.wq, p)) < |s.wq| then s else s.(wq := s.wq + [Late(c, p, now)])
  }

  function PqOutcome(c: Config, s: State, p: Packet): Outcome {
    if First(SameKey(c, s.wq, p)) < |s.wq| then Forwarded
    else if Slot(s.pq, p.address) < |s.pq| then Merged
    else if |s.pq| >= c.pqSize then Refused
    else Queued
  }

  function JoinPq(c: Config, q: seq<Packet>, p: Packet, now: nat): seq<Packet> {
    var i := Slot(q, p.address);
    if i < |q| then q[i := Wider(q[i], p)] else if |q| >= c.pqSize then q else q + [Late(c, p, now)]
  }

  function AddPq(c: Config, s: State, p: Packet, now: nat): State {
    if PqOutcome(c, s, p).Forwarded? then s.(served := s.served + [FromWrite(c, s, p)])
    else s.(pq := JoinPq(c, s.pq, p, now))
  }

  function CqOutcome(c: Config, s: State, p: Packet): Outcome {
    if First(SameKey(c, s.cq, p)) < |s.cq| then Merged
    else if |s.cq| >= c.cqSize then Refused
    else Queued
  }

  function AddCq(c: Config, s: State, p: Packet, now: nat): State {
    if CqOutcome(c, s, p).Queued? then s.(cq := s.cq + [Late(c, p, now)]) else s
  }

  // ---------- runs ----------

  datatype Event =
    | ReadArrives(p: Packet, now: nat)
    | WriteArrives(p: Packet, now: nat)
    | PrefetchArrives(p: Packet, now: nat)
    | CommitArrives(p: Packet, now: nat)
    | DataReturns(p: Packet, now: nat)
    | Fills(now: nat, full: bool)
    | Writes(now: nat, full: bool)
    | Reads(now: nat, full: bool)
    | Prefetches(now: nat, full: bool)
    | Commits
    | Invalidated(address: nat)

  /** What the callers of this level promise; cycles stay clear of UINT64_MAX. */
  predicate Enabled(c: Config, s: State, e: Event)
    requires Shaped(c, s)
  {
    match e
    case ReadArrives(p, now) => p.address != 0
    case WriteArrives(p, now) =>
      p.address != 0 && !p.speculative && (First(SameKey(c, s.wq, p)) == |s.wq| ==> |s.wq| < c.wqSize)
    case PrefetchArrives(p, now) => p.address != 0
    case CommitArrives(p, now) => p.address != 0 && p.speculative
    case DataReturns(p, now) =>
      var i := Slot(s.mshr.entry, p.address);
      p.address != 0 && i < c.mshrSize && Delay(s.mshr.entry[i].event, now, c.latency) < UINT64_MAX
    case Fills(now, _) => now < UINT64_MAX
    case _ => true
  }

  function Step(c: Config, s: State, e: Event): (r: State)
    requires Shaped(c, s) && Enabled(c, s, e)
    ensures Shaped(c, r)
  {
    match e
    case ReadArrives(p, now) => AddRq(c, s, p, now)
    case WriteArrives(p, now) => AddWq(c, s, p, now)
    case PrefetchArrives(p, now) => AddPq(c, s, p, now)
    case CommitArrives(p, now) => AddCq(c, s, p, now)
    case DataReturns(p, now) => Return(c, s, p, now)
    case Fills(now, full) => HandleFill(c, s, now, full)
    case Writes(now, full) => HandleWriteback(c, s, now, full)
    case Reads(now, full) => HandleRead(c, s, now, full)
    case Prefetches(now, full) => HandlePrefetch(c, s, now, full)
    case Commits => CommitOne(c, s)
    case Invalidated(address) => Invalidate(c, s, address)
  }

  /** A run from s through the events to t. */
  predicate Reaches(c: Config, s: State, es: seq<Event>, t: State)
    requires Shaped(c, s)
    decreases |es|
  {
    if es == [] then t == s else Enabled(c, s, es[0]) && Reaches(c, Step(c, s, es[0]), es[1..], t)
  }

  function Initial(c: Config): (s: State)
    requires Configured(c)
    ensures Shaped(c, s)
  {
    State(seq(c.sets, _ => FreshRow(c.ways)), seq(c.specSets, _ => FreshRow(c.specWays)),
          Mshr(seq(c.mshrSize, _ => EMPTY), 0, 0, UINT64_MAX), [], [], [], [], [], [], [])
  }
}
