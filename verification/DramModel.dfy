/** One DRAM channel as a value: two slot queues, eight banks, one data bus. */
module DramModel {
  import opened FirstMin

  const UINT32_MAX: nat := 0xFFFF_FFFF
  const QUEUE_SIZE: nat := 64
  const BANKS: nat := 8
  const HIGH_WATERMARK: nat := QUEUE_SIZE * 7 / 8
  const LOW_WATERMARK: nat := QUEUE_SIZE * 3 / 4

  datatype Timing = Timing(tRP: nat, tRCD: nat, tCAS: nat, busReturn: nat, turnAround: nat)

  /** Address 0 marks an empty slot. */
  datatype Packet = Packet(address: nat, data: nat, tag: nat, instruction: bool, isData: bool,
                           scheduled: bool, eventCycle: nat)

  const EMPTY_PACKET := Packet(0, 0, 0, false, true, false, UINT64_MAX)

  datatype Bank = Bank(working: bool, cycleAvailable: nat, requestIndex: int, rowBufferHit: bool,
                       isWrite: bool, isRead: bool, openRow: nat)

  const IDLE_BANK := Bank(false, 0, -1, false, false, false, UINT32_MAX)

  datatype Queue = Queue(entry: seq<Packet>, occupancy: int,
                         nextScheduleIndex: nat, nextScheduleCycle: nat,
                         nextProcessIndex: nat, nextProcessCycle: nat)

  /** A packet handed to the instruction or the data side of the level above. */
  datatype Response = Response(toInstruction: bool, packet: Packet)

  datatype Channel = Channel(rq: Queue, wq: Queue, bank: seq<Bank>, writeMode: bool, bus: nat,
                             scheduledReads: int, scheduledWrites: int, responses: seq<Response>)

  predicate IsLive(p: Packet) { p.address != 0 }

  predicate IsScheduled(p: Packet) { p.scheduled }

  function Count(e: seq<Packet>, f: Packet -> bool): nat {
    if e == [] then 0 else Count(e[..|e| - 1], f) + (if f(e[|e| - 1]) then 1 else 0)
  }

  // ---------- address decoders (one channel, one rank) ----------

  function BankOf(address: nat): (b: nat)
    ensures b < BANKS
  {
    address % 8
  }

  function RowOf(address: nat): nat { address / 1024 % 65536 }

  // ---------- candidate cycles ----------

  /** Cycles at which a waiting request may be scheduled. */
  function PendingKeys(e: seq<Packet>): seq<nat> {
    seq(|e|, i requires 0 <= i < |e| =>
      if e[i].address != 0 && !e[i].scheduled then e[i].eventCycle else UINT64_MAX)
  }

  /** Cycles at which a scheduled request may be processed. */
  function ScheduledKeys(e: seq<Packet>): seq<nat> {
    seq(|e|, i requires 0 <= i < |e| => if e[i].scheduled then e[i].eventCycle else UINT64_MAX)
  }

  predicate Eligible(p: Packet, bank: seq<Bank>, rowHitOnly: bool)
    requires |bank| == BANKS
  {
    && !p.scheduled
    && p.address != 0
    && !bank[BankOf(p.address)].working
    && (rowHitOnly ==> bank[BankOf(p.address)].openRow == RowOf(p.address))
  }

  function EligibleKeys(e: seq<Packet>, bank: seq<Bank>, rowHitOnly: bool): seq<nat>
    requires |bank| == BANKS
  {
    seq(|e|, i requires 0 <= i < |e| =>
      if Eligible(e[i], bank, rowHitOnly) then e[i].eventCycle else UINT64_MAX)
  }

  function UpdateSchedule(q: Queue): Queue {
    q.(nextScheduleIndex := Find(PendingKeys(q.entry)), nextScheduleCycle := Cycle(PendingKeys(q.entry)))
  }

  function UpdateProcess(q: Queue): Queue {
    q.(nextProcessIndex := Find(ScheduledKeys(q.entry)), nextProcessCycle := Cycle(ScheduledKeys(q.entry)))
  }

  // ---------- the steps ----------

  function Q(s: Channel, write: bool): Queue { if write then s.wq else s.rq }

  function WithQ(s: Channel, write: bool, q: Queue): Channel {
    if write then s.(wq := q) else s.(rq := q)
  }

  predicate Shaped(s: Channel) {
    |s.rq.entry| == QUEUE_SIZE && |s.wq.entry| == QUEUE_SIZE && |s.bank| == BANKS
  }

  /** Unsigned 64-bit subtraction. */
  function SubU64(a: nat, b: nat): nat { (a - b) % (UINT64_MAX + 1) }

  /** First pass: open rows only. Second pass, when the first found nothing: any idle bank. */
  function Pick(e: seq<Packet>, bank: seq<Bank>): (r: (nat, bool))
    requires |bank| == BANKS
  {
    var hit := Find(EligibleKeys(e, bank, true));
    if hit < |e| then (hit, true) else (Find(EligibleKeys(e, bank, false)), false)
  }

  function Latency(t: Timing, rowHit: bool): nat {
    if rowHit then t.tCAS else t.tRP + t.tRCD + t.tCAS
  }

  function Schedule(t: Timing, s: Channel, write: bool, now: nat): (r: Channel)
    requires Shaped(s)
    ensures Shaped(r) && r.writeMode == s.writeMode
  {
    var q := Q(s, write);
    var (i, hit) := Pick(q.entry, s.bank);
    if i >= |q.entry| then s else
    var p := q.entry[i];
    var b := BankOf(p.address);
    var done := now + Latency(t, hit);
    var bank := Bank(true, done, i, hit, write, !write, RowOf(p.address));
    var q' := UpdateProcess(UpdateSchedule(q.(entry := q.entry[i := p.(scheduled := true, eventCycle := done)])));
    WithQ(s.(bank := s.bank[b := bank],
             scheduledWrites := s.scheduledWrites + (if write then 1 else 0),
             scheduledReads := s.scheduledReads + (if write then 0 else 1)),
          write, q')
  }

  /** The due request leaves its slot and its bank, and takes the bus; a read is answered. */
  function Finish(t: Timing, s: Channel, write: bool, now: nat): (r: Channel)
    requires Shaped(s) && Q(s, write).nextProcessIndex < QUEUE_SIZE
    ensures Shaped(r) && r.writeMode == s.writeMode
  {
    var q := Q(s, write);
    var i := q.nextProcessIndex;
    var p := q.entry[i];
    var b := BankOf(p.address);
    var bank := s.bank[b].(working := false, requestIndex := -1, rowBufferHit := false,
                           isWrite := false, isRead := false);
    var q' := UpdateProcess(q.(entry := q.entry[i := EMPTY_PACKET], occupancy := q.occupancy - 1));
    var s' := s.(bus := now + t.busReturn, bank := s.bank[b := bank],
                 scheduledWrites := s.scheduledWrites - (if write then 1 else 0),
                 scheduledReads := s.scheduledReads - (if write then 0 else 1),
                 responses := s.responses +
                   (if write then [] else [Response(false, p.(eventCycle := now + t.busReturn))]));
    WithQ(s', write, q')
  }

  function Process(t: Timing, s: Channel, write: bool, now: nat): (r: Channel)
    requires Shaped(s) && Q(s, write).nextProcessIndex < QUEUE_SIZE
    ensures Shaped(r) && r.writeMode == s.writeMode
  {
    var q := Q(s, write);
    var b := BankOf(q.entry[q.nextProcessIndex].address);
    if s.bank[b].cycleAvailable > now then s
    else if s.bus > now then s.(bank := s.bank[b := s.bank[b].(cycleAvailable := s.bus)])
    else Finish(t, s, write, now)
  }

  /** Cancels the schedule of slot i. */
  function Cancel(t: Timing, s: Channel, write: bool, now: nat, i: nat): (r: Channel)
    requires Shaped(s) && i < QUEUE_SIZE
    ensures Shaped(r)
  {
    var q := Q(s, write);
    var p := q.entry[i];
    if !p.scheduled then s else
    var b := BankOf(p.address);
    var k := s.bank[b];
    var row := if SubU64(k.cycleAvailable, t.tCAS) <= now then RowOf(p.address) else UINT32_MAX;
    var k' := k.(openRow := row, requestIndex := -1, rowBufferHit := false, working := false,
                 cycleAvailable := now, isWrite := false, isRead := if k.isWrite then k.isRead else false);
    WithQ(s.(bank := s.bank[b := k'],
             scheduledWrites := s.scheduledWrites - (if k.isWrite then 1 else 0),
             scheduledReads := s.scheduledReads - (if !k.isWrite && k.isRead then 1 else 0)),
          write, q.(entry := q.entry[i := p.(scheduled := false, eventCycle := now)]))
  }

  function CancelUpTo(t: Timing, s: Channel, write: bool, now: nat, n: nat): (r: Channel)
    requires Shaped(s) && n <= QUEUE_SIZE
    ensures Shaped(r)
  {
    if n == 0 then s else Cancel(t, CancelUpTo(t, s, write, now, n - 1), write, now, n - 1)
  }

  function Reset(t: Timing, s: Channel, write: bool, now: nat): (r: Channel)
    requires Shaped(s)
    ensures Shaped(r)
  {
    var c := CancelUpTo(t, s, write, now, QUEUE_SIZE);
    c.(rq := UpdateProcess(UpdateSchedule(c.rq)), wq := UpdateProcess(UpdateSchedule(c.wq)))
  }

  predicate ToWrite(s: Channel) {
    && !s.writeMode
    && (s.wq.occupancy >= HIGH_WATERMARK || (s.rq.occupancy == 0 && s.wq.occupancy > 0))
  }

  predicate ToRead(s: Channel) {
    && s.writeMode
    && (s.wq.occupancy == 0 || (s.rq.occupancy != 0 && s.wq.occupancy < LOW_WATERMARK))
  }

  function SwitchMode(t: Timing, s: Channel, now: nat): (r: Channel)
    requires Shaped(s)
    ensures Shaped(r)
  {
    if ToWrite(s) || ToRead(s) then
      var c := Reset(t, s.(writeMode := !s.writeMode), s.writeMode, now);
      c.(bus := c.bus + t.turnAround)
    else s
  }

  function TrySchedule(t: Timing, s: Channel, now: nat): (r: Channel)
    requires Shaped(s)
    ensures Shaped(r) && r.writeMode == s.writeMode
  {
    var q := Q(s, s.writeMode);
    if q.nextScheduleIndex < QUEUE_SIZE && q.nextScheduleCycle <= now
    then Schedule(t, s, s.writeMode, now) else s
  }

  function TryProcess(t: Timing, s: Channel, now: nat): (r: Channel)
    requires Shaped(s)
    ensures Shaped(r) && r.writeMode == s.writeMode
  {
    var q := Q(s, s.writeMode);
    if q.nextProcessIndex < QUEUE_SIZE && q.nextProcessCycle <= now
    then Process(t, s, s.writeMode, now) else s
  }

  /** One call of operate() at core cycle now. */
  function Operate(t: Timing, s: Channel, now: nat): (r: Channel)
    requires Shaped(s)
    ensures Shaped(r)
  {
    TryProcess(t, TrySchedule(t, SwitchMode(t, s, now), now), now)
  }

  // ---------- arrivals ----------

  /** The first slot holding this address, or the queue size. */
  function IndexOf(e: seq<Packet>, address: nat): (i: nat)
    ensures i <= |e|
    ensures i < |e| ==> e[i].address == address
    ensures forall k :: 0 <= k < i ==> e[k].address != address
  {
    if e == [] then 0
    else if e[0].address == address then 0
    else 1 + IndexOf(e[1..], address)
  }

  /** Stores the packet in the first empty slot; with no empty slot it is dropped. */
  function Store(q: Queue, p: Packet): Queue {
    var i := IndexOf(q.entry, 0);
    UpdateSchedule(if i < |q.entry| then q.(entry := q.entry[i := p], occupancy := q.occupancy + 1) else q)
  }

  function Answer(p: Packet): seq<Response> {
    (if p.instruction then [Response(true, p)] else []) + (if p.isData then [Response(false, p)] else [])
  }

  function AddRq(s: Channel, warm: bool, p: Packet): (Channel, int) {
    if !warm then (s.(responses := s.responses + Answer(p)), -1 as int) else
    var w := IndexOf(s.wq.entry, p.address);
    if w < |s.wq.entry| then
      (s.(responses := s.responses + Answer(p.(data := s.wq.entry[w].data))), -1)
    else
      var r := IndexOf(s.rq.entry, p.address);
      if r < |s.rq.entry| then (s, r as int) else (s.(rq := Store(s.rq, p)), -1)
  }

  function AddWq(s: Channel, warm: bool, p: Packet): (Channel, int) {
    if !warm then (s, -1 as int) else
    var w := IndexOf(s.wq.entry, p.address);
    if w < |s.wq.entry| then (s, w as int) else (s.(wq := Store(s.wq, p)), -1)
  }

  function EmptyQueue(): Queue { Queue(seq(QUEUE_SIZE, _ => EMPTY_PACKET), 0, 0, UINT64_MAX, 0, UINT64_MAX) }

  function Initial(): Channel {
    Channel(EmptyQueue(), EmptyQueue(), seq(BANKS, _ => IDLE_BANK), false, 0, 0, 0, [])
  }
}
