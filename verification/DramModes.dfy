/** When the channel turns from reads to writes and back, and how addresses decode. */
module DramModes {
  import opened FirstMin
  import opened DramModel
  import opened DramInvariant
  import opened DramDrain
  import opened DramTiming

  /** Requests that wait in one of the queues, scheduled or not. */
  function Waiting(s: Channel, write: bool): nat { Count(Q(s, write).entry, IsLive) }

  /** A cycle turns to writes exactly when 56 of them wait, or any with no read left; and back exactly when no write is
      left, or reads wait and fewer than 48 writes do. */
  lemma SwitchesExactly(t: Timing, s: Channel, now: nat)
    requires Valid(t, s) && now + Longest(t) < UINT64_MAX
    ensures Operate(t, s, now).writeMode != s.writeMode <==>
              if s.writeMode then Waiting(s, true) == 0 || (Waiting(s, false) > 0 && Waiting(s, true) < 48)
              else Waiting(s, true) >= 56 || (Waiting(s, false) == 0 && Waiting(s, true) > 0)
  {
    hide BanksOk, PendingKeys, ScheduledKeys, TrySchedule, TryProcess, SwitchMode;
    var r := SwitchModeShape(t, s, now);
    assert QueueOk(s.rq) && QueueOk(s.wq);
  }

  /** The clock cycles of a run. */
  function Cycles(es: seq<Event>): nat {
    if es == [] then 0 else Cycles(es[..|es| - 1]) + (if es[|es| - 1].Tick? then 1 else 0)
  }

  /** One cycle takes at most one request away, and only from the queue being served. */
  lemma CycleTakesOne(t: Timing, s: Channel, now: nat)
    requires Valid(t, s) && now + Longest(t) < UINT64_MAX
    ensures var r := Operate(t, s, now);
            && Valid(t, r) && r.writeMode == (if Switching(s) then !s.writeMode else s.writeMode)
            && Waiting(r, !r.writeMode) == Waiting(s, !r.writeMode)
            && Waiting(s, r.writeMode) - 1 <= Waiting(r, r.writeMode) <= Waiting(s, r.writeMode)
  {
    hide BanksOk, PendingKeys, ScheduledKeys, SwitchMode, TrySchedule, TryProcess;
    SwitchModeKeeps(t, s, now);
    var s1 := SwitchModeShape(t, s, now);
    var s2 := SchedulingKeepsOccupancy(t, s1, now);
    var r, completes, i := ProcessShape(t, s2, now);
    assert QueueOk(s.rq) && QueueOk(s.wq) && QueueOk(r.rq) && QueueOk(r.wq);
    hide QueueOk;
    QueueCounts(s);
    QueueCounts(r);
  }

  lemma QueueCounts(s: Channel)
    requires Shaped(s) && QueueOk(s.rq) && QueueOk(s.wq)
    ensures s.rq.occupancy == Waiting(s, false) && s.wq.occupancy == Waiting(s, true)
  {
  }

  /** Arrivals only add. */
  lemma ArrivalsAdd(t: Timing, s: Channel, e: Event)
    requires Valid(t, s) && Admissible(t, e) && !e.Tick?
    ensures var r := Step(t, s, e);
            && Valid(t, r) && r.writeMode == s.writeMode
            && Waiting(s, false) <= Waiting(r, false) <= Waiting(s, false) + (if e.Read? then 1 else 0)
            && Waiting(s, true) <= Waiting(r, true) <= Waiting(s, true) + (if e.Write? then 1 else 0)
  {
    StepIsValid(t, s, e);
    assert QueueOk(s.rq) && QueueOk(s.wq) && QueueOk(Step(t, s, e).rq) && QueueOk(Step(t, s, e).wq);
    hide QueueOk, BanksOk, PendingKeys, ScheduledKeys, Valid;
    QueueCounts(s);
    QueueCounts(Step(t, s, e));
    hide Waiting;
  }

  /** Over every run: with w writes waiting, the channel keeps on writing for w - 48 cycles at least, whatever arrives.
      A turn at 56 waiting writes is a burst of 8 cycles or more. */
  lemma {:induction false} WritesComeInBursts(t: Timing, s: Channel, es: seq<Event>)
    requires Valid(t, s) && s.writeMode && forall e :: e in es ==> Admissible(t, e)
    requires Cycles(es) + 48 <= Waiting(s, true)
    ensures var r := Run(t, s, es);
            Valid(t, r) && r.writeMode && Waiting(r, true) + Cycles(es) >= Waiting(s, true)
  {
    assert Shaped(s);
    hide QueueOk, BanksOk, Step, Operate, Waiting, Valid, Switching;
    if es != [] {
      var before, e := es[..|es| - 1], es[|es| - 1];
      assert e in es;
      WritesComeInBursts(t, s, before);
      var r := Run(t, s, before);
      if e.Tick? {
        SwitchesExactly(t, r, e.now);
        CycleTakesOne(t, r, e.now);
        TickIsCycle(t, r, e.now);
      } else {
        ArrivalsAdd(t, r, e);
      }
    }
  }

  lemma TickIsCycle(t: Timing, s: Channel, now: nat)
    requires Shaped(s)
    ensures Step(t, s, Tick(now)) == Operate(t, s, now)
  {
  }

  /** The writes that arrive in a run. */
  function Writes(es: seq<Event>): nat {
    if es == [] then 0 else Writes(es[..|es| - 1]) + (if es[|es| - 1].Write? then 1 else 0)
  }

  /** Over every run: with reads waiting, the channel keeps on reading for as many cycles as there are reads, as long as
      fewer than 56 writes have gathered. */
  lemma {:induction false} ReadsGoFirst(t: Timing, s: Channel, es: seq<Event>)
    requires Valid(t, s) && !s.writeMode && forall e :: e in es ==> Admissible(t, e)
    requires Cycles(es) <= Waiting(s, false) && Waiting(s, true) + Writes(es) < 56
    ensures var r := Run(t, s, es);
            && Valid(t, r) && !r.writeMode && Waiting(r, false) + Cycles(es) >= Waiting(s, false)
            && Waiting(r, true) <= Waiting(s, true) + Writes(es)
  {
    assert Shaped(s);
    hide QueueOk, BanksOk, Step, Operate, Waiting, Valid, Switching;
    if es != [] {
      var before, e := es[..|es| - 1], es[|es| - 1];
      assert e in es;
      ReadsGoFirst(t, s, before);
      var r := Run(t, s, before);
      if e.Tick? {
        SwitchesExactly(t, r, e.now);
        CycleTakesOne(t, r, e.now);
        TickIsCycle(t, r, e.now);
      } else {
        ArrivalsAdd(t, r, e);
      }
    }
  }

  /** A write that meets none of its address takes the first empty slot as it is; at a full queue it is dropped. */
  lemma WriteIsStored(t: Timing, s: Channel, p: Packet)
    requires Valid(t, s) && IsLive(p) && forall k :: 0 <= k < QUEUE_SIZE ==> s.wq.entry[k].address != p.address
    ensures var e, r := s.wq.entry, AddWq(s, true, p).0;
            && r == s.(wq := r.wq)
            && if Waiting(s, true) == QUEUE_SIZE then r.wq.entry == e
               else exists i :: 0 <= i < QUEUE_SIZE && !IsLive(e[i]) && (forall k :: 0 <= k < i ==> IsLive(e[k]))
                                && r.wq.entry == e[i := p]
  {
    var i := IndexOf(s.wq.entry, 0);
    hide BanksOk, PendingKeys, ScheduledKeys, QueueOk;
    if i < QUEUE_SIZE { EmptySlot(s.wq.entry, i); } else { AllTaken(s.wq.entry); }
  }

  /** i is the first slot of this address. */
  ghost predicate FirstSlot(e: seq<Packet>, address: nat, i: int) {
    0 <= i < |e| && e[i].address == address && forall k :: 0 <= k < i ==> e[k].address != address
  }

  ghost predicate NoSlot(e: seq<Packet>, address: nat) { forall k :: 0 <= k < |e| ==> e[k].address != address }

  /** What add_rq and add_wq return: the slot of the same address that the request found waiting, or -1; a read looks
      at the writes first, which answer it. */
  lemma ResultsExactly(s: Channel, warm: bool, p: Packet)
    requires Shaped(s)
    ensures var i := AddRq(s, warm, p).1;
            if warm && NoSlot(s.wq.entry, p.address) && !NoSlot(s.rq.entry, p.address)
            then FirstSlot(s.rq.entry, p.address, i) else i == -1
    ensures var i := AddWq(s, warm, p).1;
            if warm && !NoSlot(s.wq.entry, p.address) then FirstSlot(s.wq.entry, p.address, i) else i == -1
  {
    hide Store, Answer;
  }

  lemma {:induction false} EmptySlot(e: seq<Packet>, i: nat)
    requires i < |e| && !IsLive(e[i])
    ensures Count(e, IsLive) < |e|
  {
    AtMostAll(e[..|e| - 1]);
    if i < |e| - 1 { EmptySlot(e[..|e| - 1], i); }
  }

  lemma {:induction false} AtMostAll(e: seq<Packet>)
    ensures Count(e, IsLive) <= |e|
  {
    if e != [] { AtMostAll(e[..|e| - 1]); }
  }

  lemma {:induction false} AllTaken(e: seq<Packet>)
    requires forall i :: 0 <= i < |e| ==> IsLive(e[i])
    ensures Count(e, IsLive) == |e|
  {
    if e != [] { AllTaken(e[..|e| - 1]); }
  }

  /** The channel begins with reads: no arrival alone turns it. */
  lemma {:induction false} BeginsWithReads(t: Timing, es: seq<Event>)
    requires Cycles(es) == 0
    ensures !Run(t, Initial(), es).writeMode
  {
    hide Store, Answer;
    if es != [] { BeginsWithReads(t, es[..|es| - 1]); }
  }

  // ---------- addresses ----------

  /** Bank, column and row are all there is to a line address of 26 bits: the three lowest bits, the next seven and the
      sixteen above. */
  lemma DecodersAreExact(a: nat, b: nat)
    requires a < 0x400_0000 && b < 0x400_0000
    ensures a == b <==> BankOf(a) == BankOf(b) && a / 8 % 128 == b / 8 % 128 && RowOf(a) == RowOf(b)
    ensures a < 8 ==> BankOf(a) == a
    ensures a / 1024 == b / 1024 ==> RowOf(a) == RowOf(b)
  {
    Decoded(a);
    Decoded(b);
  }

  lemma Decoded(a: nat)
    requires a < 0x400_0000
    ensures a == RowOf(a) * 1024 + a / 8 % 128 * 8 + BankOf(a)
  {
    assert a / 8 == a / 8 / 128 * 128 + a / 8 % 128;
    assert a / 8 / 128 == a / 1024;
    assert a / 1024 < 65536;
  }
}
