/** Every read the channel takes on is answered exactly once: reads are neither lost nor duplicated
    by scheduling, by completions or by any number of mode switches. */
module DramConservation {
  import opened FirstMin
  import opened DramModel
  import opened DramInvariant
  import opened DramDrain

  /** A packet without the two fields the scheduler itself writes. */
  function Strip(p: Packet): Packet { p.(scheduled := false, eventCycle := 0) }

  function StripAnswer(r: Response): Response { r.(packet := Strip(r.packet)) }

  /** How often x was given as an answer. */
  function Answered(rs: seq<Response>, x: Response): nat {
    if rs == [] then 0
    else Answered(rs[..|rs| - 1], x) + (if StripAnswer(rs[|rs| - 1]) == x then 1 else 0)
  }

  /** The answer a slot of the read queue will get: data side, payload as stored. */
  function Owes(x: Response): Packet -> bool {
    (p: Packet) => IsLive(p) && x == Response(false, Strip(p))
  }

  /** Answers x given so far together with the answers x still owed by the read queue. */
  function Account(s: Channel, x: Response): nat {
    Answered(s.responses, x) + Count(s.rq.entry, Owes(x))
  }

  /** How often an answer to p on the spot is x: the instruction side, the data side or both are told. */
  function OnTheSpot(p: Packet, x: Response): nat {
    (if p.instruction && x == Response(true, Strip(p)) then 1 else 0)
      + (if p.isData && x == Response(false, Strip(p)) then 1 else 0)
  }

  /** What an event adds to the account: a read answered on the spot (before warm-up, or out of the
      write queue), a read that takes a slot, and nothing for a merged or dropped read. */
  function Due(s: Channel, e: Event, x: Response): nat {
    if !e.Read? then 0
    else if !e.warm then OnTheSpot(e.p, x)
    else
      var w := IndexOf(s.wq.entry, e.p.address);
      if w < |s.wq.entry| then OnTheSpot(e.p.(data := s.wq.entry[w].data), x)
      else if IndexOf(s.rq.entry, e.p.address) < |s.rq.entry| then 0
      else if IndexOf(s.rq.entry, 0) < |s.rq.entry| && x == Response(false, Strip(e.p)) then 1
      else 0
  }

  function Dues(t: Timing, es: seq<Event>, x: Response): nat {
    if es == [] then 0
    else Dues(t, es[..|es| - 1], x) + Due(Run(t, Initial(), es[..|es| - 1]), es[|es| - 1], x)
  }

  lemma {:induction false} AnsweredConcat(a: seq<Response>, b: seq<Response>, x: Response)
    ensures Answered(a + b, x) == Answered(a, x) + Answered(b, x)
  {
    if b == [] {
      assert a + b == a;
    } else {
      AnsweredConcat(a, b[..|b| - 1], x);
      assert (a + b)[..|a + b| - 1] == a + b[..|b| - 1];
    }
  }

  lemma AnsweredOne(r: Response, x: Response)
    ensures Answered([r], x) == if StripAnswer(r) == x then 1 else 0
  {
    assert [r][..0] == [];
  }

  lemma AnsweredOnTheSpot(p: Packet, x: Response)
    ensures Answered(Answer(p), x) == OnTheSpot(p, x)
  {
    hide Answered;
    assert Answered([], x) == 0 by { EmptyAnswers(x); }
    AnsweredOne(Response(true, p), x);
    AnsweredOne(Response(false, p), x);
    AnsweredConcat([Response(true, p)], [Response(false, p)], x);
    AnsweredConcat(if p.instruction then [Response(true, p)] else [], if p.isData then [Response(false, p)] else [], x);
  }

  lemma EmptyAnswers(x: Response)
    ensures Answered([], x) == 0
  {
  }

  lemma CycleConserves(t: Timing, s: Channel, now: nat, x: Response)
    requires Valid(t, s) && now + Longest(t) < UINT64_MAX
    ensures Account(Operate(t, s, now), x) == Account(s, x)
  {
    hide QueueOk, BanksOk, SwitchMode, TrySchedule, TryProcess;
    SwitchModeKeeps(t, s, now);
    var s1 := SwitchModeShape(t, s, now);
    CountSame(s.rq.entry, s1.rq.entry, Owes(x));
    ScheduleConserves(t, s1, now, x);
    var s2 := TrySchedule(t, s1, now);
    var r, completes, i := ProcessShape(t, s2, now);
    if completes { CompletionConserves(t, s2, r, i, now, x); }
  }

  lemma ScheduleConserves(t: Timing, s: Channel, now: nat, x: Response)
    requires Valid(t, s) && now + Longest(t) < UINT64_MAX
    ensures Valid(t, TrySchedule(t, s, now))
    ensures Account(TrySchedule(t, s, now), x) == Account(s, x)
  {
    hide QueueOk, BanksOk, Schedule;
    ScheduleKeeps(t, s, now);
    var r, i, hit, done := ScheduleShape(t, s, now);
    if i < QUEUE_SIZE { CountSame(s.rq.entry, r.rq.entry, Owes(x)); }
  }

  lemma CompletionConserves(t: Timing, s: Channel, r: Channel, i: nat, now: nat, x: Response)
    requires Valid(t, s) && Shaped(r) && i < QUEUE_SIZE && Completed(t, s, r, i, now)
    requires Q(s, s.writeMode).entry[i].scheduled
    ensures Account(r, x) == Account(s, x)
  {
    hide BanksOk;
    if !s.writeMode {
      var p := s.rq.entry[i];
      var given := [Response(false, p.(eventCycle := now + t.busReturn))];
      CountUpdate(s.rq.entry, Owes(x), i, EMPTY_PACKET);
      AnsweredConcat(s.responses, given, x);
      AnsweredOne(given[0], x);
      assert StripAnswer(given[0]) == Response(false, Strip(p));
      assert IsLive(p) by { assert QueueOk(s.rq); }
    } else {
      assert r.responses == s.responses;
    }
  }

  lemma ArrivalAccounts(t: Timing, s: Channel, e: Event, x: Response)
    requires Valid(t, s) && Admissible(t, e) && !e.Tick?
    ensures Account(Step(t, s, e), x) == Account(s, x) + Due(s, e, x)
  {
    hide QueueOk, BanksOk, Valid, Answer, PendingKeys, OnTheSpot;
    if e.Read? {
      AnsweredOnTheSpot(e.p, x);
      AnsweredConcat(s.responses, Answer(e.p), x);
      var w := IndexOf(s.wq.entry, e.p.address);
      if w < |s.wq.entry| {
        AnsweredOnTheSpot(e.p.(data := s.wq.entry[w].data), x);
        AnsweredConcat(s.responses, Answer(e.p.(data := s.wq.entry[w].data)), x);
      }
      var i := IndexOf(s.rq.entry, 0);
      if i < |s.rq.entry| { CountUpdate(s.rq.entry, Owes(x), i, e.p); }
    }
  }

  /** Over every run and for every answer x: the times it was given plus the times it is still owed
      are exactly the times the events called for it. */
  lemma {:induction false} EveryRunBalances(t: Timing, es: seq<Event>, x: Response)
    requires forall e :: e in es ==> Admissible(t, e)
    ensures Account(Run(t, Initial(), es), x) == Dues(t, es, x)
  {
    if es == [] {
      CountZero(Initial().rq.entry, Owes(x));
    } else {
      var before, e := es[..|es| - 1], es[|es| - 1];
      EveryRunBalances(t, before, x);
      EveryRunIsValid(t, before);
      assert Admissible(t, e);
      var s := Run(t, Initial(), before);
      if e.Tick? { CycleConserves(t, s, e.now, x); } else { ArrivalAccounts(t, s, e, x); }
    }
  }

  lemma {:induction false} TicksConserve(t: Timing, s: Channel, now: nat, n: nat, x: Response)
    requires Valid(t, s) && now + n + Longest(t) < UINT64_MAX
    ensures Account(Ticks(t, s, now, n), x) == Account(s, x) && Valid(t, Ticks(t, s, now, n))
    decreases n
  {
    hide QueueOk, BanksOk, Account, Operate;
    if n > 0 {
      OperateKeeps(t, s, now);
      CycleConserves(t, s, now, x);
      TicksConserve(t, Operate(t, s, now), now + 1, n - 1, x);
    }
  }

  // ---------- requests carry real cycles ----------

  predicate Real(e: Event) { !e.Tick? ==> e.p.eventCycle < UINT64_MAX }

  predicate AllTimed(s: Channel) { Timed(s.rq.entry) && Timed(s.wq.entry) }

  lemma CycleKeepsTimed(t: Timing, s: Channel, now: nat)
    requires Valid(t, s) && AllTimed(s) && now + Longest(t) < UINT64_MAX
    ensures AllTimed(Operate(t, s, now))
  {
    hide QueueOk, BanksOk, SwitchMode, TrySchedule, TryProcess;
    SwitchModeKeeps(t, s, now);
    var s1 := SwitchModeShape(t, s, now);
    assert AllTimed(s1);
    ScheduleKeepsTimed(t, s1, now);
    var s2 := TrySchedule(t, s1, now);
    var r, completes, i := ProcessShape(t, s2, now);
  }

  lemma ScheduleKeepsTimed(t: Timing, s: Channel, now: nat)
    requires Valid(t, s) && AllTimed(s) && now + Longest(t) < UINT64_MAX
    ensures Valid(t, TrySchedule(t, s, now)) && AllTimed(TrySchedule(t, s, now))
  {
    hide QueueOk, BanksOk, Schedule;
    ScheduleKeeps(t, s, now);
    var r, i, hit, done := ScheduleShape(t, s, now);
  }

  lemma {:induction false} EveryRunIsTimed(t: Timing, es: seq<Event>)
    requires forall e :: e in es ==> Admissible(t, e) && Real(e)
    ensures AllTimed(Run(t, Initial(), es))
  {
    hide QueueOk, BanksOk, Operate;
    if es != [] {
      var before, e := es[..|es| - 1], es[|es| - 1];
      EveryRunIsTimed(t, before);
      EveryRunIsValid(t, before);
      assert Admissible(t, e) && Real(e);
      var s := Run(t, Initial(), before);
      if e.Tick? { CycleKeepsTimed(t, s, e.now); }
    }
  }

  /** Safety and liveness together: after any run of arrivals and cycles, letting the clock run to the
      bound leaves every accepted read answered exactly as often as it was due. */
  lemma EveryReadIsAnswered(t: Timing, es: seq<Event>, now: nat, n: nat, x: Response)
    requires forall e :: e in es ==> Admissible(t, e) && Real(e)
    requires now + n > EmptyBy(t, Run(t, Initial(), es), now) && now + n + Longest(t) < UINT64_MAX
    ensures Answered(Ticks(t, Run(t, Initial(), es), now, n).responses, x) == Dues(t, es, x)
  {
    var s := Run(t, Initial(), es);
    EveryRunIsValid(t, es);
    EveryRunIsTimed(t, es);
    EveryRunBalances(t, es, x);
    hide BanksOk, QueueOk;
    Drains(t, s, now, n);
    TicksConserve(t, s, now, n, x);
    NoneLeft(t, Ticks(t, s, now, n), x);
  }

  lemma NoneLeft(t: Timing, s: Channel, x: Response)
    requires Valid(t, s) && Occupancy(s) == 0
    ensures Count(s.rq.entry, Owes(x)) == 0
  {
    CountZero(s.rq.entry, IsLive);
    CountZero(s.rq.entry, Owes(x));
  }
}
