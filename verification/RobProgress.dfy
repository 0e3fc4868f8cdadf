/** When instructions start and complete: latencies, outstanding memory operations, and what one cycle gets done. */
module RobProgress {
  import opened RobModel
  import opened RobInvariant
  import opened RobSteps
  import opened RobOnce

  // ---------- one step ----------

  /** What heads a ready ring has not started. */
  lemma RingHeads(s: Rob)
    requires Valid(s)
    ensures s.rte0 != [] ==> Startable(s, s.rte0[0])
    ensures s.rte1 != [] ==> Startable(s, s.rte1[0])
  {
    hide LinksOk, DataOk, InstrsOk, NumOpen;
    if s.rte0 != [] { assert s.rte0[0] in s.rte0 + s.rte1; }
    if s.rte1 != [] { assert s.rte1[0] in s.rte0 + s.rte1; }
  }

  /** The event is about instruction c itself. */
  predicate Schedules(e: Event, c: nat) { e.DoSchedule? && e.i == c }

  predicate Returns(e: Event, c: nat) { e.DoMemoryReturn? && e.i == c }

  predicate Visits(e: Event, c: nat) { e.DoComplete? && e.i == c }

  /** How an event may change a live instruction: a for before, b for after. */
  predicate Moves(a: Instr, b: Instr, e: Event, c: nat, scheduling: nat, execution: nat) {
    && b.isMemory == a.isMemory && b.memOps == a.memOps - (if Returns(e, c) then 1 else 0)
    && (a.scheduled != Idle ==> b.scheduled != Idle)
    && (a.executed == Completed ==> b.executed == Completed)
    && (a.executed == Inflight && b.executed != Inflight ==> b.executed == Completed && Visits(e, c))
    && (a.executed == Idle ==> b.executed != Completed)
    && (!a.isMemory ==>
          if a.executed == Idle && b.executed == Inflight then
            (e.DoIssue0? || e.DoIssue1?) && a.eventCycle <= e.at && b.eventCycle == e.at + execution
          else if Schedules(e, c) then b.eventCycle >= e.at + scheduling
          else b.eventCycle == a.eventCycle)
    && (a.isMemory ==> b.eventCycle == if Returns(e, c) then e.at else a.eventCycle)
  }

  /** What Moves looks at. */
  predicate SameProgress(a: Instr, b: Instr) {
    && a.isMemory == b.isMemory && a.memOps == b.memOps && a.scheduled == b.scheduled && a.executed == b.executed
    && a.eventCycle == b.eventCycle
  }

  lemma LinkKeepsProgress(s: Rob, i: nat, ps: seq<int>, c: nat)
    requires Shaped(s) && |ps| == SOURCES && c < ROB_SIZE
    ensures SameProgress(s.entry[c], Link(s, i, ps).entry[c])
  {
    LinkedEntry(s.entry[c], c, i, ps);
    hide LinkEntry;
  }

  lemma PlaceMoves(s: Rob, i: nat, at: nat, scheduling: nat, execution: nat, c: nat, a: Instr)
    requires Shaped(s) && i < ROB_SIZE && c < ROB_SIZE && SameProgress(a, s.entry[c])
    ensures |Place(s, i, at, scheduling).entry| == ROB_SIZE
    ensures Moves(a, Place(s, i, at, scheduling).entry[c], DoSchedule(i, at), c, scheduling, execution)
  {
  }

  lemma ScheduleMoves(s: Rob, i: nat, at: nat, scheduling: nat, execution: nat, c: nat)
    requires Shaped(s) && i < ROB_SIZE && Live(s, i) && c < ROB_SIZE
    ensures |Schedule(s, i, at, scheduling).entry| == ROB_SIZE
    ensures Moves(s.entry[c], Schedule(s, i, at, scheduling).entry[c], DoSchedule(i, at), c, scheduling, execution)
  {
    hide Link, Producers, Place, Moves, SameProgress;
    var ps := Producers(s, i, Age(s, i));
    LinkKeepsProgress(s, i, ps, c);
    PlaceMoves(Link(s, i, ps), i, at, scheduling, execution, c, s.entry[c]);
  }

  lemma StartMoves(a: Instr, e: Event, c: nat, scheduling: nat, execution: nat)
    requires (e.DoIssue0? || e.DoIssue1?) && !a.isMemory && a.executed == Idle && a.eventCycle <= e.at
    ensures Moves(a, Start(a, e.at, execution), e, c, scheduling, execution)
  {
  }

  lemma IssueMoves(s: Rob, e: Event, scheduling: nat, execution: nat, c: nat)
    requires Valid(s) && c < ROB_SIZE && (e.DoIssue0? || e.DoIssue1?)
    ensures |Step(s, e, scheduling, execution).entry| == ROB_SIZE
    ensures Moves(s.entry[c], Step(s, e, scheduling, execution).entry[c], e, c, scheduling, execution)
  {
    RingHeads(s);
    hide LinksOk, InstrsOk, RingsOk, DataOk, NumOpen, Live, Age, Moves, Start;
    NothingMoves(s.entry[c], e, c, scheduling, execution);
    var a := s.entry[c];
    if !a.isMemory && a.executed == Idle && a.eventCycle <= e.at { StartMoves(a, e, c, scheduling, execution); }
  }

  lemma MemoryMoves(s: Rob, e: Event, scheduling: nat, execution: nat, c: nat)
    requires Valid(s) && Enabled(s, e) && c < ROB_SIZE && (e.DoIssueMemory? || e.DoMemoryReturn?)
    ensures |Step(s, e, scheduling, execution).entry| == ROB_SIZE
    ensures Moves(s.entry[c], Step(s, e, scheduling, execution).entry[c], e, c, scheduling, execution)
  {
    hide LinksOk, InstrsOk, RingsOk, DataOk, NumOpen;
  }

  lemma CompleteMoves(s: Rob, i: nat, at: nat, scheduling: nat, execution: nat, c: nat)
    requires Valid(s) && i < ROB_SIZE && c < ROB_SIZE
    ensures Moves(s.entry[c], Complete(s, i, at).entry[c], DoComplete(i, at), c, scheduling, execution)
  {
    hide LinksOk, InstrsOk, RingsOk, DataOk, NumOpen, Complete, Released;
    if Completes(s.entry[i], at) {
      var t := CompleteShape(s, i, at);
      ReleasedProgress(s, t, i, c);
    } else {
      NothingCompletes(s, i, at);
    }
  }

  lemma ReleasedProgress(s: Rob, t: Rob, i: nat, c: nat)
    requires Valid(s) && i < ROB_SIZE && s.entry[i].executed == Inflight && Released(s, t, i) && c < ROB_SIZE
    ensures |t.entry| == ROB_SIZE && t.entry[c].executed == if c == i then Completed else s.entry[c].executed
    ensures SameProgress(s.entry[c].(executed := t.entry[c].executed), t.entry[c])
  {
    ReleasedEntry(s, t, i, c);
    ReleasedScheduled(s, t, i, c);
    hide Valid, Released;
  }

  /** Every event, seen from one live instruction. */
  lemma EventMoves(s: Rob, e: Event, scheduling: nat, execution: nat, t: Rob, c: nat)
    requires Valid(s) && Live(s, c) && !Retires(s, e, c)
    requires Enabled(s, e) && t == Step(s, e, scheduling, execution)
    ensures |t.entry| == ROB_SIZE && Moves(s.entry[c], t.entry[c], e, c, scheduling, execution)
  {
    assert Shaped(s);
    hide Valid, Moves, Schedule, Complete;
    match e
    case DoSchedule(i, at) => ScheduleMoves(s, i, at, scheduling, execution, c);
    case DoIssue0(_) => IssueMoves(s, e, scheduling, execution, c);
    case DoIssue1(_) => IssueMoves(s, e, scheduling, execution, c);
    case DoIssueMemory(_) => MemoryMoves(s, e, scheduling, execution, c);
    case DoMemoryReturn(_, _) => MemoryMoves(s, e, scheduling, execution, c);
    case DoComplete(i, at) => CompleteMoves(s, i, at, scheduling, execution, c);
    case DoRetire => NothingMoves(s.entry[c], e, c, scheduling, execution);
    case Dispatch(_, _, _, _, _, _, _) => NothingMoves(s.entry[c], e, c, scheduling, execution);
  }

  lemma NothingMoves(a: Instr, e: Event, c: nat, scheduling: nat, execution: nat)
    requires !e.DoMemoryReturn? && !e.DoSchedule?
    ensures Moves(a, a, e, c, scheduling, execution)
  {
  }

  /** A visit by update_rob leaves an instruction completed exactly when it had completed, or runs, its cycle has
      come, and a memory instruction has all its operations back. */
  lemma CompletesExactly(s: Rob, c: nat, at: nat, scheduling: nat, execution: nat, t: Rob)
    requires Valid(s) && c < ROB_SIZE && t == Step(s, DoComplete(c, at), scheduling, execution)
    ensures var e := s.entry[c];
            |t.entry| == ROB_SIZE
            && (t.entry[c].executed == Completed
                <==> e.executed == Completed
                     || (e.executed == Inflight && e.eventCycle <= at && (e.isMemory ==> e.memOps == 0)))
  {
    hide LinksOk, InstrsOk, RingsOk, DataOk, NumOpen, Complete, Released;
    if Completes(s.entry[c], at) {
      var u := CompleteShape(s, c, at);
      ReleasedProgress(s, u, c, c);
    } else {
      NothingCompletes(s, c, at);
    }
  }

  /** A memory instruction that has not started does so exactly when it is scheduled and waits for no producer. */
  lemma MemoryStartsExactly(s: Rob, c: nat, scheduling: nat, execution: nat, t: Rob)
    requires Valid(s) && Live(s, c) && s.entry[c].executed == Idle
    requires Enabled(s, DoIssueMemory(c)) && t == Step(s, DoIssueMemory(c), scheduling, execution)
    ensures |t.entry| == ROB_SIZE
    ensures t.entry[c].executed == Inflight
            <==> s.entry[c].isMemory && s.entry[c].scheduled == Inflight && s.entry[c].numRegDependent == 0
  {
    hide LinksOk, RingsOk, DataOk, NumOpen;
    assert InstrOk(s, c);
  }

  // ---------- whole runs ----------

  /** How often an operation of instruction c returns. */
  function Returned(es: seq<Event>, c: nat): nat {
    if es == [] then 0 else (if Returns(es[0], c) then 1 else 0) + Returned(es[1..], c)
  }

  /** Over every run: a memory instruction dispatched with k operations is completed only after exactly k of them
      have returned. */
  lemma {:induction false} CompletedAfterReturns(s: Rob, es: seq<Event>, scheduling: nat, execution: nat, t: Rob,
                                                 c: nat)
    requires Valid(s) && Live(s, c) && s.entry[c].isMemory
    requires s.entry[c].executed == Completed ==> s.entry[c].memOps == 0
    requires Reaches(s, es, scheduling, execution, t) && Survives(s, es, scheduling, execution, c)
    ensures Valid(t) && Live(t, c) && t.entry[c].memOps == s.entry[c].memOps - Returned(es, c)
    ensures t.entry[c].executed == Completed ==> Returned(es, c) == s.entry[c].memOps
    decreases |es|
  {
    if es != [] {
      hide LinksOk, InstrsOk, RingsOk, DataOk, Step;
      var u := Step(s, es[0], scheduling, execution);
      StepKeeps(s, es[0], scheduling, execution);
      StaysLive(s, es[0], scheduling, execution, u, c);
      EventMoves(s, es[0], scheduling, execution, u, c);
      if Visits(es[0], c) { CompletesExactly(s, c, es[0].at, scheduling, execution, u); }
      CompletedAfterReturns(u, es[1..], scheduling, execution, t, c);
    }
  }

  /** While an instruction runs, its cycle stays. */
  lemma {:induction false} RunningKeepsCycle(s: Rob, es: seq<Event>, scheduling: nat, execution: nat, t: Rob, c: nat)
    requires Valid(s) && Live(s, c) && !s.entry[c].isMemory && s.entry[c].executed != Idle
    requires s.entry[c].scheduled != Idle
    requires Reaches(s, es, scheduling, execution, t) && Survives(s, es, scheduling, execution, c)
    ensures Valid(t) && Live(t, c) && !t.entry[c].isMemory && t.entry[c].executed != Idle
    ensures t.entry[c].eventCycle == s.entry[c].eventCycle
    decreases |es|
  {
    if es != [] {
      NotScheduledTwice(s, es[0], c);
      hide LinksOk, InstrsOk, RingsOk, DataOk, Step, Enabled;
      var u := Step(s, es[0], scheduling, execution);
      StepKeeps(s, es[0], scheduling, execution);
      StaysLive(s, es[0], scheduling, execution, u, c);
      EventMoves(s, es[0], scheduling, execution, u, c);
      RunningKeepsCycle(u, es[1..], scheduling, execution, t, c);
    }
  }

  lemma NotScheduledTwice(s: Rob, e: Event, c: nat)
    requires Shaped(s) && Enabled(s, e) && c < ROB_SIZE && s.entry[c].scheduled != Idle
    ensures !Schedules(e, c)
  {
  }

  /** Over every run a non-memory instruction completes no earlier than the execution latency after its start. */
  lemma CompletesNoEarlier(s: Rob, e: Event, es: seq<Event>, t: Rob, f: Event, scheduling: nat, execution: nat, c: nat)
    requires Valid(s) && Live(s, c) && !s.entry[c].isMemory && s.entry[c].executed == Idle
    requires Enabled(s, e) && !Retires(s, e, c)
    requires var u := Step(s, e, scheduling, execution);
             && Shaped(u) && u.entry[c].executed != Idle
             && Reaches(u, es, scheduling, execution, t) && Survives(u, es, scheduling, execution, c)
    requires Shaped(t) && Enabled(t, f) && !Retires(t, f, c) && t.entry[c].executed != Completed
    requires var r := Step(t, f, scheduling, execution); Shaped(r) && r.entry[c].executed == Completed
    ensures (e.DoIssue0? || e.DoIssue1?) && f == DoComplete(c, f.at) && e.at + execution <= f.at
  {
    var u, r := Step(s, e, scheduling, execution), Step(t, f, scheduling, execution);
    StepKeeps(s, e, scheduling, execution);
    StaysLive(s, e, scheduling, execution, u, c);
    EventMoves(s, e, scheduling, execution, u, c);
    StartedIsScheduled(u, c);
    hide LinksOk, InstrsOk, RingsOk, DataOk, Step, Enabled;
    RunningKeepsCycle(u, es, scheduling, execution, t, c);
    EventMoves(t, f, scheduling, execution, r, c);
    CompletesExactly(t, c, f.at, scheduling, execution, r);
  }

  lemma StartedIsScheduled(s: Rob, c: nat)
    requires Valid(s) && Live(s, c) && s.entry[c].executed != Idle
    ensures s.entry[c].scheduled != Idle
  {
    assert InstrOk(s, c);
  }

  /** Until it starts, a scheduled instruction keeps its cycle. */
  lemma {:induction false} WaitingKeepsCycle(s: Rob, es: seq<Event>, scheduling: nat, execution: nat, t: Rob, c: nat)
    requires Valid(s) && Live(s, c) && !s.entry[c].isMemory && s.entry[c].scheduled != Idle
    requires Reaches(s, es, scheduling, execution, t) && Survives(s, es, scheduling, execution, c)
    requires Shaped(t) && c < ROB_SIZE && t.entry[c].executed == Idle
    ensures Valid(t) && Live(t, c) && !t.entry[c].isMemory && t.entry[c].scheduled != Idle
    ensures s.entry[c].executed == Idle && t.entry[c].eventCycle == s.entry[c].eventCycle
    decreases |es|
  {
    if es != [] {
      NotScheduledTwice(s, es[0], c);
      hide LinksOk, InstrsOk, RingsOk, DataOk, Step, Enabled;
      var u := Step(s, es[0], scheduling, execution);
      StepKeeps(s, es[0], scheduling, execution);
      StaysLive(s, es[0], scheduling, execution, u, c);
      EventMoves(s, es[0], scheduling, execution, u, c);
      WaitingKeepsCycle(u, es[1..], scheduling, execution, t, c);
    }
  }

  /** Over every run a non-memory instruction starts no earlier than the scheduling latency after it was scheduled,
      however long it waits for its operands. */
  lemma StartsNoEarlier(s: Rob, e: Event, es: seq<Event>, t: Rob, f: Event, scheduling: nat, execution: nat, c: nat)
    requires Valid(s) && Live(s, c) && !s.entry[c].isMemory && Enabled(s, e) && Schedules(e, c)
    requires var u := Step(s, e, scheduling, execution);
             Reaches(u, es, scheduling, execution, t) && Survives(u, es, scheduling, execution, c)
    requires Shaped(t) && Enabled(t, f) && !Retires(t, f, c) && t.entry[c].executed == Idle
    requires var r := Step(t, f, scheduling, execution); Shaped(r) && r.entry[c].executed != Idle
    ensures (f.DoIssue0? || f.DoIssue1?) && e.at + scheduling <= f.at
  {
    var u, r := Step(s, e, scheduling, execution), Step(t, f, scheduling, execution);
    StepKeeps(s, e, scheduling, execution);
    StaysLive(s, e, scheduling, execution, u, c);
    EventMoves(s, e, scheduling, execution, u, c);
    IsScheduledNow(s, e, scheduling, execution, c);
    hide LinksOk, InstrsOk, RingsOk, DataOk, Step, Enabled;
    WaitingKeepsCycle(u, es, scheduling, execution, t, c);
    EventMoves(t, f, scheduling, execution, r, c);
  }

  lemma IsScheduledNow(s: Rob, e: Event, scheduling: nat, execution: nat, c: nat)
    requires Valid(s) && Live(s, c) && Enabled(s, e) && Schedules(e, c)
    ensures var u := Step(s, e, scheduling, execution);
            && |u.entry| == ROB_SIZE && u.entry[c].scheduled != Idle
            && (!s.entry[c].isMemory ==> s.entry[c].executed == Idle)
  {
    var t, ps := ScheduleShape(s, c, e.at, scheduling);
    hide LinksOk, DataOk, RingsOk, Schedule;
    LinkedEntry(s.entry[c], c, c, ps);
    assert InstrOk(s, c);
  }

  // ---------- unused operands ----------

  lemma {:induction false} NobodyWritesRegister0(s: Rob, i: nat, n: nat)
    requires Shaped(s) && i < ROB_SIZE && n <= Age(s, i)
    ensures Producer(s, i, 0, n) == -1
  {
    hide Age, Slot, Shaped;
    if n > 0 { NobodyWritesRegister0(s, i, n - 1); }
  }

  /** An instruction without operands waits for nobody: scheduling makes it ready, and puts it into RTE1 unless it
      accesses memory. */
  lemma NoOperandsNoWait(s: Rob, i: nat, now: nat, latency: nat)
    requires Shaped(s) && Live(s, i) && Age(s, i) >= 0 && forall j :: 0 <= j < SOURCES ==> s.entry[i].sources[j] == 0
    ensures var t := RobModel.Schedule(s, i, now, latency);
            && t.entry[i].regReady && t.entry[i].numRegDependent == s.entry[i].numRegDependent
            && t.rte1 == if s.entry[i].isMemory then s.rte1 else s.rte1 + [i]
  {
    NobodyWritesRegister0(s, i, Age(s, i));
    hide Producer, Slot;
  }
}
