/** Over every run an instruction enters the ready rings exactly once. */
module RobOnce {
  import opened RobModel
  import opened RobInvariant
  import opened RobSteps

  ghost predicate InRing(s: Rob, c: nat) { c in s.rte0 + s.rte1 }

  /** The instruction is in a ring or has started. */
  ghost predicate Entered(s: Rob, c: nat)
    requires Shaped(s) && c < ROB_SIZE
  {
    InRing(s, c) || s.entry[c].executed != Idle
  }

  ghost predicate Retires(s: Rob, e: Event, c: nat) { e.DoRetire? && c == s.head }

  /** Nothing but retirement takes an instruction out, and it keeps what it is. */
  lemma StaysLive(s: Rob, e: Event, scheduling: nat, execution: nat, t: Rob, c: nat)
    requires Valid(s) && Live(s, c) && !Retires(s, e, c)
    requires Enabled(s, e) && Shaped(t) && t == Step(s, e, scheduling, execution)
    ensures Live(t, c) && t.entry[c].isMemory == s.entry[c].isMemory
  {
    hide LinksOk, DataOk, RingsOk, InstrsOk, NumOpen, Schedule, Complete;
    match e
    case DoSchedule(i, at) =>
      var u, ps := ScheduleShape(s, i, at, scheduling);
      LinkedEntry(s.entry[c], c, i, ps);
    case DoComplete(i, at) =>
      if Completes(s.entry[i], at) {
        var u := CompleteShape(s, i, at);
        ReleasedEntry(s, t, i, c);
      } else {
        NothingCompletes(s, i, at);
      }
    case _ =>
  }

  /** What has started does not become idle again. */
  lemma StaysStarted(s: Rob, e: Event, scheduling: nat, execution: nat, t: Rob, c: nat)
    requires Valid(s) && Live(s, c) && !Retires(s, e, c) && s.entry[c].executed != Idle
    requires Enabled(s, e) && Shaped(t) && t == Step(s, e, scheduling, execution)
    ensures t.entry[c].executed != Idle
  {
    hide LinksOk, DataOk, RingsOk, NumOpen, Schedule, Complete;
    assert InstrOk(s, c);
    match e
    case DoSchedule(i, at) =>
      var u, ps := ScheduleShape(s, i, at, scheduling);
      LinkedEntry(s.entry[c], c, i, ps);
    case DoComplete(i, at) =>
      if Completes(s.entry[i], at) {
        var u := CompleteShape(s, i, at);
        ReleasedEntry(s, t, i, c);
      } else {
        NothingCompletes(s, i, at);
      }
    case _ =>
  }

  lemma NothingCompletes(s: Rob, i: nat, at: nat)
    requires Shaped(s) && i < ROB_SIZE && !Completes(s.entry[i], at)
    ensures Complete(s, i, at) == s
  {
  }

  /** What can start stays able to until it does. */
  lemma StartableStays(s: Rob, e: Event, scheduling: nat, execution: nat, t: Rob, c: nat)
    requires Valid(s) && Startable(s, c) && Shaped(t) && Enabled(s, e) && t == Step(s, e, scheduling, execution)
    ensures Startable(t, c) || t.entry[c].executed != Idle
  {
    hide LinksOk, DataOk, RingsOk, NumOpen;
    match e
    case DoSchedule(i, at) =>
      var u, ps := ScheduleShape(s, i, at, scheduling);
      LinkedEntry(s.entry[c], c, i, ps);
    case DoComplete(i, at) =>
      if Completes(s.entry[i], at) { CompletionKeepsStartable(s, i, at, t, c); }
    case _ =>
  }

  lemma CompletionKeepsStartable(s: Rob, i: nat, at: nat, t: Rob, c: nat)
    requires Valid(s) && i < ROB_SIZE && Completes(s.entry[i], at) && Startable(s, c)
    requires Shaped(t) && t == Complete(s, i, at)
    ensures Startable(t, c)
  {
    hide LinksOk, DataOk, RingsOk, NumOpen, Woken, Share, Complete;
    var u := CompleteShape(s, i, at);
    if Share(s.entry[i].dependentsBy, c) > 0 { DependentsWait(s, i, c); }
    NoShare(s.entry[c]);
  }

  /** Outside the rings a non-memory instruction does not start. */
  lemma StartsFromRing(s: Rob, e: Event, scheduling: nat, execution: nat, t: Rob, c: nat)
    requires Valid(s) && Live(s, c) && !s.entry[c].isMemory && !Entered(s, c) && !Retires(s, e, c)
    requires Enabled(s, e) && Shaped(t) && t == Step(s, e, scheduling, execution)
    ensures t.entry[c].executed == Idle
  {
    hide LinksOk, DataOk, RingsOk, NumOpen;
    match e
    case DoSchedule(i, at) =>
      var u, ps := ScheduleShape(s, i, at, scheduling);
      LinkedEntry(s.entry[c], c, i, ps);
    case DoIssue0(at) => assert s.rte0 != [] ==> InRing(s, s.rte0[0]);
    case DoIssue1(at) => assert s.rte1 != [] ==> InRing(s, s.rte1[0]);
    case DoComplete(i, at) =>
      if Completes(s.entry[i], at) {
        var u := CompleteShape(s, i, at);
        ReleasedEntry(s, t, i, c);
      }
    case _ =>
  }

  /** The event puts the instruction into a ring. */
  ghost predicate Pushes(s: Rob, e: Event, scheduling: nat, execution: nat, c: nat)
    requires Shaped(s) && Enabled(s, e)
  {
    !InRing(s, c) && InRing(Step(s, e, scheduling, execution), c)
  }

  /** One step: having entered is never undone, and changes exactly with a push. */
  lemma StepEnters(s: Rob, e: Event, scheduling: nat, execution: nat, c: nat)
    requires Valid(s) && Enabled(s, e) && Live(s, c) && !s.entry[c].isMemory && !Retires(s, e, c)
    ensures var t := Step(s, e, scheduling, execution);
            && Valid(t) && Live(t, c) && !t.entry[c].isMemory
            && (Entered(t, c) <==> Entered(s, c) || Pushes(s, e, scheduling, execution, c))
            && !(Entered(s, c) && Pushes(s, e, scheduling, execution, c))
  {
    StepKeeps(s, e, scheduling, execution);
    var t := Step(s, e, scheduling, execution);
    StaysLive(s, e, scheduling, execution, t, c);
    if s.entry[c].executed != Idle { StaysStarted(s, e, scheduling, execution, t, c); }
    assert InRing(s, c) <==> Startable(s, c);
    assert InRing(t, c) <==> Startable(t, c);
    if Startable(s, c) { StartableStays(s, e, scheduling, execution, t, c); }
    hide Valid, Step, Enabled;
    if !Entered(s, c) { StartsFromRing(s, e, scheduling, execution, t, c); }
  }

  // ---------- whole runs ----------

  ghost function Pushed(s: Rob, es: seq<Event>, scheduling: nat, execution: nat, c: nat): nat
    decreases |es|
  {
    if es == [] || !Shaped(s) || !Enabled(s, es[0]) then 0 else
    (if Pushes(s, es[0], scheduling, execution, c) then 1 else 0)
      + Pushed(Step(s, es[0], scheduling, execution), es[1..], scheduling, execution, c)
  }

  /** The instruction in slot c is not retired in the run. */
  ghost predicate Survives(s: Rob, es: seq<Event>, scheduling: nat, execution: nat, c: nat)
    decreases |es|
  {
    es == [] || (Shaped(s) && Enabled(s, es[0]) && !Retires(s, es[0], c)
                 && Survives(Step(s, es[0], scheduling, execution), es[1..], scheduling, execution, c))
  }

  /** Over every run until it retires: a non-memory instruction that had not entered the rings is pushed at most
      once, and exactly once by the time it has started; one that had entered is never pushed again. */
  lemma {:induction false} EntersExactlyOnce(s: Rob, es: seq<Event>, scheduling: nat, execution: nat, t: Rob, c: nat)
    requires Valid(s) && Live(s, c) && !s.entry[c].isMemory
    requires Reaches(s, es, scheduling, execution, t) && Survives(s, es, scheduling, execution, c)
    ensures Valid(t) && Live(t, c)
    ensures Pushed(s, es, scheduling, execution, c)
         == if Entered(s, c) then 0 else if Entered(t, c) then 1 else 0
    ensures Entered(s, c) ==> Entered(t, c)
    decreases |es|
  {
    if es != [] {
      hide LinksOk, InstrsOk, RingsOk, DataOk, Step, Enabled, Entered, Pushes;
      StepEnters(s, es[0], scheduling, execution, c);
      EntersExactlyOnce(Step(s, es[0], scheduling, execution), es[1..], scheduling, execution, t, c);
    }
  }
}
