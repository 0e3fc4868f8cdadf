/** The core's reorder buffer and ready rings as the simulator keeps them: arrays updated in place.
    Each method is tied to its closed form in RobModel. */
module RobCore {
  import opened RobModel
  import opened RobInvariant
  import opened RobSteps

  const EXEC_WIDTH: nat := 6
  const RETIRE_WIDTH: nat := 4

  /** RTE0 and RTE1: a circular array of slot numbers; the value ROB_SIZE marks a free place. */
  class ReadyRing {
    const slot: array<nat>
    var head: nat
    var tail: nat
    ghost var contents: seq<nat>

    ghost predicate Valid()
      reads this, slot
    {
      && slot.Length == ROB_SIZE && head < ROB_SIZE && |contents| <= ROB_SIZE
      && tail == At(head, |contents|)
      && (forall k :: 0 <= k < |contents| ==> slot[At(head, k)] == contents[k] < ROB_SIZE)
      && (forall k :: |contents| <= k < ROB_SIZE ==> slot[At(head, k)] == ROB_SIZE)
    }

    constructor ()
      ensures Valid() && fresh(slot) && contents == []
    {
      slot := new nat[ROB_SIZE](_ => ROB_SIZE);
      head, tail, contents := 0, 0, [];
    }

    method Push(i: nat)
      requires Valid() && |contents| < ROB_SIZE && i < ROB_SIZE
      modifies this, slot
      ensures Valid() && contents == old(contents) + [i]
    {
      assert slot[At(head, |contents|)] == ROB_SIZE;
      assert slot[tail] >= ROB_SIZE;
      slot[tail] := i;
      tail := tail + 1;
      if tail == ROB_SIZE { tail := 0; }
      contents := contents + [i];
    }

    method Pop()
      requires Valid() && contents != []
      modifies this, slot
      ensures Valid() && contents == old(contents)[1..]
    {
      slot[head] := ROB_SIZE;
      ghost var h := head;
      head := head + 1;
      if head == ROB_SIZE { head := 0; }
      contents := contents[1..];
      assert forall k :: 0 <= k < ROB_SIZE - 1 ==> At(head, k) == At(h, k + 1);
      assert At(head, ROB_SIZE - 1) == h;
    }

    /** The oldest entry, or ROB_SIZE when the ring is empty. */
    method Front() returns (i: nat)
      requires Valid()
      ensures i == if contents == [] then ROB_SIZE else contents[0]
    {
      assert At(head, 0) == head;
      i := slot[head];
    }
  }

  function At(head: nat, k: nat): int { if head + k < ROB_SIZE then head + k else head + k - ROB_SIZE }

  // ---------- linking one source slot at a time ----------

  /** Producers after the scan has passed n instructions, and one more for source slots below j. */
  ghost function Mixed(s: Rob, i: nat, n: nat, j: nat): (ps: seq<int>)
    requires Shaped(s) && i < ROB_SIZE && n < Age(s, i) && j <= SOURCES
    ensures |ps| == SOURCES
  {
    seq(SOURCES, k requires 0 <= k < SOURCES => Producer(s, i, s.entry[i].sources[k], if k < j then n + 1 else n))
  }

  lemma LinkNothing(s: Rob, i: nat, ps: seq<int>)
    requires Shaped(s) && i < ROB_SIZE && |ps| == SOURCES && forall j :: 0 <= j < SOURCES ==> ps[j] == -1
    requires s.entry[i].regReady
    ensures Link(s, i, ps) == s
  {
    forall k | 0 <= k < ROB_SIZE ensures LinkEntry(s.entry[k], k, i, ps) == s.entry[k] {
      if k == i { assert LinkEntry(s.entry[i], i, i, ps).rawChecked == s.entry[i].rawChecked; }
    }
    assert Link(s, i, ps).entry == s.entry;
  }

  /** An instruction that has not been scheduled yet has no recorded producer. */
  ghost predicate Unlinked(e: Instr)
    requires WellFormed(e)
  {
    e.numRegDependent == 0 && forall j :: 0 <= j < SOURCES ==> !e.rawChecked[j]
  }

  ghost function LinkedProducer(e: Instr, i: nat, j: nat): Instr
    requires WellFormed(e) && j < SOURCES
  {
    e.(rawProducer := true, dependents := e.dependents + {i},
       dependentsBy := e.dependentsBy[j := e.dependentsBy[j] + {i}])
  }

  ghost function LinkedConsumer(e: Instr, j: nat): Instr
    requires WellFormed(e) && j < SOURCES
  {
    e.(regReady := false, numRegDependent := e.numRegDependent + 1, rawChecked := e.rawChecked[j := true])
  }

  lemma LinkStep(s: Rob, i: nat, ps: seq<int>, j: nat, p: nat)
    requires Shaped(s) && i < ROB_SIZE && |ps| == SOURCES && j < SOURCES && ps[j] == -1
    requires p < ROB_SIZE && p != i
    ensures var l := Link(s, i, ps);
            Link(s, i, ps[j := p]) ==
              l.(entry := l.entry[p := LinkedProducer(l.entry[p], i, j)][i := LinkedConsumer(l.entry[i], j)])
  {
    var l := Link(s, i, ps);
    var m := Link(s, i, ps[j := p]);
    forall k | 0 <= k < ROB_SIZE
      ensures m.entry[k] == if k == i then LinkedConsumer(l.entry[i], j)
                            else if k == p then LinkedProducer(l.entry[p], i, j) else l.entry[k]
    {
      LinkStepEntry(s.entry[k], k, i, ps, j, p);
    }
  }

  lemma LinkStepEntry(e: Instr, k: nat, i: nat, ps: seq<int>, j: nat, p: nat)
    requires WellFormed(e) && |ps| == SOURCES && j < SOURCES && ps[j] == -1 && p != i
    ensures var l, m := LinkEntry(e, k, i, ps), LinkEntry(e, k, i, ps[j := p]);
            m == if k == i then LinkedConsumer(l, j) else if k == p then LinkedProducer(l, i, j) else l
  {
    var l, m := LinkEntry(e, k, i, ps), LinkEntry(e, k, i, ps[j := p]);
    if k == i {
      assert m.rawChecked == l.rawChecked[j := true];
    } else if k == p {
      assert ps[j := p][j] == p;
      assert m.dependentsBy == l.dependentsBy[j := l.dependentsBy[j] + {i}];
    } else {
      assert k in ps[j := p] ==> k in ps;
      assert k in ps ==> k in ps[j := p] by { if x :| 0 <= x < SOURCES && ps[x] == k { assert ps[j := p][x] == k; } }
      assert m.dependentsBy == l.dependentsBy;
    }
  }

  lemma LinkNone(s: Rob, i: nat)
    requires Shaped(s) && i < ROB_SIZE && s.entry[i].regReady && 0 <= Age(s, i)
    ensures Link(s, i, Producers(s, i, 0)) == s
  {
    LinkNothing(s, i, Producers(s, i, 0));
  }

  lemma PriorIsOther(s: Rob, i: nat, n: nat)
    requires Shaped(s) && i < ROB_SIZE && n < Age(s, i)
    ensures Prior(s, i, n + 1) != i
  {
  }

  /** The scan meets its n + 1st prior instruction, which has not completed, for source slot j. */
  lemma MixedNext(s: Rob, i: nat, n: nat, j: nat)
    requires Shaped(s) && i < ROB_SIZE && n < Age(s, i) && j < SOURCES
    requires !s.entry[Prior(s, i, n + 1)].executed.Completed?
    ensures var p, ps := Prior(s, i, n + 1), Mixed(s, i, n, j);
            Mixed(s, i, n, j + 1) ==
              if ps[j] == -1 && Writes(s.entry[p], s.entry[i].sources[j]) then ps[j := p] else ps
  {
    hide Prior, Age, Writes;
  }

  lemma LinkedAt(s: Rob, i: nat, ps: seq<int>, k: nat)
    requires Shaped(s) && i < ROB_SIZE && |ps| == SOURCES && k < ROB_SIZE && (k == i ==> Unlinked(s.entry[i]))
    ensures var l := Link(s, i, ps);
            && Shaped(l) && l.entry[k].sources == s.entry[k].sources
            && l.entry[k].dests == s.entry[k].dests && l.entry[k].executed == s.entry[k].executed
            && (k == i ==> forall j :: 0 <= j < SOURCES ==> l.entry[k].rawChecked[j] == (ps[j] != -1))
  {
    LinkedEntry(s.entry[k], k, i, ps);
    hide LinkEntry;
  }

  /** What source slot j of i does when the scan meets its n + 1st prior instruction. */
  lemma MixedStep(s: Rob, i: nat, n: nat, j: nat)
    requires Shaped(s) && i < ROB_SIZE && n < Age(s, i) && j < SOURCES && Unlinked(s.entry[i])
    requires !s.entry[Prior(s, i, n + 1)].executed.Completed?
    ensures var p := Prior(s, i, n + 1);
            var l := Link(s, i, Mixed(s, i, n, j));
            && p != i && Shaped(l) && l.entry[i].sources == s.entry[i].sources
            && l.entry[p].dests == s.entry[p].dests && l.entry[p].executed == s.entry[p].executed
            && Link(s, i, Mixed(s, i, n, j + 1)) ==
                 if !l.entry[i].rawChecked[j] && Writes(s.entry[p], s.entry[i].sources[j])
                 then l.(entry := l.entry[p := LinkedProducer(l.entry[p], i, j)][i := LinkedConsumer(l.entry[i], j)])
                 else l
  {
    hide Prior, Age, Writes, Mixed, Link, LinkEntry, Unlinked;
    var p := Prior(s, i, n + 1);
    var ps := Mixed(s, i, n, j);
    PriorIsOther(s, i, n);
    MixedNext(s, i, n, j);
    LinkedAt(s, i, ps, i);
    LinkedAt(s, i, ps, p);
    if ps[j] == -1 && Writes(s.entry[p], s.entry[i].sources[j]) { LinkStep(s, i, ps, j, p); }
  }

  // ---------- releasing one dependent at a time ----------

  /** The release loop has handled the dependents below n. */
  ghost function ReleaseUpTo(s: Rob, p: Instr, n: nat): (t: Rob)
    requires Shaped(s) && WellFormed(p) && n <= ROB_SIZE
    ensures |t.entry| == ROB_SIZE
  {
    s.(entry := seq(ROB_SIZE, c requires 0 <= c < ROB_SIZE =>
         if c < n && c in p.dependents then WakeEntry(s.entry[c], Share(p.dependentsBy, c)) else s.entry[c]),
       rte0 := s.rte0 + Woken(s.entry, p, n))
  }

  ghost function ShareUpTo(links: seq<set<nat>>, c: nat, j: nat): nat
    requires |links| == SOURCES && j <= SOURCES
  {
    if j == 0 then 0 else ShareUpTo(links, c, j - 1) + (if c in links[j - 1] then 1 else 0)
  }

  lemma ShareAll(links: seq<set<nat>>, c: nat)
    requires |links| == SOURCES
    ensures ShareUpTo(links, c, SOURCES) == Share(links, c)
    ensures forall j :: 0 <= j <= SOURCES ==> ShareUpTo(links, c, j) <= Share(links, c)
  {
    assert ShareUpTo(links, c, 1) == if c in links[0] then 1 else 0;
    assert ShareUpTo(links, c, 2) == ShareUpTo(links, c, 1) + if c in links[1] then 1 else 0;
    assert ShareUpTo(links, c, 3) == ShareUpTo(links, c, 2) + if c in links[2] then 1 else 0;
    assert ShareUpTo(links, c, 4) == ShareUpTo(links, c, 3) + if c in links[3] then 1 else 0;
  }

  class O3Core {
    const entry: array<Instr>
    var head: nat
    var tail: nat
    var occupancy: nat
    const rte0: ReadyRing
    const rte1: ReadyRing
    const schedulingLatency: nat
    const execLatency: nat

    ghost function Repr(): set<object> { {this, entry, rte0, rte1, rte0.slot, rte1.slot} }

    ghost predicate Wired()
      reads Repr()
    {
      && entry.Length == ROB_SIZE && rte0 != rte1 && rte0.slot != rte1.slot
      && rte0.Valid() && rte1.Valid()
    }

    ghost function Value(): Rob
      reads Repr()
    {
      Rob(entry[..], head, tail, occupancy, rte0.contents, rte1.contents)
    }

    constructor (schedulingLatency: nat, execLatency: nat)
      ensures Wired() && fresh(Repr()) && Value() == Initial()
      ensures this.schedulingLatency == schedulingLatency && this.execLatency == execLatency
    {
      this.schedulingLatency, this.execLatency := schedulingLatency, execLatency;
      entry := new Instr[ROB_SIZE](_ => EMPTY_INSTR);
      head, tail, occupancy := 0, 0, 0;
      rte0 := new ReadyRing();
      rte1 := new ReadyRing();
      new;
      assert entry[..] == Initial().entry;
    }

    /** add_to_rob: the slot at the tail is empty. */
    method AddToRob(e: Instr, now: nat) returns (index: nat)
      requires Wired() && Valid(Value()) && occupancy < ROB_SIZE && |e.sources| == SOURCES
      requires e == Fresh(e.ip, e.id, e.isMemory, e.memOps, e.sources, e.dests) && e.ip != 0
      modifies this, entry
      ensures Wired() && index == old(tail) && Value() == Insert(old(Value()), e, now) && Valid(Value())
    {
      hide LinksOk, InstrsOk, RingsOk, DataOk;
      InsertKeeps(Value(), e, now);
      index := tail;
      assert entry[index] == EMPTY_INSTR;
      entry[index] := e.(eventCycle := now);
      occupancy := occupancy + 1;
      tail := tail + 1;
      if tail >= ROB_SIZE { tail := 0; }
    }

    /** reg_RAW_dependency: the first destination that matches source slot j links it to prior. */
    method RegRawDependency(prior: nat, current: nat, j: nat) returns (linked: bool)
      requires Wired() && prior < ROB_SIZE && current < ROB_SIZE && prior != current && j < SOURCES
      requires WellFormed(entry[prior]) && WellFormed(entry[current])
      requires entry[current].sources[j] != 0
      modifies entry
      ensures linked == Writes(old(entry[prior]), old(entry[current]).sources[j])
      ensures entry[..] ==
                if linked then
                  old(entry[..][prior := LinkedProducer(entry[prior], current, j)]
                               [current := LinkedConsumer(entry[current], j)])
                else old(entry[..])
    {
      var r := entry[current].sources[j];
      var dests := entry[prior].dests;
      for k := 0 to |dests|
        invariant entry[..] == old(entry[..])
        invariant forall x :: 0 <= x < k ==> dests[x] != r
      {
        if dests[k] == 0 { continue; }
        if dests[k] == r {
          var p := entry[prior];
          entry[prior] := p.(dependents := p.dependents + {current},
                             dependentsBy := p.dependentsBy[j := p.dependentsBy[j] + {current}],
                             rawProducer := true);
          var c := entry[current];
          entry[current] := c.(regReady := false, numRegDependent := c.numRegDependent + 1,
                               rawChecked := c.rawChecked[j := true]);
          return true;
        }
      }
      linked := false;
    }
  
    /** One source slot against one prior instruction. */
    method ScanSlot(prior: nat, i: nat, j: nat, ghost before: Rob, ghost n: nat)
      requires Wired() && Shaped(before) && i < ROB_SIZE && n < Age(before, i) && prior == Prior(before, i, n + 1)
      requires Unlinked(before.entry[i]) && before.entry[prior].executed != Completed && j < SOURCES && prior != i
      requires Value() == Link(before, i, Mixed(before, i, n, j))
      modifies entry
      ensures Value() == Link(before, i, Mixed(before, i, n, j + 1))
    {
      MixedStep(before, i, n, j);
      hide Prior, Age, Link, Mixed, LinkedProducer, LinkedConsumer;
      if entry[i].sources[j] != 0 && !entry[i].rawChecked[j] {
        var linked := RegRawDependency(prior, i, j);
      }
    }

    /** The body of reg_dependency's scan: prior is instruction number n + 1 before i. */
    method ScanPrior(prior: nat, i: nat, ghost before: Rob, ghost n: nat)
      requires Wired() && Shaped(before) && i < ROB_SIZE && n < Age(before, i) && prior == Prior(before, i, n + 1)
      requires Unlinked(before.entry[i])
      requires Value() == Link(before, i, Producers(before, i, n))
      modifies entry
      ensures Value() == Link(before, i, Producers(before, i, n + 1))
    {
      assert prior != i;
      hide Prior, Age;
      LinkedEntry(before.entry[prior], prior, i, Producers(before, i, n));
      if entry[prior].executed != Completed {
        assert Mixed(before, i, n, 0) == Producers(before, i, n);
        for j := 0 to SOURCES
          invariant Value() == Link(before, i, Mixed(before, i, n, j))
        {
          ScanSlot(prior, i, j, before, n);
        }
        assert Mixed(before, i, n, SOURCES) == Producers(before, i, n + 1);
      } else {
        assert Producers(before, i, n) == Producers(before, i, n + 1);
      }
    }

    /** reg_dependency: scan from the youngest older instruction back to the head. */
    method RegDependency(i: nat)
      requires Wired() && Shaped(Value()) && i < ROB_SIZE && Live(Value(), i)
      requires Unlinked(entry[i]) && entry[i].regReady
      modifies entry
      ensures Value() == Link(old(Value()), i, Producers(old(Value()), i, Age(old(Value()), i)))
    {
      hide Link, Producer;
      ghost var before := Value();
      LinkNone(before, i);
      if i != head {
        var prior := if i == 0 then ROB_SIZE - 1 else i - 1;
        if head <= prior {
          var p := prior as int;
          while p >= head
            invariant head - 1 <= p <= prior
            invariant Value() == Link(before, i, Producers(before, i, prior - p))
          {
            ScanPrior(p, i, before, prior - p);
            p := p - 1;
          }
        } else {
          var p := prior as int;
          while p >= 0
            invariant -1 <= p <= prior
            invariant Value() == Link(before, i, Producers(before, i, prior - p))
          {
            ScanPrior(p, i, before, prior - p);
            p := p - 1;
          }
          p := ROB_SIZE - 1;
          while p >= head
            invariant head - 1 <= p <= ROB_SIZE - 1
            invariant Value() == Link(before, i, Producers(before, i, prior + ROB_SIZE - p))
          {
            ScanPrior(p, i, before, prior + ROB_SIZE - p);
            p := p - 1;
          }
        }
      }
    }
  
    /** do_scheduling: link, then either wait for the load/store queues or become ready. */
    method DoScheduling(i: nat, now: nat)
      requires Wired() && Valid(Value()) && i < ROB_SIZE && Live(Value(), i) && entry[i].scheduled == Idle
      modifies entry, rte1, rte1.slot
      ensures Wired() && Value() == Schedule(old(Value()), i, now, schedulingLatency) && Valid(Value())
    {
      ghost var before := Value();
      ghost var ready := ReadyFirst(before, i, now, schedulingLatency);
      hide LinksOk, InstrsOk, RingsOk, DataOk, Producers, Link, Schedule, Place;
      entry[i] := entry[i].(regReady := true); // reset again when a producer is found
      assert entry[..] == ready.entry;
      RegDependency(i);
      PlaceInstr(i, now);
    }

    method PlaceInstr(i: nat, now: nat)
      requires Wired() && Shaped(Value()) && i < ROB_SIZE && |rte1.contents| < ROB_SIZE
      modifies entry, rte1, rte1.slot
      ensures Wired() && Value() == Place(old(Value()), i, now, schedulingLatency)
    {
      var e := entry[i];
      if e.isMemory {
        entry[i] := e.(scheduled := Inflight);
      } else {
        if e.eventCycle < now {
          entry[i] := e.(scheduled := Completed, eventCycle := now + schedulingLatency);
        } else {
          entry[i] := e.(scheduled := Completed, eventCycle := e.eventCycle + schedulingLatency);
        }
        if e.regReady { rte1.Push(i); }
      }
    }

    /** do_execution for the oldest entry of RTE0, when it is due. */
    method Issue0(now: nat) returns (issued: bool)
      requires Wired() && Valid(Value()) && rte0.contents != []
      modifies entry, rte0, rte0.slot
      ensures Wired() && Valid(Value()) && Value() == IssueRte0(old(Value()), now, execLatency)
      ensures issued == CanIssue(old(Value()), old(rte0.contents), now) && (!issued ==> Value() == old(Value()))
    {
      hide LinksOk, InstrsOk, RingsOk, DataOk, Shaped;
      IssueRte0Keeps(Value(), now, execLatency);
      var i := rte0.Front();
      issued := false;
      if entry[i].eventCycle <= now {
        issued := true;
        if entry[i].eventCycle < now {
          entry[i] := entry[i].(executed := Inflight, eventCycle := now + execLatency);
        } else {
          entry[i] := entry[i].(executed := Inflight, eventCycle := entry[i].eventCycle + execLatency);
        }
        rte0.Pop();
      }
    }

    method Issue1(now: nat) returns (issued: bool)
      requires Wired() && Valid(Value()) && rte1.contents != []
      modifies entry, rte1, rte1.slot
      ensures Wired() && Valid(Value()) && Value() == IssueRte1(old(Value()), now, execLatency)
      ensures issued == CanIssue(old(Value()), old(rte1.contents), now) && (!issued ==> Value() == old(Value()))
    {
      hide LinksOk, InstrsOk, RingsOk, DataOk, Shaped;
      IssueRte1Keeps(Value(), now, execLatency);
      var i := rte1.Front();
      issued := false;
      if entry[i].eventCycle <= now {
        issued := true;
        if entry[i].eventCycle < now {
          entry[i] := entry[i].(executed := Inflight, eventCycle := now + execLatency);
        } else {
          entry[i] := entry[i].(executed := Inflight, eventCycle := entry[i].eventCycle + execLatency);
        }
        rte1.Pop();
      }
    }

    /** One loop of execute_instruction: instructions start while the width allows. A head that is not
        due yet is looked at again until the iteration cap; it blocks its ring. */
    method ExecuteRing0(now: nat, issuedBefore: nat) returns (issued: nat)
      requires Wired() && Valid(Value()) && issuedBefore <= EXEC_WIDTH
      modifies entry, rte0, rte0.slot
      ensures Wired() && Valid(Value()) && issued <= EXEC_WIDTH
      ensures (Value(), (EXEC_WIDTH - issued) as nat)
              == Drain0(old(Value()), now, execLatency, EXEC_WIDTH - issuedBefore)
    {
      hide LinksOk, InstrsOk, RingsOk, DataOk, IssueRte0;
      ghost var s := Value();
      issued := issuedBefore;
      var iterations := 0;
      while issued < EXEC_WIDTH
        invariant Wired() && Valid(Value()) && issued <= EXEC_WIDTH
                  && issued - issuedBefore <= iterations < ROB_SIZE - 1
        invariant issued - issuedBefore < iterations ==> !CanIssue(Value(), rte0.contents, now)
        invariant Drain0(s, now, execLatency, EXEC_WIDTH - issuedBefore)
                  == Drain0(Value(), now, execLatency, EXEC_WIDTH - issued)
        decreases ROB_SIZE - iterations
      {
        var i := rte0.Front();
        if i >= ROB_SIZE { break; }
        var done := Issue0(now);
        if done { issued := issued + 1; }
        iterations := iterations + 1;
        if iterations == ROB_SIZE - 1 { break; }
      }
    }

    method ExecuteRing1(now: nat, issuedBefore: nat) returns (issued: nat)
      requires Wired() && Valid(Value()) && issuedBefore <= EXEC_WIDTH
      modifies entry, rte1, rte1.slot
      ensures Wired() && Valid(Value()) && issued <= EXEC_WIDTH
      ensures (Value()) == Drain1(old(Value()), now, execLatency, EXEC_WIDTH - issuedBefore)
    {
      hide LinksOk, InstrsOk, RingsOk, DataOk, IssueRte1;
      ghost var s := Value();
      issued := issuedBefore;
      var iterations := 0;
      while issued < EXEC_WIDTH
        invariant Wired() && Valid(Value()) && issued <= EXEC_WIDTH
                  && issued - issuedBefore <= iterations < ROB_SIZE - 1
        invariant issued - issuedBefore < iterations ==> !CanIssue(Value(), rte1.contents, now)
        invariant Drain1(s, now, execLatency, EXEC_WIDTH - issuedBefore)
                  == Drain1(Value(), now, execLatency, EXEC_WIDTH - issued)
        decreases ROB_SIZE - iterations
      {
        var i := rte1.Front();
        if i >= ROB_SIZE { break; }
        var done := Issue1(now);
        if done { issued := issued + 1; }
        iterations := iterations + 1;
        if iterations == ROB_SIZE - 1 { break; }
      }
    }

    /** execute_instruction: first RTE0, then RTE1 with the width that is left. */
    method ExecuteInstruction(now: nat)
      requires Wired() && Valid(Value())
      modifies entry, rte0, rte0.slot, rte1, rte1.slot
      ensures Wired() && Valid(Value())
      ensures Value() == Execute(old(Value()), now, execLatency)
    {
      hide LinksOk, InstrsOk, RingsOk, DataOk, Drain0, Drain1;
      if head == tail && occupancy == 0 {
        EmptyExecutesNothing(Value(), now, execLatency);
        return;
      }
      var issued := ExecuteRing0(now, 0);
      issued := ExecuteRing1(now, issued);
    }

    /** The inner loop of reg_RAW_release: dependent c loses one waiting slot at a time. */
    method WakeOne(c: nat, p: Instr)
      requires Wired() && WellFormed(p) && c < ROB_SIZE
      requires Share(p.dependentsBy, c) <= entry[c].numRegDependent
      requires Wakes(entry[c], Share(p.dependentsBy, c)) && !entry[c].isMemory ==> |rte0.contents| < ROB_SIZE
      modifies entry, rte0, rte0.slot
      ensures Wired()
      ensures var s, share := old(Value()), Share(p.dependentsBy, c);
              Value() == s.(entry := s.entry[c := WakeEntry(s.entry[c], share)],
                            rte0 := if Wakes(s.entry[c], share) && !s.entry[c].isMemory then s.rte0 + [c] else s.rte0)
    {
      ghost var s, share := Value(), Share(p.dependentsBy, c);
      ShareAll(p.dependentsBy, c);
      hide WakeEntry, Share;
      NoShare(s.entry[c]);
      for j := 0 to SOURCES
        invariant Wired()
        invariant var k := ShareUpTo(p.dependentsBy, c, j);
                  Value() == s.(entry := s.entry[c := WakeEntry(s.entry[c], k)],
                                rte0 := if Wakes(s.entry[c], k) && !s.entry[c].isMemory then s.rte0 + [c] else s.rte0)
      {
        ghost var k := ShareUpTo(p.dependentsBy, c, j);
        assert ShareUpTo(p.dependentsBy, c, j + 1) <= share;
        if c in p.dependentsBy[j] {
          LoseOneMore(s.entry[c], k);
          LoseSlotAt(c);
          assert entry[..] == s.entry[c := entry[c]];
        }
      }
    }

    method LoseSlotAt(c: nat)
      requires Wired() && c < ROB_SIZE
      requires entry[c].numRegDependent == 1 && !entry[c].isMemory ==> |rte0.contents| < ROB_SIZE
      modifies entry, rte0, rte0.slot
      ensures Wired()
      ensures var s := old(Value());
              Value() == s.(entry := s.entry[c := LoseSlot(s.entry[c])],
                            rte0 := if s.entry[c].numRegDependent == 1 && !s.entry[c].isMemory
                                     then s.rte0 + [c] else s.rte0)
    {
      var e := entry[c];
      e := e.(numRegDependent := e.numRegDependent - 1);
      if e.numRegDependent == 0 {
        e := e.(regReady := true);
        if e.isMemory {
          e := e.(scheduled := Inflight);
        } else {
          e := e.(scheduled := Completed);
          rte0.Push(c);
        }
      }
      entry[c] := e;
    }

    /** reg_RAW_release: instruction i has just completed; before is the state with i still running. */
    method RegRawRelease(i: nat, ghost before: Rob)
      requires Wired() && Shaped(before) && Valid(before) && i < ROB_SIZE && before.entry[i].executed == Inflight
      requires Value() == before.(entry := before.entry[i := before.entry[i].(executed := Completed)])
      modifies entry, rte0, rte0.slot
      ensures Wired() && Value() == Release(old(Value()), before.entry[i])
    {
      hide Valid, ReleaseUpTo;
      var p := entry[i];
      ghost var q := before.entry[i];
      ghost var done := Value();
      ReleaseNothing(done, q);
      assert p == done.entry[i];
      for c := 0 to ROB_SIZE
        invariant Wired() && Value() == ReleaseUpTo(done, q, c)
      {
        ReleaseSlot(c, i, p, before, done);
      }
      ReleasedAll(done, q);
    }

    /** One dependent of i, which is p now and was still running in before. */
    method ReleaseSlot(c: nat, i: nat, p: Instr, ghost before: Rob, ghost done: Rob)
      requires Wired() && Valid(before) && i < ROB_SIZE && before.entry[i].executed == Inflight && c < ROB_SIZE
      requires done == before.(entry := before.entry[i := before.entry[i].(executed := Completed)])
               && p == done.entry[i]
      requires Value() == ReleaseUpTo(done, before.entry[i], c)
      modifies entry, rte0, rte0.slot
      ensures Wired() && Value() == ReleaseUpTo(done, before.entry[i], c + 1)
    {
      ReleaseIsSafe(before, done, i, c);
      ReleaseOneMore(done, before.entry[i], c);
      ghost var t := Value();
      assert t.entry[c] == entry[c] && t.rte0 == rte0.contents;
      hide Valid, ReleaseUpTo, WakeEntry, Wakes, Share;
      if c in p.dependents { WakeOne(c, p); }
    }

    /** complete_execution for one slot. */
    method CompleteExecution(i: nat, now: nat)
      requires Wired() && Valid(Value()) && i < ROB_SIZE
      modifies entry, rte0, rte0.slot
      ensures Wired() && Valid(Value()) && Value() == Complete(old(Value()), i, now)
    {
      hide LinksOk, InstrsOk, RingsOk, DataOk, Release;
      ghost var before := Value();
      CompleteKeeps(before, i, now);
      if entry[i].executed == Inflight && entry[i].eventCycle <= now && (!entry[i].isMemory || entry[i].memOps == 0) {
        entry[i] := entry[i].(executed := Completed);
        assert entry[..] == before.entry[i := before.entry[i].(executed := Completed)];
        if entry[i].rawProducer { RegRawRelease(i, before); }
      }
    }

    /** The completion loop of update_rob, from the head to the tail of the ring. */
    method UpdateRob(now: nat)
      requires Wired() && Valid(Value())
      modifies entry, rte0, rte0.slot
      ensures Wired() && Valid(Value()) && head == old(head) && occupancy == old(occupancy)
      ensures Value() == CompleteAll(old(Value()), now, old(occupancy))
    {
      hide LinksOk, InstrsOk, RingsOk, DataOk, CompleteAll;
      ghost var s := Value();
      CompleteNone(s, now);
      if head < tail {
        CompleteRange(head, tail, now, s, 0);
      } else {
        CompleteRange(head, ROB_SIZE, now, s, 0);
        CompleteRange(0, tail, now, s, ROB_SIZE - head);
        VisitedIsEnough(s, now, ROB_SIZE - head + tail);
      }
    }

    method CompleteRange(lo: nat, hi: nat, now: nat, ghost s: Rob, ghost n: nat)
      requires Wired() && Valid(Value()) && Valid(s) && lo <= hi <= ROB_SIZE && n + hi - lo <= ROB_SIZE
      requires Value() == CompleteAll(s, now, n)
      requires lo == s.head + n || lo + ROB_SIZE == s.head + n
      modifies entry, rte0, rte0.slot
      ensures Wired() && Valid(Value()) && Value() == CompleteAll(s, now, n + hi - lo)
    {
      hide LinksOk, InstrsOk, RingsOk, DataOk, Complete;
      var i := lo;
      while i < hi
        invariant lo <= i <= hi && Wired() && Valid(Value()) && Value() == CompleteAll(s, now, n + i - lo)
      {
        assert Slot(s, n + i - lo) == i;
        CompleteExecution(i, now);
        i := i + 1;
      }
    }

    /** do_memory_scheduling, once check_and_add_lsq has queued every operation. */
    method DoMemoryScheduling(i: nat)
      requires Wired() && Valid(Value()) && i < ROB_SIZE && Live(Value(), i)
      modifies entry
      ensures Wired() && Valid(Value()) && Value() == IssueMemory(old(Value()), i)
    {
      hide LinksOk, InstrsOk, RingsOk, DataOk, Shaped;
      IssueMemoryKeeps(Value(), i);
      if entry[i].isMemory && entry[i].regReady && entry[i].scheduled == Inflight {
        var e := entry[i].(scheduled := Completed);
        if e.executed == Idle { e := e.(executed := Inflight); }
        entry[i] := e;
      }
    }

    method RetireHead()
      requires Wired() && Valid(Value()) && occupancy > 0 && entry[head].executed == Completed
      modifies this, entry
      ensures Wired() && Valid(Value()) && Value() == Retire(old(Value()))
    {
      hide LinksOk, InstrsOk, RingsOk, DataOk;
      RetireKeeps(Value());
      entry[head] := EMPTY_INSTR;
      head := head + 1;
      if head == ROB_SIZE { head := 0; }
      occupancy := occupancy - 1;
    }

    /** retire_rob: up to RETIRE_WIDTH completed instructions leave from the head, in order. */
    method RetireRob()
      requires Wired() && Valid(Value())
      modifies this, entry
      ensures Wired() && Valid(Value()) && Value() == RetireUpTo(old(Value()), RETIRE_WIDTH)
    {
      hide LinksOk, InstrsOk, RingsOk, DataOk;
      ghost var s := Value();
      for n := 0 to RETIRE_WIDTH
        invariant Wired() && Valid(Value())
        invariant RetireUpTo(s, RETIRE_WIDTH) == RetireUpTo(Value(), RETIRE_WIDTH - n)
      {
        HeadIsLive(Value());
        if entry[head].ip == 0 { return; }
        if entry[head].executed != Completed { return; }
        RetireHead();
      }
    }
  }

  // ---------- retiring and completing in bulk ----------

  function RetireUpTo(s: Rob, n: nat): Rob
    requires Shaped(s)
    decreases n
  {
    if n == 0 || s.occupancy == 0 || s.entry[s.head].ip == 0 || s.entry[s.head].executed != Completed then s
    else RetireUpTo(Retire(s), n - 1)
  }

  lemma HeadIsLive(s: Rob)
    requires Valid(s)
    ensures s.entry[s.head].ip != 0 <==> s.occupancy > 0
  {
    hide LinksOk, RingsOk, DataOk;
    assert s.occupancy > 0 ==> Live(s, s.head) && InstrOk(s, s.head);
    assert s.occupancy == 0 ==> !Live(s, s.head);
  }

  /** complete_execution over the n oldest instructions, oldest first. */
  ghost function CompleteAll(s: Rob, now: nat, n: nat): (t: Rob)
    requires Valid(s) && n <= ROB_SIZE
    ensures Valid(t) && t.head == s.head && t.tail == s.tail && t.occupancy == s.occupancy
  {
    hide LinksOk, InstrsOk, RingsOk, DataOk, Release;
    if n == 0 then s else
    var before := CompleteAll(s, now, n - 1);
    var i := Slot(s, n - 1);
    CompleteKeeps(before, i, now);
    Complete(before, i, now)
  }

  lemma CompleteNone(s: Rob, now: nat)
    requires Valid(s)
    ensures CompleteAll(s, now, 0) == s
  {
  }

  /** Visiting the empty slots of the ring changes nothing. */
  lemma {:induction false} VisitedIsEnough(s: Rob, now: nat, n: nat)
    requires Valid(s) && s.occupancy <= n <= ROB_SIZE
    ensures CompleteAll(s, now, n) == CompleteAll(s, now, s.occupancy)
  {
    hide LinksOk, InstrsOk, RingsOk, DataOk, Complete;
    if n > s.occupancy {
      VisitedIsEnough(s, now, n - 1);
      IdleSlot(CompleteAll(s, now, n - 1), Slot(s, n - 1), now);
    }
  }

  /** Completing an empty slot changes nothing. */
  lemma IdleSlot(s: Rob, i: nat, now: nat)
    requires Valid(s) && i < ROB_SIZE && !Live(s, i)
    ensures Complete(s, i, now) == s
  {
    hide LinksOk, RingsOk, DataOk;
  }

  lemma ReleaseNothing(s: Rob, p: Instr)
    requires Shaped(s) && WellFormed(p)
    ensures ReleaseUpTo(s, p, 0) == s
  {
    assert ReleaseUpTo(s, p, 0).entry == s.entry;
  }

  lemma ReleasedAll(s: Rob, p: Instr)
    requires Shaped(s) && WellFormed(p)
    ensures ReleaseUpTo(s, p, ROB_SIZE) == Release(s, p)
  {
    assert ReleaseUpTo(s, p, ROB_SIZE).entry == Release(s, p).entry;
  }

  lemma ReleaseOneMore(s: Rob, p: Instr, c: nat)
    requires Shaped(s) && WellFormed(p) && c < ROB_SIZE
    ensures var t, share := ReleaseUpTo(s, p, c), Share(p.dependentsBy, c);
            && t.entry[c] == s.entry[c]
            && ReleaseUpTo(s, p, c + 1) ==
                 if c !in p.dependents then t
                 else t.(entry := t.entry[c := WakeEntry(s.entry[c], share)],
                         rte0 := if Wakes(s.entry[c], share) && !s.entry[c].isMemory then t.rte0 + [c] else t.rte0)
  {
    var t, u := ReleaseUpTo(s, p, c), ReleaseUpTo(s, p, c + 1);
    hide WakeEntry, Share, Wakes;
    if c in p.dependents {
      assert u.entry == t.entry[c := WakeEntry(s.entry[c], Share(p.dependentsBy, c))];
    } else {
      assert u.entry == t.entry;
    }
  }

  lemma {:induction false} WokenGrows(entry: seq<Instr>, p: Instr, n: nat, m: nat)
    requires |p.dependentsBy| == SOURCES && n <= m <= |entry|
    ensures |Woken(entry, p, n)| <= |Woken(entry, p, m)|
  {
    if n < m { WokenGrows(entry, p, n, m - 1); }
  }

  /** A dependent always waits for at least the slots it is about to lose, and RTE0 has room for it. */
  lemma ReleaseIsSafe(s: Rob, done: Rob, i: nat, c: nat)
    requires Valid(s) && i < ROB_SIZE && s.entry[i].executed == Inflight && c < ROB_SIZE
    requires done == s.(entry := s.entry[i := s.entry[i].(executed := Completed)])
    ensures var p := s.entry[i];
            var t, share := ReleaseUpTo(done, p, c), Share(p.dependentsBy, c);
            && share <= t.entry[c].numRegDependent
            && (c in p.dependents && Wakes(t.entry[c], share) && !t.entry[c].isMemory ==> |t.rte0| < ROB_SIZE)
  {
    hide LinksOk, InstrsOk, RingsOk, DataOk, Share, WakeEntry;
    var p := s.entry[i];
    ShareIsOpen(s, i, c);
    ReleaseOneMore(done, p, c);
    NoSelfShare(s, i);
    WokenIgnores(done.entry, s.entry, p, i, c);
    WokenIgnores(done.entry, s.entry, p, i, c + 1);
    WokenGrows(s.entry, p, c + 1, ROB_SIZE);
    WokenRoom(s, i);
    WokenNext(done.entry, p, c);
  }

  lemma WokenNext(entry: seq<Instr>, p: Instr, c: nat)
    requires |p.dependentsBy| == SOURCES && c < |entry|
    ensures c in p.dependents && Wakes(entry[c], Share(p.dependentsBy, c)) && !entry[c].isMemory
            ==> |Woken(entry, p, c + 1)| == |Woken(entry, p, c)| + 1
  {
  }

  lemma NoSelfShare(s: Rob, i: nat)
    requires Valid(s) && i < ROB_SIZE
    ensures Share(s.entry[i].dependentsBy, i) == 0
  {
    if Share(s.entry[i].dependentsBy, i) > 0 { DependentsWait(s, i, i); }
  }

  lemma LoseOneMore(e: Instr, k: nat)
    requires k < e.numRegDependent
    ensures !Wakes(e, k) && WakeEntry(e, k).numRegDependent == e.numRegDependent - k
    ensures WakeEntry(e, k).isMemory == e.isMemory
    ensures WakeEntry(e, k + 1) == LoseSlot(WakeEntry(e, k))
  {
  }

  lemma ShareIsOpen(s: Rob, i: nat, c: nat)
    requires Valid(s) && i < ROB_SIZE && !s.entry[i].executed.Completed? && c < ROB_SIZE
    ensures Share(s.entry[i].dependentsBy, c) <= s.entry[c].numRegDependent
  {
    hide DataOk, RingsOk;
    assert forall j | 0 <= j < SOURCES && Recorded(s, i, c, j) :: Open(s, c, j);
    if Live(s, c) {
      assert InstrOk(s, c);
    } else {
      assert forall j | 0 <= j < SOURCES :: Recorded(s, i, c, j) ==> LinkOk(s, i, c, j);
      assert s.entry[c] == EMPTY_INSTR;
    }
  }

  lemma WokenRoom(s: Rob, i: nat)
    requires Valid(s) && i < ROB_SIZE && s.entry[i].executed == Inflight
    ensures |s.rte0| + |s.rte1| + |Woken(s.entry, s.entry[i], ROB_SIZE)| <= ROB_SIZE
  {
    hide DataOk, LinksOk, InstrsOk;
    var w := Woken(s.entry, s.entry[i], ROB_SIZE);
    WokenIsIncreasing(s.entry, s.entry[i], ROB_SIZE);
    forall c: nat | c in w ensures Live(s, c) && c !in s.rte0 + s.rte1 {
      DependentsWait(s, i, c);
      assert c in s.rte0 + s.rte1 <==> Startable(s, c);
    }
    assert s.rte0 + s.rte1 + [] == s.rte0 + s.rte1;
    InsertedNoDup(s.rte0 + s.rte1, w, []);
    assert s.rte0 + s.rte1 + w + [] == s.rte0 + s.rte1 + w;
    RingsHaveRoom(s, w);
  }

  // ---------- issuing up to the execution width ----------

  function CanIssue(s: Rob, q: seq<nat>, now: nat): bool
    requires Shaped(s)
  {
    q != [] && q[0] < ROB_SIZE && s.entry[q[0]].eventCycle <= now
  }

  /** Issue from RTE0 while its oldest entry is due and the width allows; what is left goes to RTE1. */
  function Drain0(s: Rob, now: nat, latency: nat, width: nat): (r: (Rob, nat))
    requires Shaped(s)
    ensures Shaped(r.0)
    decreases width
  {
    if width == 0 || !CanIssue(s, s.rte0, now) then (s, width)
    else Drain0(IssueRte0(s, now, latency), now, latency, width - 1)
  }

  function Drain1(s: Rob, now: nat, latency: nat, width: nat): Rob
    requires Shaped(s)
    decreases width
  {
    if width == 0 || !CanIssue(s, s.rte1, now) then s else Drain1(IssueRte1(s, now, latency), now, latency, width - 1)
  }

  function Execute(s: Rob, now: nat, latency: nat): Rob
    requires Shaped(s)
  {
    var (s0, left) := Drain0(s, now, latency, EXEC_WIDTH);
    Drain1(s0, now, latency, left)
  }

  lemma NothingIn(q: seq<nat>)
    requires forall c: nat :: c !in q
    ensures q == []
  {
    var first := if |q| > 0 then q[0] else 0;
    assert first !in q;
  }

  lemma EmptyExecutesNothing(s: Rob, now: nat, latency: nat)
    requires Valid(s) && s.occupancy == 0
    ensures Execute(s, now, latency) == s
  {
    assert forall c: nat :: !Startable(s, c);
    assert forall c: nat :: c !in s.rte0 && c !in s.rte1 by {
      assert forall c: nat :: c in s.rte0 || c in s.rte1 ==> c in s.rte0 + s.rte1;
    }
    NothingIn(s.rte0);
    NothingIn(s.rte1);
  }

  /** A live instruction that is not scheduled yet waits for nobody. */
  lemma ScheduledNumber(s: Rob, i: nat)
    requires Valid(s) && i < ROB_SIZE && Live(s, i) && s.entry[i].scheduled == Idle
    ensures s.entry[i].numRegDependent == 0
  {
    hide DataOk, RingsOk;
    assert InstrOk(s, i);
    forall p, j | 0 <= p < ROB_SIZE && 0 <= j < SOURCES ensures !Recorded(s, p, i, j) {
      assert Recorded(s, p, i, j) ==> LinkOk(s, p, i, j);
    }
  }

  /** Setting reg_ready first makes no difference to what scheduling does, and everything the two
      halves of do_scheduling need holds: in particular RTE1 has room. */
  lemma ReadyFirst(s: Rob, i: nat, now: nat, latency: nat) returns (t: Rob)
    requires Valid(s) && i < ROB_SIZE && Live(s, i) && s.entry[i].scheduled == Idle
    ensures t == s.(entry := s.entry[i := s.entry[i].(regReady := true)])
    ensures Shaped(t) && Live(t, i) && Unlinked(t.entry[i]) && t.entry[i].regReady && |t.rte1| < ROB_SIZE
    ensures Schedule(s, i, now, latency) == Place(Link(t, i, Producers(t, i, Age(t, i))), i, now, latency)
    ensures Valid(Schedule(s, i, now, latency))
  {
    t := s.(entry := s.entry[i := s.entry[i].(regReady := true)]);
    assert Unlinked(t.entry[i]) by { assert InstrOk(s, i); ScheduledNumber(s, i); }
    ScheduleKeeps(s, i, now, latency);
    PushFits(s, i);
    hide LinksOk, InstrsOk, RingsOk, DataOk;
    SameLinks(s, t, i);
  }

  lemma SameLinks(s: Rob, t: Rob, i: nat)
    requires Shaped(s) && i < ROB_SIZE && 0 <= Age(s, i)
    requires t == s.(entry := s.entry[i := s.entry[i].(regReady := true)])
    ensures Shaped(t) && Age(t, i) == Age(s, i)
    ensures Link(t, i, Producers(t, i, Age(t, i))) == Link(s, i, Producers(s, i, Age(s, i)))
  {
    forall j | 0 <= j < SOURCES
      ensures Producer(t, i, s.entry[i].sources[j], Age(s, i)) == Producer(s, i, s.entry[i].sources[j], Age(s, i))
    {
      SameProducer(s, t, i, s.entry[i].sources[j], Age(s, i));
    }
    assert Producers(t, i, Age(t, i)) == Producers(s, i, Age(s, i));
  }

  lemma {:induction false} SameProducer(s: Rob, t: Rob, i: nat, r: nat, n: nat)
    requires Shaped(s) && Shaped(t) && i < ROB_SIZE && n <= Age(s, i)
    requires t == s.(entry := s.entry[i := s.entry[i].(regReady := true)])
    ensures Producer(t, i, r, n) == Producer(s, i, r, n)
  {
    if n > 0 { SameProducer(s, t, i, r, n - 1); }
  }

  lemma PushFits(s: Rob, i: nat)
    requires Valid(s) && Live(s, i) && i !in s.rte0 + s.rte1
    ensures |s.rte0| < ROB_SIZE && |s.rte1| < ROB_SIZE
  {
    hide LinksOk, InstrsOk, DataOk, Startable;
    RingsHaveRoom(s, [i]);
  }
}
