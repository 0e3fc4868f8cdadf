/** Every step of the reorder buffer keeps the invariant. */
module RobSteps {
  import opened Numbers
  import opened RobModel
  import opened RobInvariant

  lemma InitialIsValid()
    ensures Valid(Initial())
  {
    var s := Initial();
    assert forall p, c, j | 0 <= p < ROB_SIZE && 0 <= j < SOURCES :: !Recorded(s, p, c, j);
  }

  /** Open slots depend only on the records and on who has completed. */
  lemma SameOpen(s: Rob, t: Rob, c: nat)
    requires Shaped(s) && Shaped(t)
    requires forall p, j | 0 <= p < ROB_SIZE && 0 <= j < SOURCES ::
               (Recorded(s, p, c, j) && !s.entry[p].executed.Completed?)
               == (Recorded(t, p, c, j) && !t.entry[p].executed.Completed?)
    ensures forall j :: 0 <= j < SOURCES ==> Open(s, c, j) == Open(t, c, j)
    ensures NumOpen(s, c) == NumOpen(t, c)
  {
    forall j | 0 <= j < SOURCES ensures Open(s, c, j) == Open(t, c, j) {
      if Open(s, c, j) {
        var p :| 0 <= p < ROB_SIZE && Recorded(s, p, c, j) && !s.entry[p].executed.Completed?;
        assert Recorded(t, p, c, j);
      }
      if Open(t, c, j) {
        var p :| 0 <= p < ROB_SIZE && Recorded(t, p, c, j) && !t.entry[p].executed.Completed?;
        assert Recorded(s, p, c, j);
      }
    }
  }

  /** The head stays, or moves past one instruction that leaves. */
  ghost predicate HeadMoves(s: Rob, t: Rob)
    requires Shaped(s)
  {
    t.head == s.head || (t.head == Next(s.head) && !Live(t, s.head))
  }

  /** A step that keeps operands and does not undo completions, records or scheduling decisions
      keeps the data-dependence part. */
  lemma DataKeeps(s: Rob, t: Rob)
    requires Shaped(s) && Shaped(t) && DataOk(s) && HeadMoves(s, t)
    requires forall i :: 0 <= i < ROB_SIZE && Live(t, i) && t.entry[i].scheduled != Idle ==>
               Live(s, i) && s.entry[i].scheduled != Idle
    requires forall i :: 0 <= i < ROB_SIZE && Live(s, i) && Live(t, i) ==>
               t.entry[i].sources == s.entry[i].sources && t.entry[i].dests == s.entry[i].dests
    requires forall i :: 0 <= i < ROB_SIZE && Live(t, i) && s.entry[i].executed.Completed? ==>
               t.entry[i].executed.Completed?
    requires forall p, c, j | 0 <= p < ROB_SIZE && 0 <= j < SOURCES && Live(t, p) && Recorded(s, p, c, j) ::
               Recorded(t, p, c, j)
    ensures DataOk(t)
  {
    forall p, c, j | 0 <= p < ROB_SIZE && 0 <= c < ROB_SIZE && 0 <= j < SOURCES
      && LastWriter(t, p, c, t.entry[c].sources[j]) && t.entry[c].scheduled != Idle
      ensures t.entry[p].executed.Completed? || Recorded(t, p, c, j)
    {
      assert Live(s, p);
      assert LastWriter(s, p, c, s.entry[c].sources[j]);
    }
  }

  /** Records of live producers carry over to a state with the same order. */
  lemma LinksKeep(s: Rob, t: Rob)
    requires Shaped(s) && Shaped(t) && LinksOk(s) && HeadMoves(s, t)
    requires forall p, c, j | 0 <= p < ROB_SIZE && 0 <= j < SOURCES && Recorded(t, p, c, j) ::
               Live(t, p) && Recorded(s, p, c, j)
    requires forall i :: Live(s, i) && i != (if t.head == s.head then ROB_SIZE else s.head) ==> Live(t, i)
    requires forall i :: 0 <= i < ROB_SIZE && Live(t, i) ==>
               && t.entry[i].rawChecked == s.entry[i].rawChecked && t.entry[i].dependents == s.entry[i].dependents
               && t.entry[i].rawProducer == s.entry[i].rawProducer
    ensures LinksOk(t)
  {
    forall p, c, j | 0 <= p < ROB_SIZE && 0 <= j < SOURCES && Recorded(t, p, c, j) ensures LinkOk(t, p, c, j) {
      assert LinkOk(s, p, c, j);
    }
  }

  // ---------- dispatch ----------

  lemma InsertParts(s: Rob, e: Instr, now: nat) returns (t: Rob)
    requires Valid(s) && s.occupancy < ROB_SIZE && |e.sources| == SOURCES
    requires e == Fresh(e.ip, e.id, e.isMemory, e.memOps, e.sources, e.dests) && e.ip != 0
    ensures t == Insert(s, e, now) && s.entry[s.tail] == EMPTY_INSTR
    ensures Shaped(t) && LinksOk(t) && DataOk(t)
    ensures forall p, c, j | 0 <= p < ROB_SIZE && 0 <= j < SOURCES :: Recorded(t, p, c, j) == Recorded(s, p, c, j)
    ensures forall i | 0 <= i < ROB_SIZE :: Live(t, i) == (Live(s, i) || i == s.tail)
    ensures !Live(s, s.tail)
  {
    t := Insert(s, e, now);
    var k := s.tail;
    assert !Live(s, k) && Age(s, k) == s.occupancy;
    assert forall i | 0 <= i < ROB_SIZE :: Live(t, i) == (Live(s, i) || i == k);
    assert s.entry[k] == EMPTY_INSTR;
    assert forall p, c, j | 0 <= p < ROB_SIZE && 0 <= j < SOURCES :: Recorded(t, p, c, j) == Recorded(s, p, c, j);
    forall p, c, j | 0 <= p < ROB_SIZE && 0 <= j < SOURCES && Recorded(t, p, c, j)
      ensures Live(t, p)
    {
      assert LinkOk(s, p, c, j);
    }
    LinksKeep(s, t);
    DataKeeps(s, t);
  }

  lemma InsertKeeps(s: Rob, e: Instr, now: nat)
    requires Valid(s) && s.occupancy < ROB_SIZE && |e.sources| == SOURCES
    requires e == Fresh(e.ip, e.id, e.isMemory, e.memOps, e.sources, e.dests) && e.ip != 0
    ensures s.entry[s.tail] == EMPTY_INSTR
    ensures Valid(Insert(s, e, now))
  {
    hide DataOk;
    var t := InsertParts(s, e, now);
    forall j | 0 <= j < SOURCES ensures !Open(t, s.tail, j) {
      forall p | 0 <= p < ROB_SIZE ensures !Recorded(t, p, s.tail, j) {
        assert Recorded(s, p, s.tail, j) ==> LinkOk(s, p, s.tail, j);
      }
    }
    hide LinksOk;
    forall c | 0 <= c < ROB_SIZE ensures if Live(t, c) then InstrOk(t, c) else t.entry[c] == EMPTY_INSTR {
      SameOpen(s, t, c);
      if c != s.tail && Live(s, c) { assert InstrOk(s, c); }
    }
    forall c ensures c in t.rte0 + t.rte1 <==> Startable(t, c) { assert c in s.rte0 + s.rte1 <==> Startable(s, c); }
  }

  // ---------- retirement ----------

  /** Everything but the head moves up one place. */
  lemma RetireAges(s: Rob)
    requires Shaped(s) && s.occupancy > 0
    ensures var t := Retire(s);
            && Shaped(t) && Live(s, s.head)
            && (forall i | 0 <= i < ROB_SIZE && i != s.head :: Age(t, i) == Age(s, i) - 1)
            && (forall i :: Live(t, i) <==> Live(s, i) && i != s.head)
  {
  }

  lemma RetireParts(s: Rob) returns (t: Rob)
    requires Valid(s) && s.occupancy > 0 && s.entry[s.head].executed == Completed
    ensures t == Retire(s) && Shaped(t) && LinksOk(t) && DataOk(t)
    ensures forall p, c, j | 0 <= p < ROB_SIZE && 0 <= j < SOURCES ::
              Recorded(t, p, c, j) == (p != s.head && Recorded(s, p, c, j))
    ensures forall i | 0 <= i < ROB_SIZE :: Live(t, i) == (Live(s, i) && i != s.head)
  {
    hide InstrsOk, RingsOk, Live, Age;
    t := Retire(s);
    var h := s.head;
    RetireAges(s);
    assert forall p, c, j | 0 <= p < ROB_SIZE && 0 <= j < SOURCES ::
             Recorded(t, p, c, j) == (p != h && Recorded(s, p, c, j));
    forall p, c, j | 0 <= p < ROB_SIZE && 0 <= j < SOURCES && Recorded(t, p, c, j)
      ensures Live(t, p)
    {
      assert LinkOk(s, p, c, j);
    }
    LinksKeep(s, t);
    DataKeeps(s, t);
  }

  lemma RetireKeeps(s: Rob)
    requires Valid(s) && s.occupancy > 0 && s.entry[s.head].executed == Completed
    ensures Valid(Retire(s))
  {
    hide DataOk, LinksOk;
    var t := RetireParts(s);
    assert Live(s, s.head);
    forall c | 0 <= c < ROB_SIZE ensures if Live(t, c) then InstrOk(t, c) else t.entry[c] == EMPTY_INSTR {
      SameOpen(s, t, c);
      if Live(t, c) { assert InstrOk(s, c); }
    }
    forall c ensures c in t.rte0 + t.rte1 <==> Startable(t, c) { assert c in s.rte0 + s.rte1 <==> Startable(s, c); }
  }

  // ---------- steps that only advance one instruction ----------

  /** t is s after instruction i moved on without touching any record. */
  ghost predicate Advances(s: Rob, t: Rob, i: nat)
    requires Shaped(s) && i < ROB_SIZE
  {
    && t == s.(entry := t.entry, rte0 := t.rte0, rte1 := t.rte1)
    && |t.entry| == ROB_SIZE
    && (forall c :: 0 <= c < ROB_SIZE && c != i ==> t.entry[c] == s.entry[c])
    && t.entry[i] == s.entry[i].(scheduled := t.entry[i].scheduled, executed := t.entry[i].executed,
                                 memOps := t.entry[i].memOps, eventCycle := t.entry[i].eventCycle)
    && t.entry[i].executed.Completed? == s.entry[i].executed.Completed?
    && (s.entry[i].scheduled == Idle ==> t.entry[i].scheduled == Idle)
  }

  lemma AdvanceParts(s: Rob, t: Rob, i: nat)
    requires Valid(s) && i < ROB_SIZE && Live(s, i) && Advances(s, t, i)
    ensures Shaped(t) && LinksOk(t) && DataOk(t)
    ensures forall p, c, j | 0 <= p < ROB_SIZE && 0 <= j < SOURCES :: Recorded(t, p, c, j) == Recorded(s, p, c, j)
    ensures forall c | 0 <= c < ROB_SIZE :: Live(t, c) == Live(s, c)
  {
    assert forall p, c, j | 0 <= p < ROB_SIZE && 0 <= j < SOURCES :: Recorded(t, p, c, j) == Recorded(s, p, c, j);
    assert forall c | 0 <= c < ROB_SIZE :: Live(t, c) == Live(s, c);
    forall p, c, j | 0 <= p < ROB_SIZE && 0 <= j < SOURCES && Recorded(t, p, c, j)
      ensures Live(t, p)
    {
      assert LinkOk(s, p, c, j);
    }
    LinksKeep(s, t);
    DataKeeps(s, t);
  }

  lemma AdvanceKeeps(s: Rob, t: Rob, i: nat)
    requires Valid(s) && i < ROB_SIZE && Live(s, i) && Advances(s, t, i)
    requires var e, e' := s.entry[i], t.entry[i];
             && (e.scheduled == Idle ==> e'.executed == Idle)
             && (e'.executed != Idle ==> e'.scheduled == Completed && e.numRegDependent == 0)
             && (e.scheduled != Idle ==> e'.scheduled != Idle)
             && (!e.isMemory ==> e'.scheduled == e.scheduled)
             && (e.isMemory && e'.scheduled == Completed ==> e'.executed != Idle)
    requires NoDup(t.rte0 + t.rte1)
    requires forall c :: c in t.rte0 + t.rte1 <==> (if c == i then Startable(t, i) else c in s.rte0 + s.rte1)
    ensures Valid(t)
  {
    hide DataOk, LinksOk, NumOpen, Recorded;
    AdvanceParts(s, t, i);
    forall c | 0 <= c < ROB_SIZE ensures if Live(t, c) then InstrOk(t, c) else t.entry[c] == EMPTY_INSTR {
      SameOpen(s, t, c);
      if Live(s, c) { assert InstrOk(s, c); }
    }
    hide InstrOk;
    forall c ensures c in t.rte0 + t.rte1 <==> Startable(t, c) { assert c in s.rte0 + s.rte1 <==> Startable(s, c); }
  }

  lemma IssueRte0Keeps(s: Rob, now: nat, latency: nat)
    requires Valid(s)
    ensures Valid(IssueRte0(s, now, latency))
  {
    hide DataOk, LinksOk;
    var t := IssueRte0(s, now, latency);
    if t != s {
      var i := s.rte0[0];
      assert (s.rte0 + s.rte1)[0] == i;
      RemoveAt(s.rte0 + s.rte1, 0, t.rte0 + t.rte1);
      assert i in s.rte0 + s.rte1 && Startable(s, i) && InstrOk(s, i);
      AdvanceKeeps(s, t, i);
    }
  }

  lemma IssueRte1Keeps(s: Rob, now: nat, latency: nat)
    requires Valid(s)
    ensures Valid(IssueRte1(s, now, latency))
  {
    hide DataOk, LinksOk;
    var t := IssueRte1(s, now, latency);
    if t != s {
      var i := s.rte1[0];
      assert s.rte0 + s.rte1 == s.rte0 + [i] + t.rte1;
      assert i == (s.rte0 + s.rte1)[|s.rte0|];
      assert i in s.rte0 + s.rte1 && Startable(s, i) && InstrOk(s, i);
      RemoveAt(s.rte0 + s.rte1, |s.rte0|, t.rte0 + t.rte1);
      AdvanceKeeps(s, t, i);
    }
  }

  lemma RemoveAt(q: seq<nat>, k: nat, r: seq<nat>)
    requires NoDup(q) && k < |q| && r == q[..k] + q[k + 1..]
    ensures NoDup(r) && forall c :: c in r <==> c in q && c != q[k]
  {
    assert forall a :: 0 <= a < |r| ==> r[a] == if a < k then q[a] else q[a + 1];
    forall c | c in q && c != q[k] ensures c in r {
      var a :| 0 <= a < |q| && q[a] == c;
      assert r[if a < k then a else a - 1] == c;
    }
  }

  lemma IssueMemoryKeeps(s: Rob, i: nat)
    requires Valid(s) && i < ROB_SIZE && Live(s, i)
    ensures Valid(IssueMemory(s, i))
  {
    hide DataOk, LinksOk;
    var t := IssueMemory(s, i);
    assert InstrOk(s, i);
    assert i in s.rte0 + s.rte1 <==> Startable(s, i);
    if t != s { AdvanceKeeps(s, t, i); }
  }

  lemma MemoryReturnsKeeps(s: Rob, i: nat, now: nat)
    requires Valid(s) && i < ROB_SIZE && Live(s, i)
    ensures Valid(MemoryReturns(s, i, now))
  {
    hide DataOk, LinksOk;
    assert InstrOk(s, i);
    assert i in s.rte0 + s.rte1 <==> Startable(s, i);
    AdvanceKeeps(s, MemoryReturns(s, i, now), i);
  }

  // ---------- scheduling ----------

  lemma {:induction false} ProducerIsYoungest(s: Rob, i: nat, r: nat, n: nat)
    requires Shaped(s) && i < ROB_SIZE && n <= Age(s, i)
    ensures var p := Producer(s, i, r, n);
            && (p != -1 ==>
                  Age(s, i) - n <= Age(s, p) < Age(s, i) && !s.entry[p].executed.Completed? && Writes(s.entry[p], r))
            && (forall q :: 0 <= q < ROB_SIZE && Age(s, i) - n <= Age(s, q) < Age(s, i)
                            && (p == -1 || Age(s, p) < Age(s, q)) ==>
                  s.entry[q].executed.Completed? || !Writes(s.entry[q], r))
  {
    if n > 0 {
      ProducerIsYoungest(s, i, r, n - 1);
      var k := Prior(s, i, n);
      assert Age(s, k) == Age(s, i) - n;
      assert forall q | 0 <= q < ROB_SIZE && Age(s, q) == Age(s, i) - n :: q == k;
    }
  }

  /** What linking does to slot k. */
  lemma LinkedEntry(e: Instr, k: nat, i: nat, ps: seq<int>)
    requires WellFormed(e) && |ps| == SOURCES
    ensures var r := LinkEntry(e, k, i, ps);
            if k == i then
              && r == e.(regReady := r.regReady, numRegDependent := r.numRegDependent, rawChecked := r.rawChecked)
              && r.numRegDependent == e.numRegDependent + Linked(ps) && r.regReady == (Linked(ps) == 0)
              && (forall j :: 0 <= j < SOURCES ==> r.rawChecked[j] == (e.rawChecked[j] || ps[j] != -1))
            else
              && r == e.(dependents := r.dependents, dependentsBy := r.dependentsBy, rawProducer := r.rawProducer)
              && e.dependents <= r.dependents && (e.rawProducer ==> r.rawProducer)
              && (k in ps ==> r.rawProducer && i in r.dependents)
              && (forall c: nat, j | 0 <= j < SOURCES ::
                    (c in r.dependentsBy[j]) == (c in e.dependentsBy[j] || (c == i && ps[j] == k)))
  {
  }

  /** The records after linking i: those before, and i under each of its producers. */
  lemma LinkRecords(s: Rob, i: nat, ps: seq<int>) returns (t: Rob)
    requires Shaped(s) && i < ROB_SIZE && |ps| == SOURCES && i !in ps
    ensures t == Link(s, i, ps) && Shaped(t) && t == s.(entry := t.entry)
    ensures forall p, c, j | 0 <= p < ROB_SIZE && 0 <= j < SOURCES ::
              Recorded(t, p, c, j) == (Recorded(s, p, c, j) || (c == i && ps[j] == p))
    ensures forall p :: 0 <= p < ROB_SIZE ==> t.entry[p] == LinkEntry(s.entry[p], p, i, ps)
  {
    t := Link(s, i, ps);
    forall p, c, j | 0 <= p < ROB_SIZE && 0 <= j < SOURCES
      ensures Recorded(t, p, c, j) == (Recorded(s, p, c, j) || (c == i && ps[j] == p))
    {
      LinkedEntry(s.entry[p], p, i, ps);
    }
  }

  /** s after scheduling i, whose source slots went to the producers ps. */
  ghost predicate ScheduledAs(s: Rob, t: Rob, i: nat, ps: seq<int>)
    requires Shaped(s) && i < ROB_SIZE && |ps| == SOURCES
  {
    && Shaped(t) && t == s.(entry := t.entry, rte1 := t.rte1)
    && (forall p, c, j | 0 <= p < ROB_SIZE && 0 <= j < SOURCES ::
          Recorded(t, p, c, j) == (Recorded(s, p, c, j) || (c == i && ps[j] == p)))
    && (forall p :: 0 <= p < ROB_SIZE && p != i ==> t.entry[p] == LinkEntry(s.entry[p], p, i, ps))
    && var e := LinkEntry(s.entry[i], i, i, ps);
    && t.entry[i] == e.(scheduled := if e.isMemory then Inflight else Completed, eventCycle := t.entry[i].eventCycle)
    && t.rte1 == if !e.isMemory && e.regReady then s.rte1 + [i] else s.rte1
  }

  lemma ScheduleShape(s: Rob, i: nat, now: nat, latency: nat) returns (t: Rob, ps: seq<int>)
    requires Shaped(s) && i < ROB_SIZE && Live(s, i)
    ensures t == Schedule(s, i, now, latency) && ps == Producers(s, i, Age(s, i)) && i !in ps
    ensures ScheduledAs(s, t, i, ps)
  {
    ps := Producers(s, i, Age(s, i));
    forall j | 0 <= j < SOURCES ensures ps[j] != i { ProducerIsYoungest(s, i, s.entry[i].sources[j], Age(s, i)); }
    var l := LinkRecords(s, i, ps);
    t := Schedule(s, i, now, latency);
    hide Producers, Link;
    forall p, c, j | 0 <= p < ROB_SIZE && 0 <= j < SOURCES ensures Recorded(t, p, c, j) == Recorded(l, p, c, j) { }
  }

  lemma ScheduleLinks(s: Rob, t: Rob, i: nat, ps: seq<int>)
    requires Valid(s) && i < ROB_SIZE && Live(s, i) && s.entry[i].scheduled == Idle
    requires |ps| == SOURCES && ScheduledAs(s, t, i, ps)
    requires forall j :: 0 <= j < SOURCES && ps[j] != -1 ==> 0 <= ps[j] < ROB_SIZE && Age(s, ps[j]) < Age(s, i)
    ensures LinksOk(t)
  {
    hide DataOk, RingsOk, InstrsOk, LinksOk, LinkOk, Recorded;
    forall p, c, j | 0 <= p < ROB_SIZE && 0 <= j < SOURCES && Recorded(t, p, c, j) ensures LinkOk(t, p, c, j) {
      ScheduledLink(s, t, i, ps, p, c, j);
    }
    ScheduleLinksOnce(s, t, i, ps);
    assert LinksOk(t) by { LinksAre(t); }
  }

  lemma LinksAre(t: Rob)
    requires Shaped(t)
    requires forall p, c, j :: 0 <= p < ROB_SIZE && 0 <= j < SOURCES && Recorded(t, p, c, j) ==> LinkOk(t, p, c, j)
    requires forall p, q, c, j | 0 <= p < ROB_SIZE && 0 <= q < ROB_SIZE && 0 <= j < SOURCES
               && Recorded(t, p, c, j) && Recorded(t, q, c, j) :: p == q
    ensures LinksOk(t)
  {
    hide LinkOk, Recorded;
  }

  lemma ScheduledLink(s: Rob, t: Rob, i: nat, ps: seq<int>, p: nat, c: nat, j: nat)
    requires Valid(s) && i < ROB_SIZE && Live(s, i)
    requires |ps| == SOURCES && ScheduledAs(s, t, i, ps) && p < ROB_SIZE && j < SOURCES && Recorded(t, p, c, j)
    requires forall k :: 0 <= k < SOURCES && ps[k] != -1 ==> 0 <= ps[k] < ROB_SIZE && Age(s, ps[k]) < Age(s, i)
    ensures LinkOk(t, p, c, j)
  {
    hide DataOk, RingsOk, InstrsOk;
    LinkedEntry(s.entry[p], p, i, ps);
    LinkedEntry(s.entry[c], c, i, ps);
    LinkedEntry(s.entry[i], i, i, ps);
    assert LinkOk(s, p, c, j);
  }

  lemma ScheduleLinksOnce(s: Rob, t: Rob, i: nat, ps: seq<int>)
    requires Valid(s) && i < ROB_SIZE && Live(s, i) && s.entry[i].scheduled == Idle
    requires |ps| == SOURCES && ScheduledAs(s, t, i, ps)
    ensures forall p, q, c, j | 0 <= p < ROB_SIZE && 0 <= q < ROB_SIZE && 0 <= j < SOURCES
              && Recorded(t, p, c, j) && Recorded(t, q, c, j) :: p == q
  {
    hide DataOk, RingsOk;
    assert InstrOk(s, i);
    assert forall j :: 0 <= j < SOURCES ==> !s.entry[i].rawChecked[j];
    hide InstrsOk;
    forall p, q, c, j | 0 <= p < ROB_SIZE && 0 <= q < ROB_SIZE && 0 <= j < SOURCES
      && Recorded(t, p, c, j) && Recorded(t, q, c, j) ensures p == q
    {
      assert LinkOk(s, p, c, j) && LinkOk(s, q, c, j);
    }
  }

  /** The producers found are older, uncompleted writers of the operand. */
  ghost predicate GoodProducers(s: Rob, i: nat, ps: seq<int>)
    requires Shaped(s) && i < ROB_SIZE
  {
    && |ps| == SOURCES
    && forall j :: 0 <= j < SOURCES && ps[j] != -1 ==>
         && 0 <= ps[j] < ROB_SIZE && Age(s, ps[j]) < Age(s, i) && !s.entry[ps[j]].executed.Completed?
  }

  lemma ScheduleOpen(s: Rob, t: Rob, i: nat, ps: seq<int>, c: nat)
    requires Valid(s) && i < ROB_SIZE && Live(s, i) && s.entry[i].scheduled == Idle && GoodProducers(s, i, ps)
    requires ScheduledAs(s, t, i, ps)
    ensures NumOpen(t, c) == NumOpen(s, c) + (if c == i then Linked(ps) else 0)
    ensures c == i ==> NumOpen(s, c) == 0
  {
    hide DataOk, RingsOk;
    forall p | 0 <= p < ROB_SIZE
      ensures t.entry[p].executed == s.entry[p].executed
    {
      LinkedEntry(s.entry[p], p, i, ps);
    }
    if c != i {
      SameOpen(s, t, c);
    } else {
      assert InstrOk(s, i);
      forall p, j | 0 <= p < ROB_SIZE && 0 <= j < SOURCES ensures !Recorded(s, p, i, j) {
        assert Recorded(s, p, i, j) ==> LinkOk(s, p, i, j);
      }
      forall j | 0 <= j < SOURCES ensures Open(t, i, j) <==> ps[j] != -1 {
        if ps[j] != -1 { assert Recorded(t, ps[j], i, j); }
      }
    }
  }

  lemma ScheduleInstrs(s: Rob, t: Rob, i: nat, ps: seq<int>)
    requires Valid(s) && i < ROB_SIZE && Live(s, i) && s.entry[i].scheduled == Idle && GoodProducers(s, i, ps)
    requires ScheduledAs(s, t, i, ps)
    ensures InstrsOk(t)
  {
    hide DataOk, RingsOk, LinksOk, NumOpen, Linked, Recorded;
    forall c | 0 <= c < ROB_SIZE ensures if Live(t, c) then InstrOk(t, c) else t.entry[c] == EMPTY_INSTR {
      LinkedEntry(s.entry[c], c, i, ps);
      ScheduleOpen(s, t, i, ps, c);
      if Live(s, c) { assert InstrOk(s, c); } else { assert s.entry[c] == EMPTY_INSTR; assert c !in ps; }
    }
  }

  lemma ScheduleRings(s: Rob, t: Rob, i: nat, ps: seq<int>)
    requires Valid(s) && i < ROB_SIZE && Live(s, i) && s.entry[i].scheduled == Idle && GoodProducers(s, i, ps)
    requires ScheduledAs(s, t, i, ps)
    ensures RingsOk(t)
    ensures i !in s.rte0 + s.rte1
  {
    hide DataOk, LinksOk, NumOpen, Recorded;
    assert InstrOk(s, i);
    assert i in s.rte0 + s.rte1 <==> Startable(s, i);
    LinkedEntry(s.entry[i], i, i, ps);
    assert t.rte0 + t.rte1 == if t.rte1 == s.rte1 then s.rte0 + s.rte1 else (s.rte0 + s.rte1) + [i];
    forall c: nat ensures c in t.rte0 + t.rte1 <==> Startable(t, c) {
      assert c in s.rte0 + s.rte1 <==> Startable(s, c);
      if c < ROB_SIZE { LinkedEntry(s.entry[c], c, i, ps); }
      if c == i { ScheduleOpen(s, t, i, ps, i); }
    }
  }

  lemma LastWriterIsProducer(s: Rob, p: nat, i: nat, r: nat)
    requires Shaped(s) && p < ROB_SIZE && i < ROB_SIZE
    requires LastWriter(s, p, i, r) && !s.entry[p].executed.Completed?
    ensures Producer(s, i, r, Age(s, i)) == p
  {
    ProducerIsYoungest(s, i, r, Age(s, i));
  }

  lemma ScheduleData(s: Rob, t: Rob, i: nat)
    requires Valid(s) && i < ROB_SIZE && Live(s, i) && s.entry[i].scheduled == Idle
    requires ScheduledAs(s, t, i, Producers(s, i, Age(s, i)))
    ensures DataOk(t)
  {
    hide RingsOk, LinksOk, InstrsOk;
    var ps := Producers(s, i, Age(s, i));
    forall c | 0 <= c < ROB_SIZE
      ensures t.entry[c].dests == s.entry[c].dests && t.entry[c].sources == s.entry[c].sources
           && t.entry[c].executed == s.entry[c].executed && (c != i ==> t.entry[c].scheduled == s.entry[c].scheduled)
    {
      LinkedEntry(s.entry[c], c, i, ps);
    }
    forall p, c, j | 0 <= p < ROB_SIZE && 0 <= c < ROB_SIZE && 0 <= j < SOURCES
      && LastWriter(t, p, c, t.entry[c].sources[j]) && t.entry[c].scheduled != Idle
      ensures t.entry[p].executed.Completed? || Recorded(t, p, c, j)
    {
      assert LastWriter(s, p, c, s.entry[c].sources[j]);
      if c == i && !s.entry[p].executed.Completed? {
        LastWriterIsProducer(s, p, i, s.entry[i].sources[j]);
      }
    }
  }

  /** In-order scheduling of instruction i keeps the invariant. */
  lemma ScheduleKeeps(s: Rob, i: nat, now: nat, latency: nat)
    requires Valid(s) && i < ROB_SIZE && Live(s, i) && s.entry[i].scheduled == Idle
    ensures Valid(Schedule(s, i, now, latency))
    ensures i !in s.rte0 + s.rte1
  {
    hide LinksOk, InstrsOk, RingsOk, DataOk, Recorded;
    var t, ps := ScheduleShape(s, i, now, latency);
    forall j | 0 <= j < SOURCES && ps[j] != -1
      ensures 0 <= ps[j] < ROB_SIZE && Age(s, ps[j]) < Age(s, i) && !s.entry[ps[j]].executed.Completed?
    {
      ProducerIsYoungest(s, i, s.entry[i].sources[j], Age(s, i));
    }
    ScheduleLinks(s, t, i, ps);
    ScheduleInstrs(s, t, i, ps);
    ScheduleRings(s, t, i, ps);
    ScheduleData(s, t, i);
  }

  // ---------- completion ----------

  /** t is s after i completed and released its dependents. */
  ghost predicate Released(s: Rob, t: Rob, i: nat)
    requires Shaped(s) && i < ROB_SIZE
  {
    var e := s.entry[i];
    && Shaped(t) && t == s.(entry := t.entry, rte0 := t.rte0)
    && t.rte0 == s.rte0 + Woken(s.entry, e, ROB_SIZE)
    && t.entry[i] == e.(executed := Completed)
    && (forall c :: 0 <= c < ROB_SIZE && c != i ==>
          t.entry[c] == if c in e.dependents then WakeEntry(s.entry[c], Share(e.dependentsBy, c)) else s.entry[c])
  }

  lemma WokenIgnores(a: seq<Instr>, b: seq<Instr>, p: Instr, i: nat, n: nat)
    requires |p.dependentsBy| == SOURCES && n <= |a| == |b| && Share(p.dependentsBy, i) == 0
    requires forall c :: 0 <= c < |a| && c != i ==> a[c] == b[c]
    ensures Woken(a, p, n) == Woken(b, p, n)
  {
  }

  lemma {:induction false} WokenIsIncreasing(entry: seq<Instr>, p: Instr, n: nat)
    requires |p.dependentsBy| == SOURCES && n <= |entry|
    ensures Increasing(Woken(entry, p, n))
  {
    if n > 0 {
      WokenIsIncreasing(entry, p, n - 1);
      var w, w' := Woken(entry, p, n - 1), Woken(entry, p, n);
      forall a | 0 <= a < |w| ensures w[a] < n - 1 { assert w[a] in w; }
      forall a, b | 0 <= a < b < |w'| ensures w'[a] < w'[b] {
        assert w'[a] == w[a] && (b < |w| ==> w'[b] == w[b]);
      }
    }
  }

  lemma {:induction false} WokenIsEmpty(entry: seq<Instr>, p: Instr, n: nat)
    requires |p.dependentsBy| == SOURCES && n <= |entry|
    requires forall c :: 0 <= c < n ==> Share(p.dependentsBy, c) == 0
    ensures Woken(entry, p, n) == []
  {
    if n > 0 { WokenIsEmpty(entry, p, n - 1); }
  }

  /** Records point to younger, live, waiting instructions. */
  lemma DependentsWait(s: Rob, i: nat, c: nat)
    requires Valid(s) && i < ROB_SIZE && Share(s.entry[i].dependentsBy, c) > 0
    ensures Live(s, c) && Age(s, i) < Age(s, c) && c in s.entry[i].dependents && s.entry[i].rawProducer
    ensures !s.entry[i].executed.Completed? ==>
              && s.entry[c].numRegDependent > 0 && s.entry[c].executed == Idle
              && s.entry[c].scheduled == (if s.entry[c].isMemory then Inflight else Completed)
  {
    var links := s.entry[i].dependentsBy;
    var j := if c in links[0] then 0 else if c in links[1] then 1 else if c in links[2] then 2 else 3;
    assert Recorded(s, i, c, j);
    assert LinkOk(s, i, c, j) && InstrOk(s, c);
    if !s.entry[i].executed.Completed? { assert Open(s, c, j); }
  }

  lemma NoShare(e: Instr)
    ensures WakeEntry(e, 0) == e
  {
  }

  lemma ReleaseShape(s: Rob, i: nat) returns (t: Rob)
    requires Shaped(s) && i < ROB_SIZE && Share(s.entry[i].dependentsBy, i) == 0
    ensures t == Release(s.(entry := s.entry[i := s.entry[i].(executed := Completed)]), s.entry[i])
    ensures Released(s, t, i)
  {
    hide Share, WakeEntry, Woken;
    var e := s.entry[i];
    var done := s.(entry := s.entry[i := e.(executed := Completed)]);
    t := Release(done, e);
    WokenIgnores(done.entry, s.entry, e, i, ROB_SIZE);
    NoShare(done.entry[i]);
    forall c | 0 <= c < ROB_SIZE
      ensures WellFormed(t.entry[c])
    {
      WakeIsWellFormed(done.entry[c], Share(e.dependentsBy, c));
    }
  }

  lemma WakeIsWellFormed(e: Instr, share: nat)
    requires WellFormed(e)
    ensures WellFormed(WakeEntry(e, share))
  {
  }

  lemma NoReleaseShape(s: Rob, i: nat) returns (t: Rob)
    requires Shaped(s) && i < ROB_SIZE && forall c :: 0 <= c < ROB_SIZE ==> Share(s.entry[i].dependentsBy, c) == 0
    ensures t == s.(entry := s.entry[i := s.entry[i].(executed := Completed)])
    ensures Released(s, t, i)
  {
    hide Share, WakeEntry, Woken;
    var e := s.entry[i];
    t := s.(entry := s.entry[i := e.(executed := Completed)]);
    WokenIsEmpty(s.entry, e, ROB_SIZE);
    assert s.rte0 + [] == s.rte0;
    forall c | 0 <= c < ROB_SIZE
      ensures WakeEntry(s.entry[c], Share(e.dependentsBy, c)) == s.entry[c]
    {
      NoShare(s.entry[c]);
    }
  }

  lemma CompleteShape(s: Rob, i: nat, now: nat) returns (t: Rob)
    requires Valid(s) && i < ROB_SIZE && Completes(s.entry[i], now)
    ensures t == Complete(s, i, now) && Released(s, t, i)
  {
    var e := s.entry[i];
    forall c | 0 <= c < ROB_SIZE && Share(e.dependentsBy, c) > 0
      ensures c != i && e.rawProducer
    {
      DependentsWait(s, i, c);
    }
    hide LinksOk, InstrsOk, RingsOk, DataOk, Share, Released, Release;
    if e.rawProducer {
      t := ReleaseShape(s, i);
    } else {
      t := NoReleaseShape(s, i);
    }
  }

  lemma ReleasedEntry(s: Rob, t: Rob, i: nat, c: nat)
    requires Shaped(s) && i < ROB_SIZE && c < ROB_SIZE && Released(s, t, i)
    ensures t.entry[c] == s.entry[c].(numRegDependent := t.entry[c].numRegDependent, regReady := t.entry[c].regReady,
                                      scheduled := t.entry[c].scheduled, executed := t.entry[c].executed)
    ensures c != i ==> t.entry[c].executed == s.entry[c].executed
  {
  }

  /** Completion closes exactly the slots recorded with i. */
  lemma ReleasedOpen(s: Rob, t: Rob, i: nat, c: nat)
    requires Valid(s) && i < ROB_SIZE && !s.entry[i].executed.Completed? && Released(s, t, i)
    ensures NumOpen(t, c) == NumOpen(s, c) - Share(s.entry[i].dependentsBy, c)
  {
    hide InstrsOk, RingsOk, DataOk, Woken, WakeEntry;
    forall p | 0 <= p < ROB_SIZE
      ensures t.entry[p].dependentsBy == s.entry[p].dependentsBy
           && t.entry[p].executed.Completed? == (s.entry[p].executed.Completed? || p == i)
    {
      ReleasedEntry(s, t, i, p);
    }
    forall j | 0 <= j < SOURCES ensures Open(t, c, j) == (Open(s, c, j) && !Recorded(s, i, c, j))
                                     && (Recorded(s, i, c, j) ==> Open(s, c, j))
    {
      if Open(s, c, j) && !Recorded(s, i, c, j) {
        var p :| 0 <= p < ROB_SIZE && Recorded(s, p, c, j) && !s.entry[p].executed.Completed?;
        assert Recorded(t, p, c, j);
      }
      if Open(t, c, j) {
        var p :| 0 <= p < ROB_SIZE && Recorded(t, p, c, j) && !t.entry[p].executed.Completed?;
        assert Recorded(s, p, c, j);
      }
    }
  }

  lemma ReleasedInstrs(s: Rob, t: Rob, i: nat)
    requires Valid(s) && i < ROB_SIZE && s.entry[i].executed == Inflight && Released(s, t, i)
    ensures InstrsOk(t)
  {
    hide RingsOk, DataOk, LinksOk, Woken, NumOpen, Share, Recorded;
    var e := s.entry[i];
    forall c | 0 <= c < ROB_SIZE ensures if Live(t, c) then InstrOk(t, c) else t.entry[c] == EMPTY_INSTR {
      var share := Share(e.dependentsBy, c);
      ReleasedOpen(s, t, i, c);
      if share > 0 { DependentsWait(s, i, c); }
      if Live(s, c) { assert InstrOk(s, c); }
      NoShare(s.entry[c]);
    }
  }

  lemma ReleasedRings(s: Rob, t: Rob, i: nat)
    requires Valid(s) && i < ROB_SIZE && s.entry[i].executed == Inflight && Released(s, t, i)
    ensures RingsOk(t)
  {
    hide DataOk, LinksOk, NumOpen, Share, Recorded;
    var e := s.entry[i];
    var w := Woken(s.entry, e, ROB_SIZE);
    WokenIsIncreasing(s.entry, e, ROB_SIZE);
    forall c: nat | c in w ensures Live(s, c) && c !in s.rte0 + s.rte1 && Startable(t, c) {
      DependentsWait(s, i, c);
      assert c in s.rte0 + s.rte1 <==> Startable(s, c);
    }
    forall c: nat ensures c in t.rte0 + t.rte1 <==> Startable(t, c) {
      assert c in s.rte0 + s.rte1 <==> Startable(s, c);
      if Live(s, c) && c !in w {
        ReleasedStart(s, t, i, c);
      }
    }
    InsertedNoDup(s.rte0, w, s.rte1);
  }

  /** An instruction that is not woken can start after the release exactly if it could before. */
  lemma ReleasedStart(s: Rob, t: Rob, i: nat, c: nat)
    requires Valid(s) && i < ROB_SIZE && s.entry[i].executed == Inflight && Released(s, t, i)
    requires Live(s, c) && c !in Woken(s.entry, s.entry[i], ROB_SIZE)
    ensures Startable(t, c) == Startable(s, c)
  {
    hide DataOk, LinksOk, NumOpen, Share, Recorded, RingsOk;
    var share := Share(s.entry[i].dependentsBy, c);
    assert InstrOk(s, c);
    if share > 0 { DependentsWait(s, i, c); }
    NoShare(s.entry[c]);
  }

  lemma InsertedNoDup(a: seq<nat>, w: seq<nat>, b: seq<nat>)
    requires NoDup(a + b) && Increasing(w)
    requires forall c :: c in w ==> c !in a + b
    ensures NoDup(a + w + b)
  {
    var q, r := a + b, a + w + b;
    forall k, l | 0 <= k < l < |r| ensures r[k] != r[l] {
      var in_k := |a| <= k < |a| + |w|;
      var in_l := |a| <= l < |a| + |w|;
      if in_k && !in_l { assert w[k - |a|] in w; assert r[l] == q[if l < |a| then l else l - |w|]; }
      if !in_k && in_l { assert w[l - |a|] in w; assert r[k] == q[if k < |a| then k else k - |w|]; }
      if !in_k && !in_l {
        assert r[k] == q[if k < |a| then k else k - |w|];
        assert r[l] == q[if l < |a| then l else l - |w|];
      }
    }
  }

  /** Completion and wake-up keep the invariant. */
  lemma CompleteKeeps(s: Rob, i: nat, now: nat)
    requires Valid(s) && i < ROB_SIZE
    ensures Valid(Complete(s, i, now))
  {
    hide RingsOk, Woken, NumOpen, Share, WakeEntry;
    if Completes(s.entry[i], now) {
      var t := CompleteShape(s, i, now);
      ReleasedInstrs(s, t, i);
      ReleasedRings(s, t, i);
      ReleasedRecords(s, t, i);
    }
  }

  lemma ReleasedRecords(s: Rob, t: Rob, i: nat)
    requires Valid(s) && i < ROB_SIZE && s.entry[i].executed == Inflight && Released(s, t, i)
    ensures LinksOk(t) && DataOk(t)
  {
    hide RingsOk, Woken, NumOpen, Share, WakeEntry;
    forall c | 0 <= c < ROB_SIZE
      ensures t.entry[c] == s.entry[c].(numRegDependent := t.entry[c].numRegDependent, regReady := t.entry[c].regReady,
                                        scheduled := t.entry[c].scheduled, executed := t.entry[c].executed)
      ensures c != i ==> t.entry[c].executed == s.entry[c].executed
      ensures Live(s, c) ==> (t.entry[c].scheduled != Idle ==> s.entry[c].scheduled != Idle)
    {
      ReleasedEntry(s, t, i, c);
      ReleasedScheduled(s, t, i, c);
    }
    forall p, c, j | 0 <= p < ROB_SIZE && 0 <= j < SOURCES && Recorded(t, p, c, j)
      ensures Live(t, p)
    {
      assert Recorded(s, p, c, j) && LinkOk(s, p, c, j);
    }
    LinksKeep(s, t);
    DataKeeps(s, t);
  }

  lemma ReleasedScheduled(s: Rob, t: Rob, i: nat, c: nat)
    requires Valid(s) && i < ROB_SIZE && s.entry[i].executed == Inflight && Released(s, t, i)
    requires c < ROB_SIZE
    ensures t.entry[c].scheduled == s.entry[c].scheduled
  {
    hide DataOk, LinksOk, NumOpen, Share, Recorded, RingsOk;
    if Share(s.entry[i].dependentsBy, c) > 0 { DependentsWait(s, i, c); }
    NoShare(s.entry[c]);
  }

  // ---------- whole runs ----------

  datatype Event =
    | Dispatch(ip: nat, id: nat, isMemory: bool, memOps: int, sources: seq<nat>, dests: seq<nat>, at: nat)
    | DoSchedule(i: nat, at: nat)
    | DoIssue0(at: nat)
    | DoIssue1(at: nat)
    | DoIssueMemory(i: nat)
    | DoMemoryReturn(i: nat, at: nat)
    | DoComplete(i: nat, at: nat)
    | DoRetire

  /** The guards the pipeline checks before each step. */
  ghost predicate Enabled(s: Rob, e: Event)
    requires Shaped(s)
  {
    match e
    case Dispatch(ip, _, _, _, sources, _, _) => s.occupancy < ROB_SIZE && ip != 0 && |sources| == SOURCES
    case DoSchedule(i, _) => i < ROB_SIZE && Live(s, i) && s.entry[i].scheduled == Idle
    case DoIssueMemory(i) => i < ROB_SIZE && Live(s, i)
    case DoMemoryReturn(i, _) => i < ROB_SIZE && Live(s, i) && s.entry[i].isMemory && s.entry[i].memOps > 0
    case DoComplete(i, _) => i < ROB_SIZE
    case DoRetire => s.occupancy > 0 && s.entry[s.head].executed == Completed
    case _ => true
  }

  ghost function Step(s: Rob, e: Event, scheduling: nat, execution: nat): Rob
    requires Shaped(s) && Enabled(s, e)
  {
    match e
    case Dispatch(ip, id, isMemory, memOps, sources, dests, at) =>
      Insert(s, Fresh(ip, id, isMemory, memOps, sources, dests), at)
    case DoSchedule(i, at) => Schedule(s, i, at, scheduling)
    case DoIssue0(at) => IssueRte0(s, at, execution)
    case DoIssue1(at) => IssueRte1(s, at, execution)
    case DoIssueMemory(i) => IssueMemory(s, i)
    case DoMemoryReturn(i, at) => MemoryReturns(s, i, at)
    case DoComplete(i, at) => Complete(s, i, at)
    case DoRetire => Retire(s)
  }

  ghost predicate Reaches(s: Rob, es: seq<Event>, scheduling: nat, execution: nat, t: Rob)
    decreases |es|
  {
    if es == [] then t == s
    else
      && Shaped(s) && Enabled(s, es[0])
      && Reaches(Step(s, es[0], scheduling, execution), es[1..], scheduling, execution, t)
  }

  lemma StepKeeps(s: Rob, e: Event, scheduling: nat, execution: nat)
    requires Valid(s) && Enabled(s, e)
    ensures Valid(Step(s, e, scheduling, execution))
  {
    hide LinksOk, InstrsOk, RingsOk, DataOk, Schedule, Complete, Insert, Retire, IssueRte0, IssueRte1, IssueMemory,
      MemoryReturns;
    match e
    case Dispatch(ip, id, isMemory, memOps, sources, dests, at) =>
      InsertKeeps(s, Fresh(ip, id, isMemory, memOps, sources, dests), at);
    case DoSchedule(i, at) => ScheduleKeeps(s, i, at, scheduling);
    case DoIssue0(at) => IssueRte0Keeps(s, at, execution);
    case DoIssue1(at) => IssueRte1Keeps(s, at, execution);
    case DoIssueMemory(i) => IssueMemoryKeeps(s, i);
    case DoMemoryReturn(i, at) => MemoryReturnsKeeps(s, i, at);
    case DoComplete(i, at) => CompleteKeeps(s, i, at);
    case DoRetire => RetireKeeps(s);
  }

  /** Every state the pipeline can reach satisfies the invariant. */
  lemma {:induction false} EveryReachableStateIsValid(s: Rob, es: seq<Event>, scheduling: nat, execution: nat, t: Rob)
    requires Valid(s) && Reaches(s, es, scheduling, execution, t)
    ensures Valid(t)
    decreases |es|
  {
    if es != [] {
      StepKeeps(s, es[0], scheduling, execution);
      EveryReachableStateIsValid(Step(s, es[0], scheduling, execution), es[1..], scheduling, execution, t);
    }
  }

  // ---------- the ready rings never overflow ----------

  lemma {:induction false} NoDupIsShort(q: seq<nat>, n: nat)
    requires NoDup(q) && forall k :: 0 <= k < |q| ==> q[k] < n
    ensures |q| <= n
  {
    var first := if |q| > 0 then q[0] else 0;
    assert |q| > 0 ==> first < n;
    if n == 0 {
    } else if k :| 0 <= k < |q| && q[k] == n - 1 {
      var r := q[..k] + q[k + 1..];
      RemoveAt(q, k, r);
      assert forall a :: 0 <= a < |r| ==> r[a] == if a < k then q[a] else q[a + 1];
      NoDupIsShort(r, n - 1);
    } else {
      NoDupIsShort(q, n - 1);
    }
  }

  /** Together the rings hold at most one slot per instruction, so a push always finds room: the sanity
      checks before RTE0 and RTE1 are written never fire. */
  lemma RingsHaveRoom(s: Rob, extra: seq<nat>)
    requires Valid(s) && NoDup(s.rte0 + s.rte1 + extra) && forall c :: c in extra ==> Live(s, c)
    ensures |s.rte0| + |s.rte1| + |extra| <= ROB_SIZE
  {
    var q := s.rte0 + s.rte1 + extra;
    forall k | 0 <= k < |q| ensures q[k] < ROB_SIZE {
      var c := q[k];
      assert c in s.rte0 + s.rte1 || c in extra;
      assert c in s.rte0 + s.rte1 ==> Startable(s, c);
    }
    NoDupIsShort(q, ROB_SIZE);
  }
}
