/** What every run of the reorder buffer keeps: counts, ready rings and data dependences. */
module RobInvariant {
  import opened RobModel

  /** Source slot j of c is recorded with producer p. */
  ghost predicate Recorded(s: Rob, p: nat, c: nat, j: nat)
    requires Shaped(s) && p < ROB_SIZE && j < SOURCES
  {
    c in s.entry[p].dependentsBy[j]
  }

  ghost predicate LinkOk(s: Rob, p: nat, c: nat, j: nat)
    requires Shaped(s) && p < ROB_SIZE && j < SOURCES
  {
    Recorded(s, p, c, j) ==>
      && Live(s, p) && Live(s, c) && Age(s, p) < Age(s, c)
      && s.entry[c].rawChecked[j]
      && c in s.entry[p].dependents && s.entry[p].rawProducer
  }

  ghost predicate LinksOk(s: Rob)
    requires Shaped(s)
  {
    && (forall p, c, j :: 0 <= p < ROB_SIZE && 0 <= j < SOURCES && Recorded(s, p, c, j) ==> LinkOk(s, p, c, j))
    && (forall p, q, c, j | 0 <= p < ROB_SIZE && 0 <= q < ROB_SIZE && 0 <= j < SOURCES
          && Recorded(s, p, c, j) && Recorded(s, q, c, j) :: p == q)
  }

  /** Source slot j of c still waits for an uncompleted producer. */
  ghost predicate Open(s: Rob, c: nat, j: nat)
    requires Shaped(s) && j < SOURCES
  {
    exists p :: 0 <= p < ROB_SIZE && Recorded(s, p, c, j) && !s.entry[p].executed.Completed?
  }

  ghost function NumOpen(s: Rob, c: nat): nat
    requires Shaped(s)
  {
    (if Open(s, c, 0) then 1 else 0) + (if Open(s, c, 1) then 1 else 0)
    + (if Open(s, c, 2) then 1 else 0) + (if Open(s, c, 3) then 1 else 0)
  }

  /** The state of one live instruction. */
  ghost predicate InstrOk(s: Rob, c: nat)
    requires Shaped(s) && c < ROB_SIZE
  {
    var e := s.entry[c];
    && e.ip != 0
    && e.numRegDependent == NumOpen(s, c)
    && (e.scheduled == Idle ==> e.executed == Idle && !e.regReady && forall j :: 0 <= j < SOURCES ==> !e.rawChecked[j])
    && (e.scheduled != Idle ==> (e.regReady <==> e.numRegDependent == 0))
    && (e.executed != Idle ==> e.scheduled == Completed && e.numRegDependent == 0)
    && (!e.isMemory ==> e.scheduled != Inflight)
    && (e.isMemory && e.scheduled == Completed ==> e.executed != Idle)
  }

  ghost predicate InstrsOk(s: Rob)
    requires Shaped(s)
  {
    forall c :: 0 <= c < ROB_SIZE ==> if Live(s, c) then InstrOk(s, c) else s.entry[c] == EMPTY_INSTR
  }

  ghost predicate NoDup(q: seq<nat>) { forall i, j :: 0 <= i < j < |q| ==> q[i] != q[j] }

  /** A non-memory instruction that can start: scheduled, not started, nothing to wait for. */
  ghost predicate Startable(s: Rob, c: nat)
    requires Shaped(s)
  {
    && Live(s, c)
    && var e := s.entry[c];
    && !e.isMemory && e.scheduled == Completed && e.executed == Idle && e.numRegDependent == 0
  }

  /** The two ready rings together hold exactly the startable instructions, each once. */
  ghost predicate RingsOk(s: Rob)
    requires Shaped(s)
  {
    && NoDup(s.rte0 + s.rte1)
    && forall c :: c in s.rte0 + s.rte1 <==> Startable(s, c)
  }

  /** p is the youngest live instruction before c that writes r. */
  ghost predicate LastWriter(s: Rob, p: nat, c: nat, r: nat)
    requires Shaped(s) && p < ROB_SIZE && c < ROB_SIZE
  {
    && Live(s, p) && Live(s, c) && Age(s, p) < Age(s, c) && Writes(s.entry[p], r)
    && forall q :: 0 <= q < ROB_SIZE && Age(s, p) < Age(s, q) < Age(s, c) ==> !Writes(s.entry[q], r)
  }

  /** A scheduled instruction has every operand produced, or is recorded with the producer. */
  ghost predicate DataOk(s: Rob)
    requires Shaped(s)
  {
    forall p, c, j | 0 <= p < ROB_SIZE && 0 <= c < ROB_SIZE && 0 <= j < SOURCES
      && LastWriter(s, p, c, s.entry[c].sources[j]) && s.entry[c].scheduled != Idle
      :: s.entry[p].executed.Completed? || Recorded(s, p, c, j)
  }

  ghost predicate Valid(s: Rob) {
    Shaped(s) && LinksOk(s) && InstrsOk(s) && RingsOk(s) && DataOk(s)
  }

  // ---------- what the invariant says ----------

  /** No instruction starts before the instructions that produce its operands have completed. */
  lemma NoEarlyStart(s: Rob, p: nat, c: nat, j: nat)
    requires Valid(s) && p < ROB_SIZE && c < ROB_SIZE && j < SOURCES
    requires LastWriter(s, p, c, s.entry[c].sources[j])
    requires s.entry[c].executed != Idle || c in s.rte0 + s.rte1
    ensures s.entry[p].executed == Completed
  {
    hide LinksOk, NumOpen;
    if !s.entry[p].executed.Completed? {
      OpenIsCounted(s, p, c, j);
    }
  }

  lemma OpenIsCounted(s: Rob, p: nat, c: nat, j: nat)
    requires Shaped(s) && p < ROB_SIZE && j < SOURCES && Recorded(s, p, c, j) && !s.entry[p].executed.Completed?
    ensures NumOpen(s, c) > 0
  {
    assert Open(s, c, j);
    hide Open;
  }

  /** The oldest uncompleted instruction, once scheduled, is never blocked: it runs, it is in a ready
      ring, or it is a memory instruction whose registers are ready. */
  lemma OldestIsNotBlocked(s: Rob, c: nat)
    requires Valid(s) && Live(s, c) && s.entry[c].scheduled != Idle && s.entry[c].executed != Completed
    requires forall p :: 0 <= p < ROB_SIZE && Age(s, p) < Age(s, c) ==> s.entry[p].executed == Completed
    ensures s.entry[c].numRegDependent == 0 && s.entry[c].regReady
    ensures s.entry[c].executed == Inflight || s.entry[c].isMemory || c in s.rte0 + s.rte1
  {
    assert InstrOk(s, c);
    forall j | 0 <= j < SOURCES ensures !Open(s, c, j) { }
    if !s.entry[c].isMemory && s.entry[c].executed == Idle { assert Startable(s, c); }
  }
}
