/** What the stages of one cycle get done: which instructions start, complete and retire. */
module RobCycle {
  import opened RobModel
  import opened RobInvariant
  import opened RobSteps
  import opened RobProgress
  import opened RobCore

  /** The instruction runs, its cycle has come and its operations are back. */
  predicate Due(e: Instr, now: nat) {
    e.executed == Inflight && e.eventCycle <= now && (e.isMemory ==> e.memOps == 0)
  }

  /** One sweep of update_rob over the n oldest completes exactly those that were due; none of the others starts,
      completes or moves its cycle. */
  lemma {:induction false} SweepCompletesExactly(s: Rob, now: nat, n: nat, c: nat)
    requires Valid(s) && n <= ROB_SIZE && Live(s, c)
    ensures var a, b := s.entry[c], CompleteAll(s, now, n).entry[c];
            && b.executed == (if Age(s, c) < n && Due(a, now) then Completed else a.executed)
            && b.eventCycle == a.eventCycle && b.memOps == a.memOps && b.isMemory == a.isMemory
  {
    hide LinksOk, InstrsOk, RingsOk, DataOk, Complete, Live, Age, Slot;
    if n > 0 {
      SweepCompletesExactly(s, now, n - 1, c);
      SlotOfAge(s, n - 1, c);
      VisitChanges(CompleteAll(s, now, n - 1), Slot(s, n - 1), now, c);
    } else {
      SlotOfAge(s, 0, c);
    }
  }

  lemma SlotOfAge(s: Rob, n: nat, c: nat)
    requires Shaped(s) && n < ROB_SIZE && Live(s, c)
    ensures 0 <= Slot(s, n) < ROB_SIZE && c < ROB_SIZE && Age(s, c) >= 0
    ensures Slot(s, n) == c <==> Age(s, c) == n
  {
  }

  lemma VisitChanges(s: Rob, i: nat, now: nat, c: nat)
    requires Valid(s) && i < ROB_SIZE && c < ROB_SIZE
    ensures var a, b := s.entry[c], Complete(s, i, now).entry[c];
            && b.executed == (if i == c && Due(a, now) then Completed else a.executed)
            && b.eventCycle == a.eventCycle && b.memOps == a.memOps && b.isMemory == a.isMemory
  {
    hide LinksOk, InstrsOk, RingsOk, DataOk, NumOpen, Complete, Released;
    CompleteMoves(s, i, now, 0, 0, c);
    CompletesExactly(s, i, now, 0, 0, Complete(s, i, now));
    if Completes(s.entry[i], now) {
      var t := CompleteShape(s, i, now);
      ReleasedProgress(s, t, i, c);
    } else {
      RobOnce.NothingCompletes(s, i, now);
    }
  }

  // ---------- issuing ----------

  /** The first k instructions of the ring have started; nobody else has changed. */
  ghost predicate Started(s: Rob, r: Rob, q: seq<nat>, k: nat, now: nat, latency: nat)
    requires k <= |q|
  {
    && |s.entry| == |r.entry| == ROB_SIZE
    && (forall c :: 0 <= c < ROB_SIZE && c !in q[..k] ==> r.entry[c] == s.entry[c])
    && (forall c :: c in q[..k] ==>
          c < ROB_SIZE && s.entry[c].eventCycle <= now
          && r.entry[c] == s.entry[c].(executed := Inflight, eventCycle := now + latency))
  }

  /** The ring's oldest instruction may start now. */
  ghost predicate HeadIsDue(r: Rob, q: seq<nat>, now: nat)
    requires |r.entry| == ROB_SIZE
  {
    q != [] && q[0] < ROB_SIZE && r.entry[q[0]].eventCycle <= now
  }

  /** RTE0 gives its oldest instructions, in order, until the width is used up or the next is not due. */
  lemma {:induction false} Drain0Exactly(s: Rob, now: nat, latency: nat, width: nat) returns (k: nat)
    requires Valid(s)
    ensures var (r, left) := Drain0(s, now, latency, width);
            && k <= |s.rte0| && k + left == width && Valid(r)
            && r == s.(entry := r.entry, rte0 := s.rte0[k..]) && Started(s, r, s.rte0, k, now, latency)
            && (left > 0 ==> !HeadIsDue(r, r.rte0, now))
    decreases width
  {
    hide LinksOk, InstrsOk, RingsOk, DataOk, NumOpen, Live, Age, IssueRte0;
    k := 0;
    if width > 0 && CanIssue(s, s.rte0, now) {
      IssueRte0Keeps(s, now, latency);
      var u := IssueRte0(s, now, latency);
      FirstIsFresh0(s, now, latency);
      k := Drain0Exactly(u, now, latency, width - 1);
      var (r, left) := Drain0(s, now, latency, width);
      StartedOneMore(s, u, r, s.rte0, k, now, latency);
      k := k + 1;
    }
  }

  lemma FirstIsFresh0(s: Rob, now: nat, latency: nat)
    requires Valid(s) && CanIssue(s, s.rte0, now)
    ensures var u, c := IssueRte0(s, now, latency), s.rte0[0];
            && u == s.(entry := s.entry[c := s.entry[c].(executed := Inflight, eventCycle := now + latency)],
                       rte0 := s.rte0[1..])
            && c !in s.rte0[1..]
  {
    hide LinksOk, InstrsOk, DataOk, Startable, Live, Age;
    OnlyOnce(s.rte0, s.rte1, 0);
  }

  lemma FirstIsFresh1(s: Rob, now: nat, latency: nat)
    requires Valid(s) && CanIssue(s, s.rte1, now)
    ensures var u, c := IssueRte1(s, now, latency), s.rte1[0];
            && u == s.(entry := s.entry[c := s.entry[c].(executed := Inflight, eventCycle := now + latency)],
                       rte1 := s.rte1[1..])
            && c !in s.rte1[1..]
  {
    hide LinksOk, InstrsOk, DataOk, Startable, Live, Age;
    OnlyOnce(s.rte0, s.rte1, |s.rte0|);
  }

  /** What stands at place k of the two rings stands nowhere behind it, nor in the other ring. */
  lemma OnlyOnce(q: seq<nat>, p: seq<nat>, k: nat)
    requires NoDup(q + p) && k < |q + p|
    ensures k < |q| ==> q[k] !in q[..k] && q[k] !in q[k + 1..] && q[k] !in p
    ensures k >= |q| ==> p[k - |q|] !in q && p[k - |q|] !in p[..k - |q|] && p[k - |q|] !in p[k - |q| + 1..]
  {
    var all := q + p;
    forall i | 0 <= i < |q| ensures q[i] == all[i] { }
    forall i | 0 <= i < |p| ensures p[i] == all[|q| + i] { }
  }

  lemma StartedOneMore(s: Rob, u: Rob, r: Rob, q: seq<nat>, k: nat, now: nat, latency: nat)
    requires q != [] && k <= |q| - 1 && q[0] < ROB_SIZE && q[0] !in q[1..] && Started(u, r, q[1..], k, now, latency)
    requires |s.entry| == ROB_SIZE && s.entry[q[0]].eventCycle <= now
    requires u.entry == s.entry[q[0] := s.entry[q[0]].(executed := Inflight, eventCycle := now + latency)]
    ensures Started(s, r, q, k + 1, now, latency)
  {
    assert q[..k + 1] == [q[0]] + q[1..][..k];
    assert forall c :: c in q[1..][..k] ==> c in q[1..];
  }

  lemma {:induction false} Drain1Exactly(s: Rob, now: nat, latency: nat, width: nat) returns (k: nat)
    requires Valid(s)
    ensures var r := Drain1(s, now, latency, width);
            && k <= |s.rte1| && k <= width && Valid(r)
            && r == s.(entry := r.entry, rte1 := s.rte1[k..]) && Started(s, r, s.rte1, k, now, latency)
            && (k < width ==> !HeadIsDue(r, r.rte1, now))
    decreases width
  {
    hide LinksOk, InstrsOk, RingsOk, DataOk, NumOpen, Live, Age, IssueRte1;
    k := 0;
    if width > 0 && CanIssue(s, s.rte1, now) {
      IssueRte1Keeps(s, now, latency);
      var u := IssueRte1(s, now, latency);
      FirstIsFresh1(s, now, latency);
      k := Drain1Exactly(u, now, latency, width - 1);
      StartedOneMore(s, u, Drain1(s, now, latency, width), s.rte1, k, now, latency);
      k := k + 1;
    }
  }

  /** One cycle of execute_instruction: from RTE0 first and then from RTE1, the oldest due instructions start, in
      order, up to six in all; fewer start only when both rings have nothing due in front. */
  lemma ExecuteExactly(s: Rob, now: nat, latency: nat) returns (k: nat, l: nat)
    requires Valid(s)
    ensures var r := Execute(s, now, latency);
            && k <= |s.rte0| && l <= |s.rte1| && k + l <= 6 && |r.entry| == |s.entry| == ROB_SIZE
            && r == s.(entry := r.entry, rte0 := s.rte0[k..], rte1 := s.rte1[l..])
            && Started(s, r, s.rte0[..k] + s.rte1[..l], k + l, now, latency)
            && (k + l < 6 ==> !HeadIsDue(s, s.rte0[k..], now) && !HeadIsDue(s, s.rte1[l..], now))
            && (l > 0 && k < |s.rte0| ==> !HeadIsDue(s, s.rte0[k..], now))
  {
    hide LinksOk, InstrsOk, RingsOk, DataOk, NumOpen, Live, Age, Drain0, Drain1;
    k := Drain0Exactly(s, now, latency, EXEC_WIDTH);
    var (u, left) := Drain0(s, now, latency, EXEC_WIDTH);
    l := Drain1Exactly(u, now, latency, left);
    RingsApart(s, k, l);
    StartedJoin(s, u, Drain1(u, now, latency, left), s.rte0, k, s.rte1, l, now, latency);
  }

  lemma RingsApart(s: Rob, k: nat, l: nat)
    requires Valid(s) && k <= |s.rte0| && l <= |s.rte1|
    ensures k < |s.rte0| ==> s.rte0[k] !in s.rte0[..k] + s.rte1[..l]
    ensures l < |s.rte1| ==> s.rte1[l] !in s.rte0[..k] + s.rte1[..l]
    ensures forall c :: c in s.rte0[..k] ==> c !in s.rte1[..l]
  {
    hide LinksOk, InstrsOk, DataOk, Startable, Live;
    if k < |s.rte0| { OnlyOnce(s.rte0, s.rte1, k); }
    if l < |s.rte1| { OnlyOnce(s.rte0, s.rte1, |s.rte0| + l); }
    forall i | 0 <= i < k ensures s.rte0[i] !in s.rte1[..l] { OnlyOnce(s.rte0, s.rte1, i); }
  }

  lemma StartedJoin(s: Rob, u: Rob, r: Rob, q: seq<nat>, k: nat, p: seq<nat>, l: nat, now: nat, latency: nat)
    requires k <= |q| && l <= |p| && Started(s, u, q, k, now, latency) && Started(u, r, p, l, now, latency)
    requires forall c :: c in q[..k] ==> c !in p[..l]
    ensures Started(s, r, q[..k] + p[..l], k + l, now, latency)
  {
    assert (q[..k] + p[..l])[..k + l] == q[..k] + p[..l];
  }

  // ---------- retiring ----------

  /** One cycle of retire_rob: k completed instructions leave from the head, at most the width; fewer only when
      the next has not completed or nothing is left. */
  /** In s the k oldest have completed, and r is s without them. */
  ghost predicate Retired(s: Rob, r: Rob, k: nat)
    requires Shaped(s) && Shaped(r)
  {
    && k <= s.occupancy && r.occupancy == s.occupancy - k && r.rte0 == s.rte0 && r.rte1 == s.rte1
    && (forall c: nat :: Live(r, c) <==> Live(s, c) && Age(s, c) >= k)
    && (forall c: nat :: Live(s, c) && Age(s, c) < k ==> s.entry[c].executed == Completed)
    && (forall c: nat :: Live(r, c) ==> r.entry[c] == s.entry[c] && Age(r, c) == Age(s, c) - k)
  }

  /** One cycle of retire_rob: the k oldest instructions, all completed, leave; k is the width unless the next one
      has not completed or nothing is left. */
  lemma {:induction false} RetireExactly(s: Rob, n: nat) returns (k: nat)
    requires Valid(s) && n <= ROB_SIZE
    ensures var r := RetireUpTo(s, n);
            && k <= n && Valid(r) && Retired(s, r, k)
            && (k < n ==> r.occupancy == 0 || r.entry[r.head].executed != Completed)
    decreases n
  {
    HeadIsLive(s);
    k := 0;
    if n > 0 && s.occupancy > 0 && s.entry[s.head].executed == Completed {
      RetireKeeps(s);
      hide LinksOk, InstrsOk, RingsOk, DataOk, Live, Age, Retired, Retire;
      k := RetireExactly(Retire(s), n - 1);
      RetiredOneMore(s, RetireUpTo(s, n), k);
      k := k + 1;
    } else {
      NoneRetired(s);
    }
  }

  lemma NoneRetired(s: Rob)
    requires Shaped(s)
    ensures Retired(s, s, 0)
  {
  }

  lemma RetiredOneMore(s: Rob, r: Rob, k: nat)
    requires Shaped(s) && s.occupancy > 0 && s.entry[s.head].executed == Completed && Shaped(r)
    requires Shaped(Retire(s)) && Retired(Retire(s), r, k)
    ensures Retired(s, r, k + 1)
  {
    RetireAges(s);
    HeadHasAge0(s);
    hide Live, Age, Retire;
  }

  lemma HeadHasAge0(s: Rob)
    requires Shaped(s) && s.occupancy > 0
    ensures Age(s, s.head) == 0 && forall c: nat :: Live(s, c) && c != s.head ==> 0 < Age(s, c)
    ensures forall c: nat :: Live(s, c) ==> c < ROB_SIZE && (c != s.head ==> Retire(s).entry[c] == s.entry[c])
  {
  }
}
