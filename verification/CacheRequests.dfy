/** What each handler of a cache level does to the set and the register of the request in front, and when it waits. */
module CacheRequests {
  import opened FirstMin
  import opened CacheSet
  import opened LruOrder
  import opened CacheModel
  import opened CacheInvariant

  /** way is the first one that holds the line. */
  ghost predicate FirstHolder(row: seq<Block>, address: nat, way: nat) {
    && way < |row| && row[way].valid && row[way].line.tag == address
    && forall v :: 0 <= v < way ==> !(row[v].valid && row[v].line.tag == address)
  }

  ghost predicate Absent(row: seq<Block>, address: nat) {
    forall v :: 0 <= v < |row| ==> !(row[v].valid && row[v].line.tag == address)
  }

  /** The set after a hit on this way: used last unless the request came from a level above to be written back, and
      dirty where the request writes; nothing else changed, nothing else overtook anything. */
  ghost predicate AfterHit(row: seq<Block>, r: seq<Block>, way: nat, uses: bool, writes: bool) {
    && |r| == |row| && way < |row|
    && (forall v :: 0 <= v < |row| ==>
          && r[v].valid == row[v].valid
          && r[v].line == (if v == way && writes then row[v].line.(dirty := true) else row[v].line)
          && r[v].lru == (if !uses then row[v].lru else if v == way then 0
                          else if row[v].lru < row[way].lru then row[v].lru + 1 else row[v].lru))
  }

  lemma HitIsFirst(row: seq<Block>, address: nat)
    ensures var w := Hit(row, address); if w < |row| then FirstHolder(row, address, w) else Absent(row, address)
  {
    FirstIsFirst(Matching(row, address));
    var w := Hit(row, address);
    assert w < |row| ==> Matching(row, address)[w];
    forall v | 0 <= v < w ensures !(row[v].valid && row[v].line.tag == address) { assert !Matching(row, address)[v]; }
  }

  /** A due write that hits marks its line dirty and is done. */
  lemma WriteHitExactly(c: Config, s: State, now: nat, full: bool) returns (way: nat)
    requires Valid(c, s) && HeadReady(s.wq, now)
    ensures var p, t := s.wq[0], HandleWriteback(c, s, now, full);
            var row := s.normal[p.address % c.sets];
            Absent(row, p.address)
            || (FirstHolder(row, p.address, way)
                && AfterHit(row, t.normal[p.address % c.sets], way, p.kind != Writeback, true)
                && t == s.(normal := s.normal[p.address % c.sets := t.normal[p.address % c.sets]],
                           wq := s.wq[1..], served := s.served + [p]))
  {
    var p := s.wq[0];
    way := Hit(s.normal[p.address % c.sets], p.address);
    HitIsFirst(s.normal[p.address % c.sets], p.address);
    hide MshrOk, RowsRanked, QueueOk, KeyedOk, Hit, Miss, MissStalls, Install, Blocked, Absent;
  }

  lemma ReadHitExactly(c: Config, s: State, now: nat, full: bool) returns (way: nat)
    requires Valid(c, s) && HeadReady(s.rq, now)
    ensures var p, t := s.rq[0], HandleRead(c, s, now, full);
            var row := s.normal[p.address % c.sets];
            Absent(row, p.address)
            || (FirstHolder(row, p.address, way)
                && AfterHit(row, t.normal[p.address % c.sets], way, p.kind != Writeback, false)
                && t == s.(normal := s.normal[p.address % c.sets := t.normal[p.address % c.sets]],
                           rq := s.rq[1..], served := s.served + [p]))
  {
    var p := s.rq[0];
    way := Hit(s.normal[p.address % c.sets], p.address);
    HitIsFirst(s.normal[p.address % c.sets], p.address);
    hide MshrOk, RowsRanked, QueueOk, KeyedOk, Hit, SpecHit, Miss, MissStalls, Absent;
  }

  lemma PrefetchHitExactly(c: Config, s: State, now: nat, full: bool) returns (way: nat)
    requires Valid(c, s) && HeadReady(s.pq, now)
    ensures var p, t := s.pq[0], HandlePrefetch(c, s, now, full);
            var row := s.normal[p.address % c.sets];
            Absent(row, p.address)
            || (FirstHolder(row, p.address, way)
                && AfterHit(row, t.normal[p.address % c.sets], way, p.kind != Writeback, false)
                && t == s.(normal := s.normal[p.address % c.sets := t.normal[p.address % c.sets]],
                           pq := s.pq[1..], served := s.served + [p]))
  {
    var p := s.pq[0];
    way := Hit(s.normal[p.address % c.sets], p.address);
    HitIsFirst(s.normal[p.address % c.sets], p.address);
    hide MshrOk, RowsRanked, QueueOk, KeyedOk, Hit, Miss, MissStalls, Absent;
  }

  // ---------- misses ----------

  /** Some register works on this line. */
  ghost predicate Tracked(s: State, address: nat) {
    exists i :: 0 <= i < |s.mshr.entry| && s.mshr.entry[i].address == address
  }

  /** Some register is free. */
  ghost predicate RoomForMiss(s: State) { Tracked(s, 0) }

  lemma TrackedExactly(c: Config, s: State, address: nat)
    requires Shaped(c, s)
    ensures Slot(s.mshr.entry, address) < c.mshrSize <==> Tracked(s, address)
  {
    SlotIsSlot(s.mshr.entry, address);
  }

  lemma {:induction false} NotAllLive(entry: seq<Packet>, i: nat)
    requires i < |entry| && entry[i].address == 0
    ensures Live(entry) < |entry|
  {
    if i < |entry| - 1 { NotAllLive(entry[..|entry| - 1], i); }
  }

  /** A miss waits exactly when its line has no register and there is none to be had, or the level below is full. */
  lemma MissStallsExactly(c: Config, s: State, p: Packet, full: bool)
    requires Valid(c, s)
    ensures MissStalls(c, s, p, full) <==> !Tracked(s, p.address) && (!RoomForMiss(s) || full)
  {
    TrackedExactly(c, s, p.address);
    TrackedExactly(c, s, 0);
    if RoomForMiss(s) {
      var i :| 0 <= i < |s.mshr.entry| && s.mshr.entry[i].address == 0;
      NotAllLive(s.mshr.entry, i);
    } else {
      FullWhenAllLive(s.mshr.entry);
    }
    hide RowsRanked, QueueOk, KeyedOk, CandidateOk, Tracked;
  }

  /** A due prefetch that misses waits exactly as above; one that starts a miss for a level further down only passes
      by, any other has the register of its line. */
  lemma PrefetchMissExactly(c: Config, s: State, now: nat, full: bool)
    requires Valid(c, s) && HeadReady(s.pq, now) && Absent(s.normal[s.pq[0].address % c.sets], s.pq[0].address)
    ensures var p, t := s.pq[0], HandlePrefetch(c, s, now, full);
            if !Tracked(s, p.address) && (!RoomForMiss(s) || full) then t == s
            else
              && t == s.(mshr := t.mshr, pq := s.pq[1..])
              && if !Tracked(s, p.address) && p.fillLevel > c.fillLevel then t.mshr == s.mshr else Tracked(t, p.address)
  {
    var p := s.pq[0];
    MissStallsExactly(c, s, p, full);
    TrackedExactly(c, s, p.address);
    HitIsFirst(s.normal[p.address % c.sets], p.address);
    if !MissStalls(c, s, p, full) { MissIsTracked(c, s, p, Wider); }
    hide MshrOk, RowsRanked, QueueOk, KeyedOk, Hit, Miss, MissStalls, Absent, Tracked;
  }

  lemma MissIsTracked(c: Config, s: State, p: Packet, merge: (Packet, Packet) -> Packet)
    requires Valid(c, s) && p.address != 0 && !MissStalls(c, s, p, false)
    requires forall e: Packet :: e.address == p.address ==> merge(e, p).address == e.address
    ensures Tracked(s.(mshr := Miss(c, s, p, merge)), p.address)
  {
    var i := Slot(s.mshr.entry, p.address);
    SlotIsSlot(s.mshr.entry, p.address);
    var t := s.(mshr := Miss(c, s, p, merge));
    if i == c.mshrSize {
      AddKeeps(s.mshr, p.(done := false));
      assert t.mshr.entry[Slot(s.mshr.entry, 0)].address == p.address;
    } else {
      assert t.mshr.entry[i].address == p.address;
    }
  }

  /** A due read that misses; only the last level looks at the read queue below. */
  lemma ReadMissExactly(c: Config, s: State, now: nat, full: bool)
    requires Valid(c, s) && HeadReady(s.rq, now) && Absent(s.normal[s.rq[0].address % c.sets], s.rq[0].address)
    requires SpecHit(s.spec[s.rq[0].address % c.specSets], s.rq[0].address, s.rq[0].id) == c.specWays
    ensures var p, t := s.rq[0], HandleRead(c, s, now, full);
            if !Tracked(s, p.address) && (!RoomForMiss(s) || (c.level.LLC? && full)) then t == s
            else t == s.(mshr := t.mshr, rq := s.rq[1..]) && Tracked(t, p.address)
  {
    var p := s.rq[0];
    MissStallsExactly(c, s, p, c.level.LLC? && full);
    HitIsFirst(s.normal[p.address % c.sets], p.address);
    if !MissStalls(c, s, p, c.level.LLC? && full) { MissIsTracked(c, s, p, MergeRead); }
    hide MshrOk, RowsRanked, QueueOk, KeyedOk, Hit, SpecHit, Miss, MissStalls, Absent, Tracked;
  }

  /** A due write that misses in L1D; it does not look at the level below. */
  lemma StoreMissExactly(c: Config, s: State, now: nat, full: bool)
    requires Valid(c, s) && HeadReady(s.wq, now) && c.level.L1D?
    requires Absent(s.normal[s.wq[0].address % c.sets], s.wq[0].address)
    ensures var p, t := s.wq[0], HandleWriteback(c, s, now, full);
            if !Tracked(s, p.address) && !RoomForMiss(s) then t == s
            else t == s.(mshr := t.mshr, wq := s.wq[1..]) && Tracked(t, p.address)
  {
    var p := s.wq[0];
    MissStallsExactly(c, s, p, false);
    HitIsFirst(s.normal[p.address % c.sets], p.address);
    if !MissStalls(c, s, p, false) { MissIsTracked(c, s, p, MergeWrite); }
    hide MshrOk, RowsRanked, QueueOk, KeyedOk, Hit, Miss, MissStalls, Absent, Tracked, Install, Blocked;
  }

  /** The request merged into a register serves both: no flag and no waiter of either is dropped and the level filled is
      the nearer one, except that a demand takes over the register of a prefetch. */
  lemma MergesExactly(e: Packet, p: Packet)
    ensures var r := MergeRead(e, p);
            && r.done == e.done && r.event == e.event
            && (if e.kind == Prefetch then r == p.(done := e.done, event := e.event)
                else
                  && Serves(e, p, r)
                  && r.waiters == e.waiters + p.waiters + if p.kind == Rfo then {} else {p.slot})
    ensures var r := MergeWrite(e, p);
            if e.kind == Prefetch then r == p.(done := e.done, event := e.event)
            else Serves(e, p, r) && r.waiters == e.waiters
    ensures Serves(e, p, Wider(e, p)) && Wider(e, p).waiters == e.waiters
  {
  }

  ghost predicate Serves(e: Packet, p: Packet, r: Packet) {
    && r.fillLevel <= e.fillLevel && r.fillLevel <= p.fillLevel && r.fillLevel in {e.fillLevel, p.fillLevel}
    && (r.fillL1i <==> e.fillL1i || p.fillL1i) && (r.fillL1d <==> e.fillL1d || p.fillL1d)
    && r == e.(fillLevel := r.fillLevel, fillL1i := r.fillL1i, fillL1d := r.fillL1d, waiters := r.waiters)
  }

  // ---------- arrivals ----------

  /** The two requests name one line: L1D compares full addresses. */
  ghost predicate SameLine(c: Config, q: Packet, p: Packet) {
    if c.level.L1D? then q.fullAddr == p.fullAddr else q.address == p.address
  }

  /** i is the place of the first request for this line. */
  ghost predicate FirstSame(c: Config, q: seq<Packet>, p: Packet, i: nat) {
    i < |q| && SameLine(c, q[i], p) && forall j :: 0 <= j < i ==> !SameLine(c, q[j], p)
  }

  ghost predicate NoneSame(c: Config, q: seq<Packet>, p: Packet) { forall j :: 0 <= j < |q| ==> !SameLine(c, q[j], p) }

  ghost predicate FirstAt(q: seq<Packet>, address: nat, i: nat) {
    i < |q| && q[i].address == address && forall j :: 0 <= j < i ==> q[j].address != address
  }

  ghost predicate NoneAt(q: seq<Packet>, address: nat) { forall j :: 0 <= j < |q| ==> q[j].address != address }

  /** The packet queued: due one latency after it arrived, or after its own cycle where that is later. */
  ghost predicate Queued(c: Config, p: Packet, now: nat, r: Packet) {
    && r == p.(event := r.event) && r.event >= now + c.latency && r.event >= p.event + c.latency
    && r.event in {now + c.latency, p.event + c.latency}
  }

  lemma FirstSameExactly(c: Config, q: seq<Packet>, p: Packet)
    ensures var i := First(SameKey(c, q, p)); if i < |q| then FirstSame(c, q, p, i) else NoneSame(c, q, p)
  {
    FirstIsFirst(SameKey(c, q, p));
    var i := First(SameKey(c, q, p));
    assert i < |q| ==> SameKey(c, q, p)[i];
    forall j | 0 <= j < i ensures !SameLine(c, q[j], p) { assert !SameKey(c, q, p)[j]; }
  }

  lemma FirstAtExactly(q: seq<Packet>, address: nat)
    ensures var i := Slot(q, address); if i < |q| then FirstAt(q, address, i) else NoneAt(q, address)
  {
    SlotIsSlot(q, address);
  }

  /** An arriving read: answered by a waiting write of its line, with its data where a level above is to be filled;
      merged into a waiting read; refused; or last in the queue. */
  lemma ReadArrivesExactly(c: Config, s: State, p: Packet, now: nat) returns (w: nat, i: nat)
    ensures var t := AddRq(c, s, p, now);
            if !NoneSame(c, s.wq, p) then
              FirstSame(c, s.wq, p, w)
              && t == s.(served := s.served + [if p.fillLevel < c.fillLevel then p.(data := s.wq[w].data) else p])
            else if !NoneAt(s.rq, p.address) then
              FirstAt(s.rq, p.address, i)
              && var e := s.rq[i];
              t == s.(rq := s.rq[i := e.(waiters := e.waiters + (if p.kind == Rfo then {} else {p.slot}),
                                         fillL1i := e.fillL1i || p.fillL1i, fillL1d := e.fillL1d || p.fillL1d)])
            else if |s.rq| >= c.rqSize then t == s
            else exists r :: Queued(c, p, now, r) && t == s.(rq := s.rq + [r])
  {
    w := First(SameKey(c, s.wq, p));
    FirstSameExactly(c, s.wq, p);
    i := Slot(s.rq, p.address);
    FirstAtExactly(s.rq, p.address);
    assert Queued(c, p, now, Late(c, p, now));
    hide Slot, First, SameKey, Queued;
  }

  lemma PrefetchArrivesExactly(c: Config, s: State, p: Packet, now: nat) returns (w: nat, i: nat)
    ensures var t := AddPq(c, s, p, now);
            if !NoneSame(c, s.wq, p) then
              FirstSame(c, s.wq, p, w)
              && t == s.(served := s.served + [if p.fillLevel < c.fillLevel then p.(data := s.wq[w].data) else p])
            else if !NoneAt(s.pq, p.address) then
              && FirstAt(s.pq, p.address, i) && i < |t.pq|
              && t == s.(pq := s.pq[i := t.pq[i]]) && Serves(s.pq[i], p, t.pq[i])
            else if |s.pq| >= c.pqSize then t == s
            else exists r :: Queued(c, p, now, r) && t == s.(pq := s.pq + [r])
  {
    w := First(SameKey(c, s.wq, p));
    FirstSameExactly(c, s.wq, p);
    i := Slot(s.pq, p.address);
    FirstAtExactly(s.pq, p.address);
    assert Queued(c, p, now, Late(c, p, now));
    hide Slot, First, SameKey, Queued;
  }

  /** An arriving write is dropped behind one of its line, and last in the queue otherwise; so is a message, unless its
      queue is full. */
  lemma WriteArrivesExactly(c: Config, s: State, p: Packet, now: nat)
    requires NoneSame(c, s.wq, p) ==> |s.wq| < c.wqSize
    ensures First(SameKey(c, s.wq, p)) == |s.wq| ==> |s.wq| < c.wqSize
    ensures var t := AddWq(c, s, p, now);
            if !NoneSame(c, s.wq, p) then t == s else exists r :: Queued(c, p, now, r) && t == s.(wq := s.wq + [r])
    ensures var t := AddCq(c, s, p, now);
            if !NoneSame(c, s.cq, p) || |s.cq| >= c.cqSize then t == s
            else exists r :: Queued(c, p, now, r) && t == s.(cq := s.cq + [r])
  {
    FirstSameExactly(c, s.wq, p);
    FirstSameExactly(c, s.cq, p);
    assert Queued(c, p, now, Late(c, p, now));
    hide First, SameKey, Queued;
  }

  /** Returned data completes exactly the register of its line: it holds the data sent, and is due one latency after it
      came, or after its own cycle where that is later. */
  lemma DataReturnsExactly(c: Config, s: State, p: Packet, now: nat) returns (i: nat)
    requires Valid(c, s) && Slot(s.mshr.entry, p.address) < c.mshrSize
    ensures var t := Return(c, s, p, now);
            && FirstAt(s.mshr.entry, p.address, i) && i < |t.mshr.entry|
            && var e, r := s.mshr.entry[i], t.mshr.entry[i];
            && t.mshr.entry == s.mshr.entry[i := r] && t == s.(mshr := t.mshr)
            && r == e.(done := true, data := p.data, event := r.event)
            && Queued(c, e, now, e.(event := r.event))
  {
    i := Slot(s.mshr.entry, p.address);
    FirstAtExactly(s.mshr.entry, p.address);
    hide MshrOk, RowsRanked, QueueOk, KeyedOk, Slot, FirstMin.Find, FirstMin.Cycle;
  }
}
