/** One cache level as the simulator keeps it: sets, registers and rings updated in place.
    Every method is tied to its function in CacheModel; where the code asserts, the assertion is proved. */
module CacheLevel {
  import opened FirstMin
  import opened CacheSet
  import opened LruOrder
  import opened CacheModel
  import opened CacheInvariant
  import opened PacketRing

  /** The requests waiting in the four queues. */
  datatype Lines = Lines(rq: seq<Packet>, wq: seq<Packet>, pq: seq<Packet>, cq: seq<Packet>)

  class RequestQueues {
    const c: Config
    const rq: Ring
    const wq: Ring
    const pq: Ring
    const cq: Ring

    ghost function Repr(): set<object> { {rq, wq, pq, cq, rq.entry, wq.entry, pq.entry, cq.entry} }

    ghost predicate Apart() {
      && rq != wq && rq != pq && rq != cq && wq != pq && wq != cq && pq != cq
      && rq.entry != wq.entry && rq.entry != pq.entry && rq.entry != cq.entry
      && wq.entry != pq.entry && wq.entry != cq.entry && pq.entry != cq.entry
      && rq.entry.Length == c.rqSize && wq.entry.Length == c.wqSize
      && pq.entry.Length == c.pqSize && cq.entry.Length == c.cqSize
    }

    ghost predicate Valid()
      reads Repr()
    {
      Apart() && rq.Valid() && wq.Valid() && pq.Valid() && cq.Valid()
    }

    ghost function Waiting(): Lines
      reads Repr()
    {
      Lines(rq.contents, wq.contents, pq.contents, cq.contents)
    }

    constructor (c: Config)
      requires c.rqSize > 0 && c.wqSize > 0 && c.pqSize > 0 && c.cqSize > 0
      ensures Valid() && this.c == c && fresh(Repr()) && Waiting() == Lines([], [], [], [])
    {
      this.c := c;
      rq := new Ring(c.rqSize);
      wq := new Ring(c.wqSize);
      pq := new Ring(c.pqSize);
      cq := new Ring(c.cqSize);
      new;
      hide Ring.Valid;
    }

    method PopRead()
      requires Valid() && rq.contents != []
      modifies rq, rq.entry
      ensures Valid() && Waiting() == old(Waiting()).(rq := old(rq.contents)[1..])
    {
      hide Ring.Valid;
      rq.Pop();
    }

    method PopWrite()
      requires Valid() && wq.contents != []
      modifies wq, wq.entry
      ensures Valid() && Waiting() == old(Waiting()).(wq := old(wq.contents)[1..])
    {
      hide Ring.Valid;
      wq.Pop();
    }

    method PopPrefetch()
      requires Valid() && pq.contents != []
      modifies pq, pq.entry
      ensures Valid() && Waiting() == old(Waiting()).(pq := old(pq.contents)[1..])
    {
      hide Ring.Valid;
      pq.Pop();
    }

    method PopCommit()
      requires Valid() && cq.contents != []
      modifies cq, cq.entry
      ensures Valid() && Waiting() == old(Waiting()).(cq := old(cq.contents)[1..])
    {
      hide Ring.Valid;
      cq.Pop();
    }

    /** The oldest waiting write of the line answers a read or prefetch at once. */
    method ForwardWrite(p: Packet) returns (found: bool, r: Packet)
      requires Valid()
      ensures var i := First(SameKey(c, wq.contents, p));
              found == (i < |wq.contents|)
              && r == if found && p.fillLevel < c.fillLevel then p.(data := wq.contents[i].data) else p
    {
      SameIsKey(c, wq.contents, p);
      hide First, Ring.Valid;
      r := p;
      var index := wq.CheckQueue(c.level.L1D?, p);
      found := index != -1;
      if found && p.fillLevel < c.fillLevel {
        var newest := wq.Peek(index, First(SameKey(c, wq.contents, p)));
        r := p.(data := newest.data);
      }
    }

    /** The read merges with one waiting for the same line, takes the tail, or is refused. */
    method QueueRead(p: Packet, now: nat) returns (index: int)
      requires Valid()
      modifies rq, rq.entry
      ensures Valid()
      ensures var q, i := old(rq.contents), Slot(old(rq.contents), p.address);
              Waiting() == old(Waiting()).(rq := JoinRq(c, q, p, now))
              && index == (if i < |q| then Place(old(rq.head), i, rq.entry.Length)
                           else if |q| >= c.rqSize then -2 else -1)
    {
      ghost var i := Slot(rq.contents, p.address);
      SameIsAt(rq.contents, p);
      rq.FitsIn();
      hide Ring.Valid, First;
      index := rq.CheckQueue(false, p);
      if index != -1 {
        JoinRead(index, i, p);
        return;
      }
      var full := rq.IsFull();
      if full { return -2; }
      rq.Push(if p.event < now then p.(event := now + c.latency) else p.(event := p.event + c.latency));
      return -1;
    }

    method JoinRead(index: nat, ghost i: nat, p: Packet)
      requires rq.Valid() && i < |rq.contents| && index == Place(rq.head, i, rq.entry.Length)
      modifies rq, rq.entry
      ensures rq.Valid()
      ensures rq.contents == (var q := old(rq.contents);
                q[i := q[i].(waiters := q[i].waiters + (if p.kind == Rfo then {} else {p.slot}),
                             fillL1i := q[i].fillL1i || p.fillL1i, fillL1d := q[i].fillL1d || p.fillL1d)])
    {
      hide Ring.Valid;
      var e := rq.Peek(index, i);
      assert e.waiters + {} == e.waiters;
      if p.kind != Rfo { e := e.(waiters := e.waiters + {p.slot}); }
      rq.Rewrite(index, i, e.(fillL1i := e.fillL1i || p.fillL1i, fillL1d := e.fillL1d || p.fillL1d));
    }

    /** A write of a line that already waits adds nothing; add_wq asserts that any other finds room. */
    method QueueWrite(p: Packet, now: nat) returns (index: int)
      requires Valid() && (First(SameKey(c, wq.contents, p)) == |wq.contents| ==> |wq.contents| < c.wqSize)
      modifies wq, wq.entry
      ensures Valid()
      ensures var q, i := old(wq.contents), First(SameKey(c, old(wq.contents), p));
              Waiting() == old(Waiting()).(wq := if i < |q| then q else q + [Late(c, p, now)])
              && index == (if i < |q| then Place(old(wq.head), i, wq.entry.Length) else -1)
    {
      SameIsKey(c, wq.contents, p);
      hide Ring.Valid, First;
      index := wq.CheckQueue(c.level.L1D?, p);
      if index != -1 { return; }
      wq.Push(if p.event < now then p.(event := now + c.latency) else p.(event := p.event + c.latency));
      return -1;
    }

    /** A prefetch widens one that waits for the same line, takes the tail, or is refused. */
    method QueuePrefetch(p: Packet, now: nat) returns (index: int)
      requires Valid()
      modifies pq, pq.entry
      ensures Valid()
      ensures var q, i := old(pq.contents), Slot(old(pq.contents), p.address);
              Waiting() == old(Waiting()).(pq := JoinPq(c, q, p, now))
              && index == (if i < |q| then Place(old(pq.head), i, pq.entry.Length)
                           else if |q| >= c.pqSize then -2 else -1)
    {
      ghost var i := Slot(pq.contents, p.address);
      SameIsAt(pq.contents, p);
      pq.FitsIn();
      hide Ring.Valid, First;
      index := pq.CheckQueue(false, p);
      if index != -1 {
        JoinPrefetch(index, i, p);
        return;
      }
      var full := pq.IsFull();
      if full { return -2; }
      pq.Push(if p.event < now then p.(event := now + c.latency) else p.(event := p.event + c.latency));
      return -1;
    }

    method JoinPrefetch(index: nat, ghost i: nat, p: Packet)
      requires pq.Valid() && i < |pq.contents| && index == Place(pq.head, i, pq.entry.Length)
      modifies pq, pq.entry
      ensures pq.Valid() && pq.contents == old(pq.contents)[i := Wider(old(pq.contents)[i], p)]
    {
      hide Ring.Valid;
      var e := pq.Peek(index, i);
      if p.fillLevel < e.fillLevel { e := e.(fillLevel := p.fillLevel); }
      pq.Rewrite(index, i, e.(fillL1i := e.fillL1i || p.fillL1i, fillL1d := e.fillL1d || p.fillL1d));
    }

    /** A message for a line that already waits is dropped, as is one that finds the queue full. */
    method QueueCommit(p: Packet, now: nat) returns (index: int)
      requires Valid()
      modifies cq, cq.entry
      ensures Valid()
      ensures var q, i := old(cq.contents), First(SameKey(c, old(cq.contents), p));
              Waiting() == old(Waiting()).(cq := if i < |q| || |q| >= c.cqSize then q else q + [Late(c, p, now)])
              && index == (if i < |q| then Place(old(cq.head), i, cq.entry.Length)
                           else if |q| >= c.cqSize then -2 else -1)
    {
      SameIsKey(c, cq.contents, p);
      cq.FitsIn();
      hide Ring.Valid, First;
      index := cq.CheckQueue(c.level.L1D?, p);
      if index != -1 { return; }
      var full := cq.IsFull();
      if full { return -2; }
      cq.Push(if p.event < now then p.(event := now + c.latency) else p.(event := p.event + c.latency));
      return -1;
    }
  }

  class Cache {
    const c: Config
    const normal: array<seq<Block>>
    const spec: array<seq<Block>>
    const mshr: array<Packet>
    var mshrOccupancy: int
    var nextFillIndex: nat
    var nextFillCycle: nat
    const queues: RequestQueues
    var served: seq<Packet>
    var writebacks: seq<Line>
    var passed: seq<Packet>

    ghost function Repr(): set<object> { {this, normal, spec, mshr} + queues.Repr() }

    /** The arrays without the queues. */
    ghost predicate Built() {
      && Configured(c) && normal != spec
      && normal.Length == c.sets && spec.Length == c.specSets && mshr.Length == c.mshrSize
    }

    ghost predicate Wired()
      reads queues.Repr()
    {
      Built() && queues.c == c && mshr !in queues.Repr() && queues.Valid()
    }

    ghost function Registers(): Mshr
      reads this, mshr
    {
      Mshr(mshr[..], mshrOccupancy, nextFillIndex, nextFillCycle)
    }

    /** The level with these requests waiting. */
    ghost function With(q: Lines): State
      reads this, normal, spec, mshr
    {
      State(normal[..], spec[..], Registers(), q.rq, q.wq, q.pq, q.cq, served, writebacks, passed)
    }

    ghost function Value(): State
      reads Repr()
    {
      With(queues.Waiting())
    }

    constructor (c: Config)
      requires Configured(c) && c.rqSize > 0 && c.wqSize > 0 && c.pqSize > 0 && c.cqSize > 0
      ensures Wired() && this.c == c && fresh(Repr()) && Value() == Initial(c)
    {
      hide FreshRow, RequestQueues.Valid, Configured, Initial;
      this.c := c;
      queues := new RequestQueues(c);
      normal := new seq<Block>[c.sets](_ => FreshRow(c.ways));
      spec := new seq<Block>[c.specSets](_ => FreshRow(c.specWays));
      mshr := new Packet[c.mshrSize](_ => EMPTY);
      mshrOccupancy, nextFillIndex, nextFillCycle := 0, 0, UINT64_MAX;
      served, writebacks, passed := [], [], [];
      new;
      InitialIs(c, normal[..], spec[..], mshr[..]);
    }

    // ---------- searching ----------

    /** check_hit in a set of the normal array. */
    method CheckHit(row: seq<Block>, address: nat) returns (way: int)
      ensures way == if Hit(row, address) == |row| then -1 else Hit(row, address)
    {
      for w := 0 to |row|
        invariant forall v :: 0 <= v < w ==> !Matching(row, address)[v]
      {
        if row[w].valid && row[w].line.tag == address {
          FirstIs(Matching(row, address), w);
          return w;
        }
      }
      FirstIs(Matching(row, address), |row|);
      return -1;
    }

    /** check_hit in a set of the speculative array. */
    method CheckSpecHit(row: seq<Block>, address: nat, id: nat) returns (way: int)
      ensures way == if SpecHit(row, address, id) == |row| then -1 else SpecHit(row, address, id)
    {
      for w := 0 to |row|
        invariant forall v :: 0 <= v < w ==> !MatchingUpTo(row, address, id)[v]
      {
        if row[w].valid && row[w].line.tag == address && row[w].line.id <= id {
          FirstIs(MatchingUpTo(row, address, id), w);
          return w;
        }
      }
      FirstIs(MatchingUpTo(row, address, id), |row|);
      return -1;
    }

    method FindInvalid(row: seq<Block>) returns (way: nat)
      ensures way == First(Invalid(row))
    {
      for w := 0 to |row|
        invariant forall v :: 0 <= v < w ==> !Invalid(row)[v]
      {
        if !row[w].valid {
          FirstIs(Invalid(row), w);
          return w;
        }
      }
      FirstIs(Invalid(row), |row|);
      return |row|;
    }

    /** timestamp_victim; the number of ways when the fill must be refused. */
    method FindTimestampVictim(row: seq<Block>, id: nat) returns (way: nat)
      ensures way == TimestampVictim(row, id)
    {
      way := FindInvalid(row);
      if way == |row| {
        var maxTimestamp := id;
        for w := 0 to |row|
          invariant maxTimestamp == id && forall v :: 0 <= v < w ==> !Younger(row, id)[v]
        {
          if row[w].line.id > maxTimestamp {
            FirstIs(Younger(row, id), w);
            return w;
          }
        }
        FirstIs(Younger(row, id), |row|);
      }
    }

    /** lru_victim: the search always succeeds. */
    method FindLruVictim(row: seq<Block>) returns (way: nat)
      requires Ranked(row) && |row| > 0
      ensures way == LruVictim(row) < |row|
    {
      way := FindInvalid(row);
      if way == |row| {
        for w := 0 to |row|
          invariant forall v :: 0 <= v < w ==> !Oldest(row)[v]
        {
          if row[w].lru as int == |row| - 1 {
            FirstIs(Oldest(row), w);
            return w;
          }
        }
        FirstIs(Oldest(row), |row|);
        VictimExists(row);
        assert false;
      }
      VictimExists(row);
    }

    /** check_mshr, and with address 0 the search for a free register. */
    method CheckMshr(address: nat) returns (index: int)
      ensures index == if Slot(mshr[..], address) == mshr.Length then -1 else Slot(mshr[..], address)
    {
      ghost var at := At(mshr[..], address);
      for i := 0 to mshr.Length
        invariant forall j :: 0 <= j < i ==> !at[j]
      {
        if mshr[i].address == address {
          FirstIs(at, i);
          return i;
        }
      }
      FirstIs(at, mshr.Length);
      return -1;
    }

    // ---------- pieces ----------

    /** lru_update. */
    method LruUpdate(at: nat, way: nat)
      requires at < normal.Length && way < |normal[at]|
      modifies normal
      ensures normal[..] == old(normal[..])[at := Touch(old(normal[at]), way)]
    {
      var row := normal[at];
      ghost var before := row;
      for i := 0 to |row|
        invariant |row| == |before|
        invariant forall j :: 0 <= j < |row| ==>
                    row[j] == if j < i && before[j].lru < before[way].lru
                              then before[j].(lru := before[j].lru + 1) else before[j]
      {
        if row[i].lru < row[way].lru { row := row[i := row[i].(lru := row[i].lru + 1)]; }
      }
      row := row[way := row[way].(lru := 0)];
      assert row == Touch(before, way);
      normal[at] := row;
    }

    /** fill_cache into the normal or the speculative array. */
    method FillCache(rows: array<seq<Block>>, at: nat, way: nat, x: Line)
      requires at < rows.Length && way < |rows[at]|
      modifies rows
      ensures rows[..] == old(rows[..])[at := Put(old(rows[at]), way, x)]
    {
      var row := rows[at];
      rows[at] := row[way := Block(true, x, row[way].lru)];
    }

    method RemoveMshr(i: nat)
      requires i < mshr.Length
      modifies this`mshrOccupancy, mshr
      ensures Registers() == Remove(old(Registers()), i)
    {
      mshr[i] := EMPTY;
      mshrOccupancy := mshrOccupancy - 1;
      assert mshr[..] == old(mshr[..])[i := EMPTY];
    }

    method AddMshr(p: Packet)
      modifies this`mshrOccupancy, mshr
      ensures Registers() == Add(old(Registers()), p)
    {
      var i := CheckMshr(0);
      if i != -1 {
        mshr[i] := p;
        mshrOccupancy := mshrOccupancy + 1;
        assert mshr[..] == old(mshr[..])[i := p];
      }
    }

    method UpdateFillCycle()
      modifies this`nextFillIndex, this`nextFillCycle
      ensures Registers() == Refresh(old(Registers()))
    {
      var minCycle: nat, minIndex: nat := UINT64_MAX, mshr.Length;
      ghost var keys := DoneKeys(mshr[..]);
      for i := 0 to mshr.Length
        invariant FoundSoFar(keys, i, minIndex, minCycle)
      {
        if mshr[i].done && mshr[i].event < minCycle { minCycle, minIndex := mshr[i].event, i; }
      }
      FoundAll(keys, minIndex, minCycle);
      nextFillCycle, nextFillIndex := minCycle, minIndex;
    }

    /** Writes the victim back, takes its way and marks it most recent, unless the level below is full. */
    method InstallLine(p: Packet, dirty: bool, wqFull: bool, ghost q: Lines) returns (doFill: bool)
      requires Built() && Shaped(c, With(q)) && RowsRanked(normal[..])
      modifies this`writebacks, this`served, normal
      ensures doFill == !Blocked(c, old(With(q)), p, wqFull)
      ensures With(q) == if doFill then Install(c, old(With(q)), p, dirty) else old(With(q))
    {
      hide Ranked, Touch;
      var at := p.address % c.sets;
      var way := FindLruVictim(normal[at]);
      ghost var row := normal[at];
      doFill := true;
      if normal[at][way].line.dirty {
        if wqFull {
          doFill := false;
        } else {
          writebacks := writebacks + [normal[at][way].line];
        }
      }
      if doFill {
        assert writebacks == old(writebacks) + DirtyOf(row[way]);
        LruUpdate(at, way);
        FillCache(normal, at, way, LineOf(p, dirty));
        served := served + [p];
        assert normal[..] == old(normal[..])[at := Put(Touch(row, way), way, LineOf(p, dirty))];
      }
    }

    // ---------- handle_fill ----------

    method HandleFill(now: nat, wqFull: bool)
      requires Wired() && CacheInvariant.Valid(c, Value()) && now < UINT64_MAX
      modifies this, normal, spec, mshr
      ensures Wired() && Value() == CacheModel.HandleFill(c, old(Value()), now, wqFull)
              && CacheInvariant.Valid(c, Value())
    {
      ghost var q := queues.Waiting();
      FillKeeps(c, Value(), now, wqFull);
      hide RequestQueues.Valid, CacheInvariant.Valid, CacheModel.HandleFill;
      Fill(now, wqFull, q);
    }

    method Fill(now: nat, wqFull: bool, ghost q: Lines)
      requires Built() && CacheInvariant.Valid(c, With(q))
      modifies this, normal, spec, mshr
      ensures With(q) == CacheModel.HandleFill(c, old(With(q)), now, wqFull)
    {
      hide QueueOk, KeyedOk, RowsRanked, RegistersOk, Install, Blocked, Find, FirstMin.Cycle;
      assert nextFillIndex <= mshr.Length;
      if nextFillIndex == c.mshrSize || mshr[nextFillIndex].address == 0 { return; }
      if nextFillCycle <= now {
        var i := nextFillIndex;
        var e := mshr[i];
        if !e.speculative {
          var doFill := InstallLine(e, c.level.L1D? && e.kind == Rfo, wqFull, q);
          if doFill {
            RemoveMshr(i);
            UpdateFillCycle();
          }
        } else {
          SpeculativeFill(i, e, now, q);
        }
      }
    }

    method SpeculativeFill(i: nat, e: Packet, now: nat, ghost q: Lines)
      requires Built() && Shaped(c, With(q)) && i < mshr.Length && e == mshr[i]
      modifies this, spec, mshr
      ensures var s, at := old(With(q)), e.address % c.specSets;
              With(q) == if TimestampVictim(s.spec[at], e.id) < c.specWays
                         then s.(spec := s.spec[at := SpecFill(s.spec[at], LineOf(e, DirtyFill(c, e)))],
                                 mshr := Refresh(Remove(s.mshr, i)), served := s.served + [e])
                         else s.(mshr := Refresh(Add(Remove(s.mshr, i), e.(done := true, event := now))))
    {
      hide TimestampVictim, Find, FirstMin.Cycle;
      var at := e.address % c.specSets;
      var way := FindTimestampVictim(spec[at], e.id);
      if way < c.specWays {
        FillCache(spec, at, way, LineOf(e, c.level.L1D? && e.kind == Rfo));
        served := served + [e];
        RemoveMshr(i);
      } else {
        // every block of the set is as old or older: try again later
        var again := e.(event := now);
        RemoveMshr(i);
        AddMshr(again.(done := true));
      }
      UpdateFillCycle();
    }

    // ---------- misses ----------

    /** A miss of the packet in front: false when it must wait. */
    method HandleMiss(p: Packet, lowerFull: bool, kind: MergeKind, ghost q: Lines) returns (handled: bool)
      requires Built() && Shaped(c, With(q))
      modifies this`mshrOccupancy, mshr
      ensures handled == !MissStalls(c, old(With(q)), p, lowerFull)
      ensures With(q) == if handled then old(With(q)).(mshr := Miss(c, old(With(q)), p, MergeOf(kind)))
              else old(With(q))
    {
      hide Find, FirstMin.Cycle;
      var i := CheckMshr(p.address);
      handled := true;
      if i == -1 && mshrOccupancy < c.mshrSize {
        if lowerFull { handled := false; } else { AddMshr(p.(done := false)); }
      } else if i == -1 {
        handled := false;
      } else {
        var e := mshr[i];
        match kind {
          case ForRead =>
            if e.kind == Prefetch {
              mshr[i] := p.(done := e.done, event := e.event);
            } else {
              mshr[i] := Wider(e.(waiters := e.waiters + p.waiters + (if p.kind == Rfo then {} else {p.slot})), p);
            }
          case ForWrite =>
            if e.kind == Prefetch {
              mshr[i] := p.(done := e.done, event := e.event);
            } else {
              mshr[i] := Wider(e, p);
            }
          case ForPrefetch =>
            mshr[i] := Wider(e, p);
        }
        assert mshr[..] == old(mshr[..])[i := MergeOf(kind)(e, p)];
      }
    }

    // ---------- handle_writeback ----------

    method HandleWriteback(now: nat, wqFull: bool)
      requires Wired() && CacheInvariant.Valid(c, Value())
      modifies this, normal, mshr, queues.wq, queues.wq.entry
      ensures Wired() && Value() == CacheModel.HandleWriteback(c, old(Value()), now, wqFull)
              && CacheInvariant.Valid(c, Value())
    {
      ghost var q := queues.Waiting();
      WriteKeeps(c, Value(), now, wqFull);
      hide RequestQueues.Valid, CacheInvariant.Valid, CacheModel.HandleWriteback;
      var handled := WriteFront(now, wqFull, q);
      if handled { queues.PopWrite(); }
    }

    /** The write in front of the queue: done, or left waiting. */
    method WriteFront(now: nat, wqFull: bool, ghost q: Lines) returns (handled: bool)
      requires Built() && CacheInvariant.Valid(c, With(q)) && queues.wq.Valid() && queues.wq.contents == q.wq
      modifies this, normal, mshr
      ensures handled ==> q.wq != []
      ensures With(if handled then q.(wq := q.wq[1..]) else q)
              == CacheModel.HandleWriteback(c, old(With(q)), now, wqFull)
    {
      hide Ring.Valid, QueueOk, KeyedOk, MshrOk, RowsRanked, Hit, Install, Blocked, Miss, MissStalls, Touch;
      var empty := queues.wq.IsEmpty();
      if empty { return false; }
      var p := queues.wq.Head();
      if p.event > now { return false; }
      var at := p.address % c.sets;
      var row := normal[at];
      var way := CheckHit(row, p.address);
      if way != -1 {
        if p.kind != Writeback { LruUpdate(at, way); }
        normal[at] := MarkDirty(normal[at], way);
        served := served + [p];
        var touched := if p.kind == Writeback then row else Touch(row, way);
        assert normal[..] == old(normal[..])[at := MarkDirty(touched, way)];
        handled := true;
      } else if c.level.L1D? {
        handled := HandleMiss(p, false, ForWrite, q);
      } else {
        handled := InstallLine(p, true, wqFull, q);
      }
    }

    // ---------- handle_read ----------

    /** One round of handle_read. */
    method HandleRead(now: nat, lowerFull: bool) returns (handled: bool)
      requires Wired() && CacheInvariant.Valid(c, Value())
      modifies this, normal, mshr, queues.rq, queues.rq.entry
      ensures Wired() && Value() == CacheModel.HandleRead(c, old(Value()), now, lowerFull)
              && CacheInvariant.Valid(c, Value())
      ensures |queues.rq.contents| == |old(queues.rq.contents)| - (if handled then 1 else 0)
    {
      ghost var q := queues.Waiting();
      ReadKeeps(c, Value(), now, lowerFull);
      hide RequestQueues.Valid, CacheInvariant.Valid, CacheModel.HandleRead;
      handled := ReadFront(now, lowerFull, q);
      if handled { queues.PopRead(); }
    }

    method ReadFront(now: nat, lowerFull: bool, ghost q: Lines) returns (handled: bool)
      requires Built() && CacheInvariant.Valid(c, With(q)) && queues.rq.Valid() && queues.rq.contents == q.rq
      modifies this, normal, mshr
      ensures handled ==> q.rq != []
      ensures With(if handled then q.(rq := q.rq[1..]) else q) == CacheModel.HandleRead(c, old(With(q)), now, lowerFull)
    {
      hide Ring.Valid, QueueOk, KeyedOk, MshrOk, RowsRanked, Hit, SpecHit, Miss, MissStalls, Touch;
      var empty := queues.rq.IsEmpty();
      if empty { return false; }
      var p := queues.rq.Head();
      if p.event > now { return false; }
      var at := p.address % c.sets;
      var row := normal[at];
      var way := CheckHit(row, p.address);
      handled := true;
      if way != -1 {
        if p.kind != Writeback { LruUpdate(at, way); }
        assert normal[..] == old(normal[..])[at := if p.kind == Writeback then row else Touch(row, way)];
        served := served + [p];
      } else {
        way := CheckSpecHit(spec[p.address % c.specSets], p.address, p.id);
        if way != -1 {
          served := served + [p];
        } else {
          handled := HandleMiss(p, c.level.LLC? && lowerFull, ForRead, q);
        }
      }
    }

    // ---------- handle_prefetch ----------

    method HandlePrefetch(now: nat, lowerFull: bool)
      requires Wired() && CacheInvariant.Valid(c, Value())
      modifies this, normal, mshr, queues.pq, queues.pq.entry
      ensures Wired() && Value() == CacheModel.HandlePrefetch(c, old(Value()), now, lowerFull)
              && CacheInvariant.Valid(c, Value())
    {
      ghost var q := queues.Waiting();
      PrefetchKeeps(c, Value(), now, lowerFull);
      hide RequestQueues.Valid, CacheInvariant.Valid, CacheModel.HandlePrefetch;
      var handled := PrefetchFront(now, lowerFull, q);
      if handled { queues.PopPrefetch(); }
    }

    method PrefetchFront(now: nat, lowerFull: bool, ghost q: Lines) returns (handled: bool)
      requires Built() && CacheInvariant.Valid(c, With(q)) && queues.pq.Valid() && queues.pq.contents == q.pq
      modifies this, normal, mshr
      ensures handled ==> q.pq != []
      ensures With(if handled then q.(pq := q.pq[1..]) else q)
              == CacheModel.HandlePrefetch(c, old(With(q)), now, lowerFull)
    {
      hide Ring.Valid, QueueOk, KeyedOk, MshrOk, RowsRanked, Hit, Miss, Touch;
      var empty := queues.pq.IsEmpty();
      if empty { return false; }
      var p := queues.pq.Head();
      if p.event > now { return false; }
      var at := p.address % c.sets;
      var row := normal[at];
      var way := CheckHit(row, p.address);
      handled := true;
      if way != -1 {
        if p.kind != Writeback { LruUpdate(at, way); }
        assert normal[..] == old(normal[..])[at := if p.kind == Writeback then row else Touch(row, way)];
        served := served + [p];
      } else {
        var i := CheckMshr(p.address);
        // meant for a level further down: nothing to register here
        if i == -1 && mshrOccupancy < c.mshrSize && !lowerFull && p.fillLevel > c.fillLevel { return; }
        handled := HandleMiss(p, lowerFull, ForPrefetch, q);
      }
    }

    // ---------- return_data ----------

    method ReturnData(p: Packet, now: nat)
      requires Wired() && CacheInvariant.Valid(c, Value()) && Enabled(c, Value(), DataReturns(p, now))
      modifies this, mshr
      ensures Wired() && Value() == Return(c, old(Value()), p, now) && CacheInvariant.Valid(c, Value())
    {
      ghost var q := queues.Waiting();
      DataReturnKeeps(c, Value(), p, now);
      hide RequestQueues.Valid, CacheInvariant.Valid, Return;
      DataArrives(p, now, q);
    }

    method DataArrives(p: Packet, now: nat, ghost q: Lines)
      requires Built() && Shaped(c, With(q)) && Slot(mshr[..], p.address) < c.mshrSize
      modifies this, mshr
      ensures With(q) == Return(c, old(With(q)), p, now)
    {
      hide Find, FirstMin.Cycle;
      var i := CheckMshr(p.address);
      var e := mshr[i];
      e := e.(done := true, data := p.data);
      if e.event < now { e := e.(event := now + c.latency); } else { e := e.(event := e.event + c.latency); }
      mshr[i] := e;
      assert mshr[..] == old(mshr[..])[i := e];
      UpdateFillCycle();
    }

    // ---------- commit_blocks ----------

    method CommitBlocks()
      requires Wired() && CacheInvariant.Valid(c, Value())
      modifies this, normal, spec, queues.cq, queues.cq.entry
      ensures Wired() && Value() == CommitSome(c, old(Value()), COMMIT_WIDTH) && CacheInvariant.Valid(c, Value())
    {
      hide QueueOk, KeyedOk, MshrOk, RowsRanked, CommitOne, Ring.Valid;
      ghost var s := Value();
      var commitCounter: nat := 0;
      while commitCounter < COMMIT_WIDTH
        invariant Wired() && CacheInvariant.Valid(c, Value())
        invariant commitCounter <= COMMIT_WIDTH && Value() == CommitSome(c, s, commitCounter)
      {
        var empty := queues.cq.IsEmpty();
        if empty {
          NothingToCommit(c, s, commitCounter, COMMIT_WIDTH);
          break;
        }
        commitCounter := commitCounter + 1;
        CommitHead();
      }
    }

    method CommitHead()
      requires Wired() && CacheInvariant.Valid(c, Value()) && queues.cq.contents != []
      modifies this, normal, spec, queues.cq, queues.cq.entry
      ensures Wired() && Value() == CommitOne(c, old(Value())) && CacheInvariant.Valid(c, Value())
    {
      ghost var q := queues.Waiting();
      CommitKeeps(c, Value());
      hide Ring.Valid, CommitOne;
      var k := queues.cq.Head();
      assert k.speculative;
      CommitFront(k, q);
      queues.PopCommit();
    }

    method CommitFront(k: Packet, ghost q: Lines)
      requires Built() && CacheInvariant.Valid(c, With(q)) && q.cq != [] && k == q.cq[0]
      modifies this, normal, spec
      ensures With(q.(cq := q.cq[1..])) == CommitOne(c, old(With(q)))
    {
      hide QueueOk, KeyedOk, MshrOk, SpecHit, LruVictim, Ranked;
      var at := k.address % c.specSets;
      var row := spec[at];
      var way := CheckSpecHit(row, k.address, k.id);
      if way != -1 {
        if k.kind == CommitLoad {
          var target := k.address % c.sets;
          var targetWay := FindLruVictim(normal[target]);
          FillCache(normal, target, targetWay, row[way].line.(dirty := false));
        }
        spec[at] := row[way := row[way].(valid := false)];
        assert spec[..] == old(spec[..])[at := Drop(row, way)];
      }
      passed := passed + [k];
    }

    // ---------- arrivals ----------

    /** add_cq: the place it merged into, -2 when refused, -1 when queued. */
    method AddCommit(p: Packet, now: nat) returns (index: int)
      requires Wired() && CacheInvariant.Valid(c, Value()) && p.address != 0 && p.speculative
      modifies queues.cq, queues.cq.entry
      ensures Wired() && Value() == AddCq(c, old(Value()), p, now) && CacheInvariant.Valid(c, Value())
      ensures match CqOutcome(c, old(Value()), p)
              case Merged =>
                var i := First(SameKey(c, old(queues.cq.contents), p));
                index == Place(old(queues.cq.head), i, queues.cq.entry.Length)
              case Refused => index == -2
              case _ => index == -1
    {
      CommitArrivalKeeps(c, Value(), p, now);
      hide CacheInvariant.Valid, RequestQueues.Valid, First;
      index := queues.QueueCommit(p, now);
    }

    /** add_rq: answered from the write queue or queued (-1), merged (the place), or refused (-2). */
    method AddRead(p: Packet, now: nat) returns (index: int)
      requires Wired() && CacheInvariant.Valid(c, Value()) && p.address != 0
      modifies this`served, queues.rq, queues.rq.entry
      ensures Wired() && Value() == AddRq(c, old(Value()), p, now) && CacheInvariant.Valid(c, Value())
      ensures match RqOutcome(c, old(Value()), p)
              case Merged =>
                index == Place(old(queues.rq.head), Slot(old(queues.rq.contents), p.address), queues.rq.entry.Length)
              case Refused => index == -2
              case _ => index == -1
    {
      ReadArrivalKeeps(c, Value(), p, now);
      hide CacheInvariant.Valid, RequestQueues.Valid, First, JoinRq, SameKey, At, Late;
      var found, r := queues.ForwardWrite(p);
      if found {
        served := served + [r];
        return -1;
      }
      index := queues.QueueRead(p, now);
    }

    /** add_wq: the place it merged into, or -1. */
    method AddWrite(p: Packet, now: nat) returns (index: int)
      requires Wired() && CacheInvariant.Valid(c, Value()) && Enabled(c, Value(), WriteArrives(p, now))
      modifies queues.wq, queues.wq.entry
      ensures Wired() && Value() == AddWq(c, old(Value()), p, now) && CacheInvariant.Valid(c, Value())
      ensures var i := First(SameKey(c, old(queues.wq.contents), p));
              index == if i == |old(queues.wq.contents)| then -1
                       else Place(old(queues.wq.head), i, queues.wq.entry.Length)
    {
      WriteArrivalKeeps(c, Value(), p, now);
      hide CacheInvariant.Valid, RequestQueues.Valid, First;
      index := queues.QueueWrite(p, now);
    }

    /** add_pq: answered from the write queue or queued (-1), merged (the place), or refused (-2). */
    method AddPrefetch(p: Packet, now: nat) returns (index: int)
      requires Wired() && CacheInvariant.Valid(c, Value()) && p.address != 0
      modifies this`served, queues.pq, queues.pq.entry
      ensures Wired() && Value() == AddPq(c, old(Value()), p, now) && CacheInvariant.Valid(c, Value())
      ensures match PqOutcome(c, old(Value()), p)
              case Merged =>
                index == Place(old(queues.pq.head), Slot(old(queues.pq.contents), p.address), queues.pq.entry.Length)
              case Refused => index == -2
              case _ => index == -1
    {
      PrefetchArrivalKeeps(c, Value(), p, now);
      hide CacheInvariant.Valid, RequestQueues.Valid, First, JoinPq, SameKey, At, Late;
      var found, r := queues.ForwardWrite(p);
      if found {
        served := served + [r];
        return -1;
      }
      index := queues.QueuePrefetch(p, now);
    }

    /** invalidate_entry in the normal array: the way it found, or -1. */
    method InvalidateEntry(address: nat) returns (matchWay: int)
      requires Wired() && CacheInvariant.Valid(c, Value())
      modifies normal
      ensures Wired() && Value() == Invalidate(c, old(Value()), address) && CacheInvariant.Valid(c, Value())
      ensures var way := Hit(old(normal[..])[address % c.sets], address); matchWay == if way < c.ways then way else -1
    {
      InvalidateKeeps(c, Value(), address);
      hide CacheInvariant.MshrOk, QueueOk, KeyedOk, RowsRanked, RequestQueues.Valid, Hit;
      var at := address % c.sets;
      var row := normal[at];
      matchWay := CheckHit(row, address);
      if matchWay != -1 {
        normal[at] := row[matchWay := row[matchWay].(valid := false)];
        assert normal[..] == old(normal[..])[at := Drop(row, matchWay)];
      }
    }

    // ---------- operate ----------

    /** The rounds of handle_read in one cycle, and the read slots they leave. */
    method HandleReads(now: nat, lowerFull: nat -> bool, maxRead: nat) returns (readsAvailable: nat)
      requires Wired() && CacheInvariant.Valid(c, Value())
      modifies this, normal, mshr, queues.rq, queues.rq.entry
      ensures Wired() && Value() == ReadSome(c, old(Value()), now, lowerFull, maxRead)
              && CacheInvariant.Valid(c, Value())
      ensures readsAvailable == maxRead - (|old(queues.rq.contents)| - |queues.rq.contents|)
    {
      hide CacheModel.HandleRead, CacheInvariant.Valid, RequestQueues.Valid;
      ghost var s := Value();
      readsAvailable := maxRead;
      for i := 0 to maxRead
        invariant Wired() && CacheInvariant.Valid(c, Value()) && Shaped(c, s)
        invariant Value() == ReadSome(c, s, now, lowerFull, i)
        invariant maxRead - i <= readsAvailable == maxRead - (|s.rq| - |queues.rq.contents|)
      {
        var handled := HandleRead(now, lowerFull(i));
        if handled { readsAvailable := readsAvailable - 1; }
      }
    }

    method HandlePrefetches(now: nat, lowerFull: nat -> bool, readsAvailable: nat)
      requires Wired() && CacheInvariant.Valid(c, Value())
      modifies this, normal, mshr, queues.pq, queues.pq.entry
      ensures Wired() && Value() == PrefetchSome(c, old(Value()), now, lowerFull, readsAvailable)
      ensures CacheInvariant.Valid(c, Value())
    {
      hide CacheModel.HandlePrefetch, CacheInvariant.Valid, RequestQueues.Valid;
      ghost var s := Value();
      for i := 0 to readsAvailable
        invariant Wired() && CacheInvariant.Valid(c, Value()) && Shaped(c, s)
        invariant Value() == PrefetchSome(c, s, now, lowerFull, i)
      {
        HandlePrefetch(now, lowerFull(i));
      }
    }

    /** operate. */
    method Operate(now: nat, lower: Lower, maxRead: nat)
      requires Wired() && CacheInvariant.Valid(c, Value()) && now < UINT64_MAX
      modifies Repr()
      ensures Wired() && Value() == CacheModel.Operate(c, old(Value()), now, lower, maxRead)
      ensures CacheInvariant.Valid(c, Value())
    {
      hide CacheModel.HandleFill, CacheModel.HandleWriteback, ReadSome, PrefetchSome, CommitSome;
      hide QueueOk, KeyedOk, MshrOk, RowsRanked;
      HandleFill(now, lower.fillFull);
      HandleWriteback(now, lower.writeFull);
      var readsAvailable := HandleReads(now, lower.readFull, maxRead);
      CommitBlocks();
      if queues.pq.occupancy > 0 && readsAvailable > 0 {
        HandlePrefetches(now, lower.prefetchFull, readsAvailable);
      }
    }
  }

  lemma InitialIs(c: Config, normal: seq<seq<Block>>, spec: seq<seq<Block>>, mshr: seq<Packet>)
    requires Configured(c) && |normal| == c.sets && |spec| == c.specSets && |mshr| == c.mshrSize
    requires forall i :: 0 <= i < c.sets ==> normal[i] == FreshRow(c.ways)
    requires forall i :: 0 <= i < c.specSets ==> spec[i] == FreshRow(c.specWays)
    requires forall i :: 0 <= i < c.mshrSize ==> mshr[i] == EMPTY
    ensures Initial(c) == State(normal, spec, Mshr(mshr, 0, 0, UINT64_MAX), [], [], [], [], [], [], [])
  {
    hide FreshRow;
    assert normal == Initial(c).normal && spec == Initial(c).spec && mshr == Initial(c).mshr.entry;
  }

  datatype MergeKind = ForRead | ForWrite | ForPrefetch

  function MergeOf(kind: MergeKind): (Packet, Packet) -> Packet {
    match kind
    case ForRead => MergeRead
    case ForWrite => MergeWrite
    case ForPrefetch => Wider
  }

  lemma {:induction false} NothingToCommit(c: Config, s: State, n: nat, m: nat)
    requires Shaped(c, s) && n <= m && CommitSome(c, s, n).cq == []
    ensures CommitSome(c, s, m) == CommitSome(c, s, n)
  {
    hide CommitOne;
    if n < m {
      NothingToCommit(c, s, n, m - 1);
      assert CommitOne(c, CommitSome(c, s, m - 1)) == CommitSome(c, s, m - 1) by {
        EmptyCommit(c, CommitSome(c, s, m - 1));
      }
    }
  }

  lemma EmptyCommit(c: Config, s: State)
    requires Shaped(c, s) && s.cq == []
    ensures CommitOne(c, s) == s
  {
  }

  lemma SameIsKey(c: Config, q: seq<Packet>, p: Packet)
    ensures Same(c.level.L1D?, q, p) == SameKey(c, q, p)
  {
  }

  lemma SameIsAt(q: seq<Packet>, p: Packet)
    ensures Same(false, q, p) == At(q, p.address)
  {
  }
}
