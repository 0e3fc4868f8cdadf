/** The latency of a cache level: nothing is handled before its time. */
module CacheTiming {
  import opened FirstMin
  import opened CacheSet
  import opened CacheModel
  import opened CacheInvariant

  ghost predicate LateQueue(q: seq<Packet>, v: nat) { forall i :: 0 <= i < |q| ==> q[i].event >= v }

  ghost predicate LateData(entry: seq<Packet>, v: nat) {
    forall i :: 0 <= i < |entry| && entry[i].done ==> entry[i].event >= v
  }

  /** Nothing that waits is due before cycle v. */
  ghost predicate AllLate(s: State, v: nat) {
    LateQueue(s.rq, v) && LateQueue(s.wq, v) && LateQueue(s.pq, v) && LateData(s.mshr.entry, v)
  }

  /** A handler before cycle v, or something that arrives no more than one latency before it. */
  ghost predicate Early(c: Config, e: Event, v: nat) {
    match e
    case ReadArrives(p, now) => now + c.latency >= v
    case WriteArrives(p, now) => now + c.latency >= v
    case PrefetchArrives(p, now) => now + c.latency >= v
    case CommitArrives(p, now) => true
    case DataReturns(p, now) => now + c.latency >= v
    case Fills(now, _) => now < v
    case Writes(now, _) => now < v
    case Reads(now, _) => now < v
    case Prefetches(now, _) => now < v
    case Commits => true
    case Invalidated(_) => true
  }

  predicate Handles(e: Event) { e.Fills? || e.Writes? || e.Reads? || e.Prefetches? }

  lemma NoFillYet(c: Config, s: State, now: nat, full: bool, v: nat)
    requires Valid(c, s) && AllLate(s, v) && now < v && now < UINT64_MAX
    ensures HandleFill(c, s, now, full) == s
  {
    hide RowsRanked, QueueOk, KeyedOk;
    if s.mshr.nextCycle < UINT64_MAX { CandidateIsFirst(s.mshr); }
    hide Install, LruVictim, TimestampVictim, MshrOk;
  }

  lemma HandlerWaits(c: Config, s: State, e: Event, v: nat)
    requires Valid(c, s) && Enabled(c, s, e) && AllLate(s, v) && Early(c, e, v) && Handles(e)
    ensures Step(c, s, e) == s
  {
    hide MshrOk, RowsRanked, QueueOk, KeyedOk;
    if e.Fills? { NoFillYet(c, s, e.now, e.full, v); }
    hide HandleFill, Miss, MissStalls, Install, Hit, SpecHit, LateData;
  }

  lemma ArrivalIsLate(c: Config, s: State, e: Event, v: nat)
    requires Valid(c, s) && Enabled(c, s, e) && AllLate(s, v) && Early(c, e, v) && !Handles(e)
    ensures AllLate(Step(c, s, e), v)
  {
    hide MshrOk, RowsRanked, QueueOk, KeyedOk, Hit, SpecHit, LruVictim, SameKey, First, FirstMin.Find, FirstMin.Cycle;
  }

  /** Each handler in the run leaves everything as it is. */
  ghost predicate Idle(c: Config, s: State, es: seq<Event>)
    requires Shaped(c, s)
    decreases |es|
  {
    es == [] || (Enabled(c, s, es[0]) && (Handles(es[0]) ==> Step(c, s, es[0]) == s)
                 && Idle(c, Step(c, s, es[0]), es[1..]))
  }

  /** Over every run: as long as everything that waits or arrives is due at cycle v or later, one latency after it came,
      the handlers do nothing before cycle v. */
  lemma {:induction false} NothingIsHandledEarly(c: Config, s: State, es: seq<Event>, t: State, v: nat)
    requires Valid(c, s) && Reaches(c, s, es, t) && AllLate(s, v) && forall e :: e in es ==> Early(c, e, v)
    ensures Idle(c, s, es) && AllLate(t, v)
    decreases |es|
  {
    if es != [] {
      assert es[0] in es && forall e :: e in es[1..] ==> e in es;
      hide MshrOk, RowsRanked, QueueOk, KeyedOk, Step, Enabled, AllLate, Early;
      StepKeeps(c, s, es[0]);
      if Handles(es[0]) { HandlerWaits(c, s, es[0], v); } else { ArrivalIsLate(c, s, es[0], v); }
      NothingIsHandledEarly(c, Step(c, s, es[0]), es[1..], t, v);
    }
  }
}
