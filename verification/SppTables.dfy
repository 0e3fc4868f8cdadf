/** Pattern table, global history register and lookahead loop as the prefetcher keeps them. */
module SppTables {
  import opened SppModel
  import opened SppLookahead

  const MAX_GHR_ENTRY: nat := 8
  const PAGE_SIZE: nat := 4096
  const BLOCK_SIZE: nat := 64
  const TWO64: nat := 0x1_0000_0000_0000_0000

  datatype History = History(valid: bool, sig: bv12, conf: nat, offset: nat, delta: int)

  /** The first valid entry with this offset, or the length. */
  function SameOffset(g: seq<History>, offset: nat): (i: nat)
    ensures i <= |g| && (i < |g| ==> g[i].valid && g[i].offset == offset)
    ensures forall j :: 0 <= j < i ==> !(g[j].valid && g[j].offset == offset)
  {
    if g == [] then 0 else if g[0].valid && g[0].offset == offset then 0 else 1 + SameOffset(g[1..], offset)
  }

  /** The first entry of the smallest confidence below 100 among the first n, or the length. */
  function LeastConf(g: seq<History>, n: nat): (w: nat)
    requires n <= |g|
    ensures w < n || w == |g|
  {
    if n == 0 then |g| else
    var w := LeastConf(g, n - 1);
    if g[n - 1].conf < (if w < |g| then g[w].conf else 100) then n - 1 else w
  }

  lemma {:induction false} LeastConfIsLeast(g: seq<History>, n: nat)
    requires n <= |g|
    ensures var w := LeastConf(g, n);
            if w < |g| then g[w].conf < 100 && (forall v :: 0 <= v < n ==> g[w].conf <= g[v].conf)
                            && (forall v :: 0 <= v < w ==> g[w].conf < g[v].conf)
            else forall v :: 0 <= v < n ==> g[v].conf >= 100
  {
    if n > 0 { LeastConfIsLeast(g, n - 1); }
  }

  ghost predicate Modest(g: seq<History>) { forall i :: 0 <= i < |g| ==> g[i].conf < 100 }

  /** The register after a prefetch that leaves the page. */
  function Recorded(g: seq<History>, sig: bv12, conf: nat, offset: nat, delta: int): seq<History> {
    var i := SameOffset(g, offset);
    if i < |g| then g[i := g[i].(sig := sig, conf := conf, delta := delta)] else
    var v := LeastConf(g, |g|);
    if v < |g| then g[v := History(true, sig, conf, offset, delta)] else g
  }

  /** Confidences below 100 leave a victim in the register, and stay below 100: its assert cannot fire. */
  lemma RecordedKeeps(g: seq<History>, sig: bv12, conf: nat, offset: nat, delta: int)
    requires Modest(g) && g != [] && conf < 100
    ensures LeastConf(g, |g|) < |g| && Modest(Recorded(g, sig, conf, offset, delta))
  {
    LeastConfIsLeast(g, |g|);
    assert g[0].conf < 100;
  }

  /** The block the candidate points at, in 64-bit arithmetic. */
  function Target(base: nat, delta: int): nat { (base / BLOCK_SIZE * BLOCK_SIZE + delta * BLOCK_SIZE) % TWO64 }

  /** The filter is asked about this block; conf decides how deep a prefetch fills. */
  datatype Ask = Ask(target: nat, conf: nat)

  predicate SamePage(address: nat, target: nat) { address / PAGE_SIZE == target / PAGE_SIZE }

  /** The candidates that stay in the page of the access, in order. */
  function Asks(address: nat, base: nat, cs: seq<Candidate>): seq<Ask> {
    if cs == [] then [] else
    var n := |cs| - 1;
    var target := Target(base, cs[n].delta);
    Asks(address, base, cs[..n]) + (if SamePage(address, target) then [Ask(target, cs[n].conf)] else [])
  }

  /** The history register once it remembers the ones that leave it. */
  function Noted(g: seq<History>, sig: bv12, address: nat, base: nat, cs: seq<Candidate>): seq<History> {
    if cs == [] then g else
    var n := |cs| - 1;
    var h, target := Noted(g, sig, address, base, cs[..n]), Target(base, cs[n].delta);
    if SamePage(address, target) then h else Recorded(h, sig, cs[n].conf, target / BLOCK_SIZE % 64, cs[n].delta)
  }

  /** What the rounds so far have done: where the path stands, what the filter was asked, what is remembered. */
  datatype Trail = Trail(base: nat, asked: seq<Ask>, ghr: seq<History>)

  /** The block the path goes on from after the round at l. */
  ghost function NextBase(p: Pattern, acc: nat, l: Look, base: nat): nat
    requires Shaped(p)
  {
    if p.cSig == 0 then base else
    var way := BestWay(p, acc, l.conf, l.depth, PT_WAY);
    if way < PT_WAY then (base + p.delta[way] * BLOCK_SIZE) % TWO64 else base
  }

  /** One round adds its candidates. */
  ghost function Extended(table: seq<Pattern>, hash: bv12 -> nat, acc: nat, address: nat, l: Look, t: Trail): Trail
    requires Usable(table, hash)
  {
    var found := RoundFound(table, hash, acc, l);
    Trail(NextBase(table[hash(l.sig)], acc, l, t.base), t.asked + Asks(address, t.base, found),
          Noted(t.ghr, l.sig, address, t.base, found))
  }

  /** The candidates of one round. */
  ghost function RoundFound(table: seq<Pattern>, hash: bv12 -> nat, acc: nat, l: Look): seq<Candidate>
    requires Usable(table, hash)
  {
    var p := table[hash(l.sig)];
    if p.cSig == 0 then [] else Passed(p, acc, l.conf, l.depth, PT_WAY)
  }

  /** After n rounds of the loop, from register g. */
  ghost function TrailAfter(table: seq<Pattern>, hash: bv12 -> nat, acc: nat, sig: bv12, address: nat, g: seq<History>,
                            n: nat): Trail
    requires Usable(table, hash)
  {
    if n == 0 then Trail(address, [], g) else
    var l, t := After(table, hash, acc, sig, n - 1), TrailAfter(table, hash, acc, sig, address, g, n - 1);
    if l.more then Extended(table, hash, acc, address, l, t) else t
  }

  class Prefetcher {
    const pt: array<Pattern>
    const ghr: array<History>

    ghost predicate Valid(hash: bv12 -> nat)
      reads pt, ghr
    {
      Usable(pt[..], hash) && ghr.Length == MAX_GHR_ENTRY
    }

    constructor (sets: nat)
      ensures fresh(pt) && fresh(ghr) && pt.Length == sets && forall i :: 0 <= i < sets ==> pt[i] == UNUSED
      ensures forall hash: bv12 -> nat :: InTable(hash, sets) ==> Valid(hash)
      ensures Modest(ghr[..])
    {
      pt := new Pattern[sets](_ => UNUSED);
      ghr := new History[MAX_GHR_ENTRY](_ => History(false, 0, 0, 0, 0));
      new;
      UnusedIsTrained();
    }

    /** update_pattern. */
    method UpdatePattern(hash: bv12 -> nat, at: nat, d: int)
      requires Valid(hash) && at < pt.Length && d != 0 && -64 < d < 64
      modifies pt
      ensures pt[..] == old(pt[..])[at := Update(old(pt[at]), d)] && Valid(hash)
    {
      assert Trained(pt[..][at]) && InPage(pt[..][at]);
      UpdateInPage(pt[at], d);
      Learn(at, d);
    }

    method Learn(at: nat, d: int)
      requires at < pt.Length && Trained(pt[at]) && d != 0
      modifies pt
      ensures pt[..] == old(pt[..])[at := Update(old(pt[at]), d)] && Trained(pt[at])
    {
      var p := pt[at];
      UpdateKeeps(p, d);
      VictimExists(p);
      hide Sum, Match, Least;
      var match_ := FindDelta(p.delta, d);
      if match_ < PT_WAY {
        p := p.(cDelta := p.cDelta[match_ := p.cDelta[match_] + 1]);
      } else {
        var victim := FindVictim(p.cDelta);
        p := p.(delta := p.delta[victim := d], cDelta := p.cDelta[victim := 0]);
      }
      p := p.(cSig := p.cSig + 1);
      if p.cSig > C_SIG_MAX {
        ghost var c := p.cDelta;
        for way := 0 to PT_WAY
          invariant |p.cDelta| == PT_WAY && p == p.(cDelta := p.cDelta)
          invariant forall w :: 0 <= w < PT_WAY ==> p.cDelta[w] == if w < way then c[w] / 2 else c[w]
          invariant p.delta == old(Update(pt[at], d)).delta && p.cSig == old(pt[at]).cSig + 1
        {
          p := p.(cDelta := p.cDelta[way := p.cDelta[way] / 2]);
        }
        assert p.cDelta == Halved(c);
        p := p.(cSig := p.cSig / 2);
      }
      pt[at] := p;
    }

    method FindVictim(c: seq<nat>) returns (victim: nat)
      ensures victim == Least(c, |c|)
    {
      victim := |c|;
      var minCounter := C_SIG_MAX;
      for w := 0 to |c|
        invariant victim == Least(c, w) && minCounter == if victim < |c| then c[victim] else C_SIG_MAX
      {
        if c[w] < minCounter { victim, minCounter := w, c[w]; }
      }
    }

    /** read_pattern: candidates go to the places from tail on; fits says whether all writes stay inside. */
    method ReadPattern(at: nat, acc: nat, conf: nat, depth: nat, queue: array<Candidate>, tail: nat)
      returns (fits: bool, lookaheadWay: nat, lookaheadConf: nat, nextDepth: nat, nextTail: nat)
      requires at < pt.Length && Shaped(pt[at]) && queue.Length == QUEUE_SIZE && tail <= QUEUE_SIZE
      modifies queue
      ensures fits <==> var p := pt[at];
                if p.cSig == 0 then tail < QUEUE_SIZE
                else tail + |Passed(p, acc, conf, depth, PT_WAY)| <= QUEUE_SIZE
      ensures fits ==> tail <= nextTail <= QUEUE_SIZE
      ensures fits ==>
                var p := pt[at];
                if p.cSig == 0 then
                  lookaheadWay == PT_WAY && lookaheadConf == conf && nextDepth == depth && nextTail == tail
                  && queue[..tail] == old(queue[..tail])
                else
                  && lookaheadWay == BestWay(p, acc, conf, depth, PT_WAY)
                  && lookaheadConf == BestConf(p, acc, conf, depth, PT_WAY)
                  && nextDepth == depth + (if lookaheadConf >= PF_THRESHOLD then 1 else 0)
                  && queue[..nextTail] == old(queue[..tail]) + Passed(p, acc, conf, depth, PT_WAY)
    {
      var p := pt[at];
      lookaheadWay, lookaheadConf, nextDepth, nextTail := PT_WAY, conf, depth, tail;
      if p.cSig == 0 {
        fits := tail < QUEUE_SIZE;
        if fits { queue[tail] := queue[tail].(conf := 0); }
        return;
      }
      hide Conf;
      var maxConf: nat := 0;
      for way := 0 to PT_WAY
        invariant lookaheadWay == BestWay(p, acc, conf, depth, way) && maxConf == BestConf(p, acc, conf, depth, way)
        invariant nextTail == tail + |Passed(p, acc, conf, depth, way)| <= QUEUE_SIZE
        invariant queue[..nextTail] == old(queue[..tail]) + Passed(p, acc, conf, depth, way)
      {
        PassedGrows(p, acc, conf, depth, way + 1, PT_WAY);
        var pfConf := Conf(p, way, acc, conf, depth);
        if pfConf >= PF_THRESHOLD {
          if nextTail == QUEUE_SIZE { return false, PT_WAY, conf, depth, tail; }
          ghost var before := queue[..nextTail];
          queue[nextTail] := Candidate(pfConf, p.delta[way]);
          if pfConf > maxConf { lookaheadWay, maxConf := way, pfConf; }
          nextTail := nextTail + 1;
          assert queue[..nextTail] == before + [Candidate(pfConf, p.delta[way])];
        }
      }
      fits, lookaheadConf := true, maxConf;
      if lookaheadConf >= PF_THRESHOLD { nextDepth := nextDepth + 1; }
    }

    /** GLOBAL_REGISTER::update_entry; its assert holds when a victim is found. */
    method UpdateEntry(sig: bv12, conf: nat, offset: nat, delta: int) returns (sane: bool)
      requires ghr.Length == MAX_GHR_ENTRY
      modifies ghr
      ensures ghr[..] == Recorded(old(ghr[..]), sig, conf, offset, delta)
      ensures sane <==>
                SameOffset(old(ghr[..]), offset) < MAX_GHR_ENTRY
                || LeastConf(old(ghr[..]), MAX_GHR_ENTRY) < MAX_GHR_ENTRY
      ensures old(Modest(ghr[..])) && conf < 100 ==> sane && Modest(ghr[..])
    {
      ghost var g := ghr[..];
      if Modest(g) && conf < 100 { RecordedKeeps(g, sig, conf, offset, delta); }
      hide Modest, SameOffset;
      var minConf, victim := 100, MAX_GHR_ENTRY;
      for i := 0 to MAX_GHR_ENTRY
        invariant ghr[..] == g && victim == LeastConf(g, i)
        invariant minConf == if victim < MAX_GHR_ENTRY then g[victim].conf else 100
        invariant forall j :: 0 <= j < i ==> !(g[j].valid && g[j].offset == offset)
      {
        if ghr[i].valid && ghr[i].offset == offset {
          ghr[i] := ghr[i].(sig := sig, conf := conf, delta := delta);
          assert ghr[..] == g[i := ghr[i]];
          return true;
        }
        if ghr[i].conf < minConf { minConf, victim := ghr[i].conf, i; }
      }
      sane := victim < MAX_GHR_ENTRY;
      if !sane { return; }
      ghr[victim] := History(true, sig, conf, offset, delta);
      assert ghr[..] == g[victim := ghr[victim]];
    }

    /** The lookahead loop. Whatever the accuracy it stops: with the candidates of the specified loop, each asked of the
        filter or remembered, at a write past the queues, or at the assert of the history register; up to accuracy 103
        it always is the first. */
    method Lookahead(hash: bv12 -> nat, start: bv12, acc: nat, address: nat)
      returns (outcome: Outcome, queue: array<Candidate>, tail: nat, asked: seq<Ask>, ghost rounds: nat)
      requires Valid(hash)
      modifies ghr
      ensures Valid(hash) && queue.Length == QUEUE_SIZE && tail <= QUEUE_SIZE
      ensures outcome.Done? ==>
                && var l := After(pt[..], hash, acc, start, rounds);
                !l.more && queue[..tail] == l.queue
                && var t := TrailAfter(pt[..], hash, acc, start, address, old(ghr[..]), rounds);
                asked == t.asked && ghr[..] == t.ghr
      ensures outcome.QueueOverrun? ==> !RoundFits(pt[..], hash, acc, After(pt[..], hash, acc, start, rounds))
      ensures acc <= 103 && old(Modest(ghr[..])) ==> outcome.Done? && tail <= 26 && Modest(ghr[..])
    {
      queue := new Candidate[QUEUE_SIZE](_ => Candidate(0, 0));
      queue[0] := Candidate(100, 0);
      hide After, TrailAfter, Modest, Usable, RoundFits;
      outcome, tail, asked, rounds := Walk(hash, start, acc, address, queue);
    }

    method Walk(hash: bv12 -> nat, start: bv12, acc: nat, address: nat, queue: array<Candidate>)
      returns (outcome: Outcome, tail: nat, asked: seq<Ask>, ghost rounds: nat)
      requires Valid(hash) && queue.Length == QUEUE_SIZE
      modifies ghr, queue
      ensures Valid(hash) && tail <= QUEUE_SIZE
      ensures outcome.Done? ==> var l := After(pt[..], hash, acc, start, rounds); !l.more && queue[..tail] == l.queue
      ensures outcome.Done? ==>
                var t := TrailAfter(pt[..], hash, acc, start, address, old(ghr[..]), rounds);
                asked == t.asked && ghr[..] == t.ghr
      ensures outcome.QueueOverrun? ==> !RoundFits(pt[..], hash, acc, After(pt[..], hash, acc, start, rounds))
      ensures acc <= 103 && old(Modest(ghr[..])) ==> outcome.Done? && tail <= 26 && Modest(ghr[..])
    {
      hide Round, After, TrailAfter, Extended, Modest, Usable, RoundFits, Partial, At;
      var sig, base, conf: nat, depth: nat, doLookahead := start, address, 100, 0, true;
      tail, rounds, asked := 0, 0, [];
      ghost var modest := acc <= 103 && Modest(ghr[..]);
      ghost var table, g := pt[..], ghr[..];
      FirstRound(table, hash, acc, start, address, g);
      assert queue[..tail] == [];
      while doLookahead
        invariant pt[..] == table && Usable(table, hash) && ghr.Length == MAX_GHR_ENTRY
        invariant tail <= QUEUE_SIZE
        invariant At(After(table, hash, acc, start, rounds), sig, conf, depth, queue[..tail], doLookahead)
        invariant Trail(base, asked, ghr[..]) == TrailAfter(table, hash, acc, start, address, g, rounds)
        invariant modest ==> Modest(ghr[..])
        decreases QUEUE_SIZE - tail, doLookahead
      {
        outcome, sig, base, conf, depth, tail, doLookahead, asked :=
          Turn(hash, start, acc, address, sig, base, conf, depth, queue, tail, asked, g, rounds);
        if !outcome.Done? { return; }
        rounds := rounds + 1;
      }
      ghost var l := After(table, hash, acc, start, rounds);
      AtEnd(l, sig, conf, depth, queue[..tail], doLookahead);
      if modest { FewPlaces(table, hash, acc, start, rounds); }
      outcome := Done;
    }

    /** From round n to round n + 1. */
    method Turn(hash: bv12 -> nat, start: bv12, acc: nat, address: nat, sig: bv12, base: nat, conf: nat, depth: nat,
                queue: array<Candidate>, tail: nat, asked: seq<Ask>, ghost g: seq<History>, ghost n: nat)
      returns (outcome: Outcome, sig': bv12, base': nat, conf': nat, depth': nat, tail': nat, again: bool,
               asked': seq<Ask>)
      requires Valid(hash) && queue.Length == QUEUE_SIZE && tail <= QUEUE_SIZE
      requires At(After(pt[..], hash, acc, start, n), sig, conf, depth, queue[..tail], true)
      requires Trail(base, asked, ghr[..]) == TrailAfter(pt[..], hash, acc, start, address, g, n)
      modifies ghr, queue
      ensures Valid(hash) && tail' <= QUEUE_SIZE
      ensures outcome.QueueOverrun? ==> !RoundFits(pt[..], hash, acc, After(pt[..], hash, acc, start, n))
      ensures outcome.Done? ==>
                && At(After(pt[..], hash, acc, start, n + 1), sig', conf', depth', queue[..tail'], again)
                && Trail(base', asked', ghr[..]) == TrailAfter(pt[..], hash, acc, start, address, g, n + 1)
                && tail <= tail' && (again ==> tail < tail')
      ensures acc <= 103 && old(Modest(ghr[..])) ==> outcome.Done? && Modest(ghr[..])
    {
      hide Round, After, TrailAfter, Extended, Modest, Usable, RoundFits, Partial, At;
      ghost var l := After(pt[..], hash, acc, start, n);
      AtEnd(l, sig, conf, depth, queue[..tail], true);
      NextRound(pt[..], hash, acc, start, n);
      NextTrail(pt[..], hash, acc, start, address, g, n);
      outcome, sig', base', conf', depth', tail', again, asked' :=
        OneRound(hash, acc, address, sig, base, conf, depth, queue, tail, asked, l);
    }

    /** The body of the do-while. */
    method OneRound(hash: bv12 -> nat, acc: nat, address: nat, sig: bv12, base: nat, conf: nat, depth: nat,
                    queue: array<Candidate>, tail: nat, asked: seq<Ask>, ghost l: Look)
      returns (outcome: Outcome, sig': bv12, base': nat, conf': nat, depth': nat, tail': nat, again: bool,
               asked': seq<Ask>)
      requires Valid(hash) && queue.Length == QUEUE_SIZE && tail <= QUEUE_SIZE && l.more
      requires At(l, sig, conf, depth, queue[..tail], true)
      modifies ghr, queue
      ensures Valid(hash) && tail' <= QUEUE_SIZE
      ensures outcome.QueueOverrun? <==> !RoundFits(pt[..], hash, acc, l)
      ensures outcome.Done? ==>
                && At(Round(pt[..], hash, acc, l), sig', conf', depth', queue[..tail'], again)
                && tail <= tail' && (again ==> tail < tail')
      ensures outcome.Done? ==>
                Trail(base', asked', ghr[..])
                == Extended(pt[..], hash, acc, address, l, Trail(base, asked, old(ghr[..])))
      ensures old(Modest(ghr[..])) && Partial(Round(pt[..], hash, acc, l).queue) ==>
                !outcome.NoVictim? && Modest(ghr[..])
    {
      SetOf(pt[..], hash, sig);
      var p := pt[hash(sig)];
      ghost var table, g := pt[..], ghr[..];
      assert p == table[hash(sig)];
      hide Passed, BestConf, BestWay, Conf, NextSig, Modest, Trained, InPage, Asks, Noted, Extended;
      hide RoundFound, NextBase;
      sig', base', tail', again, asked' := sig, base, tail, false, asked;
      var fits, way, nextConf, nextDepth, nextTail := ReadPattern(hash(sig), acc, conf, depth, queue, tail);
      conf', depth' := nextConf, nextDepth;
      if !fits { outcome := QueueOverrun; return; }
      var sane, more := IssueCandidates(sig, base, address, queue, tail, nextTail);
      if !sane { outcome := NoVictim; return; }
      ghost var found := queue[tail..nextTail];
      assert found == queue[..nextTail][tail..];
      asked' := asked + more;
      outcome, again, tail' := Done, tail < nextTail, nextTail;
      if way < PT_WAY {
        InPageAt(p, way);
        base' := (base + p.delta[way] * BLOCK_SIZE) % TWO64;
        sig' := NextSig(sig, p.delta[way]);
      }
      RoundExtends(table, hash, acc, address, l, Trail(base, asked, g), found, way, base');
    }

    /** Candidates in the page of the access are put to the filter, those that leave it into the history register. */
    method IssueCandidates(sig: bv12, base: nat, address: nat, queue: array<Candidate>, head: nat, tail: nat)
      returns (sane: bool, asked: seq<Ask>)
      requires ghr.Length == MAX_GHR_ENTRY && head <= tail <= queue.Length
      modifies ghr
      ensures sane ==>
                && asked == Asks(address, base, queue[head..tail])
                && ghr[..] == Noted(old(ghr[..]), sig, address, base, queue[head..tail])
      ensures old(Modest(ghr[..])) && Partial(queue[..tail]) ==> sane && Modest(ghr[..])
    {
      hide Modest, Recorded;
      asked := [];
      ghost var modest := Modest(ghr[..]) && Partial(queue[..tail]);
      for i := head to tail
        invariant modest ==> Modest(ghr[..])
        invariant asked == Asks(address, base, queue[head..i])
        invariant ghr[..] == Noted(old(ghr[..]), sig, address, base, queue[head..i])
      {
        assert queue[..tail][i] == queue[i];
        assert queue[head..i + 1][..i - head] == queue[head..i];
        var target := Target(base, queue[i].delta);
        if SamePage(address, target) {
          asked := asked + [Ask(target, queue[i].conf)];
        } else {
          sane := UpdateEntry(sig, queue[i].conf, target / BLOCK_SIZE % 64, queue[i].delta);
          if !sane { return; }
        }
      }
      sane := true;
    }
  }

  /** The variables of the loop stand for this point of the path. */
  ghost predicate At(l: Look, sig: bv12, conf: nat, depth: nat, queue: seq<Candidate>, more: bool) {
    l.queue == queue && l.more == more && (more ==> l.sig == sig && l.conf == conf && l.depth == depth)
  }

  lemma AtEnd(l: Look, sig: bv12, conf: nat, depth: nat, queue: seq<Candidate>, more: bool)
    requires At(l, sig, conf, depth, queue, more)
    ensures l.queue == queue && l.more == more
  {
  }

  /** No candidate is certain. */
  ghost predicate Partial(cs: seq<Candidate>) { forall i :: 0 <= i < |cs| ==> cs[i].conf < 100 }

  lemma FewPlaces(table: seq<Pattern>, hash: bv12 -> nat, acc: nat, sig: bv12, n: nat)
    requires Usable(table, hash) && acc <= 103
    ensures var l := After(table, hash, acc, sig, n); |l.queue| <= 26 && Partial(l.queue)
  {
    PlacesAreLimited(table, hash, acc, sig, n);
  }

  lemma FirstRound(table: seq<Pattern>, hash: bv12 -> nat, acc: nat, sig: bv12, address: nat, g: seq<History>)
    requires Usable(table, hash)
    ensures At(After(table, hash, acc, sig, 0), sig, 100, 0, [], true)
    ensures TrailAfter(table, hash, acc, sig, address, g, 0) == Trail(address, [], g)
  {
  }

  lemma SetOf(table: seq<Pattern>, hash: bv12 -> nat, sig: bv12)
    requires Usable(table, hash)
    ensures hash(sig) < |table| && Trained(table[hash(sig)]) && InPage(table[hash(sig)])
  {
  }

  lemma RoundExtends(table: seq<Pattern>, hash: bv12 -> nat, acc: nat, address: nat, l: Look, t: Trail,
                     found: seq<Candidate>, way: nat, base: nat)
    requires Usable(table, hash)
    requires var p := table[hash(l.sig)];
             if p.cSig == 0 then found == [] && way == PT_WAY
             else found == Passed(p, acc, l.conf, l.depth, PT_WAY) && way == BestWay(p, acc, l.conf, l.depth, PT_WAY)
    requires base == if way < PT_WAY then (t.base + table[hash(l.sig)].delta[way] * BLOCK_SIZE) % TWO64 else t.base
    ensures Extended(table, hash, acc, address, l, t)
         == Trail(base, t.asked + Asks(address, t.base, found), Noted(t.ghr, l.sig, address, t.base, found))
  {
    hide Asks, Noted, Passed, BestWay;
  }

  lemma NextTrail(table: seq<Pattern>, hash: bv12 -> nat, acc: nat, sig: bv12, address: nat, g: seq<History>, n: nat)
    requires Usable(table, hash) && After(table, hash, acc, sig, n).more
    ensures TrailAfter(table, hash, acc, sig, address, g, n + 1)
         == Extended(table, hash, acc, address, After(table, hash, acc, sig, n),
                     TrailAfter(table, hash, acc, sig, address, g, n))
  {
  }

  lemma NextRound(table: seq<Pattern>, hash: bv12 -> nat, acc: nat, sig: bv12, n: nat)
    requires Usable(table, hash) && After(table, hash, acc, sig, n).more
    ensures After(table, hash, acc, sig, n + 1) == Round(table, hash, acc, After(table, hash, acc, sig, n))
    ensures acc <= 103 ==>
              Partial(After(table, hash, acc, sig, n + 1).queue)
              && RoundFits(table, hash, acc, After(table, hash, acc, sig, n))
  {
    if acc <= 103 {
      FewPlaces(table, hash, acc, sig, n);
      FewPlaces(table, hash, acc, sig, n + 1);
    }
  }

  /** How the lookahead of one access ends. */
  datatype Outcome = Done | QueueOverrun | NoVictim

  /** No write of this round leaves the queues; an untrained set is noted in the place after the last. */
  ghost predicate RoundFits(table: seq<Pattern>, hash: bv12 -> nat, acc: nat, l: Look)
    requires Usable(table, hash)
  {
    if table[hash(l.sig)].cSig == 0 then |l.queue| < QUEUE_SIZE else |Round(table, hash, acc, l).queue| <= QUEUE_SIZE
  }

  lemma UpdateInPage(p: Pattern, d: int)
    requires Trained(p) && InPage(p) && -64 < d < 64
    ensures InPage(Update(p, d))
  {
    hide Sum, Least, Match;
  }

  lemma InPageAt(p: Pattern, w: nat)
    requires InPage(p) && w < |p.delta|
    ensures -64 < p.delta[w] < 64
  {
  }

  lemma {:induction false} PassedGrows(p: Pattern, acc: nat, conf: nat, depth: nat, n: nat, m: nat)
    requires Shaped(p) && n <= m <= PT_WAY && p.cSig > 0
    ensures |Passed(p, acc, conf, depth, n)| <= |Passed(p, acc, conf, depth, m)|
  {
    hide Conf;
    if n < m { PassedGrows(p, acc, conf, depth, n, m - 1); }
  }
}
