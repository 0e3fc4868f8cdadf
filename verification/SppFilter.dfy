/** The prefetch filter read as a history: what it holds and counts follows from the accesses alone. */
module SppFilter {
  import opened SppAccuracy

  datatype Line = None | Some(remainder: nat)

  function Before(accesses: seq<Access>): seq<Access>
    requires accesses != []
  {
    accesses[..|accesses| - 1]
  }

  function Last(accesses: seq<Access>): Access
    requires accesses != []
  {
    accesses[|accesses| - 1]
  }

  /** The line in a slot: the one prefetched last, unless something was evicted from there since. A demand alone
      brings a line in only where nothing is, and only one with remainder 0. */
  function Resident(accesses: seq<Access>, q: Quotient): Line
    decreases |accesses|
  {
    if accesses == [] then None else
    var r := Resident(Before(accesses), q);
    match Last(accesses)
    case Prefetches(k) => if k.quotient == q then Some(k.remainder) else r
    case Evicts(e) => if e == q then None else r
    case Demands(k) => if k.quotient == q && r.None? && k.remainder == 0 then Some(0) else r
  }

  /** The line in the slot was prefetched and not demanded since. */
  predicate Waiting(accesses: seq<Access>, q: Quotient)
    decreases |accesses|
  {
    if accesses == [] then false else
    var r, w := Resident(Before(accesses), q), Waiting(Before(accesses), q);
    match Last(accesses)
    case Prefetches(k) => if k.quotient == q && r != Some(k.remainder) then true else w
    case Evicts(e) => e != q && w
    case Demands(k) => w && !(k.quotient == q && r == Some(k.remainder))
  }

  datatype Counts = Counts(issued: nat, useful: nat)

  /** Prefetches issued and prefetches used: a line that was already there is not issued again, only the first use
      counts, an eviction before the first use takes one use back, and past 1023 both are halved. */
  function Counted(accesses: seq<Access>): Counts
    decreases |accesses|
  {
    if accesses == [] then Counts(0, 0) else
    var before := Before(accesses);
    var c := Counted(before);
    match Last(accesses)
    case Prefetches(k) =>
      if Resident(before, k.quotient) == Some(k.remainder) then c
      else if c.issued == GLOBAL_COUNTER_MAX then Counts(512, c.useful / 2)
      else c.(issued := c.issued + 1)
    case Evicts(q) => if Waiting(before, q) && c.useful > 0 then c.(useful := c.useful - 1) else c
    case Demands(k) =>
      if Resident(before, k.quotient) == Some(k.remainder) && Waiting(before, k.quotient)
      then c.(useful := c.useful + 1) else c
  }

  /** The slot as the history describes it. */
  ghost predicate Agrees(s: Slot, line: Line, waiting: bool) {
    && (s.valid || s.useful <==> line.Some?) && (line.Some? ==> s.tag == line.remainder) && (line.None? ==> s.tag == 0)
    && (s.valid && !s.useful <==> waiting)
  }

  lemma {:induction false} SlotsAgree(accesses: seq<Access>, q: Quotient)
    ensures Agrees(Run(accesses).slot[q], Resident(accesses, q), Waiting(accesses, q))
    decreases |accesses|
  {
    if accesses != [] {
      SlotsAgree(Before(accesses), q);
      hide Waiting, Resident;
      SlotStep(accesses, q);
    }
  }

  lemma SlotStep(accesses: seq<Access>, q: Quotient)
    requires accesses != []
    requires var before := Before(accesses); Agrees(Run(before).slot[q], Resident(before, q), Waiting(before, q))
    ensures Agrees(Run(accesses).slot[q], Resident(accesses, q), Waiting(accesses, q))
  {
  }

  /** Over every run: a prefetch passes exactly when its line is not the one the history leaves in its slot. */
  lemma PassesExactly(accesses: seq<Access>, k: Key)
    ensures Passes(Run(accesses), k) <==> Resident(accesses, k.quotient) != Some(k.remainder)
  {
    SlotsAgree(accesses, k.quotient);
  }

  /** Over every run, halving included: the two counters behind the accuracy are those of the history. */
  lemma {:induction false} CountersAreHistory(accesses: seq<Access>)
    ensures Counts(Run(accesses).issued, Run(accesses).useful) == Counted(accesses) && Counted(accesses).issued <= 1023
    decreases |accesses|
  {
    if accesses != [] {
      var before, f := Before(accesses), Run(Before(accesses));
      CountersAreHistory(before);
      match Last(accesses) {
        case Prefetches(k) => SlotsAgree(before, k.quotient);
        case Evicts(q) => SlotsAgree(before, q);
        case Demands(k) => SlotsAgree(before, k.quotient);
      }
      hide Waiting, Resident;
    }
  }
}
