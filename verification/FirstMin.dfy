/** The scan the simulator repeats everywhere: the lowest index of the smallest
    cycle below UINT64_MAX, or the length of the buffer when there is none. */
module FirstMin {

  const UINT64_MAX: nat := 0xFFFF_FFFF_FFFF_FFFF

  /** What the scan promises, independently of how it walks the buffer. */
  ghost predicate IsFirstMin(keys: seq<nat>, r: nat) {
    if r == |keys| then
      forall i :: 0 <= i < |keys| ==> keys[i] >= UINT64_MAX
    else
      && r < |keys|
      && keys[r] < UINT64_MAX
      && (forall i :: 0 <= i < |keys| ==> keys[r] <= keys[i])
      && (forall i :: 0 <= i < r ==> keys[r] < keys[i])
  }

  function Find(keys: seq<nat>): (r: nat)
    ensures r <= |keys|
  {
    if keys == [] then 0 else
    var n := |keys| - 1;
    var before := Find(keys[..n]);
    if keys[n] < (if before < n then keys[before] else UINT64_MAX) then n
    else if before < n then before
    else n + 1
  }

  /** The cycle stored beside the index: UINT64_MAX stands for "no candidate". */
  function Cycle(keys: seq<nat>): nat {
    var r := Find(keys);
    if r < |keys| then keys[r] else UINT64_MAX
  }

  lemma {:induction false} FindIsFirstMin(keys: seq<nat>)
    ensures IsFirstMin(keys, Find(keys))
  {
    if keys != [] {
      var n := |keys| - 1;
      FindIsFirstMin(keys[..n]);
      assert forall i :: 0 <= i < n ==> keys[i] == keys[..n][i];
    }
  }

  lemma Unique(keys: seq<nat>, r: nat)
    requires IsFirstMin(keys, r)
    ensures r == Find(keys)
  {
    FindIsFirstMin(keys);
  }

  /** The scan has passed keys[..i] and holds their first minimum. */
  predicate FoundSoFar(keys: seq<nat>, i: nat, minIndex: nat, minCycle: nat) {
    && i <= |keys|
    && (if minIndex == |keys| then minCycle == UINT64_MAX
        else minIndex < i && minCycle == keys[minIndex] < UINT64_MAX)
    && (forall k :: 0 <= k < i ==> minCycle <= keys[k] || keys[k] >= UINT64_MAX)
    && (forall k :: 0 <= k < minIndex && k < i ==> minCycle < keys[k] || keys[k] >= UINT64_MAX)
  }

  lemma FoundAll(keys: seq<nat>, minIndex: nat, minCycle: nat)
    requires FoundSoFar(keys, |keys|, minIndex, minCycle)
    ensures minIndex == Find(keys) && minCycle == Cycle(keys)
  {
    Unique(keys, minIndex);
  }
}
