/** Bits as numbers and increasing lists, shared by several machines. */
module Numbers {

  function Pow2(n: nat): (p: nat)
    ensures p > 0
  {
    if n == 0 then 1 else 2 * Pow2(n - 1)
  }

  /** Bits as a number, the lowest first. */
  function Number(b: seq<bool>): (n: nat)
    ensures n < Pow2(|b|)
  {
    if b == [] then 0 else (if b[0] then 1 else 0) + 2 * Number(b[1..])
  }

  ghost predicate Increasing(v: seq<nat>) { forall i, j :: 0 <= i < j < |v| ==> v[i] < v[j] }
}
