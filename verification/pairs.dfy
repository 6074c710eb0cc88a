/**
 The nested buy/sell scan shared by the profitable-trade enumerations: for
 every buy position `i` and every later sell position `j` (outer loop over
 `i`, inner loop over `j > i`), keep the pair when a filter on the two
 prices accepts it. The result is the list of kept index pairs in the order
 the nested loops visit them.
 */
module Pairs {

  type IndexPair = (nat, nat)

  /** `p` is visited before `q` by the nested loops. */
  predicate LexLess(p: IndexPair, q: IndexPair)
  {
    p.0 < q.0 || (p.0 == q.0 && p.1 < q.1)
  }

  /** `(i, j)` is a forward pair of positions in a sequence of length `n`. */
  predicate Forward(n: nat, i: nat, j: nat)
  {
    i < j < n
  }

  /** The scan has not yet reached `(i, j)` when it stands at `(a, b)`. */
  predicate NotBefore(a: nat, b: nat, i: nat, j: nat)
  {
    i > a || (i == a && j >= b)
  }

  predicate SortedLex(r: seq<IndexPair>)
  {
    forall k, l :: 0 <= k < l < |r| ==> LexLess(r[k], r[l])
  }

  /**
   The kept pairs from position `(a, b)` of the scan onwards: the rest of
   row `a` from sell position `b`, then every later row.
   */
  function ScanFrom(xs: seq<real>, keep: (real, real) -> bool, a: nat, b: nat): (r: seq<IndexPair>)
    requires a < b
    ensures forall k :: 0 <= k < |r| ==>
              Forward(|xs|, r[k].0, r[k].1) && NotBefore(a, b, r[k].0, r[k].1) && keep(xs[r[k].0], xs[r[k].1])
    ensures forall i: nat, j: nat :: Forward(|xs|, i, j) && NotBefore(a, b, i, j) && keep(xs[i], xs[j]) ==> (i, j) in r
    ensures SortedLex(r)
    decreases |xs| - a, |xs| - b
  {
    if a + 1 >= |xs| then []
    else if b >= |xs| then ScanFrom(xs, keep, a + 1, a + 2)
    else
      var rest := ScanFrom(xs, keep, a, b + 1);
      if keep(xs[a], xs[b]) then [(a, b)] + rest else rest
  }

  /** Every forward pair the filter accepts, in nested-loop order. */
  function KeptPairs(xs: seq<real>, keep: (real, real) -> bool): (r: seq<IndexPair>)
    ensures forall k :: 0 <= k < |r| ==> Forward(|xs|, r[k].0, r[k].1) && keep(xs[r[k].0], xs[r[k].1])
    ensures forall i: nat, j: nat :: Forward(|xs|, i, j) && keep(xs[i], xs[j]) ==> (i, j) in r
    ensures SortedLex(r)
    ensures |xs| < 2 ==> r == []
  {
    ScanFrom(xs, keep, 0, 1)
  }
}
