/**
 Shared vocabulary for the market-analysis model: optional values and
 results, strictly increasing integer sequences, the sorted key list of a
 finite set of day ordinals, and calendar ranges of consecutive days.

 Dates are day ordinals (the proleptic Gregorian ordinal of a calendar
 date, so consecutive calendar days are consecutive integers).
 */
module Common {

  datatype Option<+T> = None | Some(value: T)

  /** The reasons an operation of the model can refuse its input. */
  datatype Error = WindowNotPositive

  datatype Result<+T> = Success(value: T) | Failure(error: Error)

  predicate StrictlyIncreasing(s: seq<int>)
  {
    forall i, j :: 0 <= i < j < |s| ==> s[i] < s[j]
  }

  /** Every element follows its predecessor by exactly one day. */
  predicate Consecutive(s: seq<int>)
  {
    forall i :: 0 <= i < |s| - 1 ==> s[i + 1] == s[i] + 1
  }

  lemma {:induction false} ConsecutiveIsIncreasing(s: seq<int>)
    requires Consecutive(s)
    ensures StrictlyIncreasing(s)
    ensures forall i :: 0 <= i < |s| ==> s[i] == s[0] + i
  {
    if |s| > 1 {
      ConsecutiveIsIncreasing(s[1..]);
      assert forall i :: 1 <= i < |s| ==> s[i] == s[1..][i - 1];
    }
  }

  lemma SetMinExists(s: set<int>)
    requires s != {}
    ensures exists m :: m in s && forall y :: y in s ==> m <= y
    decreases |s|
  {
    var x := NonEmptyWitness(s);
    if s == {x} {
      assert forall y :: y in s ==> x <= y;
    } else {
      var rest := s - {x};
      SetMinExists(rest);
      var m :| m in rest && forall y :: y in rest ==> m <= y;
      var least := if x < m then x else m;
      forall y | y in s
        ensures least <= y
      {
        if y != x {
          assert y in rest;
        }
      }
      assert least in s;
    }
  }

  lemma NonEmptyWitness(s: set<int>) returns (x: int)
    requires s != {}
    ensures x in s
  {
    if forall y :: y !in s {
      assert false;
    }
    x :| x in s;
  }

  /** The least element of a non-empty finite set of day ordinals. */
  function SetMin(s: set<int>): (m: int)
    requires s != {}
    ensures m in s
    ensures forall y :: y in s ==> m <= y
  {
    SetMinExists(s);
    var m :| m in s && forall y :: y in s ==> m <= y;
    m
  }

  /**
   The elements of `s` in ascending order, as Python's `sorted(d.keys())`
   yields the keys of a date-keyed dictionary.
   */
  function SortedKeys(s: set<int>): (r: seq<int>)
    ensures StrictlyIncreasing(r)
    ensures forall x :: x in r <==> x in s
    ensures |r| == |s|
    decreases |s|
  {
    if s == {} then []
    else
      var m := SetMin(s);
      var rest := SortedKeys(s - {m});
      assert forall i :: 0 <= i < |rest| ==> m < rest[i];
      [m] + rest
  }

  /** Every day from `first` to `last` inclusive, one day apart. */
  function Days(first: int, last: int): (r: seq<int>)
    ensures |r| == if first <= last then last - first + 1 else 0
    ensures |r| > 0 ==> r[0] == first && r[|r| - 1] == last
    ensures Consecutive(r)
    ensures forall d :: d in r <==> first <= d <= last
    decreases last - first
  {
    if first > last then [] else [first] + Days(first + 1, last)
  }

  /** Index of an element in a sequence. */
  lemma IndexOf(s: seq<int>, x: int) returns (i: nat)
    requires x in s
    ensures i < |s| && s[i] == x
  {
    i :| 0 <= i < |s| && s[i] == x;
  }
}
