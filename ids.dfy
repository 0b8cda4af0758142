/**
 * The identifier supply. The application draws ids from a random generator
 * whose uniqueness is statistical; here the supply is a counter threaded
 * through every call, and the n-th id handed out is "c" followed by the
 * decimal text of n, so distinctness can be proved.
 */
module Ids {
  import opened Wrappers
  import Decimal

  /** The id the supply hands out when its counter stands at n. */
  function CreateId(n: nat): (id: string)
    ensures IdNumber(id) == Some(n)
  {
    Decimal.ParseDigitsOfDigits(n);
    assert ("c" + Decimal.Digits(n))[1..] == Decimal.Digits(n);
    "c" + Decimal.Digits(n)
  }

  /** The counter value an id would have been issued at, if it has the supply's form. */
  function IdNumber(id: string): Option<nat> {
    if |id| >= 1 && id[0] == 'c' then Decimal.ParseDigits(id[1..]) else None
  }

  /** Every id in ids that has the supply's form was issued before counter value next. */
  ghost predicate IssuedBelow(ids: seq<string>, next: nat) {
    forall id :: id in ids && IdNumber(id).Some? ==> IdNumber(id).value < next
  }

  /** The ids issued at counter values n, n+1, ..., n+k-1, in that order. */
  function IdRange(n: nat, k: nat): (r: seq<string>)
    ensures |r| == k
  {
    seq(k, i requires 0 <= i < k => CreateId(n + i))
  }

  predicate Distinct(s: seq<string>) {
    forall i, j :: 0 <= i < j < |s| ==> s[i] != s[j]
  }

  lemma IdRangeAt(n: nat, k: nat, i: nat)
    requires i < k
    ensures IdRange(n, k)[i] == CreateId(n + i)
  {
  }

  /** Two consecutive runs of ids make one run. */
  lemma IdRangeAppend(n: nat, a: nat, b: nat)
    ensures IdRange(n, a) + IdRange(n + a, b) == IdRange(n, a + b)
  {
    var joined := IdRange(n, a) + IdRange(n + a, b);
    forall i | 0 <= i < a + b
      ensures joined[i] == IdRange(n, a + b)[i]
    {
      if i >= a {
        assert joined[i] == IdRange(n + a, b)[i - a];
      }
    }
  }

  /** A run of ids from the supply has no repeats. */
  lemma IdRangeDistinct(n: nat, k: nat)
    ensures Distinct(IdRange(n, k))
  {
    forall i, j | 0 <= i < j < k
      ensures IdRange(n, k)[i] != IdRange(n, k)[j]
    {
      IdRangeAt(n, k, i);
      IdRangeAt(n, k, j);
    }
  }

  /** A run of ids from counter n on has been issued below n + k. */
  lemma IdRangeIssuedBelow(n: nat, k: nat)
    ensures IssuedBelow(IdRange(n, k), n + k)
  {
    forall id | id in IdRange(n, k) && IdNumber(id).Some?
      ensures IdNumber(id).value < n + k
    {
      var i :| 0 <= i < k && IdRange(n, k)[i] == id;
      IdRangeAt(n, k, i);
    }
  }

  /**
   * ids are the ids the supply hands out at counter values lo, lo+1, ...,
   * hi-1, one each and in that order.
   */
  predicate IssuedRun(ids: seq<string>, lo: nat, hi: nat)
    decreases |ids|
  {
    if ids == [] then lo == hi else ids[0] == CreateId(lo) && IssuedRun(ids[1..], lo + 1, hi)
  }

  lemma IssuedRunEmpty(n: nat)
    ensures IssuedRun([], n, n)
  {
  }

  lemma IssuedRunSingle(n: nat)
    ensures IssuedRun([CreateId(n)], n, n + 1)
  {
    assert [CreateId(n)][1..] == [];
  }

  /** Runs over the counter windows [lo, mid) and [mid, hi) joined give the run over [lo, hi). */
  lemma {:induction false} IssuedRunJoin(a: seq<string>, b: seq<string>, lo: nat, mid: nat, hi: nat)
    requires IssuedRun(a, lo, mid) && IssuedRun(b, mid, hi)
    ensures IssuedRun(a + b, lo, hi)
    decreases |a|
  {
    if a == [] {
      assert a + b == b;
    } else {
      var rest := a[1..] + b;
      assert a + b == [a[0]] + rest;
      IssuedRunJoin(a[1..], b, lo + 1, mid, hi);
      assert ([a[0]] + rest)[1..] == rest;
    }
  }

  /** A run over the window [lo, hi) is the id range of that window. */
  lemma {:induction false} IssuedRunIsRange(ids: seq<string>, lo: nat, hi: nat)
    requires IssuedRun(ids, lo, hi)
    ensures lo + |ids| == hi && ids == IdRange(lo, |ids|)
    decreases |ids|
  {
    if ids != [] {
      IssuedRunIsRange(ids[1..], lo + 1, hi);
      forall i | 0 <= i < |ids| ensures ids[i] == IdRange(lo, |ids|)[i] {
        if i > 0 {
          assert ids[i] == ids[1..][i - 1];
        }
      }
    }
  }

  /** The ids of a run have no repeats and were all issued below the run's end. */
  lemma IssuedRunDistinct(ids: seq<string>, lo: nat, hi: nat)
    requires IssuedRun(ids, lo, hi)
    ensures Distinct(ids) && IssuedBelow(ids, hi)
  {
    IssuedRunIsRange(ids, lo, hi);
    IdRangeDistinct(lo, |ids|);
    IdRangeIssuedBelow(lo, |ids|);
  }

  /** No id of a run from counter next on is among ids issued below next. */
  lemma IdRangeFresh(ids: seq<string>, next: nat, k: nat)
    requires IssuedBelow(ids, next)
    ensures forall id :: id in IdRange(next, k) ==> id !in ids
  {
    forall id | id in IdRange(next, k)
      ensures id !in ids
    {
      var i :| 0 <= i < k && IdRange(next, k)[i] == id;
      IdRangeAt(next, k, i);
    }
  }

  lemma IssuedBelowMonotonic(ids: seq<string>, next: nat, later: nat)
    requires IssuedBelow(ids, next) && next <= later
    ensures IssuedBelow(ids, later)
  {
  }
}
