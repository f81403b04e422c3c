/**
 Handing out nights one at a time to whoever has the fewest: the fairness argument behind
 `_drop_stops` (`backend/src/jst_api/domain/revision.py`), stated on plain lists of levels.
 */
module Redistribution {

  function Sum(s: seq<nat>): nat {
    if s == [] then 0 else s[0] + Sum(s[1..])
  }

  /** The shortest stay; only meaningful for a non-empty list. */
  function Least(s: seq<nat>): (m: nat)
    requires s != []
    ensures m in s
    ensures forall i :: 0 <= i < |s| ==> m <= s[i]
  {
    if |s| == 1 then s[0] else
    var rest := Least(s[1..]);
    if s[0] <= rest then s[0] else rest
  }

  ghost predicate AtLeast(a: seq<nat>, b: seq<nat>) {
    |a| == |b| && forall i :: 0 <= i < |a| ==> a[i] >= b[i]
  }

  /** Whoever has been topped up is at most one above everybody. */
  ghost predicate Balanced(start: seq<nat>, now: seq<nat>) {
    && AtLeast(now, start)
    && forall i, j :: 0 <= i < |now| && 0 <= j < |now| && now[i] > start[i] ==> now[i] <= now[j] + 1
  }

  lemma {:induction false} SumUpdate(s: seq<nat>, p: nat, x: nat)
    requires p < |s|
    ensures Sum(s[p := x]) == Sum(s) - s[p] + x
  {
    if p == 0 {
      assert s[p := x][1..] == s[1..];
    } else {
      SumUpdate(s[1..], p - 1, x);
      assert s[p := x][1..] == s[1..][p - 1 := x];
    }
  }

  lemma TopUpKeepsBalance(start: seq<nat>, now: seq<nat>, p: nat)
    requires Balanced(start, now) && p < |now|
    requires forall j :: 0 <= j < |now| ==> now[p] <= now[j]
    ensures Balanced(start, now[p := now[p] + 1])
    ensures Sum(now[p := now[p] + 1]) == Sum(now) + 1
  {
    SumUpdate(now, p, now[p] + 1);
  }

  lemma {:induction false} PointwiseSum(a: seq<nat>, b: seq<nat>)
    requires AtLeast(a, b)
    ensures Sum(a) >= Sum(b)
    ensures (exists i :: 0 <= i < |a| && a[i] > b[i]) ==> Sum(a) > Sum(b)
  {
    if a != [] {
      PointwiseSum(a[1..], b[1..]);
      if i :| 0 <= i < |a| && a[i] > b[i] {
        if i > 0 {
          assert a[1..][i - 1] > b[1..][i - 1];
        }
      }
    }
  }

  /** Every level counted up to `t` only. */
  function CappedAt(s: seq<nat>, t: nat): seq<nat> {
    seq(|s|, i requires 0 <= i < |s| => if s[i] < t then s[i] else t)
  }

  /** What the levels have above `t`. */
  function Excess(s: seq<nat>, t: nat): seq<nat> {
    seq(|s|, i requires 0 <= i < |s| => if s[i] < t then 0 else s[i] - t)
  }

  lemma {:induction false} CapAndExcess(s: seq<nat>, t: nat)
    ensures Sum(CappedAt(s, t)) + Sum(Excess(s, t)) == Sum(s)
  {
    if s != [] {
      assert CappedAt(s, t)[1..] == CappedAt(s[1..], t) && Excess(s, t)[1..] == Excess(s[1..], t);
      CapAndExcess(s[1..], t);
    }
  }

  /** With every stay counted up to `t` only, no other way of handing out the same number of nights adds up to more. */
  lemma BalancedIsFairAtEveryLevel(start: seq<nat>, now: seq<nat>, other: seq<nat>, t: nat)
    requires Balanced(start, now)
    requires AtLeast(other, start) && Sum(other) == Sum(now)
    ensures Sum(CappedAt(other, t)) <= Sum(CappedAt(now, t))
  {
    if forall j :: 0 <= j < |now| ==> now[j] >= t {
      PointwiseSum(CappedAt(now, t), CappedAt(other, t));
    } else {
      var j :| 0 <= j < |now| && now[j] < t;
      forall i | 0 <= i < |now|
        ensures Excess(other, t)[i] >= Excess(now, t)[i]
      {
        assert now[i] > start[i] ==> now[i] <= now[j] + 1;
      }
      PointwiseSum(Excess(other, t), Excess(now, t));
      CapAndExcess(now, t);
      CapAndExcess(other, t);
    }
  }

  /** In particular none leaves a longer shortest stay. */
  lemma BalancedIsMaxMin(start: seq<nat>, now: seq<nat>, other: seq<nat>)
    requires start != [] && Balanced(start, now)
    requires AtLeast(other, start) && Sum(other) == Sum(now)
    ensures Least(other) <= Least(now)
  {
    var t := Least(other);
    var p :| 0 <= p < |now| && now[p] == Least(now);
    assert Least(now) < t ==> CappedAt(other, t)[p] > CappedAt(now, t)[p];
    PointwiseSum(CappedAt(other, t), CappedAt(now, t));
    BalancedIsFairAtEveryLevel(start, now, other, t);
  }
}
