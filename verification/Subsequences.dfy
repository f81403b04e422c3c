/** Order-preserving sub-lists, and duplicate-free lists. */
module Subsequences {

  /** `xs` is what remains of `ys` after deleting some of its elements. */
  predicate IsSubseq<T(==)>(xs: seq<T>, ys: seq<T>) {
    xs == [] ||
    (ys != [] && if xs[0] == ys[0] then IsSubseq(xs[1..], ys[1..]) else IsSubseq(xs, ys[1..]))
  }

  ghost predicate Distinct<T>(s: seq<T>) {
    forall i, j :: 0 <= i < j < |s| ==> s[i] != s[j]
  }

  lemma {:induction false} SubseqDropHead<T>(xs: seq<T>, ys: seq<T>)
    requires xs != [] && IsSubseq(xs, ys)
    ensures IsSubseq(xs[1..], ys[1..])
    ensures IsSubseq(xs[1..], ys)
    decreases |ys|, 0
  {
    if xs[0] == ys[0] {
      if |xs| > 1 && xs[1] == ys[0] {
        SubseqDropHead(xs[1..], ys[1..]);
      }
    } else {
      SubseqDropHead(xs, ys[1..]);
      SubseqWiden(xs[1..], ys[1..], ys[0]);
      assert [ys[0]] + ys[1..] == ys;
    }
  }

  lemma {:induction false} SubseqWiden<T>(xs: seq<T>, ys: seq<T>, y: T)
    requires IsSubseq(xs, ys)
    ensures IsSubseq(xs, [y] + ys)
    decreases |ys|, 1
  {
    assert ([y] + ys)[1..] == ys;
    if xs != [] && xs[0] == y {
      SubseqDropHead(xs, ys);
    }
  }

  lemma {:induction false} SubseqSnoc<T>(xs: seq<T>, ys: seq<T>, z: T)
    requires IsSubseq(xs, ys)
    ensures IsSubseq(xs, ys + [z])
    ensures IsSubseq(xs + [z], ys + [z])
  {
    if ys != [] {
      assert (ys + [z])[1..] == ys[1..] + [z];
      if xs == [] {
        SubseqSnoc(xs, ys[1..], z);
      } else if xs[0] == ys[0] {
        SubseqSnoc(xs[1..], ys[1..], z);
        assert (xs + [z])[1..] == xs[1..] + [z];
      } else {
        SubseqSnoc(xs, ys[1..], z);
      }
    }
  }

  lemma {:induction false} SubseqMember<T>(xs: seq<T>, ys: seq<T>, x: T)
    requires IsSubseq(xs, ys) && x in xs
    ensures x in ys
  {
    if xs[0] == ys[0] {
      if x != xs[0] {
        SubseqMember(xs[1..], ys[1..], x);
      }
    } else {
      SubseqMember(xs, ys[1..], x);
    }
  }

  /** A duplicate-free list drawn from a set is no longer than the set. */
  lemma {:induction false} DistinctFits<T>(s: seq<T>, bound: set<T>)
    requires Distinct(s)
    requires forall x :: x in s ==> x in bound
    ensures |s| <= |bound|
    ensures |s| == |bound| ==> forall x :: x in bound ==> x in s
  {
    if s != [] {
      assert s[0] in s;
      forall x | x in s[1..]
        ensures x in bound - {s[0]}
      {
      }
      DistinctFits(s[1..], bound - {s[0]});
      assert |bound| == |bound - {s[0]}| + 1;
      if |s| == |bound| {
        forall x | x in bound
          ensures x in s
        {
          if x != s[0] {
            assert x in bound - {s[0]};
          }
        }
      }
    }
  }

  function AddNew<T(==)>(seen: seq<T>, x: T): seq<T> {
    if x in seen then seen else seen + [x]
  }

  /** The elements of both lists in order of first appearance, those of `seen` first. */
  function AddAll<T(==)>(seen: seq<T>, xs: seq<T>): seq<T> {
    if xs == [] then seen else AddNew(AddAll(seen, xs[..|xs| - 1]), xs[|xs| - 1])
  }

  lemma {:induction false} AddAllIsUnion<T>(seen: seq<T>, xs: seq<T>, x: T)
    ensures x in AddAll(seen, xs) <==> x in seen || x in xs
  {
    if xs != [] {
      AddAllIsUnion(seen, xs[..|xs| - 1], x);
      assert xs == xs[..|xs| - 1] + [xs[|xs| - 1]];
    }
  }

  lemma {:induction false} AddAllDistinct<T>(seen: seq<T>, xs: seq<T>)
    requires Distinct(seen)
    ensures Distinct(AddAll(seen, xs))
  {
    if xs != [] {
      AddAllDistinct(seen, xs[..|xs| - 1]);
    }
  }

  /** A list with a repeat has fewer distinct elements than entries. */
  lemma {:induction false} RepeatsShrink<T>(xs: seq<T>)
    ensures |AddAll([], xs)| <= |xs|
    ensures !Distinct(xs) ==> |AddAll([], xs)| < |xs|
  {
    if xs != [] {
      var before, x := xs[..|xs| - 1], xs[|xs| - 1];
      RepeatsShrink(before);
      AddAllIsUnion([], before, x);
      if Distinct(before) && !Distinct(xs) {
        var i :| 0 <= i < |before| && before[i] == x;
      }
    }
  }

  /** The first `k` elements, or all of them if there are fewer. */
  function Take<T>(s: seq<T>, k: nat): seq<T> {
    if |s| <= k then s else s[..k]
  }

  lemma TakeHolds<T>(s: seq<T>, k: nat, j: nat)
    requires j < |s|
    ensures j < k ==> s[j] in Take(s, k)
  {
    if j < k {
      assert Take(s, k)[j] == s[j];
    }
  }

  lemma SubsetSize<T>(a: set<T>, b: set<T>)
    requires a <= b
    ensures |a| <= |b|
  {
    assert b == a + (b - a);
  }

  function RemoveAt<T>(s: seq<T>, i: nat): seq<T>
    requires i < |s|
  {
    s[..i] + s[i + 1..]
  }

  lemma RemoveAtMultiset<T>(s: seq<T>, i: nat)
    requires i < |s|
    ensures multiset(s) == multiset(RemoveAt(s, i)) + multiset{s[i]}
  {
    assert s == s[..i] + [s[i]] + s[i + 1..];
  }

  function IndexIn<T(==)>(s: seq<T>, x: T): (i: nat)
    requires x in s
    ensures i < |s| && s[i] == x
  {
    if s[0] == x then 0 else 1 + IndexIn(s[1..], x)
  }

  function Map<A, B>(f: A -> B, s: seq<A>): (r: seq<B>)
    ensures |r| == |s|
  {
    seq(|s|, i requires 0 <= i < |s| => f(s[i]))
  }

  /** Mapping two arrangements of the same elements gives two arrangements of the same results. */
  lemma {:induction false} MapMultiset<A, B>(f: A -> B, s: seq<A>, t: seq<A>)
    requires multiset(s) == multiset(t)
    ensures multiset(Map(f, s)) == multiset(Map(f, t))
  {
    if s == [] {
      assert |multiset(t)| == 0;
    } else {
      assert s[0] in multiset(t);
      var i :| 0 <= i < |t| && t[i] == s[0];
      MapRemoveAt(f, s, 0);
      MapRemoveAt(f, t, i);
      RemoveAtMultiset(s, 0);
      RemoveAtMultiset(t, i);
      assert multiset(RemoveAt(s, 0)) == multiset(s) - multiset{s[0]};
      assert multiset(RemoveAt(t, i)) == multiset(t) - multiset{t[i]};
      MapMultiset(f, RemoveAt(s, 0), RemoveAt(t, i));
    }
  }

  lemma MapRemoveAt<A, B>(f: A -> B, s: seq<A>, i: nat)
    requires i < |s|
    ensures multiset(Map(f, s)) == multiset(Map(f, RemoveAt(s, i))) + multiset{f(s[i])}
  {
    assert Map(f, RemoveAt(s, i)) == RemoveAt(Map(f, s), i);
    RemoveAtMultiset(Map(f, s), i);
  }

  lemma DistinctMultiset<T>(s: seq<T>, x: T)
    requires Distinct(s)
    ensures multiset(s)[x] == if x in s then 1 else 0
  {
    if s != [] {
      DistinctMultiset(s[1..], x);
      assert s == [s[0]] + s[1..];
    }
  }

  lemma TwiceInside<T>(s: seq<T>, i: nat, j: nat)
    requires i < j < |s| && s[i] == s[j]
    ensures multiset(s)[s[i]] >= 2
  {
    assert s == s[..i] + [s[i]] + s[i + 1..j] + [s[j]] + s[j + 1..];
  }

  lemma CountAtMostOneIsDistinct<T(!new)>(s: seq<T>)
    requires forall x :: multiset(s)[x] <= 1
    ensures Distinct(s)
  {
    forall i, j | 0 <= i < j < |s|
      ensures s[i] != s[j]
    {
      if s[i] == s[j] {
        TwiceInside(s, i, j);
      }
    }
  }
}
