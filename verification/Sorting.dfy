/** `sorted(..., key=...)`: a stable sort by a comparison, and when its result is the only one possible. */
module Sorting {

  ghost predicate TotalOrder<T(!new)>(le: (T, T) -> bool) {
    && (forall a, b :: le(a, b) || le(b, a))
    && (forall a, b, c :: le(a, b) && le(b, c) ==> le(a, c))
  }

  /** No two different elements of `s` tie. */
  ghost predicate NoTies<T>(le: (T, T) -> bool, s: seq<T>) {
    forall a, b :: a in s && b in s && le(a, b) && le(b, a) ==> a == b
  }

  ghost predicate Sorted<T>(le: (T, T) -> bool, s: seq<T>) {
    forall i, j :: 0 <= i < j < |s| ==> le(s[i], s[j])
  }

  function Insert<T>(le: (T, T) -> bool, x: T, s: seq<T>): seq<T> {
    if s == [] || le(x, s[0]) then [x] + s else [s[0]] + Insert(le, x, s[1..])
  }

  function Sort<T>(le: (T, T) -> bool, s: seq<T>): seq<T> {
    if s == [] then [] else Insert(le, s[0], Sort(le, s[1..]))
  }

  lemma {:induction false} InsertMultiset<T>(le: (T, T) -> bool, x: T, s: seq<T>)
    ensures multiset(Insert(le, x, s)) == multiset{x} + multiset(s)
    ensures |Insert(le, x, s)| == |s| + 1
  {
    if s != [] && !le(x, s[0]) {
      InsertMultiset(le, x, s[1..]);
      assert s == [s[0]] + s[1..];
    }
  }

  lemma {:induction false} InsertSorted<T(!new)>(le: (T, T) -> bool, x: T, s: seq<T>)
    requires TotalOrder(le) && Sorted(le, s)
    ensures Sorted(le, Insert(le, x, s))
  {
    if s != [] && !le(x, s[0]) {
      var rest := Insert(le, x, s[1..]);
      InsertSorted(le, x, s[1..]);
      InsertMultiset(le, x, s[1..]);
      forall i | 0 <= i < |rest|
        ensures le(s[0], rest[i])
      {
        assert rest[i] in multiset(rest);
        assert rest[i] == x || rest[i] in s[1..];
      }
    }
  }

  lemma {:induction false} SortMultiset<T>(le: (T, T) -> bool, s: seq<T>)
    ensures multiset(Sort(le, s)) == multiset(s)
    ensures |Sort(le, s)| == |s|
  {
    if s != [] {
      SortMultiset(le, s[1..]);
      InsertMultiset(le, s[0], Sort(le, s[1..]));
      assert s == [s[0]] + s[1..];
    }
  }

  lemma {:induction false} SortSorted<T(!new)>(le: (T, T) -> bool, s: seq<T>)
    requires TotalOrder(le)
    ensures Sorted(le, Sort(le, s))
  {
    if s != [] {
      SortSorted(le, s[1..]);
      InsertSorted(le, s[0], Sort(le, s[1..]));
    }
  }

  lemma SortElements<T>(le: (T, T) -> bool, s: seq<T>, x: T)
    ensures x in Sort(le, s) <==> x in s
  {
    SortMultiset(le, s);
    assert x in Sort(le, s) <==> x in multiset(Sort(le, s));
  }

  lemma HeadIsLeast<T>(le: (T, T) -> bool, s: seq<T>, x: T)
    requires Sorted(le, s) && x in s && le(x, x)
    ensures le(s[0], x)
  {
    var j :| 0 <= j < |s| && s[j] == x;
  }

  lemma TailMultiset<T>(s: seq<T>)
    requires s != []
    ensures multiset(s[1..]) == multiset(s) - multiset{s[0]}
  {
    assert s == [s[0]] + s[1..];
  }

  /** Two sorted arrangements of the same elements are equal when no two elements tie. */
  lemma {:induction false} SortedIsUnique<T(!new)>(le: (T, T) -> bool, a: seq<T>, b: seq<T>)
    requires TotalOrder(le) && Sorted(le, a) && Sorted(le, b) && multiset(a) == multiset(b) && NoTies(le, a)
    ensures a == b
  {
    if a == [] {
      assert |multiset(b)| == 0;
    } else {
      assert |multiset(b)| == |a|;
      assert a[0] in multiset(a) && b[0] in multiset(b);
      HeadIsLeast(le, a, b[0]);
      HeadIsLeast(le, b, a[0]);
      TailMultiset(a);
      TailMultiset(b);
      SortedIsUnique(le, a[1..], b[1..]);
    }
  }

  /** Sorting ignores the order of its input when no two elements tie. */
  lemma SortIgnoresInputOrder<T(!new)>(le: (T, T) -> bool, s: seq<T>, t: seq<T>)
    requires TotalOrder(le) && multiset(s) == multiset(t) && NoTies(le, s)
    ensures Sort(le, s) == Sort(le, t)
  {
    SortSorted(le, s);
    SortSorted(le, t);
    SortMultiset(le, s);
    SortMultiset(le, t);
    forall a, b | a in Sort(le, s) && b in Sort(le, s) && le(a, b) && le(b, a)
      ensures a == b
    {
      SortElements(le, s, a);
      SortElements(le, s, b);
    }
    SortedIsUnique(le, Sort(le, s), Sort(le, t));
  }

  // ----- numbers and strings -----

  predicate Descending(a: real, b: real) {
    a >= b
  }

  /** Python's string order. */
  predicate Alphabetical(a: string, b: string) {
    a == [] || (b != [] && (a[0] < b[0] || (a[0] == b[0] && Alphabetical(a[1..], b[1..]))))
  }

  lemma {:induction false} AlphabeticalOrder(a: string, b: string, c: string)
    ensures Alphabetical(a, a)
    ensures Alphabetical(a, b) || Alphabetical(b, a)
    ensures Alphabetical(a, b) && Alphabetical(b, c) ==> Alphabetical(a, c)
  {
    if a != [] {
      AlphabeticalOrder(a[1..], if b == [] then [] else b[1..], if c == [] then [] else c[1..]);
    }
  }

  lemma {:induction false} AlphabeticalTie(a: string, b: string)
    requires Alphabetical(a, b) && Alphabetical(b, a)
    ensures a == b
  {
    if a != [] {
      AlphabeticalTie(a[1..], b[1..]);
      assert a == [a[0]] + a[1..] && b == [b[0]] + b[1..];
    }
  }

  /** At the first place where the two differ, `a` has the smaller character or has ended. */
  ghost predicate SmallerAt(a: string, b: string, n: nat) {
    n <= |a| && n <= |b| && a[..n] == b[..n] && (n == |a| || (n < |b| && a[n] < b[n]))
  }

  lemma {:induction false} AlphabeticalIff(a: string, b: string)
    ensures Alphabetical(a, b) <==> exists n :: SmallerAt(a, b, n)
  {
    if a == "" || (b != "" && a[0] < b[0]) {
      assert SmallerAt(a, b, 0);
    } else if b != "" && a[0] == b[0] {
      AlphabeticalIff(a[1..], b[1..]);
      SmallerAfterHead(a, b);
    }
  }

  lemma SmallerAfterHead(a: string, b: string)
    requires a != "" && b != "" && a[0] == b[0]
    ensures (exists n :: SmallerAt(a, b, n)) <==> exists n :: SmallerAt(a[1..], b[1..], n)
  {
    if n :| SmallerAt(a, b, n) {
      DropHeads(a, b, n);
    }
    if n :| SmallerAt(a[1..], b[1..], n) {
      AddHeads(a, b, n);
    }
  }

  lemma DropHeads(a: string, b: string, n: nat)
    requires a != "" && b != "" && a[0] == b[0] && SmallerAt(a, b, n)
    ensures n > 0 && SmallerAt(a[1..], b[1..], n - 1)
  {
    assert n > 0;
    assert a[1..][..n - 1] == a[..n][1..] && b[1..][..n - 1] == b[..n][1..];
  }

  lemma AddHeads(a: string, b: string, n: nat)
    requires a != "" && b != "" && a[0] == b[0] && SmallerAt(a[1..], b[1..], n)
    ensures SmallerAt(a, b, n + 1)
  {
    assert a[..n + 1] == [a[0]] + a[1..][..n] && b[..n + 1] == [b[0]] + b[1..][..n];
  }
}
