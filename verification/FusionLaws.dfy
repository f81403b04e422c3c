/** Rank fusion behaves as a fair ordering of the documents the retrievers returned. */
module FusionLaws {
  import opened Subsequences
  import opened Sorting
  import opened Rounding
  import opened Fusion

  ghost predicate DistinctNames(lists: seq<Ranking>) {
    forall i, j :: 0 <= i < j < |lists| ==> lists[i].name != lists[j].name
  }

  /** No retriever returns the same id twice. */
  ghost predicate NoRepeats(lists: seq<Ranking>) {
    forall i :: 0 <= i < |lists| ==> Distinct(lists[i].ids)
  }

  ghost predicate NonNegativeWeights(cfg: Config, lists: seq<Ranking>) {
    forall i :: 0 <= i < |lists| ==> Weight(cfg, lists[i].name) >= 0.0
  }

  // ----- the comparison is a total order -----

  lemma BetterIsTotal()
    ensures TotalOrder(Better)
  {
    forall a, b: Fused
      ensures Better(a, b) || Better(b, a)
    {
      AlphabeticalOrder(a.key, b.key, b.key);
    }
    forall a, b, c: Fused | Better(a, b) && Better(b, c)
      ensures Better(a, c)
    {
      AlphabeticalOrder(a.key, b.key, c.key);
    }
  }

  lemma BetterTie(a: Fused, b: Fused)
    requires Better(a, b) && Better(b, a)
    ensures a.key == b.key
  {
    AlphabeticalTie(a.key, b.key);
  }

  lemma EntriesDoNotTie(cfg: Config, lists: seq<Ranking>, ids: seq<string>)
    ensures NoTies(Better, Entries(cfg, lists, ids))
  {
    forall a, b | a in Entries(cfg, lists, ids) && b in Entries(cfg, lists, ids) && Better(a, b) && Better(b, a)
      ensures a == b
    {
      BetterTie(a, b);
    }
  }

  // ----- the result is the duplicate-free union -----

  lemma {:induction false} SeenIsUnion(lists: seq<Ranking>, id: string)
    ensures Distinct(Seen(lists))
    ensures id in Seen(lists) <==> exists i :: 0 <= i < |lists| && id in lists[i].ids
  {
    if lists != [] {
      var n := |lists| - 1;
      SeenIsUnion(lists[..n], id);
      AddAllDistinct(Seen(lists[..n]), lists[n].ids);
      AddAllIsUnion(Seen(lists[..n]), lists[n].ids, id);
      if i :| 0 <= i < |lists[..n]| && id in lists[..n][i].ids {
        assert id in lists[i].ids;
      }
    }
  }

  lemma FuseElements(cfg: Config, lists: seq<Ranking>, f: Fused)
    ensures f in Fuse(cfg, lists) <==> f.key in Seen(lists) && f == Entry(cfg, lists, f.key)
  {
    var seen := Seen(lists);
    SortElements(Better, Entries(cfg, lists, seen), f);
    if f.key in seen && f == Entry(cfg, lists, f.key) {
      var i := IndexIn(seen, f.key);
      assert Entries(cfg, lists, seen)[i] == f;
    }
  }

  /** Every id some retriever returned comes out exactly once, with its own sum and ranks, and nothing else does. */
  lemma FuseIsDistinctUnion(cfg: Config, lists: seq<Ranking>)
    ensures Distinct(Fuse(cfg, lists)) && Sorted(Better, Fuse(cfg, lists))
    ensures forall f :: f in Fuse(cfg, lists) <==>
              (exists i :: 0 <= i < |lists| && f.key in lists[i].ids) && f == Entry(cfg, lists, f.key)
  {
    var entries := Entries(cfg, lists, Seen(lists));
    SeenIsUnion(lists, "");
    assert Distinct(entries);
    SortMultiset(Better, entries);
    forall x ensures multiset(Fuse(cfg, lists))[x] <= 1 {
      DistinctMultiset(entries, x);
    }
    CountAtMostOneIsDistinct(Fuse(cfg, lists));
    BetterIsTotal();
    SortSorted(Better, entries);
    forall f
      ensures f in Fuse(cfg, lists) <==>
              (exists i :: 0 <= i < |lists| && f.key in lists[i].ids) && f == Entry(cfg, lists, f.key)
    {
      FuseElements(cfg, lists, f);
      SeenIsUnion(lists, f.key);
    }
  }

  // ----- the score is the sum of the recorded contributions -----

  function ContributionFrom(c: map<string, real>, name: string): real {
    if name in c then c[name] else 0.0
  }

  function TotalContribution(c: map<string, real>, lists: seq<Ranking>): real {
    if lists == [] then 0.0
    else TotalContribution(c, lists[..|lists| - 1]) + ContributionFrom(c, lists[|lists| - 1].name)
  }

  /** In a duplicate-free list an id scores once, at its rank. */
  lemma {:induction false} ScoreInDistinct(cfg: Config, name: string, ids: seq<string>, id: string)
    requires Distinct(ids)
    ensures RankIn(ids, id) > 0 <==> id in ids
    ensures RankIn(ids, id) > 0 ==> RankIn(ids, id) <= |ids| && ids[RankIn(ids, id) - 1] == id
    ensures ScoreIn(cfg, name, ids, id) == if RankIn(ids, id) > 0 then Share(cfg, name, RankIn(ids, id)) else 0.0
  {
    if ids != [] {
      var n := |ids| - 1;
      ScoreInDistinct(cfg, name, ids[..n], id);
      assert ids == ids[..n] + [ids[n]];
      if ids[n] == id {
        AbsentScoresNothing(cfg, name, ids[..n], id);
      }
    }
  }

  ghost predicate Unnamed(lists: seq<Ranking>, name: string) {
    forall i :: 0 <= i < |lists| ==> lists[i].name != name
  }

  lemma {:induction false} UnnamedIsAbsent(cfg: Config, lists: seq<Ranking>, id: string, name: string)
    requires Unnamed(lists, name)
    ensures name !in Contributions(cfg, lists, id) && name !in Ranks(lists, id)
  {
    if lists != [] {
      UnnamedIsAbsent(cfg, lists[..|lists| - 1], id, name);
    }
  }

  lemma {:induction false} TotalIgnoresOthers(c: map<string, real>, lists: seq<Ranking>, name: string, x: real)
    requires Unnamed(lists, name)
    ensures TotalContribution(c[name := x], lists) == TotalContribution(c, lists)
  {
    if lists != [] {
      TotalIgnoresOthers(c, lists[..|lists| - 1], name, x);
    }
  }

  /** For duplicate-free lists the score is the sum of the contributions that are reported with it. */
  lemma {:induction false} ScoreIsSumOfContributions(cfg: Config, lists: seq<Ranking>, id: string)
    requires DistinctNames(lists) && NoRepeats(lists)
    ensures Score(cfg, lists, id) == TotalContribution(Contributions(cfg, lists, id), lists)
  {
    if lists != [] {
      var n := |lists| - 1;
      var before := Contributions(cfg, lists[..n], id);
      ScoreIsSumOfContributions(cfg, lists[..n], id);
      ScoreInDistinct(cfg, lists[n].name, lists[n].ids, id);
      UnnamedIsAbsent(cfg, lists[..n], id, lists[n].name);
      var rank := RankIn(lists[n].ids, id);
      if rank > 0 {
        TotalIgnoresOthers(before, lists[..n], lists[n].name, Share(cfg, lists[n].name, rank));
      }
    }
  }

  // ----- the order of the retrievers does not matter -----

  lemma {:induction false} ScoreWithout(cfg: Config, lists: seq<Ranking>, id: string, i: nat)
    requires i < |lists|
    ensures Score(cfg, lists, id) == Score(cfg, RemoveAt(lists, i), id) + ScoreIn(cfg, lists[i].name, lists[i].ids, id)
  {
    var n := |lists| - 1;
    if i == n {
      assert RemoveAt(lists, i) == lists[..n];
    } else {
      ScoreWithout(cfg, lists[..n], id, i);
      assert RemoveAt(lists, i)[..n - 1] == RemoveAt(lists[..n], i);
      assert RemoveAt(lists, i)[n - 1] == lists[n];
    }
  }

  lemma {:induction false} ScoreIgnoresOrder(cfg: Config, a: seq<Ranking>, b: seq<Ranking>, id: string)
    requires multiset(a) == multiset(b)
    ensures Score(cfg, a, id) == Score(cfg, b, id)
  {
    if a == [] {
      assert |multiset(b)| == 0;
    } else {
      assert a[0] in multiset(b);
      var i := IndexIn(b, a[0]);
      RemoveAtMultiset(a, 0);
      RemoveAtMultiset(b, i);
      assert multiset(RemoveAt(a, 0)) == multiset(a) - multiset{a[0]};
      assert multiset(RemoveAt(b, i)) == multiset(b) - multiset{b[i]};
      ScoreIgnoresOrder(cfg, RemoveAt(a, 0), RemoveAt(b, i), id);
      ScoreWithout(cfg, a, id, 0);
      ScoreWithout(cfg, b, id, i);
    }
  }

  /** Which names appear in the two tables, and with what. */
  lemma {:induction false} TablesAre(cfg: Config, lists: seq<Ranking>, id: string, i: nat)
    requires DistinctNames(lists) && i < |lists|
    ensures var name, rank := lists[i].name, RankIn(lists[i].ids, id);
            && (name in Ranks(lists, id) <==> rank > 0) && (name in Contributions(cfg, lists, id) <==> rank > 0)
            && (rank > 0 ==> Ranks(lists, id)[name] == rank && Contributions(cfg, lists, id)[name] == Share(cfg, name, rank))
  {
    var n := |lists| - 1;
    if i < n {
      TablesAre(cfg, lists[..n], id, i);
      assert lists[i].name != lists[n].name;
    } else {
      UnnamedIsAbsent(cfg, lists[..n], id, lists[n].name);
    }
  }

  lemma PermutedNames(a: seq<Ranking>, b: seq<Ranking>, i: nat) returns (j: nat)
    requires multiset(a) == multiset(b) && i < |a|
    ensures j < |b| && b[j] == a[i]
  {
    assert a[i] in multiset(b);
    j := IndexIn(b, a[i]);
  }

  lemma TablesIgnoreOrder(cfg: Config, a: seq<Ranking>, b: seq<Ranking>, id: string, name: string)
    requires multiset(a) == multiset(b) && DistinctNames(a) && DistinctNames(b)
    requires name in Ranks(a, id) || name in Contributions(cfg, a, id)
    ensures name in Ranks(a, id) && name in Contributions(cfg, a, id) && name in Ranks(b, id) && name in Contributions(cfg, b, id)
    ensures Ranks(a, id)[name] == Ranks(b, id)[name] && Contributions(cfg, a, id)[name] == Contributions(cfg, b, id)[name]
  {
    if Unnamed(a, name) {
      UnnamedIsAbsent(cfg, a, id, name);
    }
    var i :| 0 <= i < |a| && a[i].name == name;
    var j := PermutedNames(a, b, i);
    TablesAre(cfg, a, id, i);
    TablesAre(cfg, b, id, j);
  }

  lemma EntryIgnoresOrder(cfg: Config, a: seq<Ranking>, b: seq<Ranking>, id: string)
    requires multiset(a) == multiset(b) && DistinctNames(a) && DistinctNames(b)
    ensures Entry(cfg, a, id) == Entry(cfg, b, id)
  {
    ScoreIgnoresOrder(cfg, a, b, id);
    forall name | name in Ranks(a, id) || name in Contributions(cfg, a, id) {
      TablesIgnoreOrder(cfg, a, b, id, name);
    }
    forall name | name in Ranks(b, id) || name in Contributions(cfg, b, id) {
      TablesIgnoreOrder(cfg, b, a, id, name);
    }
    assert Ranks(a, id) == Ranks(b, id);
    assert Contributions(cfg, a, id) == Contributions(cfg, b, id);
  }

  lemma SameElementsSameMultiset<T(!new)>(a: seq<T>, b: seq<T>)
    requires Distinct(a) && Distinct(b) && forall x :: x in a <==> x in b
    ensures multiset(a) == multiset(b)
  {
    forall x ensures multiset(a)[x] == multiset(b)[x] {
      DistinctMultiset(a, x);
      DistinctMultiset(b, x);
    }
  }

  lemma EntriesOfPermutation(cfg: Config, a: seq<Ranking>, b: seq<Ranking>)
    requires multiset(a) == multiset(b) && DistinctNames(a) && DistinctNames(b)
    ensures multiset(Entries(cfg, a, Seen(a))) == multiset(Entries(cfg, b, Seen(b)))
  {
    var xs, ys := Entries(cfg, a, Seen(a)), Entries(cfg, b, Seen(b));
    SeenIsUnion(a, "");
    SeenIsUnion(b, "");
    forall f | f in xs
      ensures f in ys
    {
      EntryInPermutation(cfg, a, b, f);
    }
    forall f | f in ys
      ensures f in xs
    {
      EntryInPermutation(cfg, b, a, f);
    }
    assert Distinct(xs) && Distinct(ys);
    SameElementsSameMultiset(xs, ys);
  }

  lemma EntryInPermutation(cfg: Config, a: seq<Ranking>, b: seq<Ranking>, f: Fused)
    requires multiset(a) == multiset(b) && DistinctNames(a) && DistinctNames(b)
    requires f in Entries(cfg, a, Seen(a))
    ensures f in Entries(cfg, b, Seen(b))
  {
    EntryIgnoresOrder(cfg, a, b, f.key);
    assert f.key in Seen(a);
    SeenIsUnion(a, f.key);
    SeenIsUnion(b, f.key);
    var i :| 0 <= i < |a| && f.key in a[i].ids;
    var j := PermutedNames(a, b, i);
    var k := IndexIn(Seen(b), f.key);
    assert Entries(cfg, b, Seen(b))[k] == f;
  }

  /** The result does not depend on the order in which the retrievers are listed. */
  lemma FuseIgnoresRetrieverOrder(cfg: Config, a: seq<Ranking>, b: seq<Ranking>)
    requires multiset(a) == multiset(b) && DistinctNames(a) && DistinctNames(b)
    ensures Fuse(cfg, a) == Fuse(cfg, b)
  {
    EntriesOfPermutation(cfg, a, b);
    BetterIsTotal();
    EntriesDoNotTie(cfg, a, Seen(a));
    SortIgnoresInputOrder(Better, Entries(cfg, a, Seen(a)), Entries(cfg, b, Seen(b)));
  }

  // ----- better everywhere means first -----

  /** `d` is ranked above `e` by every retriever that returned `e`. */
  ghost predicate Beats(lists: seq<Ranking>, d: string, e: string) {
    forall i :: 0 <= i < |lists| && e in lists[i].ids ==>
      d in lists[i].ids && RankIn(lists[i].ids, d) < RankIn(lists[i].ids, e)
  }

  lemma ShareFalls(cfg: Config, name: string, rank: nat, lower: nat)
    requires 0 < rank <= lower && Weight(cfg, name) >= 0.0
    ensures Share(cfg, name, lower) <= Share(cfg, name, rank)
    ensures Share(cfg, name, rank) >= 0.0
  {
    var w, a, b := Weight(cfg, name), (cfg.k + rank) as real, (cfg.k + lower) as real;
    assert w * a <= w * b;
    CrossDivide(w, b, w, a);
    CrossDivide(0.0, 1.0, w, a);
  }

  lemma {:induction false} BeatsInScore(cfg: Config, lists: seq<Ranking>, d: string, e: string)
    requires NoRepeats(lists) && NonNegativeWeights(cfg, lists) && Beats(lists, d, e)
    ensures Score(cfg, lists, d) >= Score(cfg, lists, e)
  {
    if lists != [] {
      var n := |lists| - 1;
      BeatsInScore(cfg, lists[..n], d, e);
      BeatsInOneList(cfg, lists[n], d, e);
    }
  }

  lemma BeatsInOneList(cfg: Config, list: Ranking, d: string, e: string)
    requires Distinct(list.ids) && Weight(cfg, list.name) >= 0.0
    requires e in list.ids ==> d in list.ids && RankIn(list.ids, d) < RankIn(list.ids, e)
    ensures ScoreIn(cfg, list.name, list.ids, d) >= ScoreIn(cfg, list.name, list.ids, e)
  {
    ScoreInDistinct(cfg, list.name, list.ids, d);
    ScoreInDistinct(cfg, list.name, list.ids, e);
    if d in list.ids {
      ShareFalls(cfg, list.name, RankIn(list.ids, d), RankIn(list.ids, d));
      if e in list.ids {
        ShareFalls(cfg, list.name, RankIn(list.ids, d), RankIn(list.ids, e));
      }
    }
  }

  lemma BestRankIs(ranks: map<string, nat>)
    requires ranks != map[]
    ensures exists name :: name in ranks && ranks[name] == BestRank(ranks)
    ensures forall name :: name in ranks ==> BestRank(ranks) <= ranks[name]
  {
    var name :| name in ranks;
    assert ranks[name] in ranks.Values;
    assert BestRank(ranks) in ranks.Values;
    forall name | name in ranks
      ensures BestRank(ranks) <= ranks[name]
    {
      assert ranks[name] in ranks.Values;
    }
  }

  /** The best rank of a document is its rank in some list, and no list ranks it higher. */
  lemma BestRankIsAttained(cfg: Config, lists: seq<Ranking>, id: string) returns (i: nat)
    requires DistinctNames(lists) && NoRepeats(lists) && id in Seen(lists)
    ensures i < |lists| && id in lists[i].ids && RankIn(lists[i].ids, id) == BestRank(Ranks(lists, id))
    ensures forall j :: 0 <= j < |lists| && id in lists[j].ids ==> BestRank(Ranks(lists, id)) <= RankIn(lists[j].ids, id)
  {
    var ranks := Ranks(lists, id);
    SeenIsUnion(lists, id);
    forall j | 0 <= j < |lists| && id in lists[j].ids
      ensures lists[j].name in ranks && ranks[lists[j].name] == RankIn(lists[j].ids, id)
    {
      TablesAre(cfg, lists, id, j);
      ScoreInDistinct(cfg, lists[j].name, lists[j].ids, id);
    }
    BestRankIs(ranks);
    var name :| name in ranks && ranks[name] == BestRank(ranks);
    if Unnamed(lists, name) {
      UnnamedIsAbsent(cfg, lists, id, name);
    }
    i :| 0 <= i < |lists| && lists[i].name == name;
    TablesAre(cfg, lists, id, i);
    ScoreInDistinct(cfg, name, lists[i].ids, id);
  }

  lemma BeatsInBestRank(cfg: Config, lists: seq<Ranking>, d: string, e: string)
    requires DistinctNames(lists) && NoRepeats(lists) && Beats(lists, d, e) && e in Seen(lists)
    ensures d in Seen(lists) && BestRank(Ranks(lists, d)) < BestRank(Ranks(lists, e))
  {
    var i := BestRankIsAttained(cfg, lists, e);
    SeenIsUnion(lists, d);
    var _ := BestRankIsAttained(cfg, lists, d);
  }

  /** Where a document stands in a result. */
  function Position(result: seq<Fused>, id: string): (i: nat)
    requires exists f :: f in result && f.key == id
    ensures i < |result| && result[i].key == id
  {
    if result[0].key == id then 0 else 1 + Position(result[1..], id)
  }

  lemma StrictlyBetterComesFirst(result: seq<Fused>, i: nat, j: nat)
    requires Sorted(Better, result) && i < |result| && j < |result|
    requires Better(result[i], result[j]) && result[i].key != result[j].key
    ensures i < j
  {
    if j < i {
      BetterTie(result[i], result[j]);
    }
  }

  lemma PositionExists(cfg: Config, lists: seq<Ranking>, id: string)
    requires id in Seen(lists)
    ensures exists f :: f in Fuse(cfg, lists) && f.key == id
    ensures forall f :: f in Fuse(cfg, lists) && f.key == id ==> f == Entry(cfg, lists, id)
  {
    FuseElements(cfg, lists, Entry(cfg, lists, id));
    forall f | f in Fuse(cfg, lists) && f.key == id
      ensures f == Entry(cfg, lists, id)
    {
      FuseElements(cfg, lists, f);
    }
  }

  /**
   A document that every retriever ranking `e` ranks above `e` comes out before `e`, for any
   non-negative weights: even when all weights are zero, the best single rank decides.
   */
  lemma BetterEverywhereComesFirst(cfg: Config, lists: seq<Ranking>, d: string, e: string)
    requires DistinctNames(lists) && NoRepeats(lists) && NonNegativeWeights(cfg, lists)
    requires Beats(lists, d, e) && e in Seen(lists)
    ensures exists f :: f in Fuse(cfg, lists) && f.key == d
    ensures exists f :: f in Fuse(cfg, lists) && f.key == e
    ensures Position(Fuse(cfg, lists), d) < Position(Fuse(cfg, lists), e)
  {
    BeatsInScore(cfg, lists, d, e);
    BeatsInBestRank(cfg, lists, d, e);
    PositionExists(cfg, lists, d);
    PositionExists(cfg, lists, e);
    BetterIsTotal();
    SortSorted(Better, Entries(cfg, lists, Seen(lists)));
    StrictlyBetterComesFirst(Fuse(cfg, lists), Position(Fuse(cfg, lists), d), Position(Fuse(cfg, lists), e));
  }

  // ----- raising a document never lowers it -----

  /** `ids` with the document at place `i` moved up one place. */
  function Raise(ids: seq<string>, i: nat): seq<string>
    requires 0 < i < |ids|
  {
    ids[i - 1 := ids[i]][i := ids[i - 1]]
  }

  function RaiseIn(lists: seq<Ranking>, l: nat, i: nat): seq<Ranking>
    requires l < |lists| && 0 < i < |lists[l].ids|
  {
    lists[l := Ranking(lists[l].name, Raise(lists[l].ids, i))]
  }

  lemma {:induction false} RankInAt(ids: seq<string>, i: nat)
    requires Distinct(ids) && i < |ids|
    ensures RankIn(ids, ids[i]) == i + 1
  {
    if i < |ids| - 1 {
      RankInAt(ids[..|ids| - 1], i);
    }
  }

  lemma RaiseKeepsDistinct(ids: seq<string>, i: nat)
    requires Distinct(ids) && 0 < i < |ids|
    ensures Distinct(Raise(ids, i))
    ensures forall x :: x in Raise(ids, i) <==> x in ids
  {
    var up := Raise(ids, i);
    forall k | 0 <= k < |ids|
      ensures ids[k] in up
    {
      assert ids[k] == up[if k == i then i - 1 else if k == i - 1 then i else k];
    }
  }

  lemma RaisedRank(ids: seq<string>, i: nat, x: string)
    requires Distinct(ids) && 0 < i < |ids|
    ensures x in ids ==> RankIn(ids, x) > 0 && RankIn(Raise(ids, i), x) > 0
    ensures x in ids && x == ids[i] ==> RankIn(Raise(ids, i), x) < RankIn(ids, x)
    ensures x in ids && x != ids[i] ==> RankIn(ids, x) <= RankIn(Raise(ids, i), x)
  {
    RaiseKeepsDistinct(ids, i);
    if x in ids {
      var k := IndexIn(ids, x);
      RankInAt(ids, k);
      RankInAt(Raise(ids, i), if k == i then i - 1 else if k == i - 1 then i else k);
    }
  }

  lemma RaisedScoreIn(cfg: Config, name: string, ids: seq<string>, i: nat, x: string)
    requires Distinct(ids) && 0 < i < |ids| && Weight(cfg, name) >= 0.0
    ensures x == ids[i] ==> ScoreIn(cfg, name, ids, x) <= ScoreIn(cfg, name, Raise(ids, i), x)
    ensures x != ids[i] ==> ScoreIn(cfg, name, Raise(ids, i), x) <= ScoreIn(cfg, name, ids, x)
  {
    RaiseKeepsDistinct(ids, i);
    ScoreInDistinct(cfg, name, ids, x);
    ScoreInDistinct(cfg, name, Raise(ids, i), x);
    if x in ids {
      RaisedRank(ids, i, x);
      if x == ids[i] {
        ShareFalls(cfg, name, RankIn(Raise(ids, i), x), RankIn(ids, x));
      } else {
        ShareFalls(cfg, name, RankIn(ids, x), RankIn(Raise(ids, i), x));
      }
    }
  }

  lemma RaisedScore(cfg: Config, lists: seq<Ranking>, l: nat, i: nat, x: string)
    requires NoRepeats(lists) && NonNegativeWeights(cfg, lists) && l < |lists| && 0 < i < |lists[l].ids|
    ensures x == lists[l].ids[i] ==> Score(cfg, lists, x) <= Score(cfg, RaiseIn(lists, l, i), x)
    ensures x != lists[l].ids[i] ==> Score(cfg, RaiseIn(lists, l, i), x) <= Score(cfg, lists, x)
  {
    var up := RaiseIn(lists, l, i);
    ScoreWithout(cfg, lists, x, l);
    ScoreWithout(cfg, up, x, l);
    assert RemoveAt(up, l) == RemoveAt(lists, l);
    RaisedScoreIn(cfg, lists[l].name, lists[l].ids, i, x);
  }

  lemma RaisedShape(lists: seq<Ranking>, l: nat, i: nat)
    requires DistinctNames(lists) && NoRepeats(lists) && l < |lists| && 0 < i < |lists[l].ids|
    ensures DistinctNames(RaiseIn(lists, l, i)) && NoRepeats(RaiseIn(lists, l, i))
    ensures forall x :: x in Seen(RaiseIn(lists, l, i)) <==> x in Seen(lists)
  {
    var up := RaiseIn(lists, l, i);
    RaiseKeepsDistinct(lists[l].ids, i);
    forall x ensures x in Seen(up) <==> x in Seen(lists) {
      SeenIsUnion(lists, x);
      SeenIsUnion(up, x);
      assert forall k :: 0 <= k < |lists| ==> (x in up[k].ids <==> x in lists[k].ids);
    }
  }

  lemma RaisedBestRank(cfg: Config, lists: seq<Ranking>, l: nat, i: nat, x: string)
    requires DistinctNames(lists) && NoRepeats(lists) && l < |lists| && 0 < i < |lists[l].ids| && x in Seen(lists)
    ensures x == lists[l].ids[i] ==> BestRank(Ranks(RaiseIn(lists, l, i), x)) <= BestRank(Ranks(lists, x))
    ensures x != lists[l].ids[i] ==> BestRank(Ranks(lists, x)) <= BestRank(Ranks(RaiseIn(lists, l, i), x))
  {
    var up := RaiseIn(lists, l, i);
    RaisedShape(lists, l, i);
    RaiseKeepsDistinct(lists[l].ids, i);
    RaisedRank(lists[l].ids, i, x);
    var k := BestRankIsAttained(cfg, lists, x);
    var k' := BestRankIsAttained(cfg, up, x);
    assert up[k] == (if k == l then up[l] else lists[k]) && up[k'] == (if k' == l then up[l] else lists[k']);
    assert x in up[k].ids && x in lists[k'].ids;
  }

  lemma RaisedComparison(cfg: Config, lists: seq<Ranking>, l: nat, i: nat, e: string)
    requires DistinctNames(lists) && NoRepeats(lists) && NonNegativeWeights(cfg, lists)
    requires l < |lists| && 0 < i < |lists[l].ids| && e in Seen(lists) && lists[l].ids[i] in Seen(lists)
    requires e != lists[l].ids[i] && Better(Entry(cfg, lists, lists[l].ids[i]), Entry(cfg, lists, e))
    ensures Better(Entry(cfg, RaiseIn(lists, l, i), lists[l].ids[i]), Entry(cfg, RaiseIn(lists, l, i), e))
  {
    var d := lists[l].ids[i];
    RaisedScore(cfg, lists, l, i, d);
    RaisedScore(cfg, lists, l, i, e);
    RaisedBestRank(cfg, lists, l, i, d);
    RaisedBestRank(cfg, lists, l, i, e);
  }

  function KeysBefore(result: seq<Fused>, n: nat): set<string>
    requires n <= |result|
  {
    set k | 0 <= k < n :: result[k].key
  }

  lemma {:induction false} KeysBeforeCount(result: seq<Fused>, n: nat)
    requires n <= |result| && forall j, k :: 0 <= j < k < |result| ==> result[j].key != result[k].key
    ensures |KeysBefore(result, n)| == n
  {
    if n > 0 {
      KeysBeforeCount(result, n - 1);
      assert KeysBefore(result, n) == KeysBefore(result, n - 1) + {result[n - 1].key};
    }
  }

  lemma ResultKeysDiffer(cfg: Config, lists: seq<Ranking>, j: nat, k: nat)
    requires j < k < |Fuse(cfg, lists)|
    ensures Fuse(cfg, lists)[j].key != Fuse(cfg, lists)[k].key
  {
    var result := Fuse(cfg, lists);
    FuseIsDistinctUnion(cfg, lists);
    assert result[j] in result && result[k] in result;
    FuseElements(cfg, lists, result[j]);
    FuseElements(cfg, lists, result[k]);
  }

  /** Whoever is still ahead of the raised document was ahead of it before. */
  lemma NobodyOvertakes(cfg: Config, lists: seq<Ranking>, l: nat, i: nat, k: nat)
    requires DistinctNames(lists) && NoRepeats(lists) && NonNegativeWeights(cfg, lists)
    requires l < |lists| && 0 < i < |lists[l].ids| && lists[l].ids[i] in Seen(lists)
    requires exists f :: f in Fuse(cfg, lists) && f.key == lists[l].ids[i]
    requires exists f :: f in Fuse(cfg, RaiseIn(lists, l, i)) && f.key == lists[l].ids[i]
    requires k < Position(Fuse(cfg, RaiseIn(lists, l, i)), lists[l].ids[i])
    ensures Fuse(cfg, RaiseIn(lists, l, i))[k].key in KeysBefore(Fuse(cfg, lists), Position(Fuse(cfg, lists), lists[l].ids[i]))
  {
    var d, up := lists[l].ids[i], RaiseIn(lists, l, i);
    var was, now := Fuse(cfg, lists), Fuse(cfg, up);
    var p, q := Position(was, d), Position(now, d);
    var e := now[k].key;
    RaisedShape(lists, l, i);
    FuseIsDistinctUnion(cfg, lists);
    FuseIsDistinctUnion(cfg, up);
    ResultKeysDiffer(cfg, up, k, q);
    assert now[k] in now && now[q] in now && was[p] in was;
    FuseElements(cfg, up, now[k]);
    FuseElements(cfg, up, now[q]);
    FuseElements(cfg, lists, was[p]);
    FuseElements(cfg, lists, Entry(cfg, lists, e));
    var j :| 0 <= j < |was| && was[j] == Entry(cfg, lists, e);
    if j > p {
      RaisedComparison(cfg, lists, l, i, e);
      BetterTie(now[k], now[q]);
    }
    assert j != p;
    assert was[j].key in KeysBefore(was, p);
  }

  /** Raising a document one place in one list never lowers it in the result, for any non-negative weights. */
  lemma RaisingNeverLowers(cfg: Config, lists: seq<Ranking>, l: nat, i: nat)
    requires DistinctNames(lists) && NoRepeats(lists) && NonNegativeWeights(cfg, lists)
    requires l < |lists| && 0 < i < |lists[l].ids|
    ensures exists f :: f in Fuse(cfg, lists) && f.key == lists[l].ids[i]
    ensures exists f :: f in Fuse(cfg, RaiseIn(lists, l, i)) && f.key == lists[l].ids[i]
    ensures Position(Fuse(cfg, RaiseIn(lists, l, i)), lists[l].ids[i]) <= Position(Fuse(cfg, lists), lists[l].ids[i])
  {
    var d, up := lists[l].ids[i], RaiseIn(lists, l, i);
    assert d in lists[l].ids;
    SeenIsUnion(lists, d);
    RaisedShape(lists, l, i);
    PositionExists(cfg, lists, d);
    PositionExists(cfg, up, d);
    var was, now := Fuse(cfg, lists), Fuse(cfg, up);
    var p, q := Position(was, d), Position(now, d);
    forall k | 0 <= k < q
      ensures now[k].key in KeysBefore(was, p)
    {
      NobodyOvertakes(cfg, lists, l, i, k);
    }
    forall j, k | 0 <= j < k < |was| ensures was[j].key != was[k].key {
      ResultKeysDiffer(cfg, lists, j, k);
    }
    forall j, k | 0 <= j < k < |now| ensures now[j].key != now[k].key {
      ResultKeysDiffer(cfg, up, j, k);
    }
    KeysBeforeCount(was, p);
    KeysBeforeCount(now, q);
    SubsetSize(KeysBefore(now, q), KeysBefore(was, p));
  }
}
