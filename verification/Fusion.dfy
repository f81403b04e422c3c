/** Reciprocal rank fusion (`backend/src/jst_api/knowledge/fusion.py`), over exact scores. */
module Fusion {
  import opened Sorting
  import opened Subsequences

  /** One named retriever and the ids it returned, best first. */
  datatype Ranking = Ranking(name: string, ids: seq<string>)

  datatype Fused = Fused(key: string, score: real, ranks: map<string, nat>, contributions: map<string, real>)

  datatype Config = Config(k: nat, weights: map<string, real>)

  function Weight(cfg: Config, name: string): real {
    if name in cfg.weights then cfg.weights[name] else 1.0
  }

  /** What rank `rank`, counted from one, is worth in the list of this name. */
  function Share(cfg: Config, name: string, rank: nat): real
    requires rank > 0
  {
    Weight(cfg, name) / (cfg.k + rank) as real
  }

  // ----- the reference: each document on its own -----

  function ScoreIn(cfg: Config, name: string, ids: seq<string>, id: string): real {
    if ids == [] then 0.0 else
    var n := |ids| - 1;
    ScoreIn(cfg, name, ids[..n], id) + (if ids[n] == id then Share(cfg, name, n + 1) else 0.0)
  }

  /** The sum over retrievers, and over occurrences should a list repeat an id. */
  function Score(cfg: Config, lists: seq<Ranking>, id: string): real {
    if lists == [] then 0.0 else
    var n := |lists| - 1;
    Score(cfg, lists[..n], id) + ScoreIn(cfg, lists[n].name, lists[n].ids, id)
  }

  /** The rank of the last occurrence; zero when absent. */
  function RankIn(ids: seq<string>, id: string): nat {
    if ids == [] then 0
    else if ids[|ids| - 1] == id then |ids|
    else RankIn(ids[..|ids| - 1], id)
  }

  function Ranks(lists: seq<Ranking>, id: string): map<string, nat> {
    if lists == [] then map[] else
    var n := |lists| - 1;
    var before, rank := Ranks(lists[..n], id), RankIn(lists[n].ids, id);
    if rank > 0 then before[lists[n].name := rank] else before
  }

  function Contributions(cfg: Config, lists: seq<Ranking>, id: string): map<string, real> {
    if lists == [] then map[] else
    var n := |lists| - 1;
    var before, rank := Contributions(cfg, lists[..n], id), RankIn(lists[n].ids, id);
    if rank > 0 then before[lists[n].name := Share(cfg, lists[n].name, rank)] else before
  }

  function Entry(cfg: Config, lists: seq<Ranking>, id: string): Fused {
    Fused(id, Score(cfg, lists, id), Ranks(lists, id), Contributions(cfg, lists, id))
  }

  // ----- the order of the result -----

  /** All ids in order of first appearance: the insertion order of the dictionary. */
  function Seen(lists: seq<Ranking>): seq<string> {
    if lists == [] then [] else AddAll(Seen(lists[..|lists| - 1]), lists[|lists| - 1].ids)
  }

  ghost predicate IsLeast(m: nat, s: set<nat>) {
    m in s && forall x :: x in s ==> m <= x
  }

  lemma {:induction false} LeastExists(s: set<nat>) returns (least: nat)
    requires s != {}
    ensures IsLeast(least, s)
  {
    var m :| m in s;
    if s == {m} {
      least := m;
    } else {
      var rest := LeastExists(s - {m});
      least := if m < rest then m else rest;
      forall x | x in s
        ensures least <= x
      {
        if x != m {
          assert x in s - {m};
        }
      }
    }
  }

  /** `min(ranks.values())`; every fused document has at least one rank. */
  function BestRank(ranks: map<string, nat>): nat {
    if ranks.Values == {} then 0 else
    assert exists m :: IsLeast(m, ranks.Values) by {
      var m := LeastExists(ranks.Values);
    }
    var m :| m in ranks.Values && forall x :: x in ranks.Values ==> m <= x;
    m
  }

  /** Highest score first, then best single rank, then id. */
  predicate Better(a: Fused, b: Fused) {
    a.score > b.score ||
    (a.score == b.score &&
     (BestRank(a.ranks) < BestRank(b.ranks) || (BestRank(a.ranks) == BestRank(b.ranks) && Alphabetical(a.key, b.key))))
  }

  function Entries(cfg: Config, lists: seq<Ranking>, ids: seq<string>): seq<Fused> {
    seq(|ids|, i requires 0 <= i < |ids| => Entry(cfg, lists, ids[i]))
  }

  function Fuse(cfg: Config, lists: seq<Ranking>): seq<Fused> {
    Sort(Better, Entries(cfg, lists, Seen(lists)))
  }

  // ----- the accumulating loop -----

  /** The dictionary after some lists: exactly the ids seen, each with its own running entry. */
  ghost predicate Holds(cfg: Config, table: map<string, Fused>, seen: seq<string>, lists: seq<Ranking>) {
    && seen == Seen(lists)
    && (forall id :: id in table <==> id in seen)
    && (forall id :: id in table ==> table[id] == Entry(cfg, lists, id))
  }

  lemma {:induction false} Unseen(cfg: Config, lists: seq<Ranking>, id: string)
    requires id !in Seen(lists)
    ensures Entry(cfg, lists, id) == Fused(id, 0.0, map[], map[])
  {
    if lists != [] {
      var n := |lists| - 1;
      AddAllIsUnion(Seen(lists[..n]), lists[n].ids, id);
      Unseen(cfg, lists[..n], id);
      AbsentScoresNothing(cfg, lists[n].name, lists[n].ids, id);
    }
  }

  lemma {:induction false} AbsentScoresNothing(cfg: Config, name: string, ids: seq<string>, id: string)
    requires id !in ids
    ensures ScoreIn(cfg, name, ids, id) == 0.0 && RankIn(ids, id) == 0
  {
    if ids != [] {
      AbsentScoresNothing(cfg, name, ids[..|ids| - 1], id);
    }
  }

  /** Starting on a list changes nothing yet. */
  lemma EmptyListChangesNothing(cfg: Config, table: map<string, Fused>, seen: seq<string>, lists: seq<Ranking>, name: string)
    requires Holds(cfg, table, seen, lists)
    ensures Holds(cfg, table, seen, lists + [Ranking(name, [])])
  {
    var next := lists + [Ranking(name, [])];
    assert next[..|lists|] == lists;
  }

  function Visit(cfg: Config, table: map<string, Fused>, name: string, rank: nat, id: string): map<string, Fused>
    requires rank > 0
  {
    var entry := if id in table then table[id] else Fused(id, 0.0, map[], map[]);
    var share := Share(cfg, name, rank);
    table[id := Fused(id, entry.score + share, entry.ranks[name := rank], entry.contributions[name := share])]
  }

  /** One id of one list. */
  lemma EntryAfterVisit(cfg: Config, lists: seq<Ranking>, name: string, ids: seq<string>, id: string, other: string)
    ensures var was, now := Entry(cfg, lists + [Ranking(name, ids)], other), Entry(cfg, lists + [Ranking(name, ids + [id])], other);
            var share := Share(cfg, name, |ids| + 1);
            now == if other == id
                   then Fused(id, was.score + share, was.ranks[name := |ids| + 1], was.contributions[name := share])
                   else was
  {
    var a, b := lists + [Ranking(name, ids)], lists + [Ranking(name, ids + [id])];
    assert a[..|lists|] == lists && b[..|lists|] == lists;
    assert (ids + [id])[..|ids|] == ids;
  }

  lemma SeenAfterVisit(lists: seq<Ranking>, name: string, ids: seq<string>, id: string)
    ensures Seen(lists + [Ranking(name, ids + [id])]) == AddNew(Seen(lists + [Ranking(name, ids)]), id)
  {
    var a, b := lists + [Ranking(name, ids)], lists + [Ranking(name, ids + [id])];
    assert a[..|lists|] == lists && b[..|lists|] == lists;
    assert (ids + [id])[..|ids|] == ids;
  }

  /** What the visit leaves in the table for one id. */
  lemma VisitedEntry(cfg: Config, table: map<string, Fused>, lists: seq<Ranking>, name: string, ids: seq<string>, id: string, other: string)
    requires id in table ==> table[id] == Entry(cfg, lists + [Ranking(name, ids)], id)
    requires id !in table ==> id !in Seen(lists + [Ranking(name, ids)])
    requires other == id || (other in table && table[other] == Entry(cfg, lists + [Ranking(name, ids)], other))
    ensures Visit(cfg, table, name, |ids| + 1, id)[other] == Entry(cfg, lists + [Ranking(name, ids + [id])], other)
  {
    if id !in table {
      Unseen(cfg, lists + [Ranking(name, ids)], id);
    }
    EntryAfterVisit(cfg, lists, name, ids, id, other);
  }

  lemma VisitKeepsHolding(cfg: Config, table: map<string, Fused>, seen: seq<string>, lists: seq<Ranking>, name: string, ids: seq<string>, id: string)
    requires Holds(cfg, table, seen, lists + [Ranking(name, ids)])
    ensures Holds(cfg, Visit(cfg, table, name, |ids| + 1, id), AddNew(seen, id), lists + [Ranking(name, ids + [id])])
  {
    var after := Visit(cfg, table, name, |ids| + 1, id);
    SeenAfterVisit(lists, name, ids, id);
    forall other | other in after
      ensures after[other] == Entry(cfg, lists + [Ranking(name, ids + [id])], other)
    {
      VisitedEntry(cfg, table, lists, name, ids, id, other);
    }
  }

  /** The inner loop: one retriever's list. */
  method AccumulateList(cfg: Config, table: map<string, Fused>, seen: seq<string>, ghost lists: seq<Ranking>, next: Ranking)
    returns (table': map<string, Fused>, seen': seq<string>)
    requires Holds(cfg, table, seen, lists)
    ensures Holds(cfg, table', seen', lists + [next])
  {
    table', seen' := table, seen;
    EmptyListChangesNothing(cfg, table, seen, lists, next.name);
    for j := 0 to |next.ids|
      invariant Holds(cfg, table', seen', lists + [Ranking(next.name, next.ids[..j])])
    {
      VisitKeepsHolding(cfg, table', seen', lists, next.name, next.ids[..j], next.ids[j]);
      assert next.ids[..j] + [next.ids[j]] == next.ids[..j + 1];
      table' := Visit(cfg, table', next.name, j + 1, next.ids[j]);
      seen' := AddNew(seen', next.ids[j]);
    }
    assert next.ids[..|next.ids|] == next.ids;
  }

  /** The dictionary's values in insertion order. */
  function Values(table: map<string, Fused>, seen: seq<string>): seq<Fused>
    requires forall id :: id in table <==> id in seen
  {
    seq(|seen|, i requires 0 <= i < |seen| => (assert seen[i] in seen; table[seen[i]]))
  }

  lemma ValuesAreEntries(cfg: Config, table: map<string, Fused>, seen: seq<string>, lists: seq<Ranking>)
    requires Holds(cfg, table, seen, lists)
    ensures Values(table, seen) == Entries(cfg, lists, seen)
  {
    forall i | 0 <= i < |seen|
      ensures Values(table, seen)[i] == Entry(cfg, lists, seen[i])
    {
      assert seen[i] in seen;
    }
  }

  method ReciprocalRankFusion(cfg: Config, lists: seq<Ranking>) returns (result: seq<Fused>)
    ensures result == Fuse(cfg, lists)
  {
    var accumulated: map<string, Fused> := map[];
    var seen: seq<string> := [];
    for i := 0 to |lists|
      invariant Holds(cfg, accumulated, seen, lists[..i])
    {
      accumulated, seen := AccumulateList(cfg, accumulated, seen, lists[..i], lists[i]);
      assert lists[..i] + [lists[i]] == lists[..i + 1];
    }
    assert lists[..|lists|] == lists;
    ValuesAreEntries(cfg, accumulated, seen, lists);
    return Sort(Better, Values(accumulated, seen));
  }
}
