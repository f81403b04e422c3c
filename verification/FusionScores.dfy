/** What the numbers in a fused result are, and when agreement between two retrievers outweighs a single high rank. */
module FusionScores {
  import opened Sorting
  import opened Subsequences
  import opened Rounding
  import opened Fusion
  import opened FusionLaws

  // ----- the reported numbers -----

  /** A retriever is reported with a rank if and only if it is with a contribution, which times `k + rank` is its weight. */
  ghost predicate Accounted(cfg: Config, ranks: map<string, nat>, contributions: map<string, real>) {
    && ranks.Keys == contributions.Keys
    && forall name :: name in ranks ==>
         contributions[name] * (cfg.k + ranks[name]) as real == (if name in cfg.weights then cfg.weights[name] else 1.0)
  }

  lemma ShareTimesRank(cfg: Config, name: string, rank: nat)
    requires rank > 0
    ensures Share(cfg, name, rank) * (cfg.k + rank) as real == (if name in cfg.weights then cfg.weights[name] else 1.0)
  {
    Undivided(Weight(cfg, name), (cfg.k + rank) as real);
  }

  lemma OneMoreAccounted(cfg: Config, ranks: map<string, nat>, contributions: map<string, real>, name: string, rank: nat)
    requires Accounted(cfg, ranks, contributions)
    ensures Accounted(cfg, if rank > 0 then ranks[name := rank] else ranks,
                      if rank > 0 then contributions[name := Share(cfg, name, rank)] else contributions)
  {
    if rank > 0 {
      ShareTimesRank(cfg, name, rank);
    }
  }

  lemma {:induction false} EntryIsAccounted(cfg: Config, lists: seq<Ranking>, id: string)
    ensures Accounted(cfg, Ranks(lists, id), Contributions(cfg, lists, id))
  {
    if lists != [] {
      var n := |lists| - 1;
      EntryIsAccounted(cfg, lists[..n], id);
      OneMoreAccounted(cfg, Ranks(lists[..n], id), Contributions(cfg, lists[..n], id), lists[n].name, RankIn(lists[n].ids, id));
    }
  }

  /** Every result carries, for each retriever that returned it, `weight / (k + rank)`. */
  lemma ResultsAreAccounted(cfg: Config, lists: seq<Ranking>, f: Fused)
    requires f in Fuse(cfg, lists)
    ensures Accounted(cfg, f.ranks, f.contributions)
  {
    FuseElements(cfg, lists, f);
    EntryIsAccounted(cfg, lists, f.key);
  }

  // ----- the order -----

  /** The best single rank. */
  ghost predicate AtBest(ranks: map<string, nat>, m: nat) {
    (exists name :: name in ranks && ranks[name] == m) && forall name :: name in ranks ==> m <= ranks[name]
  }

  lemma BestIsBestRank(ranks: map<string, nat>, m: nat)
    requires AtBest(ranks, m)
    ensures m == BestRank(ranks)
  {
    BestRankIs(ranks);
  }

  /** Of two results the earlier has the higher score, or else the better single rank, or else the smaller id. */
  lemma ResultsAreOrdered(cfg: Config, lists: seq<Ranking>, i: nat, j: nat, m: nat, n: nat)
    requires i < j < |Fuse(cfg, lists)|
    requires AtBest(Fuse(cfg, lists)[i].ranks, m) && AtBest(Fuse(cfg, lists)[j].ranks, n)
    ensures var f, g := Fuse(cfg, lists)[i], Fuse(cfg, lists)[j];
            || f.score > g.score
            || (f.score == g.score && m < n)
            || (f.score == g.score && m == n && f.key != g.key && exists p :: SmallerAt(f.key, g.key, p))
  {
    var f, g := Fuse(cfg, lists)[i], Fuse(cfg, lists)[j];
    FuseIsDistinctUnion(cfg, lists);
    assert Better(f, g);
    BestIsBestRank(f.ranks, m);
    BestIsBestRank(g.ranks, n);
    AlphabeticalIff(f.key, g.key);
    ResultKeysDiffer(cfg, lists, i, j);
  }

  // ----- two retrievers agreeing against one -----

  lemma PositiveThree(p: real, q: real, m: real)
    requires p > 0.0 && q > 0.0 && m > 0.0
    ensures p * q * m > 0.0
  {
    assert p * q > 0.0;
  }

  /** `gain`, the lead of `w/p + w/q` over `w/m`, cleared of its fractions. */
  lemma LeadCleared(w: real, p: real, q: real, m: real)
    requires p > 0.0 && q > 0.0 && m > 0.0
    ensures (w / p + w / q - w / m) * (p * q * m) == w * (m * (p + q) - p * q)
  {
    var a, b, c := w / p, w / q, w / m;
    Undivided(w, p);
    Undivided(w, q);
    Undivided(w, m);
    assert a * (p * q * m) == (a * p) * (q * m);
    assert b * (p * q * m) == (b * q) * (p * m);
    assert c * (p * q * m) == (c * m) * (p * q);
    assert w * (q * m) + w * (p * m) - w * (p * q) == w * (m * (p + q) - p * q);
  }

  lemma SameSign(x: real, d: real, y: real, w: real)
    requires d > 0.0 && w > 0.0 && x * d == w * y
    ensures x > 0.0 <==> y > 0.0
    ensures x < 0.0 <==> y < 0.0
  {
    ProductSign(x, d);
    ProductSign(y, w);
  }

  lemma ProductSign(x: real, d: real)
    requires d > 0.0
    ensures x > 0.0 <==> x * d > 0.0
    ensures x < 0.0 <==> x * d < 0.0
  {
  }

  function ShareOf(cfg: Config, list: Ranking, id: string): real {
    if RankIn(list.ids, id) > 0 then Share(cfg, list.name, RankIn(list.ids, id)) else 0.0
  }

  lemma TwoListsScore(cfg: Config, a: Ranking, b: Ranking, id: string)
    requires Distinct(a.ids) && Distinct(b.ids)
    ensures Score(cfg, [a, b], id) == ShareOf(cfg, a, id) + ShareOf(cfg, b, id)
  {
    var lists := [a, b];
    assert lists[..1] == [a] && lists[..1][..0] == [];
    assert Score(cfg, lists[..1], id) == Score(cfg, [], id) + ScoreIn(cfg, a.name, a.ids, id);
    ScoreInDistinct(cfg, a.name, a.ids, id);
    ScoreInDistinct(cfg, b.name, b.ids, id);
  }

  /** Ranks `r` and `s` in two lists of one weight outscore rank `t` in one of them if and only if the fractions say so. */
  lemma AgreementOutscoresIff(cfg: Config, a: Ranking, b: Ranking, d: string, e: string)
    requires Distinct(a.ids) && Distinct(b.ids) && Weight(cfg, a.name) == Weight(cfg, b.name) > 0.0
    requires d in a.ids && d in b.ids && e in a.ids && e !in b.ids
    ensures var p, q, m := cfg.k + RankIn(a.ids, d), cfg.k + RankIn(b.ids, d), cfg.k + RankIn(a.ids, e);
            && (Score(cfg, [a, b], d) > Score(cfg, [a, b], e) <==> m * (p + q) > p * q)
            && (Score(cfg, [a, b], d) < Score(cfg, [a, b], e) <==> m * (p + q) < p * q)
  {
    TwoListsScore(cfg, a, b, d);
    TwoListsScore(cfg, a, b, e);
    ScoreInDistinct(cfg, a.name, a.ids, d);
    ScoreInDistinct(cfg, b.name, b.ids, d);
    ScoreInDistinct(cfg, a.name, a.ids, e);
    ScoreInDistinct(cfg, b.name, b.ids, e);
    var p, q, m := cfg.k + RankIn(a.ids, d), cfg.k + RankIn(b.ids, d), cfg.k + RankIn(a.ids, e);
    PairAgainstOne(Weight(cfg, a.name), p, q, m);
  }

  lemma PairAgainstOne(w: real, p: nat, q: nat, m: nat)
    requires w > 0.0 && p > 0 && q > 0 && m > 0
    ensures w / p as real + w / q as real > w / m as real <==> m * (p + q) > p * q
    ensures w / p as real + w / q as real < w / m as real <==> m * (p + q) < p * q
  {
    var lead := w / p as real + w / q as real - w / m as real;
    LeadCleared(w, p as real, q as real, m as real);
    PositiveThree(p as real, q as real, m as real);
    ClearedInWhole(p, q, m);
    SameSign(lead, p as real * q as real * m as real, (m * (p + q) - p * q) as real, w);
  }

  lemma ClearedInWhole(p: nat, q: nat, m: nat)
    ensures (m * (p + q) - p * q) as real == m as real * (p as real + q as real) - p as real * q as real
  {
  }

  /** A document that scores more comes first. */
  lemma HigherScoreComesFirst(cfg: Config, lists: seq<Ranking>, d: string, e: string)
    requires d in Seen(lists) && e in Seen(lists) && Score(cfg, lists, d) > Score(cfg, lists, e)
    ensures exists f :: f in Fuse(cfg, lists) && f.key == d
    ensures exists f :: f in Fuse(cfg, lists) && f.key == e
    ensures Position(Fuse(cfg, lists), d) < Position(Fuse(cfg, lists), e)
  {
    PositionExists(cfg, lists, d);
    PositionExists(cfg, lists, e);
    FuseIsDistinctUnion(cfg, lists);
    StrictlyBetterComesFirst(Fuse(cfg, lists), Position(Fuse(cfg, lists), d), Position(Fuse(cfg, lists), e));
  }

  /**
   With equal positive weights a document at rank `r` of both lists comes before one at rank `t` of the
   first alone when `k + r < 2 (k + t)`, and after it when `k + r > 2 (k + t)`.
   */
  lemma AgreementBeatsOneRank(cfg: Config, a: Ranking, b: Ranking, d: string, e: string)
    requires Distinct(a.ids) && Distinct(b.ids) && Weight(cfg, a.name) == Weight(cfg, b.name) > 0.0
    requires d in a.ids && d in b.ids && e in a.ids && e !in b.ids && RankIn(a.ids, d) == RankIn(b.ids, d)
    ensures exists f :: f in Fuse(cfg, [a, b]) && f.key == d
    ensures exists f :: f in Fuse(cfg, [a, b]) && f.key == e
    ensures var r, t := RankIn(a.ids, d), RankIn(a.ids, e);
            && (cfg.k + r < 2 * (cfg.k + t) ==> Position(Fuse(cfg, [a, b]), d) < Position(Fuse(cfg, [a, b]), e))
            && (cfg.k + r > 2 * (cfg.k + t) ==> Position(Fuse(cfg, [a, b]), e) < Position(Fuse(cfg, [a, b]), d))
  {
    var lists := [a, b];
    SeenIsUnion(lists, d);
    SeenIsUnion(lists, e);
    assert lists[0] == a;
    PositionExists(cfg, lists, d);
    PositionExists(cfg, lists, e);
    AgreementOutscoresIff(cfg, a, b, d, e);
    ScoreInDistinct(cfg, a.name, a.ids, d);
    var p, m := cfg.k + RankIn(a.ids, d), cfg.k + RankIn(a.ids, e);
    HalfOfBoth(p, m);
    if p < 2 * m {
      HigherScoreComesFirst(cfg, lists, d, e);
    } else if p > 2 * m {
      HigherScoreComesFirst(cfg, lists, e, d);
    }
  }

  lemma HalfOfBoth(p: nat, m: nat)
    requires p > 0
    ensures p < 2 * m ==> m * (p + p) > p * p
    ensures p > 2 * m ==> m * (p + p) < p * p
  {
    assert m * (p + p) - p * p == p * (2 * m - p);
    if p < 2 * m {
      assert p * (2 * m - p) > 0;
    } else if p > 2 * m {
      assert p * (p - 2 * m) > 0;
    }
  }
}
