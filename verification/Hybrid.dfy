/**
 Hybrid retrieval: two result lists merged in place, fused by rank and truncated
 (`backend/src/jst_api/knowledge/retrievers.py`).
 */
module Hybrid {
  import opened Wrappers
  import opened Subsequences
  import opened Rounding
  import opened Fusion
  import opened FusionLaws

  const DENSE := "dense"
  const KEYWORD := "keyword"

  /** A retrieved chunk; the fields are its mutable metadata, where a missing key and `None` are alike. */
  class Document {
    const id: string
    const content: string
    var denseRank: Option<nat>
    var keywordRank: Option<nat>
    var fusedScore: Option<real>
    var fusionRanks: map<string, nat>
    var retriever: string

    constructor (id: string, content: string, denseRank: Option<nat>, keywordRank: Option<nat>, retriever: string)
      ensures this.id == id && this.content == content && this.retriever == retriever
      ensures this.denseRank == denseRank && this.keywordRank == keywordRank && this.fusedScore == None
    {
      this.id, this.content, this.denseRank, this.keywordRank := id, content, denseRank, keywordRank;
      this.fusedScore, this.fusionRanks, this.retriever := None, map[], retriever;
    }

    function Found(): Hit
      reads this
    {
      Hit(id, denseRank, keywordRank)
    }

    predicate Annotated(item: Fused)
      reads this
    {
      fusedScore == Some(Round(item.score, 1000000)) && fusionRanks == item.ranks && retriever == "hybrid"
    }

    method Annotate(item: Fused)
      modifies this`fusedScore, this`fusionRanks, this`retriever
      ensures Annotated(item)
    {
      fusedScore := Some(Round(item.score, 1000000));
      fusionRanks := item.ranks;
      retriever := "hybrid";
    }

    /** Take over the ranks the same chunk got elsewhere. */
    method MergeProvenance(other: Document)
      modifies this`denseRank, this`keywordRank
      ensures denseRank == Overlay(old(denseRank), other.denseRank)
      ensures keywordRank == Overlay(old(keywordRank), other.keywordRank)
    {
      if other.denseRank.Some? {
        denseRank := other.denseRank;
      }
      if other.keywordRank.Some? {
        keywordRank := other.keywordRank;
      }
    }
  }

  /** What one result says about how a chunk was found. */
  datatype Hit = Hit(id: string, dense: Option<nat>, keyword: Option<nat>)

  function Overlay(was: Option<nat>, now: Option<nat>): Option<nat> {
    if now.Some? then now else was
  }

  // ----- merging -----

  function IdsOf(hits: seq<Hit>): (ids: seq<string>)
    ensures |ids| == |hits|
  {
    seq(|hits|, i requires 0 <= i < |hits| => hits[i].id)
  }

  /** The ranks a chunk ends up with: the latest one each retriever reported. */
  function DenseOf(hits: seq<Hit>, id: string): Option<nat> {
    if hits == [] then None else
    var n := |hits| - 1;
    if hits[n].id == id then Overlay(DenseOf(hits[..n], id), hits[n].dense) else DenseOf(hits[..n], id)
  }

  function KeywordOf(hits: seq<Hit>, id: string): Option<nat> {
    if hits == [] then None else
    var n := |hits| - 1;
    if hits[n].id == id then Overlay(KeywordOf(hits[..n], id), hits[n].keyword) else KeywordOf(hits[..n], id)
  }

  function Snapshot(docs: seq<Document>): (hits: seq<Hit>)
    reads docs
    ensures |hits| == |docs|
    ensures forall i :: 0 <= i < |docs| ==> hits[i] == docs[i].Found()
  {
    seq(|docs|, i requires 0 <= i < |docs| reads docs => docs[i].Found())
  }

  lemma {:induction false} NoHit(hits: seq<Hit>, id: string)
    requires id !in IdsOf(hits)
    ensures DenseOf(hits, id) == None && KeywordOf(hits, id) == None
  {
    if hits != [] {
      var n := |hits| - 1;
      assert IdsOf(hits)[n] == hits[n].id;
      forall i | 0 <= i < n
        ensures IdsOf(hits[..n])[i] != id
      {
        assert IdsOf(hits)[i] == hits[i].id;
      }
      NoHit(hits[..n], id);
    }
  }

  /** The dictionary after the first `i` results: one document per id, the first one, carrying all its ranks. */
  ghost predicate Merged(docs: seq<Document>, hits: seq<Hit>, byId: map<string, Document>, i: nat)
    requires i <= |docs| == |hits|
    reads docs
  {
    && (forall j :: 0 <= j < |docs| ==> docs[j].id == hits[j].id)
    && (forall id :: id in byId ==> Owned(docs, hits, byId[id], id, i))
    && (forall j :: 0 <= j < i ==> hits[j].id in byId)
    && (forall j :: i <= j < |docs| ==> docs[j].Found() == hits[j])
  }

  ghost predicate Owned(docs: seq<Document>, hits: seq<Hit>, doc: Document, id: string, i: nat)
    requires i <= |docs| == |hits|
    reads docs
  {
    && id in IdsOf(hits)
    && IndexIn(IdsOf(hits), id) < i
    && doc == docs[IndexIn(IdsOf(hits), id)]
    && doc.id == id
    && doc.denseRank == DenseOf(hits[..i], id)
    && doc.keywordRank == KeywordOf(hits[..i], id)
  }

  lemma {:induction false} FirstIndex(ids: seq<string>, x: string, i: nat)
    requires i < |ids| && ids[i] == x
    ensures IndexIn(ids, x) <= i
    ensures (forall j :: 0 <= j < i ==> ids[j] != x) ==> IndexIn(ids, x) == i
  {
    if ids[0] != x {
      FirstIndex(ids[1..], x, i - 1);
      if forall j :: 0 <= j < i ==> ids[j] != x {
        forall j | 0 <= j < i - 1
          ensures ids[1..][j] != x
        {
          assert ids[j + 1] != x;
        }
      }
    }
  }

  lemma RanksAfter(hits: seq<Hit>, i: nat, id: string)
    requires i < |hits|
    ensures DenseOf(hits[..i + 1], id) ==
            if hits[i].id == id then Overlay(DenseOf(hits[..i], id), hits[i].dense) else DenseOf(hits[..i], id)
    ensures KeywordOf(hits[..i + 1], id) ==
            if hits[i].id == id then Overlay(KeywordOf(hits[..i], id), hits[i].keyword) else KeywordOf(hits[..i], id)
  {
    assert hits[..i + 1][..i] == hits[..i];
  }

  /** A result whose id is new: nothing was recorded for it, and it is its own first occurrence. */
  lemma NewId(hits: seq<Hit>, i: nat)
    requires i < |hits|
    requires forall j :: 0 <= j < i ==> hits[j].id != hits[i].id
    ensures hits[i].id in IdsOf(hits) && IndexIn(IdsOf(hits), hits[i].id) == i
    ensures DenseOf(hits[..i + 1], hits[i].id) == hits[i].dense
    ensures KeywordOf(hits[..i + 1], hits[i].id) == hits[i].keyword
  {
    assert IdsOf(hits)[i] == hits[i].id;
    FirstIndex(IdsOf(hits), hits[i].id, i);
    NoHit(hits[..i], hits[i].id);
    RanksAfter(hits, i, hits[i].id);
  }

  lemma AddKeepsMerged(docs: seq<Document>, hits: seq<Hit>, byId: map<string, Document>, i: nat)
    requires i < |docs| == |hits| && Merged(docs, hits, byId, i) && docs[i].id !in byId
    ensures Merged(docs, hits, byId[docs[i].id := docs[i]], i + 1)
  {
    NewId(hits, i);
    forall id | id in byId
      ensures Owned(docs, hits, byId[id], id, i + 1)
    {
      RanksAfter(hits, i, id);
    }
  }

  /** A further result for a known id. */
  method MergeInto(docs: seq<Document>, ghost hits: seq<Hit>, byId: map<string, Document>, i: nat)
    requires i < |docs| == |hits| && Distinct(docs) && Merged(docs, hits, byId, i) && docs[i].id in byId
    modifies docs
    ensures Merged(docs, hits, byId, i + 1)
  {
    var existing := byId[docs[i].id];
    ghost var o := IndexIn(IdsOf(hits), docs[i].id);
    existing.MergeProvenance(docs[i]);
    assert forall j :: 0 <= j < |docs| && j != o ==> docs[j].Found() == old(docs[j].Found());
    forall id | id in byId
      ensures Owned(docs, hits, byId[id], id, i + 1)
    {
      assert old(Owned(docs, hits, byId[id], id, i));
      RanksAfter(hits, i, id);
    }
  }

  method MergeAll(docs: seq<Document>, ghost hits: seq<Hit>) returns (byId: map<string, Document>)
    requires Distinct(docs) && hits == Snapshot(docs)
    modifies docs
    ensures Merged(docs, hits, byId, |docs|)
  {
    byId := map[];
    for i := 0 to |docs|
      invariant Merged(docs, hits, byId, i)
    {
      var doc := docs[i];
      if doc.id !in byId {
        AddKeepsMerged(docs, hits, byId, i);
        byId := byId[doc.id := doc];
      } else {
        MergeInto(docs, hits, byId, i);
      }
    }
  }

  // ----- retrieval -----

  /** What each retriever promises of its own list: fresh documents ranked one, two, three, ... */
  ghost predicate RankedDense(docs: seq<Document>)
    reads docs
  {
    forall i :: 0 <= i < |docs| ==> docs[i].denseRank == Some(i + 1) && docs[i].keywordRank == None
  }

  ghost predicate RankedKeyword(docs: seq<Document>)
    reads docs
  {
    forall i :: 0 <= i < |docs| ==> docs[i].keywordRank == Some(i + 1) && docs[i].denseRank == None
  }

  function Lists(dense: seq<string>, keyword: seq<string>): seq<Ranking> {
    [Ranking(DENSE, dense), Ranking(KEYWORD, keyword)]
  }

  /** The hits two well-behaved retrievers produce, keyword results first. */
  function Hits(dense: seq<string>, keyword: seq<string>): (hits: seq<Hit>)
    ensures |hits| == |keyword| + |dense|
  {
    seq(|keyword|, i requires 0 <= i < |keyword| => Hit(keyword[i], None, Some(i + 1))) +
    seq(|dense|, i requires 0 <= i < |dense| => Hit(dense[i], Some(i + 1), None))
  }

  function RankOf(ids: seq<string>, id: string): Option<nat> {
    if RankIn(ids, id) == 0 then None else Some(RankIn(ids, id))
  }

  /** What a delivered document looks like. */
  ghost predicate Delivered(doc: Document, item: Fused, dense: Option<nat>, keyword: Option<nat>)
    reads doc
  {
    && doc.id == item.key
    && doc.denseRank == dense
    && doc.keywordRank == keyword
    && doc.Annotated(item)
  }

  lemma {:induction false} HitsRank(dense: seq<string>, keyword: seq<string>, id: string)
    ensures DenseOf(Hits(dense, keyword), id) == RankOf(dense, id)
    ensures KeywordOf(Hits(dense, keyword), id) == RankOf(keyword, id)
  {
    var hits := Hits(dense, keyword);
    if dense != [] {
      var n := |dense| - 1;
      HitsRank(dense[..n], keyword, id);
      assert hits[..|hits| - 1] == Hits(dense[..n], keyword);
    } else if keyword != [] {
      var n := |keyword| - 1;
      HitsRank(dense, keyword[..n], id);
      assert hits[..|hits| - 1] == Hits(dense, keyword[..n]);
    }
  }

  /** Every fused id is one of the merged ids, and no id is fused twice. */
  lemma FusedIdsAreKnown(cfg: Config, dense: seq<string>, keyword: seq<string>, m: nat, n: nat)
    requires m < n < |Fuse(cfg, Lists(dense, keyword))| || m == n < |Fuse(cfg, Lists(dense, keyword))|
    ensures Fuse(cfg, Lists(dense, keyword))[m].key in keyword + dense
    ensures m < n ==> Fuse(cfg, Lists(dense, keyword))[m].key != Fuse(cfg, Lists(dense, keyword))[n].key
  {
    var fused := Fuse(cfg, Lists(dense, keyword));
    FuseIsDistinctUnion(cfg, Lists(dense, keyword));
    assert fused[m] in fused && fused[n] in fused;
  }

  /** Every fused id was merged, and none comes twice. */
  ghost predicate Known(fused: seq<Fused>, hits: seq<Hit>) {
    && (forall m :: 0 <= m < |fused| ==> fused[m].key in IdsOf(hits))
    && (forall m, n :: 0 <= m < n < |fused| ==> fused[m].key != fused[n].key)
  }

  lemma FusedIsKnown(cfg: Config, dense: seq<string>, keyword: seq<string>)
    ensures Known(Fuse(cfg, Lists(dense, keyword)), Hits(dense, keyword))
  {
    var fused := Fuse(cfg, Lists(dense, keyword));
    assert IdsOf(Hits(dense, keyword)) == keyword + dense;
    forall m | 0 <= m < |fused|
      ensures fused[m].key in keyword + dense
    {
      FusedIdsAreKnown(cfg, dense, keyword, m, m);
    }
    forall m, n | 0 <= m < n < |fused|
      ensures fused[m].key != fused[n].key
    {
      FusedIdsAreKnown(cfg, dense, keyword, m, n);
    }
  }

  lemma MergedHolds(docs: seq<Document>, hits: seq<Hit>, byId: map<string, Document>, id: string)
    requires |docs| == |hits| && Merged(docs, hits, byId, |docs|) && id in IdsOf(hits)
    ensures id in byId && byId[id] in docs && Owned(docs, hits, byId[id], id, |docs|)
  {
    var j := IndexIn(IdsOf(hits), id);
    assert hits[j].id == id;
  }

  /** The first `m` fused ids have each yielded their own document, annotated. */
  ghost predicate Collected(byId: map<string, Document>, fused: seq<Fused>, results: seq<Document>, m: nat)
    requires m <= |fused|
    reads results
  {
    && |results| == m
    && (forall j :: 0 <= j < m ==> fused[j].key in byId && results[j] == byId[fused[j].key])
    && (forall j :: 0 <= j < m ==> results[j].Annotated(fused[j]))
  }

  /** Annotates the document of the next fused id; a fused id without a document would be skipped. */
  method Deliver(docs: seq<Document>, ghost hits: seq<Hit>, byId: map<string, Document>, fused: seq<Fused>, m: nat, done: seq<Document>)
    returns (results: seq<Document>)
    requires |docs| == |hits| && Merged(docs, hits, byId, |docs|) && Known(fused, hits)
    requires m < |fused| && Collected(byId, fused, done, m)
    modifies docs
    ensures Merged(docs, hits, byId, |docs|) && Collected(byId, fused, results, m + 1)
  {
    var item := fused[m];
    MergedHolds(docs, hits, byId, item.key);
    results := done;
    if item.key in byId {
      forall j | 0 <= j < m
        ensures done[j] != byId[item.key]
      {
        MergedHolds(docs, hits, byId, fused[j].key);
      }
      byId[item.key].Annotate(item);
      results := results + [byId[item.key]];
    }
  }

  /** The best `k` of the fused list, annotated in place. */
  method Collect(docs: seq<Document>, ghost hits: seq<Hit>, byId: map<string, Document>, fused: seq<Fused>, k: nat)
    returns (results: seq<Document>)
    requires |docs| == |hits| && Merged(docs, hits, byId, |docs|) && Known(fused, hits)
    modifies docs
    ensures Merged(docs, hits, byId, |docs|) && Collected(byId, fused, results, if k < |fused| then k else |fused|)
  {
    results := [];
    var m := 0;
    while m < k && m < |fused|
      invariant m <= |fused| && m <= k
      invariant Merged(docs, hits, byId, |docs|) && Collected(byId, fused, results, m)
    {
      results := Deliver(docs, hits, byId, fused, m, results);
      m := m + 1;
    }
  }

  method Retrieve(cfg: Config, denseDocs: seq<Document>, keywordDocs: seq<Document>, k: nat) returns (results: seq<Document>)
    requires Distinct(keywordDocs + denseDocs) && RankedDense(denseDocs) && RankedKeyword(keywordDocs)
    modifies denseDocs, keywordDocs
    ensures var dense, keyword := old(IdsOf(Snapshot(denseDocs))), old(IdsOf(Snapshot(keywordDocs)));
            var fused := Fuse(cfg, Lists(dense, keyword));
            && |results| == (if k < |fused| then k else |fused|)
            && forall m :: 0 <= m < |results| ==>
                 Delivered(results[m], fused[m], RankOf(dense, fused[m].key), RankOf(keyword, fused[m].key))
    ensures forall m :: 0 <= m < |results| ==> results[m] in keywordDocs + denseDocs
  {
    var docs := keywordDocs + denseDocs;
    var dense, keyword := IdsOf(Snapshot(denseDocs)), IdsOf(Snapshot(keywordDocs));
    ghost var hits := Hits(dense, keyword);
    assert hits == Snapshot(docs);
    var byId := MergeAll(docs, hits);
    var fused := ReciprocalRankFusion(cfg, Lists(dense, keyword));
    FusedIsKnown(cfg, dense, keyword);
    results := Collect(docs, hits, byId, fused, k);
    assert hits[..|docs|] == hits;
    forall m | 0 <= m < |results|
      ensures results[m] in docs
      ensures Delivered(results[m], fused[m], RankOf(dense, fused[m].key), RankOf(keyword, fused[m].key))
    {
      MergedHolds(docs, hits, byId, fused[m].key);
      HitsRank(dense, keyword, fused[m].key);
    }
  }

  // ----- what a delivered list means -----

  /** A delivered document carries the fused score to six places, the fused ranks, and the mark of hybrid retrieval. */
  lemma AnnotatedIs(doc: Document, item: Fused)
    requires doc.Annotated(item)
    ensures doc.fusedScore.Some? && -0.5 <= 1000000.0 * (doc.fusedScore.value - item.score) <= 0.5
    ensures doc.fusionRanks == item.ranks && doc.retriever == "hybrid"
  {
    RoundIsClose(item.score, 1000000);
  }

  /** A rank is present exactly when that retriever returned the id, and says where. */
  lemma {:induction false} RankIffReturned(ids: seq<string>, id: string)
    ensures RankOf(ids, id).Some? <==> id in ids
    ensures RankOf(ids, id).Some? ==> RankOf(ids, id).value <= |ids| && ids[RankOf(ids, id).value - 1] == id
  {
    if ids != [] {
      RankIffReturned(ids[..|ids| - 1], id);
      assert ids == ids[..|ids| - 1] + [ids[|ids| - 1]];
    }
  }

  /** The fused provenance repeats the two ranks and nothing else. */
  lemma ProvenanceAgrees(dense: seq<string>, keyword: seq<string>, id: string)
    ensures var ranks := Ranks(Lists(dense, keyword), id);
            && ranks.Keys <= {DENSE, KEYWORD}
            && RankOf(dense, id) == (if DENSE in ranks then Some(ranks[DENSE]) else None)
            && RankOf(keyword, id) == (if KEYWORD in ranks then Some(ranks[KEYWORD]) else None)
  {
    var lists := Lists(dense, keyword);
    var first := lists[..1];
    assert first == [Ranking(DENSE, dense)] && first[..0] == [];
    assert Ranks(first[..0], id) == map[];
    assert Ranks(first, id) == (if RankIn(dense, id) > 0 then map[DENSE := RankIn(dense, id)] else map[]);
    assert Ranks(lists, id) ==
           (if RankIn(keyword, id) > 0 then Ranks(first, id)[KEYWORD := RankIn(keyword, id)] else Ranks(first, id));
    assert DENSE[0] != KEYWORD[0];
  }

  function KeysOf(fused: seq<Fused>): seq<string> {
    seq(|fused|, m requires 0 <= m < |fused| => fused[m].key)
  }

  /** The fused list, before truncation, names each id of either retriever exactly once. */
  lemma FusedIsTheUnion(cfg: Config, dense: seq<string>, keyword: seq<string>)
    ensures var fused := Fuse(cfg, Lists(dense, keyword));
            && |fused| == |set id | id in keyword + dense|
            && forall id :: id in keyword + dense <==> id in KeysOf(fused)
  {
    var fused := Fuse(cfg, Lists(dense, keyword));
    var keys := KeysOf(fused);
    var union := set id | id in keyword + dense;
    FusedIsKnown(cfg, dense, keyword);
    forall m | 0 <= m < |keys|
      ensures keys[m] in union
    {
      FusedIdsAreKnown(cfg, dense, keyword, m, m);
    }
    forall id | id in union
      ensures id in keys
    {
      FuseHolds(cfg, dense, keyword, id);
      var m :| 0 <= m < |fused| && fused[m] == Entry(cfg, Lists(dense, keyword), id);
      assert keys[m] == id;
    }
    DistinctFits(keys, union);
    assert union == set id | id in keys;
    DistinctCovers(keys);
  }

  lemma FuseHolds(cfg: Config, dense: seq<string>, keyword: seq<string>, id: string)
    requires id in keyword + dense
    ensures Entry(cfg, Lists(dense, keyword), id) in Fuse(cfg, Lists(dense, keyword))
  {
    var lists := Lists(dense, keyword);
    FuseIsDistinctUnion(cfg, lists);
    assert id in lists[0].ids || id in lists[1].ids;
  }

  lemma {:induction false} DistinctCovers<T>(s: seq<T>)
    requires Distinct(s)
    ensures |set x | x in s| == |s|
  {
    if s != [] {
      var n := |s| - 1;
      DistinctCovers(s[..n]);
      assert (set x | x in s) == (set x | x in s[..n]) + {s[n]};
    }
  }
}
