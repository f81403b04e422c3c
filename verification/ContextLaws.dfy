/** Context assembly accounts for every document once, and deduplication is sound, complete and idempotent. */
module ContextLaws {
  import opened Rounding
  import opened Subsequences
  import opened Context

  // ----- deduplication -----

  ghost predicate PairwiseApart(near: Nearness, kept: seq<Document>) {
    forall i, j :: 0 <= i < j < |kept| ==> !near(kept[j], kept[i])
  }

  lemma ApartSnoc(near: Nearness, kept: seq<Document>, doc: Document)
    requires PairwiseApart(near, kept) && FirstNear(near, kept, doc) == |kept|
    ensures PairwiseApart(near, kept + [doc])
  {
  }

  /** Of the kept documents, no later one is near an earlier one. */
  lemma {:induction false} KeptIsApart(near: Nearness, docs: seq<Document>)
    ensures PairwiseApart(near, KeptOf(near, docs))
  {
    if docs != [] {
      var n := |docs| - 1;
      KeptIsApart(near, docs[..n]);
      if FirstNear(near, KeptOf(near, docs[..n]), docs[n]) == |KeptOf(near, docs[..n])| {
        ApartSnoc(near, KeptOf(near, docs[..n]), docs[n]);
      }
    }
  }

  lemma SubseqSnocAt(kept: seq<Document>, docs: seq<Document>, n: nat)
    requires |docs| == n + 1 && IsSubseq(kept, docs[..n])
    ensures IsSubseq(kept, docs) && IsSubseq(kept + [docs[n]], docs)
  {
    SubseqSnoc(kept, docs[..n], docs[n]);
    assert docs == docs[..n] + [docs[n]];
  }

  /** Deduplication only deletes; what is left keeps its order. */
  lemma {:induction false} KeptIsSubseq(near: Nearness, docs: seq<Document>)
    ensures IsSubseq(KeptOf(near, docs), docs)
  {
    if docs != [] {
      var n := |docs| - 1;
      KeptIsSubseq(near, docs[..n]);
      SubseqSnocAt(KeptOf(near, docs[..n]), docs, n);
    }
  }

  /** Similarity is symmetric, so being apart does not depend on which document came first. */
  lemma NearIsSymmetric(tools: Tools, a: Document, b: Document)
    ensures Near(tools, a, b) <==> Near(tools, b, a)
  {
    var x, y := ShinglesOf(tools, a), ShinglesOf(tools, b);
    assert x * y == y * x && x + y == y + x;
  }

  // ----- which documents are near -----

  lemma SomeInEither<T>(a: set<T>, b: set<T>)
    requires a != {}
    ensures |a + b| > 0
  {
    var x :| x in a;
    assert x in a + b;
  }

  /** Near: neither text is empty, and at least 82 in 100 of the windows of either are windows of both. */
  lemma NearIff(tools: Tools, a: Document, b: Document)
    ensures var x, y := ShinglesOf(tools, a), ShinglesOf(tools, b);
            Near(tools, a, b) <==> x != {} && y != {} && 100 * |x * y| >= 82 * |x + y|
  {
    var x, y := ShinglesOf(tools, a), ShinglesOf(tools, b);
    if x != {} && y != {} {
      SomeInEither(x, y);
      QuotientAtLeast(|x * y| as real, |x + y| as real, NEAR_DUPLICATE_THRESHOLD);
    }
  }

  /** `w` is five tokens in a row, or the whole of a shorter text. */
  ghost predicate IsShingle(tokens: seq<string>, w: seq<string>) {
    || (0 < |tokens| < 5 && w == tokens)
    || (|w| == 5 && exists before, after :: tokens == before + w + after)
  }

  lemma WindowIsShingle(before: seq<string>, w: seq<string>, after: seq<string>)
    requires |w| == 5
    ensures w in Shingles(before + w + after)
  {
    assert Window(before + w + after, |before|) == w;
  }

  lemma ShinglesAre(tokens: seq<string>, w: seq<string>)
    ensures w in Shingles(tokens) <==> IsShingle(tokens, w)
  {
    if |tokens| >= 5 && w in Shingles(tokens) {
      var i :| 0 <= i <= |tokens| - 5 && w == Window(tokens, i);
      assert tokens == tokens[..i] + w + tokens[i + 5..];
    }
    if |tokens| >= 5 && IsShingle(tokens, w) {
      var before, after :| tokens == before + w + after;
      WindowIsShingle(before, w, after);
    }
  }

  lemma TextHasShingles(tokens: seq<string>)
    ensures Shingles(tokens) == {} <==> tokens == []
  {
    if |tokens| >= 5 {
      assert Window(tokens, 0) in Shingles(tokens);
    }
  }

  /** Two documents with the same tokens, and at least one, are near. */
  lemma SameTextIsNear(tools: Tools, a: Document, b: Document)
    requires tools.tokens(a.content) == tools.tokens(b.content) != []
    ensures Near(tools, a, b)
  {
    var x := ShinglesOf(tools, a);
    TextHasShingles(tools.tokens(a.content));
    assert x * x == x && x + x == x;
    NearIff(tools, a, b);
  }

  /** So the model never reads the same text twice. */
  lemma EvidenceDoesNotRepeat(tools: Tools, docs: seq<Document>, budget: int, header: string, i: nat, j: nat)
    requires i < j < |Assembled(tools, docs, budget, header).0|
    ensures var evidence := Assembled(tools, docs, budget, header).0;
            tools.tokens(evidence[i].content) == tools.tokens(evidence[j].content) ==> tools.tokens(evidence[i].content) == []
  {
    var evidence := Assembled(tools, docs, budget, header).0;
    KeptIsApart(Similarity(tools), SafeOf(tools, docs));
    if tools.tokens(evidence[i].content) == tools.tokens(evidence[j].content) != [] {
      SameTextIsNear(tools, evidence[j], evidence[i]);
    }
  }

  // ----- what the model may read -----

  /** What becomes of a document that is not hostile: as it came, or neutralised and flagged when suspicious. */
  ghost predicate Admitted(tools: Tools, doc: Document, safe: Document) {
    && !tools.scan(doc.content).quarantine
    && safe.id == doc.id
    && (tools.scan(doc.content).suspicious ==>
          safe.content == tools.neutralise(doc.content) && safe.flags == tools.scan(doc.content).rules)
    && (!tools.scan(doc.content).suspicious ==> safe == doc)
  }

  lemma {:induction false} SafeIsAdmitted(tools: Tools, docs: seq<Document>, safe: Document)
    requires safe in SafeOf(tools, docs)
    ensures exists doc :: doc in docs && Admitted(tools, doc, safe)
  {
    var n := |docs| - 1;
    if safe in SafeOf(tools, docs[..n]) {
      SafeIsAdmitted(tools, docs[..n], safe);
    } else {
      assert docs[n] in docs && Admitted(tools, docs[n], safe);
    }
  }

  /** Everything rendered is one of the given documents, not hostile, and neutralised if it was suspicious. */
  lemma EvidenceIsScreened(tools: Tools, docs: seq<Document>, budget: int, header: string, i: nat)
    requires i < |Assembled(tools, docs, budget, header).0|
    ensures exists doc :: doc in docs && Admitted(tools, doc, Assembled(tools, docs, budget, header).0[i])
  {
    var evidence := Assembled(tools, docs, budget, header).0;
    KeptIsSubseq(Similarity(tools), SafeOf(tools, docs));
    assert evidence[i] in KeptOf(Similarity(tools), SafeOf(tools, docs));
    SubseqMember(KeptOf(Similarity(tools), SafeOf(tools, docs)), SafeOf(tools, docs), evidence[i]);
    SafeIsAdmitted(tools, docs, evidence[i]);
  }

  /** A record is in the quarantine list exactly when a hostile document with these rules was given. */
  lemma {:induction false} QuarantinedIff(tools: Tools, docs: seq<Document>, record: (EvidenceId, seq<string>))
    ensures record in QuarantinedOf(tools, docs) <==>
            exists doc :: doc in docs && tools.scan(doc.content).quarantine && record == (doc.id, tools.scan(doc.content).rules)
  {
    if docs != [] {
      var n := |docs| - 1;
      QuarantinedIff(tools, docs[..n], record);
      assert docs == docs[..n] + [docs[n]];
      if tools.scan(docs[n].content).quarantine && record == (docs[n].id, tools.scan(docs[n].content).rules) {
        assert docs[n] in docs;
      }
    }
  }

  // ----- what is rendered -----

  /** Blocks are set apart by one blank line, and by nothing else. */
  lemma {:induction false} JoinedConcat(a: seq<string>, b: seq<string>)
    requires a != [] && b != []
    ensures Joined(a + b) == Joined(a) + "\n\n" + Joined(b)
  {
    assert (a + b)[..|a + b| - 1] == a + b[..|b| - 1];
    if |b| == 1 {
      assert a + b[..0] == a;
    } else {
      JoinedConcat(a, b[..|b| - 1]);
      assert Joined(a) + "\n\n" + Joined(b[..|b| - 1]) + "\n\n" + b[|b| - 1] == Joined(a) + "\n\n" + (Joined(b[..|b| - 1]) + "\n\n" + b[|b| - 1]);
    }
  }

  /** What is fenced: the blocks of the evidence, numbered from one, or the notice when there is none. */
  lemma RenderedIs(tools: Tools, header: string, evidence: seq<Document>)
    ensures var lines := Blocks(tools, evidence);
            && |lines| == |evidence| && (forall i :: 0 <= i < |lines| ==> lines[i] == tools.block(1 + i, evidence[i]))
            && Rendered(tools, header, lines) ==
               if evidence == [] then tools.fence(header, "(no evidence retrieved for this query)") else tools.fence(header, Joined(lines))
  {
  }

  lemma OneBlockStandsAlone(line: string)
    ensures Joined([line]) == line
  {
  }

  /** The block fences the notice exactly when every document is hostile or none is given. */
  lemma NoticeIff(tools: Tools, docs: seq<Document>, budget: int, header: string)
    ensures Assembled(tools, docs, budget, header).0 == [] <==> forall doc :: doc in docs ==> tools.scan(doc.content).quarantine
  {
    var safe := SafeOf(tools, docs);
    NothingIsSafe(tools, docs);
    if safe != [] {
      FirstIsKept(Similarity(tools), safe);
    }
    CountFits(tools, KeptOf(Similarity(tools), safe), budget, |KeptOf(Similarity(tools), safe)|);
  }

  lemma {:induction false} NothingIsSafe(tools: Tools, docs: seq<Document>)
    ensures SafeOf(tools, docs) == [] <==> forall doc :: doc in docs ==> tools.scan(doc.content).quarantine
  {
    if docs != [] {
      var n := |docs| - 1;
      NothingIsSafe(tools, docs[..n]);
      assert docs[n] in docs && docs == docs[..n] + [docs[n]];
    }
  }

  lemma {:induction false} FirstIsKept(near: Nearness, docs: seq<Document>)
    requires docs != []
    ensures KeptOf(near, docs) != []
  {
    if |docs| > 1 {
      FirstIsKept(near, docs[..|docs| - 1]);
    }
  }

  /** What the duplicate record says: `doc` was near the kept document it names, which was ranked higher. */
  ghost predicate Justified(near: Nearness, docs: seq<Document>, record: (EvidenceId, EvidenceId)) {
    exists i, k :: 0 <= k < i < |docs| && docs[i].id == record.0 && docs[k].id == record.1 &&
                   docs[k] in KeptOf(near, docs[..i]) && near(docs[i], docs[k])
  }

  lemma {:induction false} DropsAreJustified(near: Nearness, docs: seq<Document>, r: nat)
    requires r < |DroppedOf(near, docs)|
    ensures Justified(near, docs, DroppedOf(near, docs)[r])
  {
    var n := |docs| - 1;
    var before := docs[..n];
    if r < |DroppedOf(near, before)| {
      DropsAreJustified(near, before, r);
      var i, k :| 0 <= k < i < |before| && before[i].id == DroppedOf(near, before)[r].0 &&
                  before[k].id == DroppedOf(near, before)[r].1 &&
                  before[k] in KeptOf(near, before[..i]) && near(before[i], before[k]);
      assert before[..i] == docs[..i] && before[i] == docs[i] && before[k] == docs[k];
    } else {
      var kept := KeptOf(near, before);
      var f := FirstNear(near, kept, docs[n]);
      KeptIsSubseq(near, before);
      SubseqMember(kept, before, kept[f]);
      var k :| 0 <= k < n && before[k] == kept[f];
      assert docs[k] == kept[f] && docs[k] in KeptOf(near, docs[..n]);
    }
  }

  /** A document is kept exactly when no kept document before it is near it. */
  lemma KeptWhenApart(near: Nearness, docs: seq<Document>)
    requires docs != []
    ensures var n := |docs| - 1;
            var kept := KeptOf(near, docs[..n]);
            KeptOf(near, docs) == kept + [docs[n]] <==> forall k :: 0 <= k < |kept| ==> !near(docs[n], kept[k])
  {
    var n := |docs| - 1;
    var kept := KeptOf(near, docs[..n]);
    assert |kept + [docs[n]]| == |kept| + 1;
  }

  lemma {:induction false} ApartKeepsAll(near: Nearness, docs: seq<Document>)
    requires PairwiseApart(near, docs)
    ensures KeptOf(near, docs) == docs && DroppedOf(near, docs) == []
  {
    if docs != [] {
      var n := |docs| - 1;
      ApartKeepsAll(near, docs[..n]);
      assert FirstNear(near, docs[..n], docs[n]) == n;
      assert docs == docs[..n] + [docs[n]];
    }
  }

  /** Deduplicating again changes nothing. */
  lemma DeduplicationIsIdempotent(near: Nearness, docs: seq<Document>)
    ensures KeptOf(near, KeptOf(near, docs)) == KeptOf(near, docs)
    ensures DroppedOf(near, KeptOf(near, docs)) == []
  {
    KeptIsApart(near, docs);
    ApartKeepsAll(near, KeptOf(near, docs));
  }

  // ----- accounting -----

  function Firsts<T>(pairs: seq<(EvidenceId, T)>): seq<EvidenceId> {
    seq(|pairs|, i requires 0 <= i < |pairs| => pairs[i].0)
  }

  lemma IdsSnoc(docs: seq<Document>, doc: Document)
    ensures Ids(docs + [doc]) == Ids(docs) + [doc.id]
  {
  }

  lemma FirstsSnoc<T>(pairs: seq<(EvidenceId, T)>, pair: (EvidenceId, T))
    ensures Firsts(pairs + [pair]) == Firsts(pairs) + [pair.0]
  {
  }

  /** One more element on the whole and on either part. */
  lemma SplitSnoc(whole: seq<EvidenceId>, a: seq<EvidenceId>, b: seq<EvidenceId>, x: EvidenceId)
    requires multiset(whole) == multiset(a) + multiset(b)
    ensures multiset(whole + [x]) == multiset(a + [x]) + multiset(b)
    ensures multiset(whole + [x]) == multiset(a) + multiset(b + [x])
  {
  }

  lemma {:induction false} QuarantineAccounts(tools: Tools, docs: seq<Document>)
    ensures multiset(Ids(docs)) == multiset(Ids(SafeOf(tools, docs))) + multiset(Firsts(QuarantinedOf(tools, docs)))
  {
    if docs != [] {
      var n := |docs| - 1;
      QuarantineAccounts(tools, docs[..n]);
      assert docs == docs[..n] + [docs[n]];
      IdsSnoc(docs[..n], docs[n]);
      SplitSnoc(Ids(docs[..n]), Ids(SafeOf(tools, docs[..n])), Firsts(QuarantinedOf(tools, docs[..n])), docs[n].id);
      IdsSnoc(SafeOf(tools, docs[..n]), Screened(tools, docs[n]));
      FirstsSnoc(QuarantinedOf(tools, docs[..n]), (docs[n].id, tools.scan(docs[n].content).rules));
    }
  }

  lemma DeduplicationSnoc(near: Nearness, docs: seq<Document>, doc: Document)
    ensures var kept, dropped := KeptOf(near, docs), DroppedOf(near, docs);
            var k := FirstNear(near, kept, doc);
            && KeptOf(near, docs + [doc]) == (if k < |kept| then kept else kept + [doc])
            && DroppedOf(near, docs + [doc]) == (if k < |kept| then dropped + [(doc.id, kept[k].id)] else dropped)
  {
    assert (docs + [doc])[..|docs|] == docs;
  }

  lemma OneMoreIsAccountedFor(near: Nearness, docs: seq<Document>, doc: Document)
    requires multiset(Ids(docs)) == multiset(Ids(KeptOf(near, docs))) + multiset(Firsts(DroppedOf(near, docs)))
    ensures multiset(Ids(docs + [doc])) ==
            multiset(Ids(KeptOf(near, docs + [doc]))) + multiset(Firsts(DroppedOf(near, docs + [doc])))
  {
    var kept, dropped := KeptOf(near, docs), DroppedOf(near, docs);
    DeduplicationSnoc(near, docs, doc);
    IdsSnoc(docs, doc);
    SplitSnoc(Ids(docs), Ids(kept), Firsts(dropped), doc.id);
    var k := FirstNear(near, kept, doc);
    if k < |kept| {
      FirstsSnoc(dropped, (doc.id, kept[k].id));
    } else {
      IdsSnoc(kept, doc);
    }
  }

  lemma {:induction false} DeduplicationAccounts(near: Nearness, docs: seq<Document>)
    ensures multiset(Ids(docs)) == multiset(Ids(KeptOf(near, docs))) + multiset(Firsts(DroppedOf(near, docs)))
  {
    if docs != [] {
      var n := |docs| - 1;
      DeduplicationAccounts(near, docs[..n]);
      OneMoreIsAccountedFor(near, docs[..n], docs[n]);
      assert docs[..n] + [docs[n]] == docs;
    }
  }

  /** Every document is quarantined, dropped as a duplicate, dropped over budget or included - exactly one of them. */
  lemma EveryDocumentIsAccountedFor(tools: Tools, docs: seq<Document>, budget: int, header: string)
    ensures var (evidence, _, audit) := Assembled(tools, docs, budget, header);
            multiset(Ids(docs)) ==
            multiset(Firsts(audit.quarantined)) + multiset(Firsts(audit.duplicates)) +
            multiset(audit.overBudget) + multiset(audit.included)
  {
    var safe := SafeOf(tools, docs);
    var deduped := KeptOf(Similarity(tools), safe);
    var n := IncludedCount(tools, deduped, budget, |deduped|);
    QuarantineAccounts(tools, docs);
    DeduplicationAccounts(Similarity(tools), safe);
    IdsSplit(deduped, n);
  }

  lemma IdsSplit(docs: seq<Document>, n: nat)
    requires n <= |docs|
    ensures multiset(Ids(docs)) == multiset(Ids(docs[..n])) + multiset(Ids(docs[n..]))
  {
    assert Ids(docs) == Ids(docs[..n]) + Ids(docs[n..]);
  }

  // ----- the budget -----

  /** What is included, and rendered, fits the budget unless it is a single block, and one more block would not fit. */
  lemma IncludedIsTheLongestFit(tools: Tools, docs: seq<Document>, budget: int, header: string)
    ensures var deduped := KeptOf(Similarity(tools), SafeOf(tools, docs));
            var (evidence, block, audit) := Assembled(tools, docs, budget, header);
            && evidence <= deduped && block == Rendered(tools, header, Blocks(tools, evidence))
            && (|evidence| <= 1 || audit.tokens <= budget)
            && (deduped != [] ==> evidence != [])
            && (forall n :: |evidence| < n <= |deduped| ==> CostOf(tools, deduped, n) > budget)
  {
    PrefixIsTheLongestFit(tools, KeptOf(Similarity(tools), SafeOf(tools, docs)), budget);
  }

  lemma PrefixIsTheLongestFit(tools: Tools, docs: seq<Document>, budget: int)
    ensures var c := IncludedCount(tools, docs, budget, |docs|);
            && (c <= 1 || CostOf(tools, docs, c) <= budget)
            && (docs != [] ==> c > 0)
            && (forall n :: c < n <= |docs| ==> CostOf(tools, docs, n) > budget)
  {
    var c := IncludedCount(tools, docs, budget, |docs|);
    CountFits(tools, docs, budget, |docs|);
    forall n | c < n <= |docs|
      ensures CostOf(tools, docs, n) > budget
    {
      assert !Fits(tools, docs, budget, n);
    }
  }

  lemma {:induction false} CountFits(tools: Tools, docs: seq<Document>, budget: int, m: nat)
    requires m <= |docs|
    ensures Fits(tools, docs, budget, IncludedCount(tools, docs, budget, m))
    ensures m > 0 ==> IncludedCount(tools, docs, budget, m) > 0
    ensures forall n :: IncludedCount(tools, docs, budget, m) < n <= m ==> !Fits(tools, docs, budget, n)
  {
    if m > 0 && !Fits(tools, docs, budget, m) {
      CountFits(tools, docs, budget, m - 1);
    }
  }

  function TotalLength(texts: seq<string>): nat {
    if texts == [] then 0 else TotalLength(texts[..|texts| - 1]) + |texts[|texts| - 1]|
  }

  /** The estimate is a token per four characters: at most that and a token a block, at least that less three characters a block. */
  lemma {:induction false} EstimateTracksLength(tools: Tools, docs: seq<Document>, n: nat)
    requires n <= |docs|
    ensures var length, cost := TotalLength(Blocks(tools, docs[..n])), CostOf(tools, docs, n);
            n <= cost && 4 * cost - 4 * n <= length <= 4 * cost + 3 * n
    ensures (forall i :: 0 <= i < n ==> |tools.block(i + 1, docs[i])| >= 4) ==> 4 * CostOf(tools, docs, n) <= TotalLength(Blocks(tools, docs[..n]))
  {
    if n > 0 {
      EstimateTracksLength(tools, docs, n - 1);
      assert Blocks(tools, docs[..n])[..n - 1] == Blocks(tools, docs[..n - 1]);
    }
  }

  /** A larger budget only extends the prefix, and drops nothing that was included. */
  lemma LargerBudgetExtends(tools: Tools, docs: seq<Document>, budget: int, larger: int, header: string)
    requires budget <= larger
    ensures Assembled(tools, docs, budget, header).0 <= Assembled(tools, docs, larger, header).0
  {
    var deduped := KeptOf(Similarity(tools), SafeOf(tools, docs));
    CountFits(tools, deduped, budget, |deduped|);
    CountFits(tools, deduped, larger, |deduped|);
    assert Fits(tools, deduped, larger, IncludedCount(tools, deduped, budget, |deduped|));
  }
}
