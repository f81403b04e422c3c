/**
 Assembling retrieved evidence into a budgeted context block
 (`backend/src/jst_api/knowledge/context.py`). Scanning, neutralising, tokenising and rendering a
 block are given functions.
 */
module Context {
  import opened Wrappers

  type EvidenceId = id: string | id != "" witness "e"

  datatype Document = Document(id: EvidenceId, content: string, flags: seq<string>)

  datatype Scan = Scan(quarantine: bool, suspicious: bool, rules: seq<string>)

  datatype Tools = Tools(
    scan: string -> Scan,
    neutralise: string -> string,
    tokens: string -> seq<string>,
    block: (nat, Document) -> string,
    fence: (string, string) -> string)

  datatype Audit = Audit(
    included: seq<EvidenceId>,
    duplicates: seq<(EvidenceId, EvidenceId)>,
    overBudget: seq<EvidenceId>,
    quarantined: seq<(EvidenceId, seq<string>)>,
    tokens: nat)

  const NEAR_DUPLICATE_THRESHOLD := 0.82
  const SHINGLE := 5

  function ApproxTokens(text: string): nat {
    if |text| / 4 > 1 then |text| / 4 else 1
  }

  /** Windows of five tokens; a shorter text is one window, an empty one none. */
  function Shingles(tokens: seq<string>): set<seq<string>> {
    if tokens == [] then {}
    else if |tokens| < SHINGLE then {tokens}
    else set i | 0 <= i <= |tokens| - SHINGLE :: Window(tokens, i)
  }

  function Window(tokens: seq<string>, i: nat): seq<string>
    requires i + SHINGLE <= |tokens|
  {
    tokens[i..i + SHINGLE]
  }

  function Jaccard(a: set<seq<string>>, b: set<seq<string>>): real {
    if a == {} || b == {} then 0.0 else
    assert |a + b| > 0 by {
      var x :| x in a;
      assert x in a + b;
    }
    |a * b| as real / |a + b| as real
  }

  function ShinglesOf(tools: Tools, doc: Document): set<seq<string>> {
    Shingles(tools.tokens(doc.content))
  }

  /** The two documents say the same thing. */
  predicate Near(tools: Tools, a: Document, b: Document) {
    Jaccard(ShinglesOf(tools, a), ShinglesOf(tools, b)) >= NEAR_DUPLICATE_THRESHOLD
  }

  // ----- near-duplicates -----

  type Nearness = (Document, Document) -> bool

  /** `Near` as the relation the functions below are given; none of them depends on which relation that is. */
  function Similarity(tools: Tools): Nearness {
    (a, b) => Near(tools, a, b)
  }

  /** The position of the first kept document near `doc`, or the length of `kept` when there is none. */
  function FirstNear(near: Nearness, kept: seq<Document>, doc: Document): (k: nat)
    ensures k <= |kept|
    ensures k < |kept| ==> near(doc, kept[k])
    ensures forall j :: 0 <= j < k ==> !near(doc, kept[j])
  {
    if kept == [] then 0
    else if near(doc, kept[0]) then 0
    else 1 + FirstNear(near, kept[1..], doc)
  }

  lemma FirstNearIs(near: Nearness, kept: seq<Document>, doc: Document, k: nat)
    requires k <= |kept|
    requires k < |kept| ==> near(doc, kept[k])
    requires forall j :: 0 <= j < k ==> !near(doc, kept[j])
    ensures FirstNear(near, kept, doc) == k
  {
  }

  function KeptOf(near: Nearness, docs: seq<Document>): seq<Document> {
    if docs == [] then [] else
    var n := |docs| - 1;
    var kept := KeptOf(near, docs[..n]);
    if FirstNear(near, kept, docs[n]) < |kept| then kept else kept + [docs[n]]
  }

  function DroppedOf(near: Nearness, docs: seq<Document>): seq<(EvidenceId, EvidenceId)> {
    if docs == [] then [] else
    var n := |docs| - 1;
    var kept, dropped := KeptOf(near, docs[..n]), DroppedOf(near, docs[..n]);
    var k := FirstNear(near, kept, docs[n]);
    if k < |kept| then dropped + [(docs[n].id, kept[k].id)] else dropped
  }

  method FindDuplicate(near: Nearness, kept: seq<Document>, doc: Document) returns (duplicateOf: Option<EvidenceId>)
    ensures var k := FirstNear(near, kept, doc);
            duplicateOf == if k < |kept| then Some(kept[k].id) else None
  {
    var k := 0;
    while k < |kept|
      invariant k <= |kept|
      invariant forall j :: 0 <= j < k ==> !near(doc, kept[j])
    {
      if near(doc, kept[k]) {
        FirstNearIs(near, kept, doc, k);
        return Some(kept[k].id);
      }
      k := k + 1;
    }
    FirstNearIs(near, kept, doc, k);
    return None;
  }

  method Deduplicate(near: Nearness, docs: seq<Document>) returns (kept: seq<Document>, dropped: seq<(EvidenceId, EvidenceId)>)
    ensures kept == KeptOf(near, docs) && dropped == DroppedOf(near, docs)
  {
    kept, dropped := [], [];
    for i := 0 to |docs|
      invariant kept == KeptOf(near, docs[..i]) && dropped == DroppedOf(near, docs[..i])
    {
      assert docs[..i + 1][..i] == docs[..i];
      var duplicateOf := FindDuplicate(near, kept, docs[i]);
      if duplicateOf.Some? {
        dropped := dropped + [(docs[i].id, duplicateOf.value)];
      } else {
        kept := kept + [docs[i]];
      }
    }
    assert docs[..|docs|] == docs;
  }

  // ----- quarantine -----

  function Screened(tools: Tools, doc: Document): Document {
    var scan := tools.scan(doc.content);
    if scan.suspicious then Document(doc.id, tools.neutralise(doc.content), scan.rules) else doc
  }

  function SafeOf(tools: Tools, docs: seq<Document>): seq<Document> {
    if docs == [] then [] else
    var n := |docs| - 1;
    if tools.scan(docs[n].content).quarantine then SafeOf(tools, docs[..n])
    else SafeOf(tools, docs[..n]) + [Screened(tools, docs[n])]
  }

  function QuarantinedOf(tools: Tools, docs: seq<Document>): seq<(EvidenceId, seq<string>)> {
    if docs == [] then [] else
    var n := |docs| - 1;
    var scan := tools.scan(docs[n].content);
    if scan.quarantine then QuarantinedOf(tools, docs[..n]) + [(docs[n].id, scan.rules)] else QuarantinedOf(tools, docs[..n])
  }

  method Quarantine(tools: Tools, docs: seq<Document>)
    returns (safe: seq<Document>, quarantined: seq<(EvidenceId, seq<string>)>)
    ensures safe == SafeOf(tools, docs) && quarantined == QuarantinedOf(tools, docs)
  {
    safe, quarantined := [], [];
    for i := 0 to |docs|
      invariant safe == SafeOf(tools, docs[..i]) && quarantined == QuarantinedOf(tools, docs[..i])
    {
      assert docs[..i + 1][..i] == docs[..i];
      var scan := tools.scan(docs[i].content);
      if scan.quarantine {
        quarantined := quarantined + [(docs[i].id, scan.rules)];
        continue;
      }
      safe := safe + [Screened(tools, docs[i])];
    }
    assert docs[..|docs|] == docs;
  }

  // ----- the budget -----

  /** The cost of the first `n` blocks. */
  function CostOf(tools: Tools, docs: seq<Document>, n: nat): nat
    requires n <= |docs|
  {
    if n == 0 then 0 else CostOf(tools, docs, n - 1) + ApproxTokens(tools.block(n, docs[n - 1]))
  }

  /** `n` blocks may be included: they fit, or there is at most one. */
  predicate Fits(tools: Tools, docs: seq<Document>, budget: int, n: nat)
    requires n <= |docs|
  {
    n <= 1 || CostOf(tools, docs, n) <= budget
  }

  function Ids(docs: seq<Document>): seq<EvidenceId> {
    seq(|docs|, i requires 0 <= i < |docs| => docs[i].id)
  }

  /** Best-ranked first, until the next block would not fit. */
  method FillToBudget(tools: Tools, docs: seq<Document>, budget: int) returns (n: nat, used: nat, lines: seq<string>)
    ensures n <= |docs| && Fits(tools, docs, budget, n)
    ensures n < |docs| ==> !Fits(tools, docs, budget, n + 1)
    ensures used == CostOf(tools, docs, n) && lines == Blocks(tools, docs[..n])
  {
    n, used, lines := 0, 0, [];
    while n < |docs|
      invariant n <= |docs| && Fits(tools, docs, budget, n) && used == CostOf(tools, docs, n)
      invariant lines == Blocks(tools, docs[..n])
    {
      var block := tools.block(n + 1, docs[n]);
      var cost := ApproxTokens(block);
      if used + cost > budget && n > 0 {
        break;
      }
      assert Blocks(tools, docs[..n + 1]) == Blocks(tools, docs[..n]) + [block];
      n, used, lines := n + 1, used + cost, lines + [block];
    }
  }

  /** How many of the deduplicated documents are included. */
  function IncludedCount(tools: Tools, docs: seq<Document>, budget: int, n: nat): (c: nat)
    requires n <= |docs|
    ensures c <= n
  {
    if n == 0 then 0
    else if Fits(tools, docs, budget, n) then n
    else IncludedCount(tools, docs, budget, n - 1)
  }

  function Blocks(tools: Tools, docs: seq<Document>): seq<string> {
    seq(|docs|, i requires 0 <= i < |docs| => tools.block(i + 1, docs[i]))
  }

  /** `"\n\n".join(lines)`. */
  function Joined(lines: seq<string>): string {
    if lines == [] then ""
    else if |lines| == 1 then lines[0]
    else Joined(lines[..|lines| - 1]) + "\n\n" + lines[|lines| - 1]
  }

  const NOTHING_RETRIEVED := "(no evidence retrieved for this query)"

  function Rendered(tools: Tools, header: string, lines: seq<string>): string {
    tools.fence(header, if lines == [] then NOTHING_RETRIEVED else Joined(lines))
  }

  function Assembled(tools: Tools, docs: seq<Document>, budget: int, header: string): (seq<Document>, string, Audit) {
    var deduped := KeptOf(Similarity(tools), SafeOf(tools, docs));
    var n := IncludedCount(tools, deduped, budget, |deduped|);
    (deduped[..n],
     Rendered(tools, header, Blocks(tools, deduped[..n])),
     Audit(Ids(deduped[..n]), DroppedOf(Similarity(tools), SafeOf(tools, docs)), Ids(deduped[n..]), QuarantinedOf(tools, docs),
           CostOf(tools, deduped, n)))
  }

  method AssembleEvidenceContext(tools: Tools, docs: seq<Document>, budget: int, header: string)
    returns (evidence: seq<Document>, block: string, audit: Audit)
    ensures (evidence, block, audit) == Assembled(tools, docs, budget, header)
  {
    var safe, quarantined := Quarantine(tools, docs);
    var deduped, dropped := Deduplicate(Similarity(tools), safe);
    var n, used, lines := FillToBudget(tools, deduped, budget);
    CountIsTheLargestFit(tools, deduped, budget, n);
    evidence := deduped[..n];
    block := Rendered(tools, header, lines);
    audit := Audit(Ids(evidence), dropped, Ids(deduped[n..]), quarantined, used);
  }

  lemma {:induction false} CostGrows(tools: Tools, docs: seq<Document>, m: nat, n: nat)
    requires m <= n <= |docs|
    ensures CostOf(tools, docs, m) + (n - m) <= CostOf(tools, docs, n)
  {
    if m < n {
      CostGrows(tools, docs, m, n - 1);
    }
  }

  lemma FitsIsDownwardClosed(tools: Tools, docs: seq<Document>, budget: int, m: nat, n: nat)
    requires m <= n <= |docs| && Fits(tools, docs, budget, n)
    ensures Fits(tools, docs, budget, m)
  {
    CostGrows(tools, docs, m, n);
  }

  /** The first point at which the next block does not fit is the largest number of blocks that do. */
  lemma CountIsTheLargestFit(tools: Tools, docs: seq<Document>, budget: int, n: nat)
    requires n <= |docs| && Fits(tools, docs, budget, n)
    requires n < |docs| ==> !Fits(tools, docs, budget, n + 1)
    ensures IncludedCount(tools, docs, budget, |docs|) == n
  {
    LargestFit(tools, docs, budget, n, |docs|);
  }

  lemma {:induction false} LargestFit(tools: Tools, docs: seq<Document>, budget: int, n: nat, m: nat)
    requires n <= m <= |docs| && Fits(tools, docs, budget, n)
    requires n < |docs| ==> !Fits(tools, docs, budget, n + 1)
    ensures IncludedCount(tools, docs, budget, m) == n
  {
    if m > n {
      if Fits(tools, docs, budget, m) {
        FitsIsDownwardClosed(tools, docs, budget, n + 1, m);
      }
      LargestFit(tools, docs, budget, n, m - 1);
    }
  }
}
