/** Deferred embedding converges, and an outage loses nothing. */
module IngestLaws {
  import opened Wrappers
  import opened Ingest

  // ----- a pending source always has work left -----

  /** A source waiting for vectors owns a chunk without one. */
  ghost predicate PendingOwes(st: State) {
    forall i :: 0 <= i < |st.sources| && st.sources[i].status == Pending ==> Owes(st.chunks, i)
  }

  lemma {:induction false} WithoutOthers(chunks: seq<Chunk>, source: nat, other: nat)
    requires other != source
    ensures Owes(chunks, other) <==> Owes(Without(chunks, source), other)
  {
    if chunks != [] {
      var n := |chunks| - 1;
      WithoutOthers(chunks[..n], source, other);
      OwesSnoc(chunks[..n], chunks[n], other);
      OwesSnoc(Without(chunks[..n], source), chunks[n], other);
      assert chunks == chunks[..n] + [chunks[n]];
    }
  }

  lemma OwesSnoc(chunks: seq<Chunk>, chunk: Chunk, source: nat)
    ensures Owes(chunks + [chunk], source) <==> Owes(chunks, source) || (chunk.source == source && chunk.vector.None?)
  {
    var both := chunks + [chunk];
    assert both[|chunks|] == chunk;
    if Owes(chunks, source) {
      var i :| 0 <= i < |chunks| && chunks[i].source == source && chunks[i].vector.None?;
      assert both[i] == chunks[i];
    }
  }

  lemma OwesConcat(a: seq<Chunk>, b: seq<Chunk>, source: nat)
    ensures Owes(a + b, source) <==> Owes(a, source) || Owes(b, source)
  {
    if Owes(a, source) {
      var i :| 0 <= i < |a| && a[i].source == source && a[i].vector.None?;
      assert (a + b)[i] == a[i];
    }
    if Owes(b, source) {
      var i :| 0 <= i < |b| && b[i].source == source && b[i].vector.None?;
      assert (a + b)[|a| + i] == b[i];
    }
  }

  lemma NewChunksOwe(embed: Embedder, id: nat, texts: seq<string>, up: bool, source: nat)
    ensures Owes(NewChunks(embed, id, texts, up), source) <==> source == id && !up && texts != []
  {
    if texts != [] {
      assert NewChunks(embed, id, texts, up)[0].source == id;
    }
  }

  /** Storing replaces what the source owes, and leaves the other sources' debts alone. */
  lemma StoreOwes(embed: Embedder, chunks: seq<Chunk>, id: nat, texts: seq<string>, up: bool, source: nat)
    ensures source != id ==> (Owes(Without(chunks, id) + NewChunks(embed, id, texts, up), source) <==> Owes(chunks, source))
    ensures !up && texts != [] ==> Owes(Without(chunks, id) + NewChunks(embed, id, texts, up), id)
  {
    OwesConcat(Without(chunks, id), NewChunks(embed, id, texts, up), source);
    OwesConcat(Without(chunks, id), NewChunks(embed, id, texts, up), id);
    NewChunksOwe(embed, id, texts, up, source);
    NewChunksOwe(embed, id, texts, up, id);
    if source != id {
      WithoutOthers(chunks, id, source);
    }
  }

  /** All but source `id` has its debts in order, and `id` itself is not marked pending. */
  lemma StoreKeepsOwing(embed: Embedder, st: State, id: nat, texts: seq<string>, up: bool)
    requires id < |st.sources| && PendingOwes(st) && st.sources[id].status != Pending
    ensures PendingOwes(Store(embed, st, id, texts, up))
  {
    var after := Store(embed, st, id, texts, up);
    forall i | 0 <= i < |after.sources| && after.sources[i].status == Pending
      ensures Owes(after.chunks, i)
    {
      StoreOwes(embed, st.chunks, id, texts, up, i);
    }
  }

  /** The source is new, had no hash, or has this very hash. */
  predicate TurnsActive(st: State, r: Request) {
    var id := FindSource(st.sources, r.url, r.title);
    id < |st.sources| ==> st.sources[id].hash == None || st.sources[id].hash == Some(r.loaded.hash)
  }

  /** Writing the row touches one source and no chunk. */
  lemma RowWrittenIs(st: State, r: Request)
    requires Accepted(st, r)
    ensures var id, row := FindSource(st.sources, r.url, r.title), RowWritten(st, r);
            && row.chunks == st.chunks
            && row.sources[id].status == (if TurnsActive(st, r) then Active else Changed)
            && forall i :: 0 <= i < |row.sources| && i != id ==> i < |st.sources| && row.sources[i] == st.sources[i]
  {
  }

  lemma PersistKeepsOwing(embed: Embedder, st: State, r: Request, up: bool)
    requires PendingOwes(st)
    ensures PendingOwes(PersistStep(embed, st, r, up))
  {
    if Accepted(st, r) {
      RowWrittenIs(st, r);
      StoreKeepsOwing(embed, RowWritten(st, r), FindSource(st.sources, r.url, r.title), r.loaded.texts, up);
    }
  }

  lemma SelectedAreTouched(chunks: seq<Chunk>, selected: seq<nat>, i: nat)
    requires i < |chunks| && forall k :: 0 <= k < |selected| ==> selected[k] < |chunks|
    ensures i in selected ==> chunks[i].source in SourcesOf(chunks, selected)
  {
    if i in selected {
      var k :| 0 <= k < |selected| && selected[k] == i;
      assert chunks[selected[k]].source in SourcesOf(chunks, selected);
    }
  }

  /** What a source owed and still owes after a pass that did not touch it. */
  lemma UntouchedStillOwes(embed: Embedder, chunks: seq<Chunk>, limit: nat, source: nat)
    requires Owes(chunks, source) && source !in SourcesOf(chunks, Selected(chunks, limit))
    ensures Owes(Filled(embed, chunks, limit), source)
  {
    var i :| 0 <= i < |chunks| && chunks[i].source == source && chunks[i].vector.None?;
    FilledAt(embed, chunks, limit, i);
    SelectedAreTouched(chunks, Selected(chunks, limit), i);
    assert Filled(embed, chunks, limit)[i] == chunks[i];
  }

  lemma EmbedKeepsOwing(embed: Embedder, st: State, limit: nat, up: bool)
    requires PendingOwes(st)
    ensures PendingOwes(EmbedStep(embed, st, limit, up))
  {
    if Selected(st.chunks, limit) != [] && up {
      var touched := SourcesOf(st.chunks, Selected(st.chunks, limit));
      var after := EmbedStep(embed, st, limit, up);
      forall i | 0 <= i < |after.sources| && after.sources[i].status == Pending
        ensures Owes(after.chunks, i)
      {
        if i !in touched {
          UntouchedStillOwes(embed, st.chunks, limit, i);
        }
      }
    }
  }

  /** Over any run of ingestion and embedding passes, with any outages, no source waits for nothing. */
  lemma {:induction false} NoSourceWaitsForNothing(embed: Embedder, st: State, events: seq<Event>)
    requires PendingOwes(st)
    ensures PendingOwes(Run(embed, st, events))
  {
    if events != [] {
      var before, e := events[..|events| - 1], events[|events| - 1];
      NoSourceWaitsForNothing(embed, st, before);
      match e.call
      case Persist(request) => PersistKeepsOwing(embed, Run(embed, st, before), request, e.up);
      case EmbedPending(limit) => EmbedKeepsOwing(embed, Run(embed, st, before), limit, e.up);
    }
  }

  // ----- draining -----

  function Minus(a: nat, b: nat): nat {
    if a < b then 0 else a - b
  }

  lemma {:induction false} PassFills(embed: Embedder, chunks: seq<Chunk>, limit: nat)
    ensures Vectorless(Filled(embed, chunks, limit)) == Minus(Vectorless(chunks), limit)
    ensures |Selected(chunks, limit)| == if Vectorless(chunks) < limit then Vectorless(chunks) else limit
  {
    if chunks != [] {
      var n := |chunks| - 1;
      PassFills(embed, chunks[..n], limit);
      assert Filled(embed, chunks, limit)[..n] == Filled(embed, chunks[..n], limit);
    }
  }

  lemma {:induction false} NoneLeftOwesNothing(chunks: seq<Chunk>)
    ensures Vectorless(chunks) == 0 <==> forall i :: 0 <= i < |chunks| ==> chunks[i].vector.Some?
  {
    if chunks != [] {
      var n := |chunks| - 1;
      NoneLeftOwesNothing(chunks[..n]);
      assert forall i :: 0 <= i < n ==> chunks[..n][i] == chunks[i];
    }
  }

  /** Embedding passes and nothing else, with the provider up or down. */
  ghost predicate OnlyPasses(events: seq<Event>, limit: nat) {
    forall i :: 0 <= i < |events| ==> events[i].call == EmbedPending(limit)
  }

  /** How many of them found the provider up. */
  function Ups(events: seq<Event>): nat {
    if events == [] then 0 else Ups(events[..|events| - 1]) + if events[|events| - 1].up then 1 else 0
  }

  function Left(p: nat, limit: nat, n: nat): nat {
    if n == 0 then p else Minus(Left(p, limit, n - 1), limit)
  }

  lemma {:induction false} LeftIs(p: nat, limit: nat, n: nat)
    ensures Left(p, limit, n) == Minus(p, n * limit)
  {
    if n > 0 {
      LeftIs(p, limit, n - 1);
      OnePassMore(n, limit);
    }
  }

  lemma {:induction false} PassesDrain(embed: Embedder, st: State, limit: nat, events: seq<Event>)
    requires OnlyPasses(events, limit)
    ensures Vectorless(Run(embed, st, events).chunks) == Left(Vectorless(st.chunks), limit, Ups(events))
  {
    if events != [] {
      var before, e := events[..|events| - 1], events[|events| - 1];
      PassesDrain(embed, st, limit, before);
      OnePass(embed, Run(embed, st, before), limit, e);
    }
  }

  lemma OnePass(embed: Embedder, st: State, limit: nat, e: Event)
    requires e.call == EmbedPending(limit)
    ensures Vectorless(Apply(embed, st, e).chunks) == if e.up then Minus(Vectorless(st.chunks), limit) else Vectorless(st.chunks)
  {
    PassFills(embed, st.chunks, limit);
  }

  lemma OnePassMore(n: nat, limit: nat)
    requires n > 0
    ensures n * limit == (n - 1) * limit + limit
  {
  }

  /**
   With no further ingestion, passes drain the backlog whatever outages come between them: it is gone
   once exactly ceil(P / limit) of them have found the provider up, and then no source is pending.
   */
  lemma BacklogDrains(embed: Embedder, st: State, limit: nat, events: seq<Event>)
    requires PendingOwes(st) && limit > 0 && OnlyPasses(events, limit)
    ensures var after := Run(embed, st, events);
            && Vectorless(after.chunks) == Minus(Vectorless(st.chunks), Ups(events) * limit)
            && (Vectorless(after.chunks) == 0 <==> Ups(events) >= (Vectorless(st.chunks) + limit - 1) / limit)
            && (Vectorless(after.chunks) == 0 ==> forall i :: 0 <= i < |after.sources| ==> after.sources[i].status != Pending)
  {
    var after := Run(embed, st, events);
    PassesDrain(embed, st, limit, events);
    LeftIs(Vectorless(st.chunks), limit, Ups(events));
    CeilDivide(Vectorless(st.chunks), limit, Ups(events));
    NoneLeftOwesNothing(after.chunks);
    NoSourceWaitsForNothing(embed, st, events);
  }

  lemma CeilDivide(p: nat, limit: nat, n: nat)
    requires limit > 0
    ensures p <= n * limit <==> n >= (p + limit - 1) / limit
  {
    var q := (p + limit - 1) / limit;
    assert limit * q <= p + limit - 1 < limit * q + limit;
    if n >= q {
      Scaled(q, n, limit);
    } else {
      Scaled(n + 1, q, limit);
    }
  }

  lemma Scaled(a: nat, b: nat, k: nat)
    requires a <= b
    ensures a * k <= b * k
  {
  }

  // ----- an outage loses nothing -----

  function ChunksOf(chunks: seq<Chunk>, source: nat): seq<Chunk> {
    if chunks == [] then [] else
    var n := |chunks| - 1;
    if chunks[n].source == source then ChunksOf(chunks[..n], source) + [chunks[n]] else ChunksOf(chunks[..n], source)
  }

  function Texts(chunks: seq<Chunk>): seq<string> {
    seq(|chunks|, i requires 0 <= i < |chunks| => chunks[i].content)
  }

  lemma {:induction false} ChunksOfConcat(a: seq<Chunk>, b: seq<Chunk>, source: nat)
    ensures ChunksOf(a + b, source) == ChunksOf(a, source) + ChunksOf(b, source)
  {
    if b == [] {
      assert a + b == a;
    } else {
      var n := |b| - 1;
      ChunksOfConcat(a, b[..n], source);
      assert (a + b)[..|a + b| - 1] == a + b[..n];
    }
  }

  lemma {:induction false} ChunksOfWithout(chunks: seq<Chunk>, source: nat, other: nat)
    ensures ChunksOf(Without(chunks, source), other) == if other == source then [] else ChunksOf(chunks, other)
  {
    if chunks != [] {
      var n := |chunks| - 1;
      ChunksOfWithout(chunks[..n], source, other);
      ChunksOfConcat(Without(chunks[..n], source), [chunks[n]], other);
    }
  }

  lemma {:induction false} ChunksOfSame(chunks: seq<Chunk>, source: nat, other: nat)
    requires forall i :: 0 <= i < |chunks| ==> chunks[i].source == source
    ensures ChunksOf(chunks, other) == if other == source then chunks else []
  {
    if chunks != [] {
      var n := |chunks| - 1;
      ChunksOfSame(chunks[..n], source, other);
      assert chunks == chunks[..n] + [chunks[n]];
    }
  }

  /**
   Storing a document puts all its texts in place of the source's old chunks, in order and with or
   without vectors, and touches no other source's chunks.
   */
  lemma OutageLosesNothing(embed: Embedder, st: State, id: nat, texts: seq<string>, up: bool, other: nat)
    requires id < |st.sources| && texts != []
    ensures var after := Store(embed, st, id, texts, up);
            && ChunksOf(after.chunks, id) == NewChunks(embed, id, texts, up)
            && Texts(ChunksOf(after.chunks, id)) == texts
            && (other != id ==> ChunksOf(after.chunks, other) == ChunksOf(st.chunks, other))
  {
    var added := NewChunks(embed, id, texts, up);
    ChunksOfConcat(Without(st.chunks, id), added, id);
    ChunksOfConcat(Without(st.chunks, id), added, other);
    ChunksOfWithout(st.chunks, id, id);
    ChunksOfWithout(st.chunks, id, other);
    ChunksOfSame(added, id, id);
    ChunksOfSame(added, id, other);
    assert Texts(added) == texts;
  }

  /** A document's chunks are numbered from nought in the order of its texts, each with its vector when the provider is up. */
  lemma WrittenChunksAre(embed: Embedder, id: nat, texts: seq<string>, up: bool, i: nat)
    requires i < |texts|
    ensures var chunk := NewChunks(embed, id, texts, up)[i];
            && chunk.source == id && chunk.index == i && chunk.content == texts[i]
            && (up ==> chunk.vector == Some(embed(texts[i]))) && (!up ==> chunk.vector == None)
  {
  }

  /** A request finds a source by its address, or without one by title among the sources that have none. */
  lemma FoundIff(sources: seq<Source>, url: Option<string>, title: string)
    ensures FindSource(sources, url, title) < |sources| <==>
            if url == None || url == Some("") then exists i :: 0 <= i < |sources| && sources[i].title == title && sources[i].url == None
            else exists i :: 0 <= i < |sources| && sources[i].url == url
  {
    var i := FindSource(sources, url, title);
    assert forall j :: 0 <= j < |sources| && SameSource(sources[j], url, title) ==> i <= j;
  }

  /** A review is raised exactly when known content changed under facts somebody has verified. */
  lemma ReviewIff(embed: Embedder, st: State, r: Request, up: bool)
    ensures var id := FindSource(st.sources, r.url, r.title);
            PersistStep(embed, st, r, up).reviews == st.reviews +
            if id < |st.sources| && st.sources[id].hash.Some? && st.sources[id].hash.value != r.loaded.hash && r.verifiedFacts then 1 else 0
  {
  }

  /** Embedding passes raise none, and one that finds the provider down changes nothing at all. */
  lemma PassLeaves(embed: Embedder, st: State, limit: nat, up: bool)
    ensures EmbedStep(embed, st, limit, up).reviews == st.reviews
    ensures !up ==> EmbedStep(embed, st, limit, up) == st
    ensures Vectorless(st.chunks) == 0 || limit == 0 ==> EmbedStep(embed, st, limit, up) == st
  {
    PassFills(embed, st.chunks, limit);
  }

  /** A pass turns a source active if and only if it was pending, had a chunk among those filled, and owes nothing more. */
  lemma CompletedIff(embed: Embedder, st: State, limit: nat, i: nat)
    requires i < |st.sources| && Selected(st.chunks, limit) != []
    ensures var after := EmbedStep(embed, st, limit, true);
            && |after.sources| == |st.sources|
            && (after.sources[i] != st.sources[i] <==>
                st.sources[i].status == Pending && i in SourcesOf(st.chunks, Selected(st.chunks, limit)) && !Owes(after.chunks, i))
            && (after.sources[i] != st.sources[i] ==> after.sources[i] == st.sources[i].(status := Active))
  {
  }

  // ----- vectors are right -----
  // ----- vectors are right -----

  ghost predicate VectorsAreRight(embed: Embedder, chunks: seq<Chunk>) {
    forall i :: 0 <= i < |chunks| && chunks[i].vector.Some? ==> chunks[i].vector.value == embed(chunks[i].content)
  }

  lemma {:induction false} WithoutKeepsRight(embed: Embedder, chunks: seq<Chunk>, source: nat)
    requires VectorsAreRight(embed, chunks)
    ensures VectorsAreRight(embed, Without(chunks, source))
  {
    if chunks != [] {
      WithoutKeepsRight(embed, chunks[..|chunks| - 1], source);
    }
  }

  lemma FillKeepsRight(embed: Embedder, chunks: seq<Chunk>, limit: nat)
    requires VectorsAreRight(embed, chunks)
    ensures VectorsAreRight(embed, Filled(embed, chunks, limit))
    ensures Texts(Filled(embed, chunks, limit)) == Texts(chunks)
  {
    forall i | 0 <= i < |chunks|
      ensures Filled(embed, chunks, limit)[i] == chunks[i] || Filled(embed, chunks, limit)[i] == Fill(embed, chunks[i])
    {
      FilledAt(embed, chunks, limit, i);
    }
  }

  /** Whatever order ingestion, outages and later passes come in, a stored vector is the embedding of its own chunk. */
  lemma {:induction false} StoredVectorsAreRight(embed: Embedder, st: State, events: seq<Event>)
    requires VectorsAreRight(embed, st.chunks)
    ensures VectorsAreRight(embed, Run(embed, st, events).chunks)
  {
    if events != [] {
      var before, e := events[..|events| - 1], events[|events| - 1];
      var mid := Run(embed, st, before);
      StoredVectorsAreRight(embed, st, before);
      match e.call
      case Persist(r) => WithoutKeepsRight(embed, mid.chunks, FindSource(mid.sources, r.url, r.title));
      case EmbedPending(limit) => FillKeepsRight(embed, mid.chunks, limit);
    }
  }

  // ----- ingesting again -----

  lemma FindStays(a: seq<Source>, b: seq<Source>, url: Option<string>, title: string, i: nat)
    requires i < |a| == |b| && FindSource(a, url, title) == i
    requires SameSource(b[i], url, title)
    requires forall j :: 0 <= j < i ==> b[j] == a[j]
    ensures FindSource(b, url, title) == i
  {
    assert forall j :: 0 <= j < i ==> !SameSource(b[j], url, title);
  }

  /** A source recorded for this request is found again, unless its address is the empty string. */
  lemma NewIsFound(sources: seq<Source>, url: Option<string>, title: string, hash: Option<string>, status: Status)
    requires FindSource(sources, url, title) == |sources|
    ensures FindSource(sources + [Source(url, title, hash, status)], url, title) ==
            if url == Some("") then |sources| + 1 else |sources|
  {
    var now := sources + [Source(url, title, hash, status)];
    var k := FindSource(now, url, title);
    assert forall j :: 0 <= j < |sources| ==> now[j] == sources[j];
    assert now[|sources|] == Source(url, title, hash, status);
  }

  /**
   Ingesting the same content again, unforced, changes nothing - unless the source is new and its
   address is empty, for then it is recorded but never found again.
   */
  lemma IngestingAgainIsFree(embed: Embedder, st: State, r: Request, up: bool, later: bool)
    ensures var once := PersistStep(embed, st, r, up);
            PersistStep(embed, once, r.(force := false), later) == once <==>
            r.url != Some("") || FindSource(st.sources, r.url, r.title) < |st.sources|
  {
    var once := PersistStep(embed, st, r, up);
    var id := FindSource(st.sources, r.url, r.title);
    if id == |st.sources| {
      NewIsFound(st.sources, r.url, r.title, Some(r.loaded.hash), once.sources[id].status);
      assert once.sources == st.sources + [once.sources[id]];
    } else {
      FindStays(st.sources, once.sources, r.url, r.title, id);
    }
  }

  // ----- owing without being pending -----

  /** No source that counts as up to date lacks a vector. */
  ghost predicate ActiveIsPaidUp(st: State) {
    forall i :: 0 <= i < |st.sources| && st.sources[i].status == Active ==> !Owes(st.chunks, i)
  }

  /** The call marks a source active and leaves it the vectorless chunks it had: its document has no text. */
  predicate HidesDebt(st: State, r: Request) {
    Accepted(st, r) && TurnsActive(st, r) && r.loaded.texts == [] && Owes(st.chunks, FindSource(st.sources, r.url, r.title))
  }

  lemma StorePaysUp(embed: Embedder, st: State, id: nat, texts: seq<string>, up: bool)
    requires id < |st.sources| && st.sources[id].status != Pending && texts != []
    requires forall i :: 0 <= i < |st.sources| && i != id && st.sources[i].status == Active ==> !Owes(st.chunks, i)
    ensures ActiveIsPaidUp(Store(embed, st, id, texts, up))
  {
    var after := Store(embed, st, id, texts, up);
    forall i | 0 <= i < |after.sources| && after.sources[i].status == Active
      ensures !Owes(after.chunks, i)
    {
      StoreOwes(embed, st.chunks, id, texts, up, i);
      if i == id {
        StoredWithVectorsOwesNothing(embed, st.chunks, id, texts);
      }
    }
  }

  lemma StoredWithVectorsOwesNothing(embed: Embedder, chunks: seq<Chunk>, id: nat, texts: seq<string>)
    ensures !Owes(Without(chunks, id) + NewChunks(embed, id, texts, true), id)
  {
    OwesConcat(Without(chunks, id), NewChunks(embed, id, texts, true), id);
    NewChunksOwe(embed, id, texts, true, id);
    WithoutOwesNothing(chunks, id);
  }

  lemma {:induction false} WithoutOwesNothing(chunks: seq<Chunk>, id: nat)
    ensures !Owes(Without(chunks, id), id)
  {
    if chunks != [] {
      var n := |chunks| - 1;
      WithoutOwesNothing(chunks[..n], id);
      OwesSnoc(Without(chunks[..n], id), chunks[n], id);
    }
  }

  /** Exactly when ingesting a document breaks the rule that active sources owe nothing. */
  lemma PersistPaysUpIff(embed: Embedder, st: State, r: Request, up: bool)
    requires ActiveIsPaidUp(st)
    ensures ActiveIsPaidUp(PersistStep(embed, st, r, up)) <==> !HidesDebt(st, r)
  {
    if Accepted(st, r) {
      RowWrittenIs(st, r);
      var id := FindSource(st.sources, r.url, r.title);
      if r.loaded.texts != [] {
        StorePaysUp(embed, RowWritten(st, r), id, r.loaded.texts, up);
      } else if HidesDebt(st, r) {
        assert RowWritten(st, r).sources[id].status == Active;
      }
    }
  }

  lemma {:induction false} FillingAddsNoDebt(embed: Embedder, chunks: seq<Chunk>, limit: nat, source: nat)
    requires Owes(Filled(embed, chunks, limit), source)
    ensures Owes(chunks, source)
  {
    var after := Filled(embed, chunks, limit);
    var i :| 0 <= i < |after| && after[i].source == source && after[i].vector.None?;
    FilledAt(embed, chunks, limit, i);
  }

  /** Embedding passes never break it. */
  lemma EmbeddingPaysUp(embed: Embedder, st: State, limit: nat, up: bool)
    requires ActiveIsPaidUp(st)
    ensures ActiveIsPaidUp(EmbedStep(embed, st, limit, up))
  {
    var after := EmbedStep(embed, st, limit, up);
    forall i | 0 <= i < |after.sources| && after.sources[i].status == Active
      ensures !Owes(after.chunks, i)
    {
      if Owes(after.chunks, i) && st.sources[i].status == Active && after.chunks != st.chunks {
        FillingAddsNoDebt(embed, st.chunks, limit, i);
      }
    }
  }

  /** Every document ingested in the run has a chunk. */
  ghost predicate AllHaveText(events: seq<Event>) {
    forall i :: 0 <= i < |events| && events[i].call.Persist? ==> events[i].call.request.loaded.texts != []
  }

  lemma {:induction false} RunPaysUp(embed: Embedder, st: State, events: seq<Event>)
    requires ActiveIsPaidUp(st) && AllHaveText(events)
    ensures ActiveIsPaidUp(Run(embed, st, events))
  {
    if events != [] {
      var before, e := events[..|events| - 1], events[|events| - 1];
      RunPaysUp(embed, st, before);
      match e.call
      case Persist(request) => PersistPaysUpIff(embed, Run(embed, st, before), request, e.up);
      case EmbedPending(limit) => EmbeddingPaysUp(embed, Run(embed, st, before), limit, e.up);
    }
  }

  /** When every ingested document has text, a source is pending exactly when it owes a vector and has not changed. */
  lemma PendingIffOwingUnchanged(embed: Embedder, st: State, events: seq<Event>, i: nat)
    requires PendingOwes(st) && ActiveIsPaidUp(st) && AllHaveText(events)
    requires i < |Run(embed, st, events).sources|
    ensures var after := Run(embed, st, events);
            after.sources[i].status == Pending <==> Owes(after.chunks, i) && after.sources[i].status != Changed
  {
    NoSourceWaitsForNothing(embed, st, events);
    RunPaysUp(embed, st, events);
  }

  /** A known document that changed during an outage stays "changed" and owes vectors. */
  lemma ChangedSourceOwes(embed: Embedder, st: State, r: Request, id: nat)
    requires id < |st.sources| && FindSource(st.sources, r.url, r.title) == id && r.loaded.texts != []
    requires st.sources[id].hash.Some? && st.sources[id].hash.value != r.loaded.hash
    ensures var after := PersistStep(embed, st, r, false);
            |after.sources| == |st.sources| && after.sources[id].status == Changed && Owes(after.chunks, id)
  {
    StoreOwes(embed, st.chunks, id, r.loaded.texts, false, id);
  }

  /**
   Without the condition on texts it fails: a document ingested during an outage, replaced by one
   without text, which is then forced in again, leaves an active source that owes the first one's vectors.
   */
  lemma EmptyDocumentHidesDebt(embed: Embedder, a: Request, b: Request, up: bool, upAgain: bool)
    requires a.url == b.url && a.title == b.title && a.url != Some("")
    requires a.loaded.hash != b.loaded.hash && a.loaded.texts != [] && b.loaded.texts == []
    ensures var one := PersistStep(embed, State([], [], 0), a, false);
            var two := PersistStep(embed, one, b, up);
            var three := PersistStep(embed, two, b.(force := true), upAgain);
            |three.sources| == 1 && three.sources[0].status == Active && Owes(three.chunks, 0)
  {
    var start := State([], [], 0);
    var row := Source(a.url, a.title, Some(a.loaded.hash), Active);
    var one := PersistStep(embed, start, a, false);
    assert one == Store(embed, State([row], [], 0), 0, a.loaded.texts, false);
    StoreOwes(embed, [], 0, a.loaded.texts, false, 0);
    assert FindSource(one.sources, b.url, b.title) == 0;
    EmptyDocumentKeepsChunks(embed, one, b, up);
    var two := PersistStep(embed, one, b, up);
    assert FindSource(two.sources, b.url, b.title) == 0;
    EmptyDocumentKeepsChunks(embed, two, b.(force := true), upAgain);
  }

  /** A document without text rewrites the source row and nothing else. */
  lemma EmptyDocumentKeepsChunks(embed: Embedder, st: State, r: Request, up: bool)
    requires Accepted(st, r) && FindSource(st.sources, r.url, r.title) < |st.sources| && r.loaded.texts == []
    ensures var id, after := FindSource(st.sources, r.url, r.title), PersistStep(embed, st, r, up);
            after.chunks == st.chunks && after.sources == st.sources[id := Rewritten(st.sources[id], r.loaded.hash)]
  {
  }
}
