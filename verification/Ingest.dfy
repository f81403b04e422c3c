/**
 Ingestion with deferred embedding (`backend/src/jst_api/knowledge/ingest.py`).

 The database is two tables: sources, whose id is their position, and chunks in creation order.
 `Apply` is one service call on them; the class below updates them in place. Loading, chunking and
 the embedding of one text are given, and so is whether the provider is up during a call.
 */
module Ingest {
  import opened Wrappers

  type Vector = seq<real>

  datatype Status = Active | Changed | Pending

  datatype Source = Source(url: Option<string>, title: string, hash: Option<string>, status: Status)

  datatype Chunk = Chunk(source: nat, index: nat, content: string, vector: Option<Vector>)

  datatype State = State(sources: seq<Source>, chunks: seq<Chunk>, reviews: nat)

  /** A fetched document: its content hash and the texts its chunks hold. */
  datatype Loaded = Loaded(hash: string, texts: seq<string>)

  datatype Request = Request(loaded: Loaded, url: Option<string>, title: string, force: bool, verifiedFacts: bool)

  datatype Call = Persist(request: Request) | EmbedPending(limit: nat)

  datatype Event = Event(call: Call, up: bool)

  type Embedder = string -> Vector

  // ----- finding a source -----

  predicate SameSource(source: Source, url: Option<string>, title: string) {
    if url.Some? && url.value != "" then source.url == url else source.title == title && source.url == None
  }

  function FindSource(sources: seq<Source>, url: Option<string>, title: string): (i: nat)
    ensures i <= |sources|
    ensures i < |sources| ==> SameSource(sources[i], url, title)
    ensures forall j :: 0 <= j < i ==> !SameSource(sources[j], url, title)
  {
    if sources == [] then 0
    else if SameSource(sources[0], url, title) then 0
    else 1 + FindSource(sources[1..], url, title)
  }

  // ----- chunks -----

  function Without(chunks: seq<Chunk>, source: nat): seq<Chunk> {
    if chunks == [] then [] else
    var n := |chunks| - 1;
    if chunks[n].source == source then Without(chunks[..n], source) else Without(chunks[..n], source) + [chunks[n]]
  }

  function NewChunk(embed: Embedder, source: nat, index: nat, text: string, up: bool): Chunk {
    Chunk(source, index, text, if up then Some(embed(text)) else None)
  }

  function NewChunks(embed: Embedder, source: nat, texts: seq<string>, up: bool): (r: seq<Chunk>)
    ensures |r| == |texts|
  {
    seq(|texts|, i requires 0 <= i < |texts| => NewChunk(embed, source, i, texts[i], up))
  }

  /** How many chunks have no vector yet. */
  function Vectorless(chunks: seq<Chunk>): nat {
    if chunks == [] then 0 else
    var n := |chunks| - 1;
    Vectorless(chunks[..n]) + if chunks[n].vector.None? then 1 else 0
  }

  /** Some chunk of this source has no vector yet. */
  predicate Owes(chunks: seq<Chunk>, source: nat) {
    exists i :: 0 <= i < |chunks| && chunks[i].source == source && chunks[i].vector.None?
  }

  function Fill(embed: Embedder, chunk: Chunk): Chunk {
    chunk.(vector := Some(embed(chunk.content)))
  }

  /** The chunks after the first `limit` vectorless ones have been filled. */
  function Filled(embed: Embedder, chunks: seq<Chunk>, limit: nat): (r: seq<Chunk>)
    ensures |r| == |chunks|
  {
    if chunks == [] then [] else
    var n := |chunks| - 1;
    Filled(embed, chunks[..n], limit) +
    [if chunks[n].vector.None? && Vectorless(chunks[..n]) < limit then Fill(embed, chunks[n]) else chunks[n]]
  }

  /** The positions of the first `limit` vectorless chunks. */
  function Selected(chunks: seq<Chunk>, limit: nat): (r: seq<nat>)
    ensures forall k :: 0 <= k < |r| ==> r[k] < |chunks|
  {
    if chunks == [] then [] else
    var n := |chunks| - 1;
    if chunks[n].vector.None? && Vectorless(chunks[..n]) < limit then Selected(chunks[..n], limit) + [n]
    else Selected(chunks[..n], limit)
  }

  function SourcesOf(chunks: seq<Chunk>, selected: seq<nat>): set<nat>
    requires forall k :: 0 <= k < |selected| ==> selected[k] < |chunks|
  {
    set k | 0 <= k < |selected| :: chunks[selected[k]].source
  }

  // ----- one service call -----

  /** The source row after its document was stored; `up` says whether its chunks got vectors. */
  function Settled(source: Source, up: bool): Source {
    if !up && source.status != Changed then source.(status := Pending) else source
  }

  /** The source row as `_persist` first writes it. */
  function Rewritten(source: Source, hash: string): Source {
    var changed := source.hash.Some? && source.hash.value != hash;
    source.(hash := Some(hash), status := if changed then Changed else Active)
  }

  function Store(embed: Embedder, st: State, id: nat, texts: seq<string>, up: bool): State
    requires id < |st.sources|
  {
    if texts == [] then st
    else st.(sources := st.sources[id := Settled(st.sources[id], up)],
             chunks := Without(st.chunks, id) + NewChunks(embed, id, texts, up))
  }

  /** The request is not skipped. */
  predicate Accepted(st: State, r: Request) {
    var id := FindSource(st.sources, r.url, r.title);
    id < |st.sources| ==> st.sources[id].hash != Some(r.loaded.hash) || r.force
  }

  /** The state between the two halves of `_persist`: the source row is written, its chunks are not. */
  function RowWritten(st: State, r: Request): (row: State)
    requires Accepted(st, r)
    ensures FindSource(st.sources, r.url, r.title) < |row.sources|
  {
    var id := FindSource(st.sources, r.url, r.title);
    if id == |st.sources| then st.(sources := st.sources + [Source(r.url, r.title, Some(r.loaded.hash), Active)])
    else
      var now := Rewritten(st.sources[id], r.loaded.hash);
      st.(sources := st.sources[id := now], reviews := if now.status == Changed && r.verifiedFacts then st.reviews + 1 else st.reviews)
  }

  function PersistStep(embed: Embedder, st: State, r: Request, up: bool): State {
    if !Accepted(st, r) then st
    else Store(embed, RowWritten(st, r), FindSource(st.sources, r.url, r.title), r.loaded.texts, up)
  }

  /** A source whose last vectorless chunk has just been filled becomes active. */
  function Complete(source: Source, owes: bool): Source {
    if source.status == Pending && !owes then source.(status := Active) else source
  }

  function Completed(sources: seq<Source>, chunks: seq<Chunk>, touched: set<nat>): (r: seq<Source>)
    ensures |r| == |sources|
  {
    seq(|sources|, i requires 0 <= i < |sources| =>
      if i in touched then Complete(sources[i], Owes(chunks, i)) else sources[i])
  }

  /** With the provider down the call raises and changes nothing. */
  function EmbedStep(embed: Embedder, st: State, limit: nat, up: bool): State {
    if Selected(st.chunks, limit) == [] || !up then st
    else
      var chunks := Filled(embed, st.chunks, limit);
      st.(chunks := chunks, sources := Completed(st.sources, chunks, SourcesOf(st.chunks, Selected(st.chunks, limit))))
  }

  function Apply(embed: Embedder, st: State, e: Event): State {
    match e.call
    case Persist(request) => PersistStep(embed, st, request, e.up)
    case EmbedPending(limit) => EmbedStep(embed, st, limit, e.up)
  }

  function Run(embed: Embedder, st: State, events: seq<Event>): State {
    if events == [] then st else Apply(embed, Run(embed, st, events[..|events| - 1]), events[|events| - 1])
  }

  // ----- the service -----

  class IngestionService {
    var sources: seq<Source>
    var chunks: seq<Chunk>
    var reviews: nat

    constructor ()
      ensures Abstract() == State([], [], 0)
    {
      sources, chunks, reviews := [], [], 0;
    }

    function Abstract(): State
      reads this
    {
      State(sources, chunks, reviews)
    }

    method Find(url: Option<string>, title: string) returns (id: nat)
      ensures id == FindSource(sources, url, title)
    {
      id := 0;
      while id < |sources| && !SameSource(sources[id], url, title)
        invariant id <= |sources|
        invariant forall j :: 0 <= j < id ==> !SameSource(sources[j], url, title)
      {
        id := id + 1;
      }
    }

    method DeleteChunks(source: nat)
      modifies this`chunks
      ensures chunks == Without(old(chunks), source)
    {
      var kept: seq<Chunk> := [];
      for i := 0 to |chunks|
        invariant chunks == old(chunks) && kept == Without(chunks[..i], source)
      {
        assert chunks[..i + 1][..i] == chunks[..i];
        if chunks[i].source != source {
          kept := kept + [chunks[i]];
        }
      }
      assert chunks[..|chunks|] == chunks;
      chunks := kept;
    }

    method AddChunks(embed: Embedder, source: nat, texts: seq<string>, vectors: seq<Option<Vector>>, ghost up: bool)
      requires |vectors| == |texts|
      requires forall i :: 0 <= i < |texts| ==> vectors[i] == if up then Some(embed(texts[i])) else None
      modifies this`chunks
      ensures chunks == old(chunks) + NewChunks(embed, source, texts, up)
    {
      for i := 0 to |texts|
        invariant chunks == old(chunks) + NewChunks(embed, source, texts, up)[..i]
      {
        chunks := chunks + [Chunk(source, i, texts[i], vectors[i])];
      }
    }

    /** `up` is whether the embedding call succeeds. The chunks are stored either way. */
    method StoreChunks(embed: Embedder, id: nat, texts: seq<string>, up: bool)
      requires id < |sources|
      modifies this`sources, this`chunks
      ensures Abstract() == Store(embed, old(Abstract()), id, texts, up)
    {
      if texts == [] {
        return;
      }
      var vectors := seq(|texts|, i requires 0 <= i < |texts| => if up then Some(embed(texts[i])) else None);
      if !up && sources[id].status != Changed {
        sources := sources[id := sources[id].(status := Pending)];
      }
      assert sources == old(sources)[id := Settled(old(sources)[id], up)];
      DeleteChunks(id);
      AddChunks(embed, id, texts, vectors, up);
    }

    method Persist(embed: Embedder, r: Request, up: bool) returns (skipped: bool)
      modifies this
      ensures Abstract() == Apply(embed, old(Abstract()), Event(Call.Persist(r), up))
      ensures skipped <==> !Accepted(old(Abstract()), r)
    {
      var id := Find(r.url, r.title);
      if id == |sources| {
        sources := sources + [Source(r.url, r.title, Some(r.loaded.hash), Active)];
      } else {
        var changed := sources[id].hash.Some? && sources[id].hash.value != r.loaded.hash;
        if sources[id].hash == Some(r.loaded.hash) && !r.force {
          return true;
        }
        if changed && r.verifiedFacts {
          reviews := reviews + 1;
        }
        sources := sources[id := sources[id].(hash := Some(r.loaded.hash), status := if changed then Changed else Active)];
      }
      StoreChunks(embed, id, r.loaded.texts, up);
      skipped := false;
    }

    method Select(limit: nat) returns (selected: seq<nat>)
      ensures selected == Selected(chunks, limit)
    {
      selected := [];
      var found := 0;
      for i := 0 to |chunks|
        invariant selected == Selected(chunks[..i], limit) && found == Vectorless(chunks[..i])
      {
        assert chunks[..i + 1][..i] == chunks[..i];
        if chunks[i].vector.None? {
          if found < limit {
            selected := selected + [i];
          }
          found := found + 1;
        }
      }
      assert chunks[..|chunks|] == chunks;
    }

    /** Writes a vector into each selected chunk. */
    method FillSelected(embed: Embedder, selected: seq<nat>)
      requires forall k :: 0 <= k < |selected| ==> selected[k] < |chunks|
      modifies this`chunks
      ensures FilledExactly(embed, old(chunks), chunks, selected)
    {
      for k := 0 to |selected|
        invariant FilledExactly(embed, old(chunks), chunks, selected[..k])
      {
        chunks := chunks[selected[k] := Fill(embed, chunks[selected[k]])];
        assert forall i: nat :: i in selected[..k + 1] <==> i in selected[..k] || i == selected[k];
      }
      assert selected[..|selected|] == selected;
    }

    /** Visits the touched sources in any order; returns how many became active. */
    method CompleteSources(touched: set<nat>) returns (completed: nat)
      modifies this`sources
      ensures sources == Completed(old(sources), chunks, touched)
      ensures completed == |Turned(old(sources), sources)|
    {
      var todo := touched;
      completed := 0;
      while todo != {}
        invariant todo <= touched && |sources| == |old(sources)|
        invariant forall i :: 0 <= i < |sources| ==>
                    sources[i] == if i in touched - todo then Complete(old(sources)[i], Owes(chunks, i)) else old(sources)[i]
        invariant completed == |Turned(old(sources), sources)|
        decreases |todo|
      {
        var id :| id in todo;
        todo := todo - {id};
        if id < |sources| && sources[id].status == Pending && !Owes(chunks, id) {
          ghost var before := sources;
          sources := sources[id := sources[id].(status := Active)];
          completed := completed + 1;
          assert Turned(old(sources), sources) == Turned(old(sources), before) + {id};
        }
      }
    }

    /** `None` is the provider's error: the chunks stay as they are for the next run. */
    method EmbedPending(embed: Embedder, limit: nat, up: bool) returns (report: Option<Report>)
      modifies this
      ensures Abstract() == Apply(embed, old(Abstract()), Event(Call.EmbedPending(limit), up))
      ensures report == None <==> !up && Selected(old(chunks), limit) != []
      ensures report.Some? && Selected(old(chunks), limit) != [] ==>
                report.value == Report(|Selected(old(chunks), limit)|, |Turned(old(sources), sources)|, Vectorless(chunks))
      ensures Selected(old(chunks), limit) == [] ==> report == Some(Report(0, 0, 0))
    {
      var selected := Select(limit);
      if selected == [] {
        return Some(Report(0, 0, 0));
      }
      if !up {
        return None;
      }
      var touched := SourcesOf(chunks, selected);
      FillSelected(embed, selected);
      FilledIsExact(embed, old(chunks), chunks, limit);
      var completed := CompleteSources(touched);
      return Some(Report(|selected|, completed, Vectorless(chunks)));
    }
  }

  datatype Report = Report(embedded: nat, completed: nat, stillPending: nat)

  ghost predicate FilledExactly(embed: Embedder, was: seq<Chunk>, now: seq<Chunk>, selected: seq<nat>) {
    && |now| == |was|
    && forall i :: 0 <= i < |was| ==> now[i] == if i in selected then Fill(embed, was[i]) else was[i]
  }

  ghost function Turned(was: seq<Source>, now: seq<Source>): set<nat>
    requires |was| == |now|
  {
    set i | 0 <= i < |was| && was[i] != now[i]
  }

  lemma {:induction false} FilledAt(embed: Embedder, chunks: seq<Chunk>, limit: nat, i: nat)
    requires i < |chunks|
    ensures Filled(embed, chunks, limit)[i] == if i in Selected(chunks, limit) then Fill(embed, chunks[i]) else chunks[i]
    ensures i in Selected(chunks, limit) <==> chunks[i].vector.None? && Vectorless(chunks[..i]) < limit
  {
    var n := |chunks| - 1;
    if i < n {
      FilledAt(embed, chunks[..n], limit, i);
      assert chunks[..n][..i] == chunks[..i];
    }
  }

  lemma FilledIsExact(embed: Embedder, was: seq<Chunk>, now: seq<Chunk>, limit: nat)
    requires FilledExactly(embed, was, now, Selected(was, limit))
    ensures now == Filled(embed, was, limit)
  {
    forall i | 0 <= i < |was|
      ensures now[i] == Filled(embed, was, limit)[i]
    {
      FilledAt(embed, was, limit, i);
    }
  }
}
