/**
 Embedding a list of texts through a cache, in batches (`backend/src/jst_api/providers/embeddings.py`).
 The embedding of one text, the cache key of a text, the clock and which provider calls fail are given.
 */
module Embeddings {
  import opened Wrappers
  import opened Cache

  type Vector = seq<real>

  datatype Provider = Provider(dim: nat, embed: string -> Vector, key: string -> string, fails: nat -> bool)

  const BATCH: nat := 64
  const THIRTY_DAYS: int := 2592000

  function EmbedAll(provider: Provider, texts: seq<string>): (vectors: seq<Vector>)
    ensures |vectors| == |texts|
  {
    seq(|texts|, i requires 0 <= i < |texts| => provider.embed(texts[i]))
  }

  function Calls(misses: nat): nat {
    (misses + BATCH - 1) / BATCH
  }

  // ----- a sound cache -----

  ghost predicate SoundSlot(provider: Provider, universe: set<string>, slot: Slot<Vector>) {
    forall text :: text in universe && provider.key(text) == slot.key ==> slot.value == provider.embed(text)
  }

  /** Whatever the cache holds under the key of a text is that text's embedding. */
  ghost predicate Sound(provider: Provider, universe: set<string>, slots: seq<Slot<Vector>>) {
    forall slot :: slot in slots ==> SoundSlot(provider, universe, slot)
  }

  /** Texts that share a key share their embedding. */
  ghost predicate KeysSeparate(provider: Provider, universe: set<string>) {
    forall a, b :: a in universe && b in universe && provider.key(a) == provider.key(b) ==> provider.embed(a) == provider.embed(b)
  }

  lemma GetKeepsSound(provider: Provider, universe: set<string>, cfg: Config, st: State<Vector>, key: string, now: real)
    requires Sound(provider, universe, st.slots)
    ensures Sound(provider, universe, Step(cfg, st, Event(Get(key), now)).slots)
  {
    var next := Step(cfg, st, Event(Get(key), now)).slots;
    forall slot | slot in next
      ensures slot in st.slots
    {
    }
  }

  lemma PutKeepsSound(provider: Provider, universe: set<string>, cfg: Config, st: State<Vector>, text: string, ttl: Option<int>, now: real)
    requires Sound(provider, universe, st.slots) && KeysSeparate(provider, universe) && text in universe
    ensures Sound(provider, universe, Step(cfg, st, Event(Put(provider.key(text), provider.embed(text), ttl), now)).slots)
  {
    var added := Slot(provider.key(text), now + Lifetime(cfg, ttl) as real, provider.embed(text));
    assert SoundSlot(provider, universe, added);
    var next := Step(cfg, st, Event(Put(provider.key(text), provider.embed(text), ttl), now)).slots;
    forall slot | slot in next
      ensures slot in st.slots || slot == added
    {
    }
  }

  lemma HitIsEmbedding(provider: Provider, universe: set<string>, slots: seq<Slot<Vector>>, text: string, now: real)
    requires Sound(provider, universe, slots) && text in universe && Answer(slots, provider.key(text), now).Some?
    ensures Answer(slots, provider.key(text), now).value == provider.embed(text)
  {
    var slot := Find(slots, provider.key(text)).value;
    assert SoundSlot(provider, universe, slot);
  }

  // ----- looking up -----

  function Lookups(provider: Provider, texts: seq<string>, clock: nat -> real): seq<Event<Vector>> {
    seq(|texts|, i requires 0 <= i < |texts| => Event(Get(provider.key(texts[i])), clock(i)))
  }

  /** The texts that miss, in order, when they are looked up one after the other. */
  function Misses(provider: Provider, cfg: Config, st: State<Vector>, texts: seq<string>, clock: nat -> real): (missing: seq<nat>)
    ensures forall j :: 0 <= j < |missing| ==> missing[j] < |texts|
    ensures |missing| <= |texts|
  {
    if texts == [] then [] else
    var n := |texts| - 1;
    var before := Misses(provider, cfg, st, texts[..n], clock);
    var now := RunFrom(cfg, st, Lookups(provider, texts[..n], clock));
    if Answer(now.slots, provider.key(texts[n]), clock(n)).None? then before + [n] else before
  }

  /** The table of results while it is filled: right where filled, and filled except at some of `pending`. */
  ghost predicate Filling(provider: Provider, texts: seq<string>, results: seq<Option<Vector>>, pending: seq<nat>, done: nat)
    requires done <= |pending|
  {
    && |results| == |texts|
    && (forall i :: 0 <= i < |results| && results[i].Some? ==> results[i].value == provider.embed(texts[i]))
    && (forall i :: 0 <= i < |results| ==> results[i].Some? || i in pending)
    && (forall j :: 0 <= j < |pending| ==> pending[j] < |texts|)
    && (forall j :: 0 <= j < done ==> results[pending[j]].Some?)
  }

  method LookUpOne(provider: Provider, cache: InMemoryCache<Vector>, text: string, now: real, ghost universe: set<string>)
    returns (hit: Option<Vector>)
    requires Sound(provider, universe, cache.data) && text in universe
    modifies cache
    ensures Sound(provider, universe, cache.data)
    ensures cache.Abstract() == Step(cache.Cfg(), old(cache.Abstract()), Event(Get(provider.key(text)), now))
    ensures hit == Answer(old(cache.data), provider.key(text), now)
    ensures hit.Some? ==> hit.value == provider.embed(text)
  {
    GetKeepsSound(provider, universe, cache.Cfg(), cache.Abstract(), provider.key(text), now);
    if Answer(cache.data, provider.key(text), now).Some? {
      HitIsEmbedding(provider, universe, cache.data, text, now);
    }
    hit := cache.Get(provider.key(text), now);
  }

  method LookUp(provider: Provider, cache: InMemoryCache<Vector>, texts: seq<string>, clock: nat -> real, ghost universe: set<string>)
    returns (results: seq<Option<Vector>>, pending: seq<nat>)
    requires Sound(provider, universe, cache.data) && forall i :: 0 <= i < |texts| ==> texts[i] in universe
    modifies cache
    ensures Sound(provider, universe, cache.data)
    ensures pending == Misses(provider, cache.Cfg(), old(cache.Abstract()), texts, clock)
    ensures cache.Abstract() == RunFrom(cache.Cfg(), old(cache.Abstract()), Lookups(provider, texts, clock))
    ensures Filling(provider, texts, results, pending, 0)
  {
    ghost var cfg, st := cache.Cfg(), cache.Abstract();
    results, pending := seq(|texts|, _ => None), [];
    for i := 0 to |texts|
      invariant Sound(provider, universe, cache.data)
      invariant cache.Abstract() == RunFrom(cfg, st, Lookups(provider, texts[..i], clock))
      invariant pending == Misses(provider, cfg, st, texts[..i], clock)
      invariant Looked(provider, texts, results, pending, i)
    {
      NextLookup(provider, cfg, st, texts, clock, i);
      var hit := LookUpOne(provider, cache, texts[i], clock(i), universe);
      LookedSnoc(provider, texts, results, pending, i, hit);
      if hit.Some? {
        results := results[i := hit];
      } else {
        pending := pending + [i];
      }
    }
    assert texts[..|texts|] == texts;
  }

  /** The table after `i` lookups. */
  ghost predicate Looked(provider: Provider, texts: seq<string>, results: seq<Option<Vector>>, pending: seq<nat>, i: nat) {
    && |results| == |texts|
    && (forall k :: 0 <= k < |results| && results[k].Some? ==> results[k].value == provider.embed(texts[k]))
    && (forall k :: 0 <= k < i <= |results| ==> results[k].Some? || k in pending)
  }

  lemma LookedSnoc(provider: Provider, texts: seq<string>, results: seq<Option<Vector>>, pending: seq<nat>, i: nat, hit: Option<Vector>)
    requires Looked(provider, texts, results, pending, i) && i < |texts| && (hit.Some? ==> hit.value == provider.embed(texts[i]))
    ensures Looked(provider, texts, if hit.Some? then results[i := hit] else results,
                   if hit.Some? then pending else pending + [i], i + 1)
  {
  }

  lemma NextLookup(provider: Provider, cfg: Config, st: State<Vector>, texts: seq<string>, clock: nat -> real, i: nat)
    requires i < |texts|
    ensures var was := RunFrom(cfg, st, Lookups(provider, texts[..i], clock));
            var pending := Misses(provider, cfg, st, texts[..i], clock);
            && RunFrom(cfg, st, Lookups(provider, texts[..i + 1], clock)) == Step(cfg, was, Event(Get(provider.key(texts[i])), clock(i)))
            && Misses(provider, cfg, st, texts[..i + 1], clock) ==
               if Answer(was.slots, provider.key(texts[i]), clock(i)).None? then pending + [i] else pending
  {
    assert texts[..i + 1][..i] == texts[..i];
    assert Lookups(provider, texts[..i + 1], clock)[..i] == Lookups(provider, texts[..i], clock);
  }

  // ----- asking the provider -----

  /** Everything the cache sees: the lookups, then a store for each missing text. */
  function Traffic(provider: Provider, texts: seq<string>, missing: seq<nat>, clock: nat -> real): (events: seq<Event<Vector>>)
    requires forall j :: 0 <= j < |missing| ==> missing[j] < |texts|
    ensures |events| == |texts| + |missing|
  {
    Lookups(provider, texts, clock) +
    seq(|missing|, j requires 0 <= j < |missing| => StoreOf(provider, texts[missing[j]], clock(|texts| + j)))
  }

  function StoreOf(provider: Provider, text: string, now: real): Event<Vector> {
    Event(Put(provider.key(text), provider.embed(text), Some(THIRTY_DAYS)), now)
  }

  lemma TrafficAt(provider: Provider, texts: seq<string>, missing: seq<nat>, clock: nat -> real, j: nat)
    requires forall j :: 0 <= j < |missing| ==> missing[j] < |texts|
    requires j < |missing|
    ensures Traffic(provider, texts, missing, clock)[|texts| + j] == StoreOf(provider, texts[missing[j]], clock(|texts| + j))
  {
  }

  /** The cache, if there is one, is sound and has seen exactly the first `k` of these operations since `st`. */
  ghost predicate CacheAt(provider: Provider, universe: set<string>, cache: InMemoryCache?<Vector>, st: State<Vector>,
                          events: seq<Event<Vector>>, k: nat)
    requires k <= |events|
    reads cache
  {
    cache != null ==> Sound(provider, universe, cache.data) && cache.Abstract() == RunFrom(cache.Cfg(), st, events[..k])
  }

  lemma RunStep(cfg: Config, st: State<Vector>, events: seq<Event<Vector>>, k: nat)
    requires k < |events|
    ensures RunFrom(cfg, st, events[..k + 1]) == Step(cfg, RunFrom(cfg, st, events[..k]), events[k])
  {
    assert events[..k + 1][..k] == events[..k];
  }

  lemma FillOne(provider: Provider, texts: seq<string>, results: seq<Option<Vector>>, pending: seq<nat>, done: nat, vector: Vector)
    requires done < |pending| && Filling(provider, texts, results, pending, done)
    requires vector == provider.embed(texts[pending[done]])
    ensures Filling(provider, texts, results[pending[done] := Some(vector)], pending, done + 1)
  {
  }

  method StoreOne(provider: Provider, cache: InMemoryCache?<Vector>, text: string, now: real, ghost universe: set<string>,
                  ghost st: State<Vector>, ghost events: seq<Event<Vector>>, ghost k: nat)
    requires k < |events| && events[k] == StoreOf(provider, text, now)
    requires CacheAt(provider, universe, cache, st, events, k) && KeysSeparate(provider, universe) && text in universe
    modifies cache
    ensures CacheAt(provider, universe, cache, st, events, k + 1)
  {
    if cache != null {
      RunStep(cache.Cfg(), st, events, k);
      PutKeepsSound(provider, universe, cache.Cfg(), cache.Abstract(), text, Some(THIRTY_DAYS), now);
      cache.Set(provider.key(text), provider.embed(text), Some(THIRTY_DAYS), now);
    }
  }

  /** After `done` answers: that many results filled in, that many vectors cached. */
  ghost predicate Progress(provider: Provider, cache: InMemoryCache?<Vector>, texts: seq<string>, clock: nat -> real, universe: set<string>,
                           st: State<Vector>, results: seq<Option<Vector>>, pending: seq<nat>, done: nat)
    requires done <= |pending|
    reads cache
  {
    && Filling(provider, texts, results, pending, done)
    && CacheAt(provider, universe, cache, st, Traffic(provider, texts, pending, clock), |texts| + done)
  }

  ghost predicate Usable(provider: Provider, texts: seq<string>, universe: set<string>) {
    KeysSeparate(provider, universe) && forall i :: 0 <= i < |texts| ==> texts[i] in universe
  }

  /** One answer: the result is written by position and the vector cached. */
  method FillStep(provider: Provider, cache: InMemoryCache?<Vector>, texts: seq<string>, clock: nat -> real, ghost universe: set<string>,
                  ghost st: State<Vector>, filled: seq<Option<Vector>>, pending: seq<nat>, j: nat, vector: Vector)
    returns (results: seq<Option<Vector>>)
    requires j < |pending| && Progress(provider, cache, texts, clock, universe, st, filled, pending, j)
    requires Usable(provider, texts, universe) && vector == provider.embed(texts[pending[j]])
    modifies cache
    ensures Progress(provider, cache, texts, clock, universe, st, results, pending, j + 1)
  {
    FillOne(provider, texts, filled, pending, j, vector);
    results := filled[pending[j] := Some(vector)];
    StoreStep(provider, cache, texts, clock, universe, st, pending, j);
  }

  method StoreStep(provider: Provider, cache: InMemoryCache?<Vector>, texts: seq<string>, clock: nat -> real, ghost universe: set<string>,
                   ghost st: State<Vector>, pending: seq<nat>, j: nat)
    requires forall k :: 0 <= k < |pending| ==> pending[k] < |texts|
    requires j < |pending| && CacheAt(provider, universe, cache, st, Traffic(provider, texts, pending, clock), |texts| + j)
    requires Usable(provider, texts, universe)
    modifies cache
    ensures CacheAt(provider, universe, cache, st, Traffic(provider, texts, pending, clock), |texts| + j + 1)
  {
    TrafficAt(provider, texts, pending, clock, j);
    StoreOne(provider, cache, texts[pending[j]], clock(|texts| + j), universe, st, Traffic(provider, texts, pending, clock), |texts| + j);
  }

  method FillBatch(provider: Provider, cache: InMemoryCache?<Vector>, texts: seq<string>, clock: nat -> real, ghost universe: set<string>,
                   ghost st: State<Vector>, filled: seq<Option<Vector>>, pending: seq<nat>, start: nat, stop: nat)
    returns (results: seq<Option<Vector>>)
    requires start <= stop <= |pending| && Progress(provider, cache, texts, clock, universe, st, filled, pending, start)
    requires Usable(provider, texts, universe)
    modifies cache
    ensures Progress(provider, cache, texts, clock, universe, st, results, pending, stop)
  {
    results := filled;
    var batch := seq(stop - start, j requires 0 <= j < stop - start => texts[pending[start + j]]);
    var vectors := EmbedAll(provider, batch);
    for j := start to stop
      invariant Progress(provider, cache, texts, clock, universe, st, results, pending, j)
    {
      assert vectors[j - start] == provider.embed(batch[j - start]);
      results := FillStep(provider, cache, texts, clock, universe, st, results, pending, j, vectors[j - start]);
    }
  }

  lemma LastBatch(misses: nat, calls: nat)
    requires misses <= BATCH * calls && (calls == 0 || BATCH * (calls - 1) < misses)
    ensures calls == Calls(misses)
  {
  }

  lemma AnotherBatch(misses: nat, calls: nat)
    requires BATCH * calls < misses
    ensures calls + 1 <= Calls(misses)
  {
  }

  /** Batches of sixty-four until everything is filled, or the first call that fails. */
  method FillAll(provider: Provider, cache: InMemoryCache?<Vector>, texts: seq<string>, clock: nat -> real, ghost universe: set<string>,
                 ghost st: State<Vector>, looked: seq<Option<Vector>>, pending: seq<nat>)
    returns (results: seq<Option<Vector>>, calls: nat, ok: bool)
    requires Progress(provider, cache, texts, clock, universe, st, looked, pending, 0) && Usable(provider, texts, universe)
    modifies cache
    ensures ok ==> calls == Calls(|pending|) && NoneFail(provider, calls)
    ensures ok ==> Progress(provider, cache, texts, clock, universe, st, results, pending, |pending|)
    ensures !ok ==> 0 < calls <= Calls(|pending|) && provider.fails(calls - 1) && NoneFail(provider, calls - 1)
    ensures !ok ==> BATCH * (calls - 1) <= |pending| &&
                    Progress(provider, cache, texts, clock, universe, st, results, pending, BATCH * (calls - 1))
  {
    results, calls := looked, 0;
    var start := 0;
    while start < |pending|
      invariant start == (if BATCH * calls < |pending| then BATCH * calls else |pending|)
      invariant calls == 0 || BATCH * (calls - 1) < |pending|
      invariant Progress(provider, cache, texts, clock, universe, st, results, pending, start)
      invariant NoneFail(provider, calls)
    {
      var stop := if start + BATCH < |pending| then start + BATCH else |pending|;
      AnotherBatch(|pending|, calls);
      calls := calls + 1;
      if provider.fails(calls - 1) {
        return results, calls, false;
      }
      results := FillBatch(provider, cache, texts, clock, universe, st, results, pending, start, stop);
      start := stop;
    }
    LastBatch(|pending|, calls);
    return results, calls, true;
  }

  ghost predicate NoneFail(provider: Provider, calls: nat) {
    forall b :: 0 <= b < calls ==> !provider.fails(b)
  }

  function Everything(n: nat): (all: seq<nat>)
    ensures |all| == n && forall j :: 0 <= j < |all| ==> all[j] < n
  {
    seq(n, i => i)
  }

  /** Which texts the provider is asked for: all of them without a cache. */
  function Missing(provider: Provider, cache: InMemoryCache?<Vector>, texts: seq<string>, clock: nat -> real): (missing: seq<nat>)
    reads cache
    ensures |missing| <= |texts| && forall j :: 0 <= j < |missing| ==> missing[j] < |texts|
  {
    if cache == null then Everything(|texts|) else Misses(provider, cache.Cfg(), cache.Abstract(), texts, clock)
  }

  lemma NothingLookedUp(provider: Provider, texts: seq<string>)
    ensures Filling(provider, texts, seq(|texts|, _ => None), Everything(|texts|), 0)
  {
    forall i | 0 <= i < |texts|
      ensures i in Everything(|texts|)
    {
      assert Everything(|texts|)[i] == i;
    }
  }

  method LookUpAll(provider: Provider, cache: InMemoryCache?<Vector>, texts: seq<string>, clock: nat -> real, ghost universe: set<string>,
                   ghost st: State<Vector>)
    returns (results: seq<Option<Vector>>, pending: seq<nat>)
    requires Usable(provider, texts, universe)
    requires cache != null ==> Sound(provider, universe, cache.data) && st == cache.Abstract()
    modifies cache
    ensures pending == old(Missing(provider, cache, texts, clock))
    ensures Progress(provider, cache, texts, clock, universe, st, results, pending, 0)
  {
    if cache == null {
      NothingLookedUp(provider, texts);
      results, pending := seq(|texts|, _ => None), Everything(|texts|);
    } else {
      results, pending := LookUp(provider, cache, texts, clock, universe);
      assert Traffic(provider, texts, pending, clock)[..|texts|] == Lookups(provider, texts, clock);
    }
  }

  lemma Filled(provider: Provider, texts: seq<string>, results: seq<Option<Vector>>, pending: seq<nat>, i: nat)
    requires Filling(provider, texts, results, pending, |pending|) && i < |texts|
    ensures results[i] == Some(provider.embed(texts[i]))
  {
    if i in pending {
      var j :| 0 <= j < |pending| && pending[j] == i;
    }
  }

  /** Nothing is left unfilled, so the zero vector is never used. */
  method Unwrap(provider: Provider, texts: seq<string>, results: seq<Option<Vector>>, ghost pending: seq<nat>) returns (vectors: seq<Vector>)
    requires Filling(provider, texts, results, pending, |pending|)
    ensures vectors == EmbedAll(provider, texts)
  {
    vectors := seq(|results|, i requires 0 <= i < |results| =>
      if results[i].Some? then results[i].value else Zero(provider.dim));
    forall i | 0 <= i < |texts|
      ensures vectors[i] == provider.embed(texts[i])
    {
      Filled(provider, texts, results, pending, i);
    }
  }

  /** The cache, if there is one, is sound and has seen the lookups and the stores of the first `kept` missing texts since `st`. */
  ghost predicate Stored(provider: Provider, universe: set<string>, cache: InMemoryCache?<Vector>, st: State<Vector>,
                         texts: seq<string>, missing: seq<nat>, clock: nat -> real, kept: nat)
    requires forall j :: 0 <= j < |missing| ==> missing[j] < |texts|
    reads cache
  {
    && kept <= |missing|
    && (cache != null ==>
          && Sound(provider, universe, cache.data)
          && cache.Abstract() == RunFrom(cache.Cfg(), st, Traffic(provider, texts, missing[..kept], clock)))
  }

  lemma TrafficPrefix(provider: Provider, texts: seq<string>, missing: seq<nat>, clock: nat -> real, kept: nat)
    requires kept <= |missing| && forall j :: 0 <= j < |missing| ==> missing[j] < |texts|
    ensures Traffic(provider, texts, missing, clock)[..|texts| + kept] == Traffic(provider, texts, missing[..kept], clock)
  {
  }

  lemma ProgressIsStored(provider: Provider, cache: InMemoryCache?<Vector>, texts: seq<string>, clock: nat -> real, universe: set<string>,
                         st: State<Vector>, results: seq<Option<Vector>>, pending: seq<nat>, done: nat)
    requires done <= |pending| && Progress(provider, cache, texts, clock, universe, st, results, pending, done)
    ensures Stored(provider, universe, cache, st, texts, pending, clock, done)
  {
    TrafficPrefix(provider, texts, pending, clock, done);
  }

  function Zero(dim: nat): Vector {
    seq(dim, _ => 0.0)
  }

  /**
   What a call returns when `misses` texts were not in the cache: every embedding, in order, after one
   provider call per sixty-four misses, or nothing (the provider's error) at the first call that fails.
   */
  ghost predicate Answered(provider: Provider, texts: seq<string>, misses: nat, outcome: Option<seq<Vector>>, calls: nat) {
    match outcome
    case Some(vectors) => vectors == EmbedAll(provider, texts) && calls == Calls(misses) && NoneFail(provider, calls)
    case None => 0 < calls <= Calls(misses) && provider.fails(calls - 1) && NoneFail(provider, calls - 1)
  }

  /** How many of the missing texts have been answered and stored: all of them, or those of the batches before the failing call. */
  function Kept(misses: nat, outcome: Option<seq<Vector>>, calls: nat): nat {
    if outcome.Some? then misses else if calls == 0 then 0 else BATCH * (calls - 1)
  }

  method AskProvider(provider: Provider, cache: InMemoryCache?<Vector>, texts: seq<string>, clock: nat -> real, ghost universe: set<string>,
                     ghost st: State<Vector>, looked: seq<Option<Vector>>, pending: seq<nat>)
    returns (outcome: Option<seq<Vector>>, calls: nat)
    requires Progress(provider, cache, texts, clock, universe, st, looked, pending, 0) && Usable(provider, texts, universe)
    modifies cache
    ensures Answered(provider, texts, |pending|, outcome, calls)
    ensures Stored(provider, universe, cache, st, texts, pending, clock, Kept(|pending|, outcome, calls))
  {
    var results, made, ok := FillAll(provider, cache, texts, clock, universe, st, looked, pending);
    calls := made;
    if ok {
      var vectors := Unwrap(provider, texts, results, pending);
      ProgressIsStored(provider, cache, texts, clock, universe, st, results, pending, |pending|);
      outcome := Some(vectors);
    } else {
      ProgressIsStored(provider, cache, texts, clock, universe, st, results, pending, BATCH * (calls - 1));
      outcome := None;
    }
  }

  method EmbedDocuments(provider: Provider, cache: InMemoryCache?<Vector>, texts: seq<string>, clock: nat -> real, ghost universe: set<string>)
    returns (outcome: Option<seq<Vector>>, calls: nat)
    requires Usable(provider, texts, universe) && (cache != null ==> Sound(provider, universe, cache.data))
    modifies cache
    ensures Answered(provider, texts, |old(Missing(provider, cache, texts, clock))|, outcome, calls)
    ensures cache != null ==> Sound(provider, universe, cache.data)
    ensures var missing := old(Missing(provider, cache, texts, clock));
            var kept := Kept(|missing|, outcome, calls);
            kept <= |missing| &&
            (cache != null ==>
               cache.Abstract() == RunFrom(cache.Cfg(), old(cache.Abstract()), Traffic(provider, texts, missing[..kept], clock)))
  {
    ghost var st := if cache == null then Fresh() else cache.Abstract();
    var results, pending := LookUpAll(provider, cache, texts, clock, universe, st);
    outcome, calls := AskProvider(provider, cache, texts, clock, universe, st, results, pending);
  }

  method EmbedQuery(provider: Provider, cache: InMemoryCache?<Vector>, text: string, clock: nat -> real, ghost universe: set<string>)
    returns (outcome: Option<Vector>)
    requires Usable(provider, [text], universe) && (cache != null ==> Sound(provider, universe, cache.data))
    modifies cache
    ensures cache != null ==> Sound(provider, universe, cache.data)
    ensures outcome.Some? ==> outcome.value == provider.embed(text)
    ensures outcome.None? <==> old(Missing(provider, cache, [text], clock)) != [] && provider.fails(0)
  {
    var vectors, calls := EmbedDocuments(provider, cache, [text], clock, universe);
    return if vectors.Some? then Some(vectors.value[0]) else None;
  }
}
