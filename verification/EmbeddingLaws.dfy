/** Lookups made one after the other are independent, and embedding the same texts again costs nothing. */
module EmbeddingLaws {
  import opened Wrappers
  import opened Subsequences
  import opened Cache
  import opened Embeddings

  // ----- one lookup does not disturb the next -----

  lemma {:induction false} FindWithout<V(!new)>(slots: seq<Slot<V>>, key: string, other: string)
    ensures Find(Without(slots, key), other) == if other == key then None else Find(slots, other)
  {
    if slots != [] {
      FindWithout(slots[1..], key, other);
    }
  }

  lemma {:induction false} FindSnoc<V(!new)>(slots: seq<Slot<V>>, slot: Slot<V>, other: string)
    ensures Find(slots + [slot], other) ==
            if Find(slots, other).Some? then Find(slots, other) else if slot.key == other then Some(slot) else None
  {
    if slots != [] {
      assert (slots + [slot])[1..] == slots[1..] + [slot];
      FindSnoc(slots[1..], slot, other);
    }
  }

  /** A read changes no later answer: it only reorders, or drops what has already expired. */
  lemma GetKeepsAnswers<V(!new)>(cfg: Config, st: State<V>, key: string, now: real, other: string, later: real)
    requires now <= later
    ensures Answer(Step(cfg, st, Event(Get(key), now)).slots, other, later) == Answer(st.slots, other, later)
  {
    if Find(st.slots, key).Some? {
      FindWithout(st.slots, key, other);
      FindSnoc(Without(st.slots, key), Find(st.slots, key).value, other);
    }
  }

  ghost predicate Forward(clock: nat -> real, n: nat) {
    forall i, j :: 0 <= i <= j < n ==> clock(i) <= clock(j)
  }

  lemma {:induction false} LookupsKeepAnswers(provider: Provider, cfg: Config, st: State<Vector>, texts: seq<string>, clock: nat -> real,
                                              other: string, later: real)
    requires forall i :: 0 <= i < |texts| ==> clock(i) <= later
    ensures Answer(RunFrom(cfg, st, Lookups(provider, texts, clock)).slots, other, later) == Answer(st.slots, other, later)
  {
    if texts != [] {
      var n := |texts| - 1;
      LookupsKeepAnswers(provider, cfg, st, texts[..n], clock, other, later);
      NextLookup(provider, cfg, st, texts, clock, n);
      assert texts[..n + 1] == texts;
      GetKeepsAnswers(cfg, RunFrom(cfg, st, Lookups(provider, texts[..n], clock)), provider.key(texts[n]), clock(n), other, later);
    }
  }

  lemma SnocMember(s: seq<nat>, x: nat, y: nat)
    requires forall j :: 0 <= j < |s| ==> s[j] < x
    ensures y in s + [x] <==> y in s || y == x
    ensures x !in s
  {
  }

  /** A text misses exactly when it is not answered at its turn. */
  lemma {:induction false} MissesAtTurn(provider: Provider, cfg: Config, st: State<Vector>, texts: seq<string>, clock: nat -> real, i: nat)
    requires i < |texts|
    ensures i in Misses(provider, cfg, st, texts, clock) <==>
            Answer(RunFrom(cfg, st, Lookups(provider, texts[..i], clock)).slots, provider.key(texts[i]), clock(i)).None?
  {
    var n := |texts| - 1;
    if i < n {
      MissesAtTurn(provider, cfg, st, texts[..n], clock, i);
      assert texts[..n][..i] == texts[..i];
    }
    LastTurn(provider, cfg, st, texts, clock, i);
  }

  lemma LastTurn(provider: Provider, cfg: Config, st: State<Vector>, texts: seq<string>, clock: nat -> real, i: nat)
    requires i < |texts|
    ensures var n := |texts| - 1;
            i in Misses(provider, cfg, st, texts, clock) <==>
            if i < n then i in Misses(provider, cfg, st, texts[..n], clock)
            else Answer(RunFrom(cfg, st, Lookups(provider, texts[..n], clock)).slots, provider.key(texts[n]), clock(n)).None?
  {
    SnocMember(Misses(provider, cfg, st, texts[..|texts| - 1], clock), |texts| - 1, i);
  }

  /** Which texts miss does not depend on the other lookups: each one is answered as the cache stood at the start. */
  lemma LookupsDoNotInterfere(provider: Provider, cfg: Config, st: State<Vector>, texts: seq<string>, clock: nat -> real, i: nat)
    requires i < |texts| && Forward(clock, |texts|)
    ensures i in Misses(provider, cfg, st, texts, clock) <==> Answer(st.slots, provider.key(texts[i]), clock(i)).None?
  {
    MissesAtTurn(provider, cfg, st, texts, clock, i);
    LookupsKeepAnswers(provider, cfg, st, texts[..i], clock, provider.key(texts[i]), clock(i));
  }

  /** The provider is asked once per sixty-four misses, the last time for those that remain. */
  lemma CallsAre(misses: nat)
    ensures 64 * Calls(misses) - 64 < misses <= 64 * Calls(misses)
  {
  }

  /** A vector is answered for thirty days after it was stored. */
  lemma StoredForThirtyDays(provider: Provider, cfg: Config, st: State<Vector>, text: string, now: real, later: real)
    requires cfg.max >= 1
    ensures Answer(Step(cfg, st, StoreOf(provider, text, now)).slots, provider.key(text), later) ==
            if later <= now + 30.0 * 24.0 * 3600.0 then Some(provider.embed(text)) else None
  {
    SetIsAnswered(cfg, st, provider.key(text), provider.embed(text), 2592000, now, later);
  }

  // ----- embedding again -----

  lemma RunSnoc<V(!new)>(cfg: Config, st: State<V>, events: seq<Event<V>>, e: Event<V>)
    ensures RunFrom(cfg, st, events + [e]) == Step(cfg, RunFrom(cfg, st, events), e)
  {
    assert (events + [e])[..|events|] == events;
  }

  /** Running on after `a` is running `a` and the rest: one more event on both sides. */
  lemma RunConcatSnoc<V(!new)>(cfg: Config, st: State<V>, a: seq<Event<V>>, b: seq<Event<V>>, e: Event<V>)
    requires RunFrom(cfg, RunFrom(cfg, st, a), b) == RunFrom(cfg, st, a + b)
    ensures RunFrom(cfg, RunFrom(cfg, st, a), b + [e]) == RunFrom(cfg, st, a + (b + [e]))
  {
    RunSnoc(cfg, RunFrom(cfg, st, a), b, e);
    RunSnoc(cfg, st, a + b, e);
    AppendAssociates(a, b, [e]);
  }

  lemma AppendAssociates<T>(a: seq<T>, b: seq<T>, c: seq<T>)
    ensures a + (b + c) == (a + b) + c
  {
  }

  lemma LastApart<T>(b: seq<T>)
    requires b != []
    ensures b == b[..|b| - 1] + [b[|b| - 1]]
  {
  }

  lemma {:induction false} RunConcat<V(!new)>(cfg: Config, st: State<V>, a: seq<Event<V>>, b: seq<Event<V>>)
    ensures RunFrom(cfg, RunFrom(cfg, st, a), b) == RunFrom(cfg, st, a + b)
    decreases |b|
  {
    if b == [] {
      assert a + b == a;
    } else {
      var before, e := b[..|b| - 1], b[|b| - 1];
      RunConcat(cfg, st, a, before);
      RunConcatSnoc(cfg, st, a, before, e);
      LastApart(b);
    }
  }

  /** Only reads and stores, and only of these keys. */
  ghost predicate Only<V(!new)>(events: seq<Event<V>>, keys: set<string>) {
    forall i :: 0 <= i < |events| ==> (events[i].op.Get? || events[i].op.Put?) && events[i].op.key in keys
  }

  lemma LastEvent<V(!new)>(events: seq<Event<V>>, keys: set<string>, i: nat) returns (p: nat)
    requires Only(events, keys) && i < |events|
    ensures i <= p < |events| && events[p].op.key == events[i].op.key
    ensures forall q :: p < q < |events| ==> events[q].op.key != events[i].op.key
  {
    p := |events| - 1;
    while events[p].op.key != events[i].op.key
      invariant i <= p < |events|
      decreases p
      invariant forall q :: p < q < |events| ==> events[q].op.key != events[i].op.key
    {
      p := p - 1;
    }
  }

  lemma {:induction false} TouchedAreOthers<V(!new)>(cfg: Config, st: State<V>, events: seq<Event<V>>, keys: set<string>)
    requires Only(events, keys)
    ensures Touched(cfg, st, events) <= keys
  {
    if events != [] {
      TouchedAreOthers(cfg, st, events[..|events| - 1], keys);
    }
  }

  /** After a store, or a read that hits, the key is the newest entry. */
  lemma UsedIsNewest<V(!new)>(cfg: Config, st: State<V>, e: Event<V>)
    requires cfg.max > 0 && Uses(st, e)
    ensures var slots := Step(cfg, st, e).slots; slots != [] && slots[|slots| - 1].key == e.op.key
  {
  }

  /** The newest entry stays through a run on other keys, when all the keys fit. */
  lemma NewestStays<V(!new)>(cfg: Config, st: State<V>, events: seq<Event<V>>, others: set<string>)
    requires WellShaped(cfg, st) && st.slots != []
    requires Only(events, others) && |others| < cfg.max && st.slots[|st.slots| - 1].key !in others
    ensures Find(RunFrom(cfg, st, events).slots, st.slots[|st.slots| - 1].key).Some?
  {
    var slot := st.slots[|st.slots| - 1];
    TouchedAreOthers(cfg, st, events, others);
    SubsetSize(Touched(cfg, st, events), others);
    RecentEntrySurvives(cfg, st, slot, events);
    assert Answer(RunFrom(cfg, st, events).slots, slot.key, slot.expires).Some?;
  }

  lemma OnlyOthers<V(!new)>(events: seq<Event<V>>, keys: set<string>, p: nat)
    requires Only(events, keys) && p < |events|
    requires forall q :: p < q < |events| ==> events[q].op.key != events[p].op.key
    ensures Only(events[p + 1..], keys - {events[p].op.key})
    ensures |keys - {events[p].op.key}| == |keys| - 1
  {
  }

  /** Used last at `p`, a key is still there at the end when all the keys of the run fit. */
  lemma UsedLastStays<V(!new)>(cfg: Config, st: State<V>, events: seq<Event<V>>, keys: set<string>, p: nat)
    requires WellShaped(cfg, st) && Only(events, keys) && |keys| <= cfg.max
    requires p < |events| && Uses(RunFrom(cfg, st, events[..p]), events[p])
    requires forall q :: p < q < |events| ==> events[q].op.key != events[p].op.key
    ensures Find(RunFrom(cfg, st, events).slots, events[p].op.key).Some?
  {
    var before, e, rest := events[..p], events[p], events[p + 1..];
    assert events == (before + [e]) + rest;
    RunConcat(cfg, st, before + [e], rest);
    RunSnoc(cfg, st, before, e);
    RunKeepsShape(cfg, st, before + [e]);
    OnlyOthers(events, keys, p);
    UsedIsNewest(cfg, RunFrom(cfg, st, before), e);
    NewestStays(cfg, RunFrom(cfg, st, before + [e]), rest, keys - {e.op.key});
  }

  function KeySet(provider: Provider, texts: seq<string>): set<string> {
    set i | 0 <= i < |texts| :: provider.key(texts[i])
  }

  lemma TrafficIsOnly(provider: Provider, texts: seq<string>, missing: seq<nat>, clock: nat -> real)
    requires forall j :: 0 <= j < |missing| ==> missing[j] < |texts|
    ensures Only(Traffic(provider, texts, missing, clock), KeySet(provider, texts))
  {
    var events := Traffic(provider, texts, missing, clock);
    forall i | 0 <= i < |events|
      ensures (events[i].op.Get? || events[i].op.Put?) && events[i].op.key in KeySet(provider, texts)
    {
      if i >= |texts| {
        TrafficAt(provider, texts, missing, clock, i - |texts|);
      }
    }
  }

  /** The keys of the texts at these positions. */
  function KeysAt(provider: Provider, texts: seq<string>, picks: seq<nat>): set<string>
    requires forall j :: 0 <= j < |picks| ==> picks[j] < |texts|
  {
    set j | 0 <= j < |picks| :: provider.key(texts[picks[j]])
  }

  /** The state once the first `kept` of the missing texts have been stored. */
  function After(provider: Provider, cfg: Config, st: State<Vector>, texts: seq<string>, clock: nat -> real, kept: nat): State<Vector>
    requires kept <= |Misses(provider, cfg, st, texts, clock)|
  {
    RunFrom(cfg, st, Traffic(provider, texts, Misses(provider, cfg, st, texts, clock)[..kept], clock))
  }

  /** Some text with this key missed. */
  predicate Missed(provider: Provider, cfg: Config, st: State<Vector>, texts: seq<string>, clock: nat -> real, key: string) {
    key in KeysAt(provider, texts, Misses(provider, cfg, st, texts, clock))
  }

  /** One of the first `kept` missing texts has this key. */
  predicate StoredBy(provider: Provider, cfg: Config, st: State<Vector>, texts: seq<string>, clock: nat -> real, kept: nat, key: string)
    requires kept <= |Misses(provider, cfg, st, texts, clock)|
  {
    key in KeysAt(provider, texts, Misses(provider, cfg, st, texts, clock)[..kept])
  }

  // ----- a key that was stored, or never missed -----

  lemma StoreComesLater(provider: Provider, texts: seq<string>, picks: seq<nat>, clock: nat -> real, key: string)
    requires forall j :: 0 <= j < |picks| ==> picks[j] < |texts|
    requires key in KeysAt(provider, texts, picks)
    ensures exists q :: |texts| <= q < |texts| + |picks| && Traffic(provider, texts, picks, clock)[q].op.Put? &&
                        Traffic(provider, texts, picks, clock)[q].op.key == key
  {
    var j :| 0 <= j < |picks| && provider.key(texts[picks[j]]) == key;
    TrafficAt(provider, texts, picks, clock, j);
  }

  lemma MissedAt(provider: Provider, texts: seq<string>, missing: seq<nat>, p: nat)
    requires p < |texts| && forall j :: 0 <= j < |missing| ==> missing[j] < |texts|
    ensures p in missing ==> provider.key(texts[p]) in KeysAt(provider, texts, missing)
  {
  }

  lemma EarlyTraffic(provider: Provider, texts: seq<string>, picks: seq<nat>, clock: nat -> real, p: nat)
    requires p < |texts| && forall j :: 0 <= j < |picks| ==> picks[j] < |texts|
    ensures var events := Traffic(provider, texts, picks, clock);
            events[..p] == Lookups(provider, texts[..p], clock) && events[p] == Event(Get(provider.key(texts[p])), clock(p))
  {
  }

  lemma HitAtTurn(provider: Provider, cfg: Config, st: State<Vector>, texts: seq<string>, clock: nat -> real, p: nat, picks: seq<nat>)
    requires p < |texts| && !Missed(provider, cfg, st, texts, clock, provider.key(texts[p]))
    requires forall j :: 0 <= j < |picks| ==> picks[j] < |texts|
    ensures var events := Traffic(provider, texts, picks, clock); Uses(RunFrom(cfg, st, events[..p]), events[p])
  {
    MissesAtTurn(provider, cfg, st, texts, clock, p);
    MissedAt(provider, texts, Misses(provider, cfg, st, texts, clock), p);
    EarlyTraffic(provider, texts, picks, clock, p);
  }

  /** The last operation on such a key is a store, or a read that hit. */
  lemma KeyIsUsed(provider: Provider, cfg: Config, st: State<Vector>, texts: seq<string>, clock: nat -> real, kept: nat, p: nat, key: string)
    requires kept <= |Misses(provider, cfg, st, texts, clock)|
    requires StoredBy(provider, cfg, st, texts, clock, kept, key) || !Missed(provider, cfg, st, texts, clock, key)
    requires var events := Traffic(provider, texts, Misses(provider, cfg, st, texts, clock)[..kept], clock);
             p < |events| && Only(events, KeySet(provider, texts)) && events[p].op.key == key &&
             forall q :: p < q < |events| ==> events[q].op.key != key
    ensures var events := Traffic(provider, texts, Misses(provider, cfg, st, texts, clock)[..kept], clock);
            Uses(RunFrom(cfg, st, events[..p]), events[p])
  {
    var picks := Misses(provider, cfg, st, texts, clock)[..kept];
    if p >= |texts| {
      TrafficAt(provider, texts, picks, clock, p - |texts|);
    } else if Missed(provider, cfg, st, texts, clock, key) {
      StoreComesLater(provider, texts, picks, clock, key);
    } else {
      HitAtTurn(provider, cfg, st, texts, clock, p, picks);
    }
  }

  lemma KeyIsKept(provider: Provider, cfg: Config, st: State<Vector>, texts: seq<string>, clock: nat -> real, kept: nat, i: nat)
    requires WellShaped(cfg, st) && |KeySet(provider, texts)| <= cfg.max && i < |texts|
    requires kept <= |Misses(provider, cfg, st, texts, clock)|
    requires StoredBy(provider, cfg, st, texts, clock, kept, provider.key(texts[i])) ||
             !Missed(provider, cfg, st, texts, clock, provider.key(texts[i]))
    ensures Find(After(provider, cfg, st, texts, clock, kept).slots, provider.key(texts[i])).Some?
  {
    var picks := Misses(provider, cfg, st, texts, clock)[..kept];
    var events := Traffic(provider, texts, picks, clock);
    TrafficIsOnly(provider, texts, picks, clock);
    assert events[i].op.key == provider.key(texts[i]);
    var p := LastEvent(events, KeySet(provider, texts), i);
    KeyIsUsed(provider, cfg, st, texts, clock, kept, p, provider.key(texts[i]));
    UsedLastStays(cfg, st, events, KeySet(provider, texts), p);
  }

  // ----- a key that missed and was not stored -----

  lemma StepStaysAbsent<V(!new)>(cfg: Config, st: State<V>, e: Event<V>, key: string)
    requires Find(st.slots, key).None? && (e.op.Put? ==> e.op.key != key)
    ensures Find(Step(cfg, st, e).slots, key).None?
  {
    var after := Step(cfg, st, e).slots;
    forall slot | slot in after
      ensures slot.key != key
    {
    }
  }

  lemma {:induction false} RunStaysAbsent<V(!new)>(cfg: Config, st: State<V>, events: seq<Event<V>>, key: string)
    requires Find(st.slots, key).None? && forall i :: 0 <= i < |events| && events[i].op.Put? ==> events[i].op.key != key
    ensures Find(RunFrom(cfg, st, events).slots, key).None?
  {
    if events != [] {
      var before, e := events[..|events| - 1], events[|events| - 1];
      RunStaysAbsent(cfg, st, before, key);
      StepStaysAbsent(cfg, RunFrom(cfg, st, before), e, key);
    }
  }

  lemma MissLeavesNothing<V(!new)>(cfg: Config, st: State<V>, key: string, now: real)
    requires Answer(st.slots, key, now).None?
    ensures Find(Step(cfg, st, Event(Get(key), now)).slots, key).None?
  {
    FindWithout(st.slots, key, key);
  }

  lemma PutsAreStores(provider: Provider, texts: seq<string>, picks: seq<nat>, clock: nat -> real, q: nat)
    requires forall j :: 0 <= j < |picks| ==> picks[j] < |texts|
    requires q < |texts| + |picks|
    ensures var e := Traffic(provider, texts, picks, clock)[q]; e.op.Put? ==> e.op.key in KeysAt(provider, texts, picks)
  {
    if q >= |texts| {
      TrafficAt(provider, texts, picks, clock, q - |texts|);
    }
  }

  lemma AbsentAfterMiss(provider: Provider, cfg: Config, st: State<Vector>, texts: seq<string>, clock: nat -> real, picks: seq<nat>, i: nat)
    requires i < |texts| && forall j :: 0 <= j < |picks| ==> picks[j] < |texts|
    requires i in Misses(provider, cfg, st, texts, clock)
    ensures Find(RunFrom(cfg, st, Traffic(provider, texts, picks, clock)[..i + 1]).slots, provider.key(texts[i])).None?
  {
    var events := Traffic(provider, texts, picks, clock);
    MissesAtTurn(provider, cfg, st, texts, clock, i);
    EarlyTraffic(provider, texts, picks, clock, i);
    RunStep(cfg, st, events, i);
    MissLeavesNothing(cfg, RunFrom(cfg, st, events[..i]), provider.key(texts[i]), clock(i));
  }

  /** Absent after some events, a key that the rest does not store is absent at the end. */
  lemma StaysAbsentFrom<V(!new)>(cfg: Config, st: State<V>, events: seq<Event<V>>, from: nat, key: string)
    requires from <= |events| && Find(RunFrom(cfg, st, events[..from]).slots, key).None?
    requires forall q :: from <= q < |events| && events[q].op.Put? ==> events[q].op.key != key
    ensures Find(RunFrom(cfg, st, events).slots, key).None?
  {
    assert events == events[..from] + events[from..];
    RunConcat(cfg, st, events[..from], events[from..]);
    RunStaysAbsent(cfg, RunFrom(cfg, st, events[..from]), events[from..], key);
  }

  lemma KeyIsAbsent(provider: Provider, cfg: Config, st: State<Vector>, texts: seq<string>, clock: nat -> real, kept: nat, key: string)
    requires kept <= |Misses(provider, cfg, st, texts, clock)|
    requires Missed(provider, cfg, st, texts, clock, key) && !StoredBy(provider, cfg, st, texts, clock, kept, key)
    ensures Find(After(provider, cfg, st, texts, clock, kept).slots, key).None?
  {
    var missing := Misses(provider, cfg, st, texts, clock);
    var j :| 0 <= j < |missing| && provider.key(texts[missing[j]]) == key;
    AbsentAfterMiss(provider, cfg, st, texts, clock, missing[..kept], missing[j]);
    var events := Traffic(provider, texts, missing[..kept], clock);
    forall q | missing[j] < q < |events| && events[q].op.Put?
      ensures events[q].op.key != key
    {
      PutsAreStores(provider, texts, missing[..kept], clock, q);
    }
    StaysAbsentFrom(cfg, st, events, missing[j] + 1, key);
  }

  // ----- what a repeated call asks for -----

  /**
   After a call that stored only some of the missing texts, a retry asks for exactly the texts whose
   keys missed and were not stored, if the keys fit in the cache and nothing it holds has expired.
   */
  lemma RetryAsksForTheRest(provider: Provider, cfg: Config, st: State<Vector>, texts: seq<string>, clock: nat -> real, kept: nat,
                            again: nat -> real, i: nat)
    requires WellShaped(cfg, st) && |KeySet(provider, texts)| <= cfg.max && Forward(again, |texts|) && i < |texts|
    requires kept <= |Misses(provider, cfg, st, texts, clock)|
    requires forall slot, k :: slot in After(provider, cfg, st, texts, clock, kept).slots && 0 <= k < |texts| ==> again(k) <= slot.expires
    ensures i in Misses(provider, cfg, After(provider, cfg, st, texts, clock, kept), texts, again) <==>
            Missed(provider, cfg, st, texts, clock, provider.key(texts[i])) &&
            !StoredBy(provider, cfg, st, texts, clock, kept, provider.key(texts[i]))
  {
    var key := provider.key(texts[i]);
    LookupsDoNotInterfere(provider, cfg, After(provider, cfg, st, texts, clock, kept), texts, again, i);
    if Missed(provider, cfg, st, texts, clock, key) && !StoredBy(provider, cfg, st, texts, clock, kept, key) {
      KeyIsAbsent(provider, cfg, st, texts, clock, kept, key);
    } else {
      KeyIsKept(provider, cfg, st, texts, clock, kept, i);
    }
  }

  /** After a call that stored all of them, the key of every text is in the cache if and only if the keys fit. */
  lemma EveryTextIsKept(provider: Provider, cfg: Config, st: State<Vector>, texts: seq<string>, clock: nat -> real)
    requires WellShaped(cfg, st)
    ensures var end := After(provider, cfg, st, texts, clock, |Misses(provider, cfg, st, texts, clock)|);
            (forall i :: 0 <= i < |texts| ==> Find(end.slots, provider.key(texts[i])).Some?) <==> |KeySet(provider, texts)| <= cfg.max
  {
    var missing := Misses(provider, cfg, st, texts, clock);
    var end := After(provider, cfg, st, texts, clock, |missing|);
    TakeWhole(missing);
    if |KeySet(provider, texts)| <= cfg.max {
      forall i | 0 <= i < |texts|
        ensures Find(end.slots, provider.key(texts[i])).Some?
      {
        KeyIsKept(provider, cfg, st, texts, clock, |missing|, i);
      }
    } else if forall i :: 0 <= i < |texts| ==> Find(end.slots, provider.key(texts[i])).Some? {
      KeysFound(provider, end.slots, texts);
      RunKeepsShape(cfg, st, Traffic(provider, texts, missing[..|missing|], clock));
      CountKeys(end.slots);
      SubsetSize(KeySet(provider, texts), KeysOf(end.slots));
    }
  }

  lemma KeysFound(provider: Provider, slots: seq<Slot<Vector>>, texts: seq<string>)
    requires forall i :: 0 <= i < |texts| ==> Find(slots, provider.key(texts[i])).Some?
    ensures KeySet(provider, texts) <= KeysOf(slots)
  {
    forall key | key in KeySet(provider, texts)
      ensures key in KeysOf(slots)
    {
      assert Find(slots, key).value in slots;
    }
  }

  lemma TakeWhole<T>(s: seq<T>)
    ensures s[..|s|] == s
  {
  }

  /** Embedding the same texts again asks the provider nothing, under the same conditions. */
  lemma RepeatIsFree(provider: Provider, cfg: Config, st: State<Vector>, texts: seq<string>, clock: nat -> real, again: nat -> real)
    requires WellShaped(cfg, st) && |KeySet(provider, texts)| <= cfg.max && Forward(again, |texts|)
    requires var end := After(provider, cfg, st, texts, clock, |Misses(provider, cfg, st, texts, clock)|);
             forall slot, i :: slot in end.slots && 0 <= i < |texts| ==> again(i) <= slot.expires
    ensures var end := After(provider, cfg, st, texts, clock, |Misses(provider, cfg, st, texts, clock)|);
            Misses(provider, cfg, end, texts, again) == []
  {
    var missing := Misses(provider, cfg, st, texts, clock);
    var end := After(provider, cfg, st, texts, clock, |missing|);
    TakeWhole(missing);
    forall i | 0 <= i < |texts|
      ensures i !in Misses(provider, cfg, end, texts, again)
    {
      RetryAsksForTheRest(provider, cfg, st, texts, clock, |missing|, again, i);
    }
    FirstIsMember(Misses(provider, cfg, end, texts, again));
  }

  lemma FirstIsMember(s: seq<nat>)
    ensures s != [] ==> s[0] in s
  {
  }
}
