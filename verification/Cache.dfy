/**
 The in-process cache: an insertion-ordered dictionary that doubles as a recency list, with
 per-entry expiry (`backend/src/jst_api/core/cache.py`).

 `InMemoryCache` is the mutable class; `Step` is one operation on its abstract state, and the
 theorems are about whole runs of `Step`.
 */
module Cache {
  import opened Wrappers
  import opened Subsequences

  datatype Slot<V> = Slot(key: string, expires: real, value: V)

  /** The slots are ordered from least to most recently used. */
  datatype State<V> = State(slots: seq<Slot<V>>, hits: nat, misses: nat)

  datatype Config = Config(max: nat, defaultTtl: int)

  datatype Op<V> = Get(key: string) | Put(key: string, value: V, ttl: Option<int>) | Delete(key: string) | Clear

  datatype Event<V> = Event(op: Op<V>, now: real)

  // ----- the ordered dictionary -----

  function Find<V(!new)>(slots: seq<Slot<V>>, key: string): (r: Option<Slot<V>>)
    ensures r.Some? ==> r.value in slots && r.value.key == key
    ensures r.None? ==> forall s :: s in slots ==> s.key != key
  {
    if slots == [] then None
    else if slots[0].key == key then Some(slots[0])
    else Find(slots[1..], key)
  }

  function Without<V(!new)>(slots: seq<Slot<V>>, key: string): (r: seq<Slot<V>>)
    ensures forall s :: s in r <==> s in slots && s.key != key
    ensures |r| <= |slots|
  {
    if slots == [] then []
    else if slots[0].key == key then Without(slots[1..], key)
    else [slots[0]] + Without(slots[1..], key)
  }

  /** `d[key] = value`: in place when the key is present, appended otherwise. */
  function Assign<V(!new)>(slots: seq<Slot<V>>, slot: Slot<V>): seq<Slot<V>> {
    if slots == [] then [slot]
    else if slots[0].key == slot.key then [slot] + slots[1..]
    else [slots[0]] + Assign(slots[1..], slot)
  }

  function Evict<V(!new)>(slots: seq<Slot<V>>, max: nat): seq<Slot<V>> {
    if |slots| <= max then slots else slots[|slots| - max..]
  }

  /** The slots after a `set`: the new one is the most recent, and the bound holds. */
  function Stored<V(!new)>(slots: seq<Slot<V>>, slot: Slot<V>, max: nat): seq<Slot<V>> {
    Evict(Without(slots, slot.key) + [slot], max)
  }

  ghost predicate DistinctKeys<V(!new)>(slots: seq<Slot<V>>) {
    forall i, j :: 0 <= i < j < |slots| ==> slots[i].key != slots[j].key
  }

  // ----- one operation -----

  /** `ttl or default`: both a missing and a zero time-to-live fall back to the default. */
  function Lifetime(cfg: Config, ttl: Option<int>): int {
    if ttl.Some? && ttl.value != 0 then ttl.value else cfg.defaultTtl
  }

  /** What `get` returns; the entry is still good at the very instant it expires. */
  function Answer<V(!new)>(slots: seq<Slot<V>>, key: string, now: real): Option<V> {
    match Find(slots, key)
    case None => None
    case Some(slot) => if slot.expires < now then None else Some(slot.value)
  }

  function Step<V(!new)>(cfg: Config, st: State<V>, e: Event<V>): State<V> {
    match e.op
    case Get(key) =>
      (match Find(st.slots, key)
       case None => st.(misses := st.misses + 1)
       case Some(slot) =>
         if slot.expires < e.now then State(Without(st.slots, key), st.hits, st.misses + 1)
         else State(Without(st.slots, key) + [slot], st.hits + 1, st.misses))
    case Put(key, value, ttl) =>
      var slot := Slot(key, e.now + Lifetime(cfg, ttl) as real, value);
      st.(slots := Stored(st.slots, slot, cfg.max))
    case Delete(key) => st.(slots := Without(st.slots, key))
    case Clear => st.(slots := [])
  }

  function RunFrom<V(!new)>(cfg: Config, st: State<V>, es: seq<Event<V>>): State<V> {
    if es == [] then st else Step(cfg, RunFrom(cfg, st, es[..|es| - 1]), es[|es| - 1])
  }

  function Fresh<V>(): State<V> {
    State([], 0, 0)
  }

  ghost predicate WellShaped<V(!new)>(cfg: Config, st: State<V>) {
    DistinctKeys(st.slots) && |st.slots| <= cfg.max
  }

  // ----- lemmas about the dictionary -----

  lemma {:induction false} WithoutKeepsDistinct<V(!new)>(slots: seq<Slot<V>>, key: string)
    requires DistinctKeys(slots)
    ensures DistinctKeys(Without(slots, key))
    ensures IsSubseq(Without(slots, key), slots)
    ensures |Without(slots, key)| == |slots| - (if Find(slots, key).Some? then 1 else 0)
  {
    if slots != [] {
      WithoutKeepsDistinct(slots[1..], key);
      if slots[0].key == key {
        WithoutAbsent(slots[1..], key);
        SubseqWiden(slots[1..], slots[1..], slots[0]);
        assert [slots[0]] + slots[1..] == slots;
      }
    }
  }

  lemma {:induction false} WithoutAbsent<V(!new)>(slots: seq<Slot<V>>, key: string)
    requires forall s :: s in slots ==> s.key != key
    ensures Without(slots, key) == slots
    ensures IsSubseq(slots, slots)
    ensures Find(slots, key).None?
  {
    if slots != [] {
      assert slots[0] in slots;
      WithoutAbsent(slots[1..], key);
    }
  }

  lemma {:induction false} WithoutSubseq<V(!new)>(small: seq<Slot<V>>, big: seq<Slot<V>>, key: string)
    requires IsSubseq(small, big)
    ensures IsSubseq(Without(small, key), Without(big, key))
  {
    if small != [] {
      if small[0] == big[0] {
        WithoutSubseq(small[1..], big[1..], key);
      } else {
        WithoutSubseq(small, big[1..], key);
        if big[0].key != key {
          SubseqWiden(Without(small, key), Without(big[1..], key), big[0]);
        }
      }
    }
  }

  lemma FindIsTheOnly<V(!new)>(slots: seq<Slot<V>>, slot: Slot<V>)
    requires DistinctKeys(slots) && slot in slots
    ensures Find(slots, slot.key) == Some(slot)
  {
  }

  lemma RefreshKeepsDistinct<V(!new)>(slots: seq<Slot<V>>, slot: Slot<V>)
    requires DistinctKeys(slots)
    ensures DistinctKeys(Without(slots, slot.key) + [slot])
    ensures |Without(slots, slot.key)| == |slots| - (if Find(slots, slot.key).Some? then 1 else 0)
  {
    WithoutKeepsDistinct(slots, slot.key);
    var rest := Without(slots, slot.key);
    forall i | 0 <= i < |rest|
      ensures rest[i].key != slot.key
    {
      assert rest[i] in rest;
    }
  }

  lemma EvictKeepsShape<V(!new)>(slots: seq<Slot<V>>, max: nat)
    requires DistinctKeys(slots)
    ensures DistinctKeys(Evict(slots, max)) && |Evict(slots, max)| <= max
  {
  }

  lemma PutKeepsShape<V(!new)>(cfg: Config, slots: seq<Slot<V>>, slot: Slot<V>)
    requires DistinctKeys(slots)
    ensures DistinctKeys(Stored(slots, slot, cfg.max)) && |Stored(slots, slot, cfg.max)| <= cfg.max
  {
    RefreshKeepsDistinct(slots, slot);
    EvictKeepsShape(Without(slots, slot.key) + [slot], cfg.max);
  }

  lemma GetKeepsShape<V(!new)>(cfg: Config, st: State<V>, key: string, now: real)
    requires WellShaped(cfg, st)
    ensures WellShaped(cfg, Step(cfg, st, Event(Get(key), now)))
  {
    WithoutKeepsDistinct(st.slots, key);
    if Find(st.slots, key).Some? {
      RefreshKeepsDistinct(st.slots, Find(st.slots, key).value);
    }
  }

  /** Keys stay unique and the bound holds after every operation. */
  lemma StepKeepsShape<V(!new)>(cfg: Config, st: State<V>, e: Event<V>)
    requires WellShaped(cfg, st)
    ensures WellShaped(cfg, Step(cfg, st, e))
  {
    match e.op
    case Get(key) => GetKeepsShape(cfg, st, key, e.now);
    case Put(key, value, ttl) =>
      PutKeepsShape(cfg, st.slots, Slot(key, e.now + Lifetime(cfg, ttl) as real, value));
    case Delete(key) => WithoutKeepsDistinct(st.slots, key);
    case Clear =>
  }

  lemma {:induction false} RunKeepsShape<V(!new)>(cfg: Config, st: State<V>, es: seq<Event<V>>)
    requires WellShaped(cfg, st)
    ensures WellShaped(cfg, RunFrom(cfg, st, es))
  {
    if es != [] {
      RunKeepsShape(cfg, st, es[..|es| - 1]);
      StepKeepsShape(cfg, RunFrom(cfg, st, es[..|es| - 1]), es[|es| - 1]);
    }
  }

  // ----- a bigger cache holds everything a smaller one holds -----

  ghost predicate Related<V(!new)>(slack: int, xs: seq<Slot<V>>, ys: seq<Slot<V>>) {
    IsSubseq(xs, ys) && |ys| - |xs| <= slack
  }

  /** The relation kept between two caches of different capacity fed the same operations. */
  ghost predicate Includes<V(!new)>(small: Config, a: State<V>, big: Config, b: State<V>) {
    && Related(big.max - small.max, a.slots, b.slots)
    && a.hits <= b.hits
    && a.hits + a.misses == b.hits + b.misses
  }

  lemma FoundInBigger<V(!new)>(small: seq<Slot<V>>, big: seq<Slot<V>>, key: string)
    requires IsSubseq(small, big) && DistinctKeys(big)
    requires Find(small, key).Some?
    ensures Find(big, key) == Find(small, key)
  {
    var slot := Find(small, key).value;
    SubseqMember(small, big, slot);
    FindIsTheOnly(big, slot);
  }

  /** Once the key is out of both, adding it to both and evicting keeps the inclusion. */
  lemma StoreKeepsInclusion<V(!new)>(small: nat, xs: seq<Slot<V>>, big: nat, ys: seq<Slot<V>>, slot: Slot<V>)
    requires IsSubseq(Without(xs, slot.key), Without(ys, slot.key))
    requires |Without(xs, slot.key)| <= small <= big && |Without(ys, slot.key)| <= big
    requires |Without(ys, slot.key)| - |Without(xs, slot.key)| <= big - small
    ensures Related(big - small, Stored(xs, slot, small), Stored(ys, slot, big))
  {
    var a, b := Without(xs, slot.key), Without(ys, slot.key);
    SubseqSnoc(a, b, slot);
    if |a| == small {
      SubseqDropHead(a + [slot], b + [slot]);
    }
  }

  /** Removing a key from both keeps the inclusion, and shrinks the small one only if it shrinks the big one. */
  lemma WithoutBoth<V(!new)>(small: seq<Slot<V>>, big: seq<Slot<V>>, key: string)
    requires IsSubseq(small, big) && DistinctKeys(small) && DistinctKeys(big)
    ensures IsSubseq(Without(small, key), Without(big, key))
    ensures |Without(big, key)| == |big| - (if Find(big, key).Some? then 1 else 0)
    ensures |Without(small, key)| == |small| - (if Find(small, key).Some? then 1 else 0)
    ensures Find(small, key).None? ==> Without(small, key) == small
    ensures Find(small, key).Some? ==> Find(big, key) == Find(small, key)
  {
    WithoutSubseq(small, big, key);
    WithoutKeepsDistinct(small, key);
    WithoutKeepsDistinct(big, key);
    if Find(small, key).Some? {
      FoundInBigger(small, big, key);
    } else {
      WithoutAbsent(small, key);
    }
  }

  lemma GetKeepsInclusion<V(!new)>(small: Config, a: State<V>, big: Config, b: State<V>, key: string, now: real)
    requires small.max <= big.max
    requires WellShaped(small, a) && WellShaped(big, b) && Includes(small, a, big, b)
    ensures Related(big.max - small.max, Step(small, a, Event(Get(key), now)).slots, Step(big, b, Event(Get(key), now)).slots)
    ensures Find(a.slots, key).Some? ==> Find(b.slots, key) == Find(a.slots, key)
  {
    WithoutBoth(a.slots, b.slots, key);
    if Find(b.slots, key).Some? {
      SubseqSnoc(Without(a.slots, key), Without(b.slots, key), Find(b.slots, key).value);
    }
  }

  /** The small cache is no fuller without the key than before, and less full if the key was in it. */
  lemma RoomForOne<V(!new)>(slack: int, xs: seq<Slot<V>>, ys: seq<Slot<V>>, key: string)
    requires Related(slack, xs, ys) && DistinctKeys(xs) && DistinctKeys(ys) && slack >= 0
    ensures Related(slack, Without(xs, key), Without(ys, key))
    ensures |Without(xs, key)| <= |xs| && |Without(ys, key)| <= |ys|
  {
    WithoutBoth(xs, ys, key);
  }

  lemma PutKeepsInclusion<V(!new)>(small: nat, xs: seq<Slot<V>>, big: nat, ys: seq<Slot<V>>, slot: Slot<V>)
    requires |xs| <= small <= big && |ys| <= big
    requires Related(big - small, xs, ys) && DistinctKeys(xs) && DistinctKeys(ys)
    ensures Related(big - small, Stored(xs, slot, small), Stored(ys, slot, big))
  {
    RoomForOne(big - small, xs, ys, slot.key);
    StoreKeepsInclusion(small, xs, big, ys, slot);
  }

  lemma StepKeepsInclusion<V(!new)>(small: Config, a: State<V>, big: Config, b: State<V>, e: Event<V>)
    requires small.max <= big.max && small.defaultTtl == big.defaultTtl
    requires WellShaped(small, a) && WellShaped(big, b) && Includes(small, a, big, b)
    ensures Includes(small, Step(small, a, e), big, Step(big, b, e))
  {
    match e.op
    case Get(key) => GetKeepsInclusion(small, a, big, b, key, e.now);
    case Put(key, value, ttl) =>
      PutKeepsInclusion(small.max, a.slots, big.max, b.slots, Slot(key, e.now + Lifetime(small, ttl) as real, value));
    case Delete(key) => RoomForOne(big.max - small.max, a.slots, b.slots, key);
    case Clear =>
  }

  /**
   Growing the cache never loses a hit: after the same timed operations, whatever the smaller
   cache would answer the bigger one answers too, with the same value, and it has hit at least as often.
   */
  lemma {:induction false} CapacityInclusion<V(!new)>(small: Config, big: Config, es: seq<Event<V>>)
    requires small.max <= big.max && small.defaultTtl == big.defaultTtl
    ensures Includes(small, RunFrom(small, Fresh(), es), big, RunFrom(big, Fresh(), es))
    ensures forall key, now | Answer(RunFrom(small, Fresh(), es).slots, key, now).Some? ::
              Answer(RunFrom(big, Fresh(), es).slots, key, now) == Answer(RunFrom(small, Fresh(), es).slots, key, now)
  {
    var a, b := RunFrom(small, Fresh(), es), RunFrom(big, Fresh(), es);
    RunKeepsShape(big, Fresh(), es);
    if es != [] {
      var before := es[..|es| - 1];
      RunKeepsShape(small, Fresh(), before);
      RunKeepsShape(big, Fresh(), before);
      CapacityInclusion(small, big, before);
      StepKeepsInclusion(small, RunFrom(small, Fresh(), before), big, RunFrom(big, Fresh(), before), es[|es| - 1]);
    }
    forall key, now | Answer(a.slots, key, now).Some?
      ensures Answer(b.slots, key, now) == Answer(a.slots, key, now)
    {
      FoundInBigger(a.slots, b.slots, key);
    }
  }

  // ----- agreement with an unbounded map -----

  /** The unbounded reference: the latest `set` of each key, minus deletions. Reads do not change it. */
  function Record<V(!new)>(cfg: Config, m: map<string, Slot<V>>, e: Event<V>): map<string, Slot<V>> {
    match e.op
    case Get(_) => m
    case Put(key, value, ttl) => m[key := Slot(key, e.now + Lifetime(cfg, ttl) as real, value)]
    case Delete(key) => m - {key}
    case Clear => map[]
  }

  function Latest<V(!new)>(cfg: Config, es: seq<Event<V>>): map<string, Slot<V>> {
    if es == [] then map[] else Record(cfg, Latest(cfg, es[..|es| - 1]), es[|es| - 1])
  }

  function Gets<V>(es: seq<Event<V>>): nat {
    if es == [] then 0 else Gets(es[..|es| - 1]) + (if es[|es| - 1].op.Get? then 1 else 0)
  }

  ghost predicate Matches<V(!new)>(slots: seq<Slot<V>>, m: map<string, Slot<V>>) {
    forall slot :: slot in slots ==> slot.key in m && m[slot.key] == slot
  }

  lemma StepKeepsMatch<V(!new)>(cfg: Config, st: State<V>, m: map<string, Slot<V>>, e: Event<V>)
    requires Matches(st.slots, m)
    ensures Matches(Step(cfg, st, e).slots, Record(cfg, m, e))
  {
    if e.op.Put? {
      var next := Slot(e.op.key, e.now + Lifetime(cfg, e.op.ttl) as real, e.op.value);
      forall slot | slot in Stored(st.slots, next, cfg.max)
        ensures slot == next || slot in Without(st.slots, e.op.key)
      {
      }
    }
  }

  lemma {:induction false} RunMatches<V(!new)>(cfg: Config, es: seq<Event<V>>)
    ensures Matches(RunFrom(cfg, Fresh(), es).slots, Latest(cfg, es))
    ensures RunFrom(cfg, Fresh(), es).hits + RunFrom(cfg, Fresh(), es).misses == Gets(es)
  {
    if es != [] {
      var before, e := es[..|es| - 1], es[|es| - 1];
      RunMatches(cfg, before);
      StepKeepsMatch(cfg, RunFrom(cfg, Fresh(), before), Latest(cfg, before), e);
    }
  }

  /**
   A hit is never stale or wrong: it returns the value most recently set for that key, not
   deleted since and not expired; the size bound holds throughout and every `get` is counted once.
   */
  lemma AgreesWithUnboundedMap<V(!new)>(cfg: Config, es: seq<Event<V>>)
    ensures var st, latest := RunFrom(cfg, Fresh(), es), Latest(cfg, es);
            && |st.slots| <= cfg.max
            && st.hits + st.misses == Gets(es)
            && (forall key, now | Answer(st.slots, key, now).Some? ::
                  key in latest && now <= latest[key].expires && Answer(st.slots, key, now).value == latest[key].value)
  {
    RunMatches(cfg, es);
    RunKeepsShape(cfg, Fresh(), es);
  }

  // ----- what was set, and for how long -----

  /** What is set is answered, with its value, up to and including the instant its own time-to-live ends. */
  lemma SetIsAnswered<V(!new)>(cfg: Config, st: State<V>, key: string, value: V, ttl: int, now: real, later: real)
    requires cfg.max >= 1 && ttl != 0
    ensures Answer(Step(cfg, st, Event(Put(key, value, Some(ttl)), now)).slots, key, later) ==
            if later <= now + ttl as real then Some(value) else None
  {
    StoredIsFound(st.slots, Slot(key, now + ttl as real, value), cfg.max);
  }

  /** Without a time-to-live, or with nought for one, the default applies. */
  lemma SetByDefault<V(!new)>(cfg: Config, st: State<V>, key: string, value: V, ttl: Option<int>, now: real, later: real)
    requires cfg.max >= 1 && (ttl == None || ttl == Some(0))
    ensures Answer(Step(cfg, st, Event(Put(key, value, ttl), now)).slots, key, later) ==
            if later <= now + cfg.defaultTtl as real then Some(value) else None
  {
    StoredIsFound(st.slots, Slot(key, now + cfg.defaultTtl as real, value), cfg.max);
  }

  lemma StoredIsFound<V(!new)>(slots: seq<Slot<V>>, slot: Slot<V>, max: nat)
    requires max >= 1
    ensures Find(Stored(slots, slot, max), slot.key) == Some(slot)
  {
    var stored := Stored(slots, slot, max);
    assert stored[|stored| - 1] == slot;
    forall s | s in stored && s.key == slot.key
      ensures s == slot
    {
      assert s in Without(slots, slot.key) + [slot];
    }
  }

  /** At `p` the key was set, and nothing since has set it again, deleted it or cleared the cache. */
  ghost predicate LastSet<V(!new)>(es: seq<Event<V>>, key: string, p: nat) {
    && p < |es| && es[p].op.Put? && es[p].op.key == key
    && forall q :: p < q < |es| ==> !es[q].op.Clear? && (es[q].op.key == key ==> es[q].op.Get?)
  }

  /** How long a `set` is good for: its time-to-live if it is given and not nought, else the default. */
  ghost predicate GoodAt<V>(cfg: Config, e: Event<V>, now: real)
    requires e.op.Put?
  {
    && (e.op.ttl.Some? && e.op.ttl.value != 0 ==> now <= e.now + e.op.ttl.value as real)
    && (e.op.ttl == None || e.op.ttl == Some(0) ==> now <= e.now + cfg.defaultTtl as real)
  }

  lemma {:induction false} LatestIsLastSet<V(!new)>(cfg: Config, es: seq<Event<V>>, key: string) returns (p: nat)
    requires key in Latest(cfg, es)
    ensures LastSet(es, key, p) && Latest(cfg, es)[key].value == es[p].op.value
    ensures forall now :: now <= Latest(cfg, es)[key].expires <==> GoodAt(cfg, es[p], now)
  {
    var n := |es| - 1;
    if es[n].op.Put? && es[n].op.key == key {
      p := n;
    } else {
      p := LatestIsLastSet(cfg, es[..n], key);
    }
  }

  /**
   Every hit, read off the operations alone: some `set` of the key, with nothing after it that set,
   deleted or cleared it, gave this value and is still good.
   */
  lemma HitIsTheLastSet<V(!new)>(cfg: Config, es: seq<Event<V>>, key: string, now: real) returns (p: nat)
    requires Answer(RunFrom(cfg, Fresh(), es).slots, key, now).Some?
    ensures LastSet(es, key, p) && GoodAt(cfg, es[p], now)
    ensures Answer(RunFrom(cfg, Fresh(), es).slots, key, now) == Some(es[p].op.value)
  {
    AgreesWithUnboundedMap(cfg, es);
    p := LatestIsLastSet(cfg, es, key);
  }

  /** The reads among the operations that found an answer at their turn. */
  function Answered<V(!new)>(cfg: Config, es: seq<Event<V>>): nat {
    if es == [] then 0 else
    var before, e := es[..|es| - 1], es[|es| - 1];
    Answered(cfg, before) +
    if e.op.Get? && Answer(RunFrom(cfg, Fresh(), before).slots, e.op.key, e.now).Some? then 1 else 0
  }

  /** Hits count exactly the reads that were answered, misses the others. */
  lemma {:induction false} HitsAreAnswers<V(!new)>(cfg: Config, es: seq<Event<V>>)
    ensures RunFrom(cfg, Fresh(), es).hits == Answered(cfg, es)
    ensures RunFrom(cfg, Fresh(), es).misses == Gets(es) - Answered(cfg, es)
  {
    if es != [] {
      HitsAreAnswers(cfg, es[..|es| - 1]);
    }
  }

  // ----- how long an entry survives -----

  /** The slots used more recently than `key`. */
  function Newer<V(!new)>(slots: seq<Slot<V>>, key: string): (r: seq<Slot<V>>)
    ensures forall s :: s in r ==> s in slots
  {
    if slots == [] then []
    else if slots[0].key == key then slots[1..]
    else Newer(slots[1..], key)
  }

  ghost function KeysOf<V(!new)>(slots: seq<Slot<V>>): set<string> {
    set s | s in slots :: s.key
  }

  ghost predicate Uses<V(!new)>(st: State<V>, e: Event<V>) {
    e.op.Put? || (e.op.Get? && Answer(st.slots, e.op.key, e.now).Some?)
  }

  /** The distinct keys set, or read with a hit, during a run. */
  ghost function Touched<V(!new)>(cfg: Config, st: State<V>, es: seq<Event<V>>): set<string> {
    if es == [] then {} else
    var before, e := es[..|es| - 1], es[|es| - 1];
    Touched(cfg, st, before) + (if Uses(RunFrom(cfg, st, before), e) then {e.op.key} else {})
  }

  lemma {:induction false} NewerWithout<V(!new)>(slots: seq<Slot<V>>, key: string, other: string)
    requires key != other
    ensures Newer(Without(slots, other), key) == Without(Newer(slots, key), other)
  {
    if slots != [] {
      NewerWithout(slots[1..], key, other);
    }
  }

  lemma {:induction false} NewerSnoc<V(!new)>(slots: seq<Slot<V>>, slot: Slot<V>, key: string)
    requires Find(slots, key).Some?
    ensures Newer(slots + [slot], key) == Newer(slots, key) + [slot]
  {
    assert (slots + [slot])[0] == slots[0];
    assert (slots + [slot])[1..] == slots[1..] + [slot];
    if slots[0].key != key {
      NewerSnoc(slots[1..], slot, key);
    }
  }

  lemma {:induction false} NewerCounts<V(!new)>(slots: seq<Slot<V>>, key: string)
    requires DistinctKeys(slots) && Find(slots, key).Some?
    ensures |KeysOf(Newer(slots, key))| == |Newer(slots, key)| < |slots|
    ensures slots[0].key == key ==> |Newer(slots, key)| == |slots| - 1
  {
    if slots[0].key == key {
      CountKeys(slots[1..]);
    } else {
      NewerCounts(slots[1..], key);
    }
  }

  lemma {:induction false} CountKeys<V(!new)>(slots: seq<Slot<V>>)
    requires DistinctKeys(slots)
    ensures |KeysOf(slots)| == |slots|
  {
    if slots != [] {
      CountKeys(slots[1..]);
      assert KeysOf(slots) == KeysOf(slots[1..]) + {slots[0].key};
    }
  }

  /** The keys used more recently than `slot` are among `touched`; exactly those when `exact`. */
  ghost predicate Ahead<V(!new)>(slots: seq<Slot<V>>, slot: Slot<V>, touched: set<string>, exact: bool) {
    && slot in slots
    && KeysOf(Newer(slots, slot.key)) <= touched
    && (exact ==> touched <= KeysOf(Newer(slots, slot.key)))
  }

  lemma KeysOfWithout<V(!new)>(slots: seq<Slot<V>>, key: string)
    ensures KeysOf(Without(slots, key)) == KeysOf(slots) - {key}
  {
    forall k | k in KeysOf(slots) - {key}
      ensures k in KeysOf(Without(slots, key))
    {
      var s :| s in slots && s.key == k;
      assert s in Without(slots, key);
    }
  }

  lemma KeysOfSnoc<V(!new)>(slots: seq<Slot<V>>, slot: Slot<V>)
    ensures KeysOf(slots + [slot]) == KeysOf(slots) + {slot.key}
  {
    assert slot in slots + [slot];
    forall k | k in KeysOf(slots)
      ensures k in KeysOf(slots + [slot])
    {
      var s :| s in slots && s.key == k;
      assert s in slots + [slot];
    }
  }

  /** What is known of an entry as a run goes on: it is still ahead of everything untouched, unless the bound pushed it out. */
  ghost predicate Tracked<V(!new)>(max: nat, slots: seq<Slot<V>>, slot: Slot<V>, touched: set<string>, exact: bool) {
    && (|touched| < max ==> Ahead(slots, slot, touched, exact))
    && (exact && slot in slots ==> Ahead(slots, slot, touched, exact))
  }

  ghost predicate LeavesAlone<V(!new)>(es: seq<Event<V>>, key: string) {
    forall i :: 0 <= i < |es| ==> !es[i].op.Clear? && es[i].op.key != key
  }

  lemma WithoutKeepsAhead<V(!new)>(slots: seq<Slot<V>>, slot: Slot<V>, touched: set<string>, exact: bool, other: string)
    requires Ahead(slots, slot, touched, exact) && slot.key != other
    ensures Ahead(Without(slots, other), slot, touched, exact && other !in touched)
  {
    NewerWithout(slots, slot.key, other);
    KeysOfWithout(Newer(slots, slot.key), other);
  }

  lemma RefreshKeepsAhead<V(!new)>(slots: seq<Slot<V>>, slot: Slot<V>, touched: set<string>, exact: bool, next: Slot<V>)
    requires Ahead(slots, slot, touched, exact) && slot.key != next.key
    ensures Ahead(Without(slots, next.key) + [next], slot, touched + {next.key}, exact)
  {
    var rest, after := Without(slots, next.key), Newer(slots, slot.key);
    NewerWithout(slots, slot.key, next.key);
    NewerSnoc(rest, next, slot.key);
    KeysOfWithout(after, next.key);
    KeysOfSnoc(Without(after, next.key), next);
    assert slot in rest;
  }

  lemma EvictKeepsAhead<V(!new)>(slots: seq<Slot<V>>, slot: Slot<V>, touched: set<string>, exact: bool, max: nat)
    requires DistinctKeys(slots) && |slots| <= max + 1 && Ahead(slots, slot, touched, exact)
    ensures |touched| < max ==> Ahead(Evict(slots, max), slot, touched, exact)
    ensures exact && slot in Evict(slots, max) ==> Ahead(Evict(slots, max), slot, touched, exact)
  {
    NewerCounts(slots, slot.key);
    SubsetSize(KeysOf(Newer(slots, slot.key)), touched);
  }

  /** An operation on another key that takes an entry out: a deletion, or a read that finds it expired. */
  ghost predicate Removes<V(!new)>(st: State<V>, e: Event<V>) {
    e.op.Delete? || (e.op.Get? && Find(st.slots, e.op.key).Some? && Answer(st.slots, e.op.key, e.now).None?)
  }

  ghost predicate NeverRemoves<V(!new)>(cfg: Config, st: State<V>, es: seq<Event<V>>) {
    es == [] ||
    (NeverRemoves(cfg, st, es[..|es| - 1]) && !Removes(RunFrom(cfg, st, es[..|es| - 1]), es[|es| - 1]))
  }

  lemma PutKeepsAhead<V(!new)>(cfg: Config, slots: seq<Slot<V>>, next: Slot<V>, slot: Slot<V>, touched: set<string>, exact: bool)
    requires DistinctKeys(slots) && |slots| <= cfg.max && Ahead(slots, slot, touched, exact) && next.key != slot.key
    ensures Tracked(cfg.max, Stored(slots, next, cfg.max), slot, touched + {next.key}, exact)
  {
    RefreshKeepsAhead(slots, slot, touched, exact, next);
    RefreshKeepsDistinct(slots, next);
    EvictKeepsAhead(Without(slots, next.key) + [next], slot, touched + {next.key}, exact, cfg.max);
  }

  lemma StepKeepsAhead<V(!new)>(cfg: Config, st: State<V>, e: Event<V>, slot: Slot<V>, touched: set<string>, exact: bool)
    requires WellShaped(cfg, st) && Ahead(st.slots, slot, touched, exact)
    requires !e.op.Clear? && e.op.key != slot.key
    requires exact ==> !Removes(st, e)
    ensures Tracked(cfg.max, Step(cfg, st, e).slots, slot, touched + (if Uses(st, e) then {e.op.key} else {}), exact)
  {
    match e.op
    case Get(key) =>
      if Find(st.slots, key).Some? {
        if Uses(st, e) {
          RefreshKeepsAhead(st.slots, slot, touched, exact, Find(st.slots, key).value);
        } else {
          WithoutKeepsAhead(st.slots, slot, touched, exact, key);
        }
      }
    case Put(key, value, ttl) =>
      PutKeepsAhead(cfg, st.slots, Slot(key, e.now + Lifetime(cfg, ttl) as real, value), slot, touched, exact);
    case Delete(key) => WithoutKeepsAhead(st.slots, slot, touched, exact, key);
  }

  lemma NeverComesBack<V(!new)>(cfg: Config, st: State<V>, e: Event<V>, slot: Slot<V>)
    requires slot !in st.slots && (e.op.Clear? || e.op.key != slot.key)
    ensures slot !in Step(cfg, st, e).slots
  {
  }

  lemma {:induction false} RunKeepsTracked<V(!new)>(cfg: Config, st: State<V>, slot: Slot<V>, es: seq<Event<V>>, exact: bool)
    requires WellShaped(cfg, st) && st.slots != [] && st.slots[|st.slots| - 1] == slot
    requires LeavesAlone(es, slot.key)
    requires exact ==> NeverRemoves(cfg, st, es)
    ensures Tracked(cfg.max, RunFrom(cfg, st, es).slots, slot, Touched(cfg, st, es), exact)
  {
    if es == [] {
      NewestHasNoneNewer(st.slots);
    } else {
      var before, e := es[..|es| - 1], es[|es| - 1];
      var mid, touched := RunFrom(cfg, st, before), Touched(cfg, st, before);
      RunKeepsTracked(cfg, st, slot, before, exact);
      RunKeepsShape(cfg, st, before);
      if Ahead(mid.slots, slot, touched, exact) {
        StepKeepsAhead(cfg, mid, e, slot, touched, exact);
      } else {
        SubsetSize(touched, Touched(cfg, st, es));
        if exact {
          NeverComesBack(cfg, mid, e, slot);
        }
      }
    }
  }

  lemma {:induction false} NewestHasNoneNewer<V(!new)>(slots: seq<Slot<V>>)
    requires slots != [] && DistinctKeys(slots)
    ensures Newer(slots, slots[|slots| - 1].key) == []
  {
    if |slots| > 1 {
      NewestHasNoneNewer(slots[1..]);
    }
  }

  /**
   An entry that has just been set or read survives any run that leaves its key alone and uses
   fewer than `max` distinct other keys, whatever else happens to those keys.
   */
  lemma RecentEntrySurvives<V(!new)>(cfg: Config, st: State<V>, slot: Slot<V>, es: seq<Event<V>>)
    requires WellShaped(cfg, st) && st.slots != [] && st.slots[|st.slots| - 1] == slot
    requires LeavesAlone(es, slot.key)
    requires |Touched(cfg, st, es)| < cfg.max
    ensures forall now :: Answer(RunFrom(cfg, st, es).slots, slot.key, now) == (if slot.expires < now then None else Some(slot.value))
  {
    RunKeepsTracked(cfg, st, slot, es, false);
    RunKeepsShape(cfg, st, es);
    FindIsTheOnly(RunFrom(cfg, st, es).slots, slot);
  }

  /** Without deletions and expiries the eviction rule is exactly the LRU stack distance. */
  lemma EvictionIsStackDistance<V(!new)>(cfg: Config, st: State<V>, slot: Slot<V>, es: seq<Event<V>>)
    requires WellShaped(cfg, st) && st.slots != [] && st.slots[|st.slots| - 1] == slot
    requires LeavesAlone(es, slot.key)
    requires NeverRemoves(cfg, st, es)
    ensures slot in RunFrom(cfg, st, es).slots <==> |Touched(cfg, st, es)| < cfg.max
  {
    var end := RunFrom(cfg, st, es).slots;
    RunKeepsTracked(cfg, st, slot, es, true);
    RunKeepsShape(cfg, st, es);
    if slot in end {
      assert Find(end, slot.key).Some?;
      NewerCounts(end, slot.key);
      assert KeysOf(Newer(end, slot.key)) == Touched(cfg, st, es);
    }
  }

  // ----- the class -----

  lemma {:induction false} AssignThenMoveToEnd<V(!new)>(slots: seq<Slot<V>>, slot: Slot<V>)
    ensures Without(Assign(slots, slot), slot.key) == Without(slots, slot.key)
    ensures Find(Assign(slots, slot), slot.key) == Some(slot)
  {
    if slots != [] {
      if slots[0].key != slot.key {
        AssignThenMoveToEnd(slots[1..], slot);
      }
    }
  }

  lemma PutStores<V(!new)>(cfg: Config, st: State<V>, key: string, value: V, ttl: Option<int>, now: real)
    ensures Step(cfg, st, Event(Put(key, value, ttl), now)) ==
            st.(slots := Stored(st.slots, Slot(key, now + Lifetime(cfg, ttl) as real, value), cfg.max))
  {
  }

  class InMemoryCache<V(!new)> {
    var data: seq<Slot<V>>
    var hits: nat
    var misses: nat
    const max: nat
    const defaultTtl: int

    function Cfg(): Config {
      Config(max, defaultTtl)
    }

    function Abstract(): State<V>
      reads this
    {
      State(data, hits, misses)
    }

    constructor (maxEntries: nat, defaultTtl: int)
      ensures Abstract() == Fresh() && Cfg() == Config(maxEntries, defaultTtl)
    {
      data, hits, misses := [], 0, 0;
      this.max, this.defaultTtl := maxEntries, defaultTtl;
    }

    /** `OrderedDict.move_to_end`. */
    method MoveToEnd(key: string)
      requires Find(data, key).Some?
      modifies this`data
      ensures data == Without(old(data), key) + [Find(old(data), key).value]
    {
      data := Without(data, key) + [Find(data, key).value];
    }

    /** Drops the least recently used entry until the bound holds again. */
    method EvictOldest()
      modifies this`data
      ensures data == Evict(old(data), max)
    {
      while |data| > max
        invariant |data| <= |old(data)| && data == old(data)[|old(data)| - |data|..]
        invariant |data| >= max || data == old(data)
      {
        data := data[1..];
      }
    }

    method Get(key: string, now: real) returns (value: Option<V>)
      modifies this
      ensures value == Answer(old(data), key, now)
      ensures Abstract() == Step(Cfg(), old(Abstract()), Event(Op.Get(key), now))
    {
      var entry := Find(data, key);
      if entry.None? {
        misses := misses + 1;
        return None;
      }
      if entry.value.expires < now {
        data := Without(data, key);
        misses := misses + 1;
        return None;
      }
      MoveToEnd(key);
      hits := hits + 1;
      return Some(entry.value.value);
    }

    ghost predicate IsNewest(slot: Slot<V>)
      reads this`data
    {
      data != [] && data[|data| - 1] == slot
    }

    method Store(slot: Slot<V>)
      modifies this`data
      ensures data == Stored(old(data), slot, max)
      ensures max >= 1 ==> IsNewest(slot)
    {
      AssignThenMoveToEnd(data, slot);
      data := Assign(data, slot);
      MoveToEnd(slot.key);
      EvictOldest();
    }

    method Set(key: string, value: V, ttl: Option<int>, now: real)
      modifies this
      ensures Abstract() == Step(Cfg(), old(Abstract()), Event(Put(key, value, ttl), now))
      ensures max >= 1 && ttl.Some? && ttl.value != 0 ==> IsNewest(Slot(key, now + ttl.value as real, value))
      ensures max >= 1 && (ttl == None || ttl == Some(0)) ==> IsNewest(Slot(key, now + defaultTtl as real, value))
    {
      PutStores(Cfg(), Abstract(), key, value, ttl, now);
      Store(Slot(key, now + Lifetime(Cfg(), ttl) as real, value));
    }

    method Delete(key: string)
      modifies this
      ensures Abstract() == Step(Cfg(), old(Abstract()), Event(Op.Delete(key), 0.0))
    {
      data := Without(data, key);
    }

    method Clear()
      modifies this
      ensures Abstract() == Step(Cfg(), old(Abstract()), Event(Op.Clear, 0.0))
    {
      data := [];
    }
  }
}
