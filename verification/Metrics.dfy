/**
 Retrieval metrics (`evals/runners/common.py`). The logarithmic discount of NDCG is any positive
 non-increasing sequence here; sets of relevant ids are given by an arbitrary duplicate-free listing.
 */
module Metrics {
  import opened Wrappers
  import opened Sorting
  import opened Subsequences

  // ----- gains -----

  /** `if primary and item == primary`: an empty primary counts as none. */
  predicate IsPrimary(item: string, primary: Option<string>) {
    primary.Some? && primary.value != "" && item == primary.value
  }

  function Gain(item: string, relevant: seq<string>, primary: Option<string>): real {
    if IsPrimary(item, primary) then 2.0 else if item in relevant then 1.0 else 0.0
  }

  function GainOf(relevant: seq<string>, primary: Option<string>): string -> real {
    item => Gain(item, relevant, primary)
  }

  function Gains(items: seq<string>, gain: string -> real): (r: seq<real>)
    ensures |r| == |items|
    ensures forall i :: 0 <= i < |items| ==> r[i] == gain(items[i])
  {
    seq(|items|, i requires 0 <= i < |items| => gain(items[i]))
  }

  function IdealGains(relevant: seq<string>, k: nat, primary: Option<string>): seq<real> {
    Take(Sort(Descending, Gains(relevant, GainOf(relevant, primary))), k)
  }

  function FoundGains(retrieved: seq<string>, relevant: seq<string>, k: nat, primary: Option<string>): seq<real> {
    Gains(Take(retrieved, k), GainOf(relevant, primary))
  }

  // ----- discounted sums -----

  function Dcg(gains: seq<real>, discount: nat -> real): real {
    if gains == [] then 0.0
    else Dcg(gains[..|gains| - 1], discount) + gains[|gains| - 1] * discount(|gains| - 1)
  }

  function Total(gains: seq<real>): real {
    if gains == [] then 0.0 else Total(gains[..|gains| - 1]) + gains[|gains| - 1]
  }

  function Ndcg(retrieved: seq<string>, relevant: seq<string>, k: nat, primary: Option<string>, discount: nat -> real): real {
    var idcg := Dcg(IdealGains(relevant, k, primary), discount);
    if idcg != 0.0 then Dcg(FoundGains(retrieved, relevant, k, primary), discount) / idcg else 0.0
  }

  ghost predicate IsDiscount(discount: nat -> real) {
    && (forall i: nat :: discount(i) > 0.0)
    && (forall i: nat, j: nat :: i <= j ==> discount(i) >= discount(j))
  }

  ghost predicate StrictlyFalls(discount: nat -> real) {
    forall i: nat, j: nat :: i < j ==> discount(i) > discount(j)
  }

  predicate PrimaryIsRelevant(relevant: seq<string>, primary: Option<string>) {
    primary.Some? && primary.value != "" ==> primary.value in relevant
  }

  ghost predicate Dominated(g: seq<real>, h: seq<real>) {
    |g| == |h| && forall j :: 0 <= j <= |g| ==> Total(g[..j]) <= Total(h[..j])
  }

  // ----- what the numbers are -----

  /** Each gain counts with the discount of its own place, and with nothing else. */
  lemma {:induction false} GainCountsAtItsPlace(gains: seq<real>, discount: nat -> real, i: nat, x: real)
    requires i < |gains|
    ensures Dcg(gains[i := x], discount) - Dcg(gains, discount) == (x - gains[i]) * discount(i)
  {
    var n := |gains| - 1;
    if i < n {
      assert gains[i := x][..n] == gains[..n][i := x];
      GainCountsAtItsPlace(gains[..n], discount, i, x);
    } else {
      assert gains[i := x][..n] == gains[..n];
      Distribute(x, gains[i], discount(i));
    }
  }

  lemma Distribute(a: real, b: real, d: real)
    ensures (a - b) * d == a * d - b * d
  {
  }

  lemma {:induction false} NoGainNoSum(n: nat, discount: nat -> real)
    ensures Dcg(seq(n, _ => 0.0), discount) == 0.0
  {
    if n > 0 {
      assert seq(n, _ => 0.0)[..n - 1] == seq(n - 1, _ => 0.0);
      NoGainNoSum(n - 1, discount);
    }
  }

  /** The primary source gains two, any other relevant one one, anything else nothing; an empty name designates none. */
  lemma GainIs(item: string, relevant: seq<string>, primary: Option<string>)
    ensures Gain(item, relevant, primary) == 2.0 <==> item != "" && primary == Some(item)
    ensures Gain(item, relevant, primary) == 1.0 <==> item in relevant && (item == "" || primary != Some(item))
    ensures Gain(item, relevant, primary) == 0.0 <==> item !in relevant && (item == "" || primary != Some(item))
  {
  }

  // ----- rearrangement by prefix sums -----
  // ----- rearrangement by prefix sums -----

  lemma TakePrefix(g: seq<real>, n: nat, j: nat)
    requires j <= n <= |g|
    ensures g[..n][..j] == g[..j]
  {
  }

  /** Summation by parts: the discounted surplus is at least the last discount times the total surplus. */
  lemma {:induction false} SurplusByParts(g: seq<real>, h: seq<real>, discount: nat -> real)
    requires Dominated(g, h) && g != [] && IsDiscount(discount)
    ensures Dcg(h, discount) - Dcg(g, discount) >= (Total(h) - Total(g)) * discount(|g| - 1)
    ensures Total(g) <= Total(h)
  {
    var n := |g| - 1;
    assert g[..|g|] == g && h[..|h|] == h;
    if n > 0 {
      var g', h' := g[..n], h[..n];
      DominatedPrefix(g, h, n);
      SurplusByParts(g', h', discount);
      var slack := Total(h') - Total(g');
      SurplusStep(Dcg(h', discount) - Dcg(g', discount), slack, h[n], g[n], discount(n), discount(n - 1));
    } else {
      assert g[..0] == [] && h[..0] == [];
      SurplusStep(0.0, 0.0, h[n], g[n], discount(n), discount(n));
    }
  }

  lemma DominatedPrefix(g: seq<real>, h: seq<real>, n: nat)
    requires Dominated(g, h) && n <= |g|
    ensures Dominated(g[..n], h[..n])
    ensures Total(g[..n]) <= Total(h[..n])
  {
    forall j | 0 <= j <= n
      ensures Total(g[..n][..j]) <= Total(h[..n][..j])
    {
      TakePrefix(g, n, j);
      TakePrefix(h, n, j);
    }
  }

  lemma SurplusStep(surplus: real, slack: real, hi: real, lo: real, d: real, previous: real)
    requires slack >= 0.0 && d <= previous
    ensures surplus >= slack * previous ==> surplus + hi * d - lo * d >= (slack + hi - lo) * d
    ensures surplus + hi * d - lo * d <= (slack + hi - lo) * d ==> surplus <= slack * d
  {
    Distribute(slack, lo - hi, d);
    Distribute(lo, hi, d);
    Distribute(previous, d, slack);
    NonNegativeProduct(slack, previous - d);
  }

  /** If the discounted sums agree although one list dominates, the lists agree, provided the discount strictly falls. */
  lemma {:induction false} EqualSumsEqualLists(g: seq<real>, h: seq<real>, discount: nat -> real)
    requires Dominated(g, h) && g != [] && IsDiscount(discount) && StrictlyFalls(discount)
    requires Dcg(h, discount) - Dcg(g, discount) <= (Total(h) - Total(g)) * discount(|g| - 1)
    ensures forall j :: 0 <= j < |g| ==> Total(g[..j]) == Total(h[..j])
  {
    var n := |g| - 1;
    if n > 0 {
      var g', h' := g[..n], h[..n];
      DominatedPrefix(g, h, n);
      SurplusByParts(g', h', discount);
      var slack := Total(h') - Total(g');
      var surplus := Dcg(h', discount) - Dcg(g', discount);
      SurplusStep(surplus, slack, h[n], g[n], discount(n), discount(n - 1));
      assert Total(h) - Total(g) == slack + h[n] - g[n];
      assert Dcg(h, discount) - Dcg(g, discount) == surplus + h[n] * discount(n) - g[n] * discount(n);
      NoSlack(surplus, slack, discount(n - 1), discount(n));
      EqualSumsEqualLists(g', h', discount);
      forall j | 0 <= j <= n
        ensures Total(g[..j]) == Total(h[..j])
      {
        TakePrefix(g, n, j);
        TakePrefix(h, n, j);
      }
    }
  }

  lemma NoSlack(surplus: real, slack: real, big: real, small: real)
    requires slack >= 0.0 && small < big
    requires slack * big <= surplus <= slack * small
    ensures slack == 0.0
  {
    assert slack * (big - small) <= 0.0;
  }

  // ----- padding with zeros -----

  function Pad(gains: seq<real>, k: nat): (r: seq<real>)
    ensures |gains| <= k ==> |r| == k
  {
    if |gains| >= k then gains else gains + seq(k - |gains|, _ => 0.0)
  }

  lemma {:induction false} PadChangesNothing(gains: seq<real>, k: nat, discount: nat -> real)
    ensures Dcg(Pad(gains, k), discount) == Dcg(gains, discount)
    ensures Total(Pad(gains, k)) == Total(gains)
    decreases k
  {
    if |gains| < k {
      PadChangesNothing(gains, k - 1, discount);
      assert Pad(gains, k)[..k - 1] == Pad(gains, k - 1);
      assert Pad(gains, k)[k - 1] == 0.0;
    }
  }

  lemma PadPrefix(gains: seq<real>, k: nat, j: nat)
    requires |gains| <= k && j <= k
    ensures Pad(gains, k)[..j] == Pad(Take(gains, j), j)
  {
  }

  // ----- the top gains are the best possible -----

  function ByGain(gain: string -> real): (string, string) -> bool {
    (a, b) => Descending(gain(a), gain(b))
  }

  function GainSum(items: seq<string>, gain: string -> real): real {
    if items == [] then 0.0 else gain(items[0]) + GainSum(items[1..], gain)
  }

  ghost predicate NonNegativeGain(gain: string -> real) {
    forall x :: gain(x) >= 0.0
  }

  lemma {:induction false} GainSumRemove(items: seq<string>, gain: string -> real, i: nat)
    requires i < |items|
    ensures GainSum(items, gain) == gain(items[i]) + GainSum(RemoveAt(items, i), gain)
  {
    var rest := RemoveAt(items, i);
    if i == 0 {
      assert rest == items[1..];
    } else {
      GainSumRemove(items[1..], gain, i - 1);
      assert rest[0] == items[0];
      assert rest[1..] == items[1..][..i - 1] + items[1..][i..];
    }
  }

  lemma {:induction false} GainSumNonNegative(items: seq<string>, gain: string -> real)
    requires NonNegativeGain(gain)
    ensures GainSum(items, gain) >= 0.0
  {
    if items != [] {
      GainSumNonNegative(items[1..], gain);
    }
  }

  lemma {:induction false} GainSumIsTotal(items: seq<string>, gain: string -> real)
    ensures GainSum(items, gain) == Total(Gains(items, gain))
  {
    if items != [] {
      var n := |items| - 1;
      GainSumIsTotal(items[..n], gain);
      GainSumRemove(items, gain, n);
      assert items[..n] + items[n + 1..] == items[..n];
      assert Gains(items, gain)[..n] == Gains(items[..n], gain);
    }
  }

  /** Whatever is not among `best` gains nothing. */
  ghost predicate DrawnFrom(items: seq<string>, best: seq<string>, gain: string -> real) {
    forall x :: x in items ==> x in best || gain(x) == 0.0
  }

  /** No `j` distinct items gain more than the first `j` of the relevant items in descending order. */
  lemma {:induction false} TopGainsAreBest(items: seq<string>, best: seq<string>, gain: string -> real, j: nat)
    requires NonNegativeGain(gain) && Sorted(ByGain(gain), best)
    requires Distinct(items) && |items| <= j && DrawnFrom(items, best, gain)
    ensures GainSum(items, gain) <= GainSum(Take(best, j), gain)
    decreases j
  {
    GainSumNonNegative(Take(best, j), gain);
    if items != [] {
      if best == [] {
        AllZero(items, gain);
      } else {
        var i := if best[0] in items then IndexIn(items, best[0]) else 0;
        RestIsDrawn(items, best, gain, i);
        TopGainsAreBest(RemoveAt(items, i), best[1..], gain, j - 1);
        OneMoreTaken(items, best, gain, j, i);
      }
    }
  }

  lemma OneMoreTaken(items: seq<string>, best: seq<string>, gain: string -> real, j: nat, i: nat)
    requires NonNegativeGain(gain) && Sorted(ByGain(gain), best) && DrawnFrom(items, best, gain)
    requires i < |items| && best != [] && j > 0
    requires GainSum(RemoveAt(items, i), gain) <= GainSum(Take(best[1..], j - 1), gain)
    ensures GainSum(items, gain) <= GainSum(Take(best, j), gain)
  {
    GainSumRemove(items, gain, i);
    assert items[i] in items;
    BestComesFirst(best, gain, items[i]);
    TopOfRest(best, gain, j);
  }

  lemma TopOfRest(best: seq<string>, gain: string -> real, j: nat)
    requires best != [] && j > 0
    ensures GainSum(Take(best, j), gain) == gain(best[0]) + GainSum(Take(best[1..], j - 1), gain)
  {
    assert Take(best, j)[1..] == Take(best[1..], j - 1);
  }

  lemma BestComesFirst(best: seq<string>, gain: string -> real, x: string)
    requires NonNegativeGain(gain) && Sorted(ByGain(gain), best) && best != []
    requires x in best || gain(x) == 0.0
    ensures gain(x) <= gain(best[0])
  {
    if x in best {
      HeadIsLeast(ByGain(gain), best, x);
    }
  }

  lemma RestIsDrawn(items: seq<string>, best: seq<string>, gain: string -> real, i: nat)
    requires Distinct(items) && i < |items| && best != [] && DrawnFrom(items, best, gain)
    requires best[0] in items ==> items[i] == best[0]
    ensures Distinct(RemoveAt(items, i)) && DrawnFrom(RemoveAt(items, i), best[1..], gain)
  {
    var rest := RemoveAt(items, i);
    forall x | x in rest
      ensures x in items && x != items[i]
    {
    }
    assert best == [best[0]] + best[1..];
  }

  lemma {:induction false} AllZero(items: seq<string>, gain: string -> real)
    requires forall x :: x in items ==> gain(x) == 0.0
    ensures GainSum(items, gain) == 0.0
  {
    if items != [] {
      AllZero(items[1..], gain);
    }
  }

  // ----- sorting gains is sorting items by gain -----

  lemma {:induction false} InsertCommutes(x: string, items: seq<string>, gain: string -> real)
    ensures Insert(Descending, gain(x), Gains(items, gain)) == Gains(Insert(ByGain(gain), x, items), gain)
  {
    if items != [] && !Descending(gain(x), gain(items[0])) {
      InsertCommutes(x, items[1..], gain);
      assert Gains(items, gain)[1..] == Gains(items[1..], gain);
    }
  }

  lemma {:induction false} SortCommutes(items: seq<string>, gain: string -> real)
    ensures Sort(Descending, Gains(items, gain)) == Gains(Sort(ByGain(gain), items), gain)
  {
    if items != [] {
      SortCommutes(items[1..], gain);
      InsertCommutes(items[0], Sort(ByGain(gain), items[1..]), gain);
      assert Gains(items, gain)[1..] == Gains(items[1..], gain);
    }
  }

  /** The ideal ranking: relevant items in descending order of gain. */
  function Ideal(relevant: seq<string>, primary: Option<string>): seq<string> {
    Sort(ByGain(GainOf(relevant, primary)), relevant)
  }

  lemma IdealGainsAreGainsOfIdeal(relevant: seq<string>, k: nat, primary: Option<string>)
    ensures IdealGains(relevant, k, primary) == Gains(Take(Ideal(relevant, primary), k), GainOf(relevant, primary))
    ensures |Ideal(relevant, primary)| == |relevant|
    ensures Sorted(ByGain(GainOf(relevant, primary)), Ideal(relevant, primary))
    ensures forall x :: x in Ideal(relevant, primary) <==> x in relevant
  {
    var gain := GainOf(relevant, primary);
    SortCommutes(relevant, gain);
    SortSorted(ByGain(gain), relevant);
    SortMultiset(ByGain(gain), relevant);
    forall x ensures x in Ideal(relevant, primary) <==> x in relevant {
      SortElements(ByGain(gain), relevant, x);
    }
  }

  // ----- the bound -----

  ghost predicate WellPosed(retrieved: seq<string>, relevant: seq<string>, k: nat, primary: Option<string>) {
    Distinct(Take(retrieved, k)) && PrimaryIsRelevant(relevant, primary)
  }

  lemma PrefixDominated(retrieved: seq<string>, relevant: seq<string>, k: nat, primary: Option<string>, j: nat)
    requires WellPosed(retrieved, relevant, k, primary) && j <= k
    ensures Total(Take(FoundGains(retrieved, relevant, k, primary), j)) <= Total(Take(IdealGains(relevant, k, primary), j))
  {
    var gain, best := GainOf(relevant, primary), Ideal(relevant, primary);
    var items := Take(Take(retrieved, k), j);
    IdealGainsAreGainsOfIdeal(relevant, k, primary);
    assert forall x :: x in best || gain(x) == 0.0;
    TopGainsAreBest(items, best, gain, j);
    GainSumIsTotal(items, gain);
    GainSumIsTotal(Take(best, j), gain);
    TakeGains(Take(retrieved, k), j, gain);
    TakeGains(Take(best, k), j, gain);
    assert Take(Take(best, k), j) == Take(best, j);
  }

  lemma TakeGains(items: seq<string>, j: nat, gain: string -> real)
    ensures Take(Gains(items, gain), j) == Gains(Take(items, j), gain)
  {
  }

  lemma FoundIsDominated(retrieved: seq<string>, relevant: seq<string>, k: nat, primary: Option<string>)
    requires WellPosed(retrieved, relevant, k, primary)
    ensures Dominated(Pad(FoundGains(retrieved, relevant, k, primary), k), Pad(IdealGains(relevant, k, primary), k))
  {
    var g, h := FoundGains(retrieved, relevant, k, primary), IdealGains(relevant, k, primary);
    forall j | 0 <= j <= k
      ensures Total(Pad(g, k)[..j]) <= Total(Pad(h, k)[..j])
    {
      PrefixDominated(retrieved, relevant, k, primary, j);
      PadPrefix(g, k, j);
      PadPrefix(h, k, j);
      PadChangesNothing(Take(g, j), j, _ => 0.0);
      PadChangesNothing(Take(h, j), j, _ => 0.0);
    }
  }

  ghost predicate NonNegative(gains: seq<real>) {
    forall i :: 0 <= i < |gains| ==> gains[i] >= 0.0
  }

  lemma {:induction false} DcgNonNegative(gains: seq<real>, discount: nat -> real)
    requires IsDiscount(discount) && NonNegative(gains)
    ensures Dcg(gains, discount) >= 0.0
    ensures gains != [] && gains[0] > 0.0 ==> Dcg(gains, discount) > 0.0
  {
    if gains != [] {
      var n := |gains| - 1;
      DcgNonNegative(gains[..n], discount);
      NonNegativeProduct(gains[n], discount(n));
      if n == 0 {
        assert gains[..0] == [];
      }
    }
  }

  lemma FoundIsNonNegative(retrieved: seq<string>, relevant: seq<string>, k: nat, primary: Option<string>)
    ensures NonNegative(FoundGains(retrieved, relevant, k, primary))
  {
  }

  /**
   NDCG lies in [0, 1] for every discount, every cut-off and every duplicate-free result list,
   as long as a primary source, when named, is one of the relevant ones.
   */
  lemma NdcgIsBounded(retrieved: seq<string>, relevant: seq<string>, k: nat, primary: Option<string>, discount: nat -> real)
    requires IsDiscount(discount) && WellPosed(retrieved, relevant, k, primary)
    ensures 0.0 <= Dcg(FoundGains(retrieved, relevant, k, primary), discount) <= Dcg(IdealGains(relevant, k, primary), discount)
    ensures 0.0 <= Ndcg(retrieved, relevant, k, primary, discount) <= 1.0
  {
    var g, h := FoundGains(retrieved, relevant, k, primary), IdealGains(relevant, k, primary);
    FoundIsDominated(retrieved, relevant, k, primary);
    PadChangesNothing(g, k, discount);
    PadChangesNothing(h, k, discount);
    FoundIsNonNegative(retrieved, relevant, k, primary);
    DcgNonNegative(g, discount);
    if k > 0 {
      DominatedDcg(Pad(g, k), Pad(h, k), discount);
    }
    RatioInUnit(Dcg(g, discount), Dcg(h, discount));
  }

  lemma DominatedDcg(g: seq<real>, h: seq<real>, discount: nat -> real)
    requires Dominated(g, h) && g != [] && IsDiscount(discount)
    ensures Dcg(g, discount) <= Dcg(h, discount)
  {
    SurplusByParts(g, h, discount);
    NonNegativeProduct(Total(h) - Total(g), discount(|g| - 1));
  }

  lemma NonNegativeProduct(x: real, y: real)
    requires x >= 0.0 && y >= 0.0
    ensures x * y >= 0.0
    ensures x > 0.0 && y > 0.0 ==> x * y > 0.0
  {
  }

  lemma RatioInUnit(a: real, b: real)
    requires 0.0 <= a <= b
    ensures b != 0.0 ==> 0.0 <= a / b <= 1.0 && (a / b == 1.0 <==> a == b)
  {
    if b != 0.0 {
      var q := a / b;
      assert q * b == a;
      assert q < 0.0 ==> q * b < 0.0;
      assert q > 1.0 ==> q * b > b;
    }
  }

  // ----- when the bound is reached, and when it fails -----

  lemma EqualTotalsEqualLists(g: seq<real>, h: seq<real>)
    requires |g| == |h|
    requires forall j :: 0 <= j <= |g| ==> Total(g[..j]) == Total(h[..j])
    ensures g == h
  {
    forall i | 0 <= i < |g|
      ensures g[i] == h[i]
    {
      TakePrefix(g, i + 1, i);
      TakePrefix(h, i + 1, i);
      assert Total(g[..i + 1]) == Total(g[..i]) + g[i];
      assert Total(h[..i + 1]) == Total(h[..i]) + h[i];
      assert Total(g[..i]) == Total(h[..i]);
    }
  }

  lemma IdealIsPositive(relevant: seq<string>, k: nat, primary: Option<string>, discount: nat -> real)
    requires IsDiscount(discount) && relevant != [] && k > 0
    ensures Dcg(IdealGains(relevant, k, primary), discount) > 0.0
  {
    IdealGainsAreGainsOfIdeal(relevant, k, primary);
    var first := Ideal(relevant, primary)[0];
    assert first in Ideal(relevant, primary);
    assert IdealGains(relevant, k, primary)[0] == Gain(first, relevant, primary);
    assert NonNegative(IdealGains(relevant, k, primary));
    DcgNonNegative(IdealGains(relevant, k, primary), discount);
  }

  /** With a strictly falling discount, NDCG is 1 only for a list whose gains are the ideal ones in order. */
  lemma NdcgIsOneIffIdeal(retrieved: seq<string>, relevant: seq<string>, k: nat, primary: Option<string>, discount: nat -> real)
    requires IsDiscount(discount) && StrictlyFalls(discount) && WellPosed(retrieved, relevant, k, primary)
    requires relevant != [] && k > 0
    ensures Ndcg(retrieved, relevant, k, primary, discount) == 1.0 <==>
            Pad(FoundGains(retrieved, relevant, k, primary), k) == Pad(IdealGains(relevant, k, primary), k)
  {
    var found, ideal := FoundGains(retrieved, relevant, k, primary), IdealGains(relevant, k, primary);
    var g, h := Pad(found, k), Pad(ideal, k);
    NdcgIsBounded(retrieved, relevant, k, primary, discount);
    IdealIsPositive(relevant, k, primary, discount);
    RatioInUnit(Dcg(found, discount), Dcg(ideal, discount));
    FoundIsDominated(retrieved, relevant, k, primary);
    PadChangesNothing(found, k, discount);
    PadChangesNothing(ideal, k, discount);
    if Dcg(g, discount) == Dcg(h, discount) {
      SameSumSameList(g, h, discount);
    }
  }

  lemma SameSumSameList(g: seq<real>, h: seq<real>, discount: nat -> real)
    requires Dominated(g, h) && g != [] && IsDiscount(discount) && StrictlyFalls(discount)
    requires Dcg(g, discount) == Dcg(h, discount)
    ensures g == h
  {
    SurplusByParts(g, h, discount);
    var gap := Total(h) - Total(g);
    NonNegativeProduct(gap, discount(|g| - 1));
    NoSlack(0.0, gap, discount(|g| - 1), 0.0);
    EqualSumsEqualLists(g, h, discount);
    assert g[..|g|] == g && h[..|h|] == h;
    EqualTotalsEqualLists(g, h);
  }

  lemma {:induction false} DcgPointwise(g: seq<real>, h: seq<real>, discount: nat -> real)
    requires IsDiscount(discount) && 0 < |h| <= |g|
    requires forall i :: 0 <= i < |g| ==> g[i] >= 0.0
    requires forall i :: 0 <= i < |h| ==> g[i] >= h[i]
    requires g[0] > h[0]
    ensures Dcg(g, discount) > Dcg(h, discount)
    decreases |g|
  {
    var n := |g| - 1;
    if |h| < |g| {
      DcgPointwise(g[..n], h, discount);
      NonNegativeProduct(g[n], discount(n));
    } else {
      Distribute(g[n], h[n], discount(n));
      NonNegativeProduct(g[n] - h[n], discount(n));
      if n > 0 {
        DcgPointwise(g[..n], h[..n], discount);
      } else {
        assert (g[0] - h[0]) * discount(0) > 0.0;
        assert g[..0] == [] && h[..0] == [];
      }
    }
  }

  /** A primary source outside the relevant set lets a duplicate-free list score above 1. */
  lemma StrayPrimaryScoresAboveOne(relevant: seq<string>, k: nat, primary: Option<string>, discount: nat -> real)
    requires IsDiscount(discount) && Distinct(relevant) && relevant != [] && k > 0
    requires !PrimaryIsRelevant(relevant, primary)
    ensures Distinct(Take([primary.value] + relevant, k))
    ensures Ndcg([primary.value] + relevant, relevant, k, primary, discount) > 1.0
  {
    var retrieved := [primary.value] + relevant;
    var g, h := FoundGains(retrieved, relevant, k, primary), IdealGains(relevant, k, primary);
    IdealIsAllOnes(relevant, k, primary);
    StrayFound(relevant, k, primary);
    DcgPointwise(g, h, discount);
    IdealIsPositive(relevant, k, primary, discount);
    RatioAboveOne(Dcg(g, discount), Dcg(h, discount));
  }

  /** When no relevant id is the primary one, every ideal gain is one. */
  lemma IdealIsAllOnes(relevant: seq<string>, k: nat, primary: Option<string>)
    requires forall x :: x in relevant ==> !IsPrimary(x, primary)
    ensures |IdealGains(relevant, k, primary)| == |Take(relevant, k)|
    ensures forall i :: 0 <= i < |IdealGains(relevant, k, primary)| ==> IdealGains(relevant, k, primary)[i] == 1.0
  {
    IdealGainsAreGainsOfIdeal(relevant, k, primary);
    forall i | 0 <= i < |IdealGains(relevant, k, primary)|
      ensures IdealGains(relevant, k, primary)[i] == 1.0
    {
      assert Ideal(relevant, primary)[i] in Ideal(relevant, primary);
    }
  }

  lemma StrayFound(relevant: seq<string>, k: nat, primary: Option<string>)
    requires Distinct(relevant) && k > 0 && !PrimaryIsRelevant(relevant, primary)
    ensures var retrieved := [primary.value] + relevant;
            var g := FoundGains(retrieved, relevant, k, primary);
            && Distinct(Take(retrieved, k))
            && |g| >= |Take(relevant, k)| && g[0] == 2.0
            && forall i :: 0 <= i < |g| ==> g[i] >= 1.0
  {
    var retrieved := [primary.value] + relevant;
    var g := FoundGains(retrieved, relevant, k, primary);
    forall i | 0 < i < |g|
      ensures g[i] >= 1.0
    {
      assert Take(retrieved, k)[i] == relevant[i - 1] && relevant[i - 1] in relevant;
    }
  }

  lemma RatioAboveOne(a: real, b: real)
    requires a > b > 0.0
    ensures a / b > 1.0
  {
    var q := a / b;
    assert q * b == a;
    assert q <= 1.0 ==> q * b <= b;
  }

  /** With nothing relevant, or nothing looked at, the score is nought. */
  lemma NothingToFind(retrieved: seq<string>, relevant: seq<string>, k: nat, primary: Option<string>, discount: nat -> real)
    requires relevant == [] || k == 0
    ensures Ndcg(retrieved, relevant, k, primary, discount) == 0.0
  {
    IdealGainsAreGainsOfIdeal(relevant, k, primary);
    assert IdealGains(relevant, k, primary) == [];
  }

  /**
   For a given question, the [0, 1] bound holds for all duplicate-free lists exactly when the primary
   source is relevant or absent, or there is nothing to find.
   */
  lemma BoundedIffPrimaryIsRelevant(relevant: seq<string>, k: nat, primary: Option<string>, discount: nat -> real)
    requires IsDiscount(discount) && Distinct(relevant)
    ensures (forall retrieved | Distinct(Take(retrieved, k)) :: Ndcg(retrieved, relevant, k, primary, discount) <= 1.0)
            <==> relevant == [] || k == 0 || PrimaryIsRelevant(relevant, primary)
  {
    if relevant == [] || k == 0 {
      forall retrieved | Distinct(Take(retrieved, k))
        ensures Ndcg(retrieved, relevant, k, primary, discount) <= 1.0
      {
        NothingToFind(retrieved, relevant, k, primary, discount);
      }
    } else if PrimaryIsRelevant(relevant, primary) {
      forall retrieved | Distinct(Take(retrieved, k))
        ensures Ndcg(retrieved, relevant, k, primary, discount) <= 1.0
      {
        NdcgIsBounded(retrieved, relevant, k, primary, discount);
      }
    } else {
      StrayPrimaryScoresAboveOne(relevant, k, primary, discount);
    }
  }

  // ----- exact values -----

  /** NDCG is the discounted gain found as a share of the ideal one, which is positive when there is something to find. */
  lemma NdcgIsShare(retrieved: seq<string>, relevant: seq<string>, k: nat, primary: Option<string>, discount: nat -> real,
                    found: real, ideal: real)
    requires IsDiscount(discount) && relevant != [] && k > 0
    requires found == Dcg(FoundGains(retrieved, relevant, k, primary), discount)
    requires ideal == Dcg(IdealGains(relevant, k, primary), discount)
    ensures ideal > 0.0 && Ndcg(retrieved, relevant, k, primary, discount) * ideal == found
  {
    IdealIsPositive(relevant, k, primary, discount);
    NdcgIsQuotient(retrieved, relevant, k, primary, discount);
    ShareTimes(found, ideal);
  }

  lemma NdcgIsQuotient(retrieved: seq<string>, relevant: seq<string>, k: nat, primary: Option<string>, discount: nat -> real)
    requires Dcg(IdealGains(relevant, k, primary), discount) > 0.0
    ensures Ndcg(retrieved, relevant, k, primary, discount) ==
            Dcg(FoundGains(retrieved, relevant, k, primary), discount) / Dcg(IdealGains(relevant, k, primary), discount)
  {
  }

  lemma ShareTimes(part: real, whole: real)
    requires whole > 0.0
    ensures part / whole * whole == part
  {
  }

  lemma SingleGain(gain: real, discount: nat -> real)
    ensures Dcg([gain], discount) == gain * discount(0)
  {
    assert [gain][..0] == [];
  }

  lemma IdealStartsWithPrimary(relevant: seq<string>, primary: string)
    requires primary != "" && primary in relevant
    ensures IdealGains(relevant, 1, Some(primary)) == [2.0]
  {
    var gain, best := GainOf(relevant, Some(primary)), Ideal(relevant, Some(primary));
    IdealGainsAreGainsOfIdeal(relevant, 1, Some(primary));
    BestComesFirst(best, gain, primary);
  }

  /** Judged by its first result alone, a list scores one for the primary source, a half for another relevant one, nothing otherwise. */
  lemma FirstResultScores(retrieved: seq<string>, relevant: seq<string>, primary: string, discount: nat -> real)
    requires IsDiscount(discount) && retrieved != [] && primary != "" && primary in relevant
    ensures Ndcg(retrieved, relevant, 1, Some(primary), discount) ==
            if retrieved[0] == primary then 1.0 else if retrieved[0] in relevant then 0.5 else 0.0
  {
    IdealStartsWithPrimary(relevant, primary);
    assert Take(retrieved, 1) == [retrieved[0]];
    SingleGain(Gain(retrieved[0], relevant, Some(primary)), discount);
    SingleGain(2.0, discount);
    assert FoundGains(retrieved, relevant, 1, Some(primary)) == [Gain(retrieved[0], relevant, Some(primary))];
    HalfOf(Gain(retrieved[0], relevant, Some(primary)), discount(0));
  }

  lemma HalfOf(gain: real, d: real)
    requires d > 0.0
    ensures gain * d / (2.0 * d) == gain / 2.0
  {
    var x := gain * d / (2.0 * d);
    assert x * (2.0 * d) == gain * d;
    assert (2.0 * x - gain) * d == 0.0;
  }

  // ----- the set of relevant ids has no order -----
  // ----- the set of relevant ids has no order -----

  lemma {:induction false} GainsOfPermutation(a: seq<string>, b: seq<string>, gain: string -> real)
    requires multiset(a) == multiset(b)
    ensures multiset(Gains(a, gain)) == multiset(Gains(b, gain))
  {
    if a == [] {
      assert |multiset(b)| == 0;
    } else {
      assert a[0] in multiset(b);
      var i := IndexIn(b, a[0]);
      RemoveAtMultiset(a, 0);
      RemoveAtMultiset(b, i);
      assert RemoveAt(a, 0) == a[1..];
      assert multiset(a[1..]) == multiset(a) - multiset{a[0]};
      assert multiset(RemoveAt(b, i)) == multiset(b) - multiset{b[i]};
      GainsOfPermutation(a[1..], RemoveAt(b, i), gain);
      GainsWithout(a, gain, 0);
      GainsWithout(b, gain, i);
    }
  }

  lemma GainsWithout(items: seq<string>, gain: string -> real, i: nat)
    requires i < |items|
    ensures multiset(Gains(items, gain)) == multiset(Gains(RemoveAt(items, i), gain)) + multiset{gain(items[i])}
  {
    RemoveAtMultiset(Gains(items, gain), i);
    assert Gains(RemoveAt(items, i), gain) == RemoveAt(Gains(items, gain), i);
  }

  lemma SortedGainsOfPermutation(a: seq<string>, b: seq<string>, gain: string -> real)
    requires multiset(a) == multiset(b)
    ensures Sort(Descending, Gains(a, gain)) == Sort(Descending, Gains(b, gain))
  {
    GainsOfPermutation(a, b, gain);
    SortIgnoresInputOrder(Descending, Gains(a, gain), Gains(b, gain));
  }

  /** The score does not depend on the order in which the relevant set is iterated. */
  lemma NdcgIgnoresListingOrder(retrieved: seq<string>, a: seq<string>, b: seq<string>, k: nat, primary: Option<string>,
                                discount: nat -> real)
    requires multiset(a) == multiset(b)
    ensures Ndcg(retrieved, a, k, primary, discount) == Ndcg(retrieved, b, k, primary, discount)
  {
    var f, g := GainOf(a, primary), GainOf(b, primary);
    forall x ensures f(x) == g(x) {
      assert x in a <==> x in multiset(a);
      assert x in b <==> x in multiset(b);
    }
    SortedGainsOfPermutation(a, b, f);
    assert Gains(b, f) == Gains(b, g);
    assert Gains(Take(retrieved, k), f) == Gains(Take(retrieved, k), g);
  }

  // ----- results that repeat an id -----

  /** A longer list of positive gains is worth strictly more than any proper prefix of it. */
  lemma {:induction false} DcgPrefix(g: seq<real>, m: nat, discount: nat -> real)
    requires IsDiscount(discount) && m < |g|
    requires forall i :: 0 <= i < |g| ==> g[i] > 0.0
    ensures Dcg(g[..m], discount) < Dcg(g, discount)
  {
    var n := |g| - 1;
    NonNegativeProduct(g[n], discount(n));
    if m < n {
      DcgPrefix(g[..n], m, discount);
      assert g[..n][..m] == g[..m];
    }
  }

  /** Every id found, listed once: with these as the relevant ones, all gains are one. */
  lemma RepeatsFound(retrieved: seq<string>, k: nat)
    requires !Distinct(Take(retrieved, k))
    ensures var relevant := AddAll([], Take(retrieved, k));
            var g, h := FoundGains(retrieved, relevant, k, None), IdealGains(relevant, k, None);
            && Distinct(relevant) && relevant != []
            && (forall i :: 0 <= i < |g| ==> g[i] == 1.0)
            && |h| < |g| && h == g[..|h|]
  {
    var top := Take(retrieved, k);
    var relevant := AddAll([], top);
    AddAllDistinct([], top);
    RepeatsShrink(top);
    AddAllIsUnion([], top, top[0]);
    var g, h := FoundGains(retrieved, relevant, k, None), IdealGains(relevant, k, None);
    forall i | 0 <= i < |g|
      ensures g[i] == 1.0
    {
      AddAllIsUnion([], top, top[i]);
    }
    IdealIsAllOnes(relevant, k, None);
  }

  /** Any result that repeats an id within the cut-off scores above 1 for the question to which exactly its ids are relevant. */
  lemma RepeatedResultScoresAboveOne(retrieved: seq<string>, k: nat, discount: nat -> real)
    requires IsDiscount(discount) && !Distinct(Take(retrieved, k))
    ensures Distinct(AddAll([], Take(retrieved, k)))
    ensures Ndcg(retrieved, AddAll([], Take(retrieved, k)), k, None, discount) > 1.0
  {
    var relevant := AddAll([], Take(retrieved, k));
    var g, h := FoundGains(retrieved, relevant, k, None), IdealGains(relevant, k, None);
    RepeatsFound(retrieved, k);
    DcgPrefix(g, |h|, discount);
    IdealIsPositive(relevant, k, None, discount);
    RatioAboveOne(Dcg(g, discount), Dcg(h, discount));
  }

  /** For a given result, the [0, 1] bound holds for all questions exactly when no id is repeated within the cut-off. */
  lemma BoundedIffNoRepeats(retrieved: seq<string>, k: nat, discount: nat -> real)
    requires IsDiscount(discount)
    ensures (forall relevant, primary | Distinct(relevant) && PrimaryIsRelevant(relevant, primary) ::
               Ndcg(retrieved, relevant, k, primary, discount) <= 1.0)
            <==> Distinct(Take(retrieved, k))
  {
    if Distinct(Take(retrieved, k)) {
      forall relevant, primary | Distinct(relevant) && PrimaryIsRelevant(relevant, primary)
        ensures Ndcg(retrieved, relevant, k, primary, discount) <= 1.0
      {
        NdcgIsBounded(retrieved, relevant, k, primary, discount);
      }
    } else {
      RepeatedResultScoresAboveOne(retrieved, k, discount);
      assert PrimaryIsRelevant(AddAll([], Take(retrieved, k)), None);
    }
  }
}
