/** Fixed-width, time-prefixed identifiers (`backend/src/jst_api/core/ids.py`). */
module Ids {
  import opened Sorting
  import opened Subsequences

  const ALPHABET: string := "0123456789abcdefghjkmnpqrstvwxyz"

  const TIME_WIDTH: nat := 8
  const RANDOM_WIDTH: nat := 8

  function Power(width: nat): (p: nat)
    ensures p > 0
  {
    if width == 0 then 1 else 32 * Power(width - 1)
  }

  function Digit(d: int): char
    requires 0 <= d < 32
  {
    ALPHABET[d]
  }

  function Encoded(n: int, width: nat): (s: string)
    ensures |s| == width
    decreases width
  {
    if width == 0 then "" else Encoded(n / 32, width - 1) + [Digit(n % 32)]
  }

  function Reversed(s: string): (r: string)
    ensures |r| == |s|
  {
    if s == "" then "" else Reversed(s[1..]) + [s[0]]
  }

  lemma {:induction false} ReversedSnoc(s: string, c: char)
    ensures Reversed(s + [c]) == [c] + Reversed(s)
  {
    if s != "" {
      ReversedSnoc(s[1..], c);
      assert (s + [c])[1..] == s[1..] + [c];
    }
  }

  /** Digits are produced from the least significant one, then reversed. */
  method Encode(n: int, width: nat) returns (s: string)
    ensures s == Encoded(n, width)
  {
    var rest := n;
    var out: string := "";
    assert Reversed(out) == "" && Encoded(rest, width) + "" == Encoded(rest, width);
    for done := 0 to width
      invariant Encoded(rest, width - done) + Reversed(out) == Encoded(n, width)
    {
      ReversedSnoc(out, Digit(rest % 32));
      assert Encoded(rest / 32, width - done - 1) + ([Digit(rest % 32)] + Reversed(out)) ==
             Encoded(rest, width - done) + Reversed(out);
      rest, out := rest / 32, out + [Digit(rest % 32)];
    }
    return Reversed(out);
  }

  function Body(ms: int, random: int): string {
    Encoded(ms, TIME_WIDTH) + Encoded(random, RANDOM_WIDTH)
  }

  function Identifier(prefix: string, ms: int, random: int): string {
    if prefix == "" then Body(ms, random) else prefix + "_" + Body(ms, random)
  }

  /** The clock reading, in milliseconds, and the forty random bits are given. */
  method NewId(prefix: string, ms: nat, random: nat) returns (id: string)
    ensures id == Identifier(prefix, ms, random)
  {
    var ts := Encode(ms, TIME_WIDTH);
    var rand := Encode(random, RANDOM_WIDTH);
    return if prefix == "" then ts + rand else prefix + "_" + (ts + rand);
  }

  // ----- order -----

  predicate Before(a: string, b: string) {
    Alphabetical(a, b) && a != b
  }

  lemma NextDigit(d: int)
    requires 0 <= d < 31
    ensures Digit(d) < Digit(d + 1)
  {
  }

  lemma {:induction false} DigitsAscend(c: int, d: int)
    requires 0 <= c < 32 && 0 <= d < 32
    ensures Digit(c) < Digit(d) <==> c < d
  {
    if c < d {
      DigitsClimb(c, d);
    } else if d < c {
      DigitsClimb(d, c);
    }
  }

  lemma {:induction false} DigitsClimb(c: int, d: int)
    requires 0 <= c < d < 32
    ensures Digit(c) < Digit(d)
    decreases d - c
  {
    NextDigit(c);
    if c + 1 < d {
      DigitsClimb(c + 1, d);
    }
  }

  lemma {:induction false} SnocOrder(x: string, y: string, c: char, d: char)
    requires |x| == |y|
    ensures Before(x + [c], y + [d]) <==> Before(x, y) || (x == y && c < d)
  {
    if x != "" {
      SnocOrder(x[1..], y[1..], c, d);
      assert (x + [c])[1..] == x[1..] + [c] && (y + [d])[1..] == y[1..] + [d];
      assert x == [x[0]] + x[1..] && y == [y[0]] + y[1..];
      assert x + [c] == [x[0]] + (x[1..] + [c]) && y + [d] == [y[0]] + (y[1..] + [d]);
    }
  }

  lemma SplitModulus(n: int, p: int)
    requires p > 0
    ensures n % (32 * p) == 32 * ((n / 32) % p) + n % 32
  {
    var d, k, r := 32 * p, (n / 32) / p, 32 * ((n / 32) % p) + n % 32;
    assert n == d * k + r by {
      assert n / 32 == p * k + (n / 32) % p;
      assert 32 * (p * k) == d * k;
    }
    SameRemainder(d, k, r, n / d, n % d);
  }

  lemma SameRemainder(d: int, k: int, r: int, k': int, r': int)
    requires 0 <= r < d && 0 <= r' < d && d * k + r == d * k' + r'
    ensures r == r'
  {
    if k < k' {
      LargerQuotient(d, k, r, k', r');
    } else if k' < k {
      LargerQuotient(d, k', r', k, r);
    }
  }

  lemma LargerQuotient(d: int, k: int, r: int, k': int, r': int)
    requires 0 <= r < d && 0 <= r' && k < k'
    ensures d * k + r < d * k' + r'
  {
    Scaled(d, k' - k);
    assert d * (k' - k) == d * k' - d * k;
  }

  lemma Scaled(d: int, j: int)
    requires 0 < j
    ensures d >= 0 ==> d * j >= d
  {
  }

  /** `width` digits write `n` modulo `32^width`: they sort as that remainder does, and agree only when it does. */
  lemma {:induction false} EncodingOrder(a: int, b: int, width: nat)
    ensures Before(Encoded(a, width), Encoded(b, width)) <==> a % Power(width) < b % Power(width)
    ensures Encoded(a, width) == Encoded(b, width) <==> a % Power(width) == b % Power(width)
    decreases width
  {
    if width > 0 {
      var p := Power(width - 1);
      var x, y := Encoded(a / 32, width - 1), Encoded(b / 32, width - 1);
      EncodingOrder(a / 32, b / 32, width - 1);
      SplitModulus(a, p);
      SplitModulus(b, p);
      DigitsAscend(a % 32, b % 32);
      DigitsAscend(b % 32, a % 32);
      SnocOrder(x, y, Digit(a % 32), Digit(b % 32));
      ConcatEqual(x, y, [Digit(a % 32)], [Digit(b % 32)]);
    }
  }

  /** What a character stands for. */
  function DigitValue(c: char): (d: int)
    requires c in ALPHABET
    ensures 0 <= d < 32 && Digit(d) == c
  {
    IndexIn(ALPHABET, c)
  }

  ghost predicate Readable(s: string) {
    forall i :: 0 <= i < |s| ==> s[i] in ALPHABET
  }

  function Decoded(s: string): int
    requires Readable(s)
  {
    if s == "" then 0 else 32 * Decoded(s[..|s| - 1]) + DigitValue(s[|s| - 1])
  }

  /** Reading an identifier back gives `n` modulo `32^width`. */
  lemma {:induction false} EncodingRoundTrip(n: int, width: nat)
    ensures Readable(Encoded(n, width)) && Decoded(Encoded(n, width)) == n % Power(width)
    decreases width
  {
    if width > 0 {
      EncodingRoundTrip(n / 32, width - 1);
      SplitModulus(n, Power(width - 1));
      DecodedSnoc(Encoded(n / 32, width - 1), n % 32);
    }
  }

  lemma DecodedSnoc(s: string, d: int)
    requires Readable(s) && 0 <= d < 32
    ensures Readable(s + [Digit(d)]) && Decoded(s + [Digit(d)]) == 32 * Decoded(s) + d
  {
    assert (s + [Digit(d)])[..|s|] == s;
    DigitsAscend(DigitValue(Digit(d)), d);
    DigitsAscend(d, DigitValue(Digit(d)));
  }

  // ----- identifiers -----

  lemma {:induction false} PrefixDecides(x: string, y: string, u: string, v: string)
    requires |x| == |y| && Before(x, y)
    ensures Before(x + u, y + v)
  {
    assert (x + u)[1..] == x[1..] + u && (y + v)[1..] == y[1..] + v;
    if x[0] == y[0] {
      assert x == [x[0]] + x[1..] && y == [y[0]] + y[1..];
      PrefixDecides(x[1..], y[1..], u, v);
      assert (x + u)[1..] != (y + v)[1..];
    }
  }

  const ERA: int := 0x100_0000_0000

  lemma EraIsTheTimeRange()
    ensures Power(TIME_WIDTH) == ERA
  {
    assert Power(4) == 1048576;
    assert Power(8) == 32 * 32 * 32 * 32 * Power(4);
  }

  lemma OrderIsStrict(a: string, b: string)
    ensures !(Before(a, b) && Before(b, a))
  {
    if Alphabetical(a, b) && Alphabetical(b, a) {
      AlphabeticalTie(a, b);
    }
  }

  /** A common head decides nothing. */
  lemma {:induction false} SameHead(x: string, u: string, v: string)
    ensures Before(x + u, x + v) <==> Before(u, v)
  {
    if x == "" {
      assert x + u == u && x + v == v;
    } else {
      SameHead(x[1..], u, v);
      assert x + u == [x[0]] + (x[1..] + u) && x + v == [x[0]] + (x[1..] + v);
      assert (x + u)[1..] == x[1..] + u && (x + v)[1..] == x[1..] + v;
    }
  }

  lemma DifferentClocks(a: nat, b: nat, r: int, s: int)
    requires a % ERA != b % ERA
    ensures Before(Body(a, r), Body(b, s)) <==> a % ERA < b % ERA
  {
    EraIsTheTimeRange();
    EncodingOrder(a, b, TIME_WIDTH);
    EncodingOrder(b, a, TIME_WIDTH);
    if a % ERA < b % ERA {
      PrefixDecides(Encoded(a, TIME_WIDTH), Encoded(b, TIME_WIDTH), Encoded(r, RANDOM_WIDTH), Encoded(s, RANDOM_WIDTH));
    } else {
      PrefixDecides(Encoded(b, TIME_WIDTH), Encoded(a, TIME_WIDTH), Encoded(s, RANDOM_WIDTH), Encoded(r, RANDOM_WIDTH));
      OrderIsStrict(Body(a, r), Body(b, s));
    }
  }

  lemma SameClock(a: nat, b: nat, r: int, s: int)
    requires a % ERA == b % ERA
    ensures Before(Body(a, r), Body(b, s)) <==> r % ERA < s % ERA
  {
    EraIsTheTimeRange();
    EncodingOrder(a, b, TIME_WIDTH);
    EncodingOrder(r, s, RANDOM_WIDTH);
    SameHead(Encoded(a, TIME_WIDTH), Encoded(r, RANDOM_WIDTH), Encoded(s, RANDOM_WIDTH));
  }

  /** Two identifiers sort by their clock readings modulo 2^40 milliseconds, and by their random parts when these agree. */
  lemma IdsFollowTheClock(a: nat, b: nat, r: int, s: int)
    ensures Before(Body(a, r), Body(b, s)) <==> a % ERA < b % ERA || (a % ERA == b % ERA && r % ERA < s % ERA)
  {
    if a % ERA == b % ERA {
      SameClock(a, b, r, s);
    } else {
      DifferentClocks(a, b, r, s);
    }
  }

  /** A common prefix changes nothing in that. */
  lemma PrefixKeepsOrder(prefix: string, a: nat, b: nat, r: int, s: int)
    ensures Before(Identifier(prefix, a, r), Identifier(prefix, b, s)) <==> Before(Body(a, r), Body(b, s))
  {
    SameHead(prefix + "_", Body(a, r), Body(b, s));
  }

  /** One identifier sorts before another whatever their random parts if and only if its clock reads less modulo 2^40. */
  lemma ClockAloneDecidesIff(a: nat, b: nat)
    ensures (forall r: nat, s: nat :: Before(Body(a, r), Body(b, s))) <==> a % ERA < b % ERA
  {
    if a % ERA < b % ERA {
      forall r: nat, s: nat
        ensures Before(Body(a, r), Body(b, s))
      {
        IdsFollowTheClock(a, b, r, s);
      }
    } else {
      IdsFollowTheClock(a, b, 1, 0);
      assert !Before(Body(a, 1), Body(b, 0));
    }
  }

  /** Of one millisecond, the identifier drawn later may sort first. */
  lemma SameMillisecondSortsAtRandom(ms: nat)
    ensures Before(Body(ms, 0), Body(ms, 1)) && !Before(Body(ms, 1), Body(ms, 0))
  {
    IdsFollowTheClock(ms, ms, 0, 1);
    IdsFollowTheClock(ms, ms, 1, 0);
  }

  /** Inside one era of 2^40 milliseconds identifiers sort by the millisecond, and at random within one. */
  lemma SameEraSortsByTime(a: nat, b: nat, r: int, s: int)
    requires a / ERA == b / ERA
    ensures Before(Body(a, r), Body(b, s)) <==> a < b || (a == b && r % ERA < s % ERA)
  {
    IdsFollowTheClock(a, b, r, s);
  }

  /** The last millisecond of an era sorts after the first of the next. */
  lemma NextEraStartsOver(r: int, s: int)
    ensures Before(Body(ERA, s), Body(ERA - 1, r))
  {
    DifferentClocks(ERA, ERA - 1, s, r);
  }

  lemma PairsCollide(a: int, b: int, r: int, s: int)
    ensures Body(a, r) == Body(b, s) <==>
            a % Power(TIME_WIDTH) == b % Power(TIME_WIDTH) && r % Power(RANDOM_WIDTH) == s % Power(RANDOM_WIDTH)
  {
    EncodingOrder(a, b, TIME_WIDTH);
    EncodingOrder(r, s, RANDOM_WIDTH);
    ConcatEqual(Encoded(a, TIME_WIDTH), Encoded(b, TIME_WIDTH), Encoded(r, RANDOM_WIDTH), Encoded(s, RANDOM_WIDTH));
  }

  /** Two identifiers collide exactly when their forty random bits agree and their clocks do modulo an era. */
  lemma CollisionNeedsBoth(a: nat, b: nat, r: nat, s: nat)
    ensures Body(a, r) == Body(b, s) <==> a % ERA == b % ERA && r % ERA == s % ERA
  {
    EraIsTheTimeRange();
    PairsCollide(a, b, r, s);
  }

  lemma ConcatEqual(x: string, y: string, u: string, v: string)
    requires |x| == |y|
    ensures x + u == y + v <==> x == y && u == v
  {
    assert (x + u)[..|x|] == x && (y + v)[..|y|] == y;
    assert (x + u)[|x|..] == u && (y + v)[|y|..] == v;
  }
}
