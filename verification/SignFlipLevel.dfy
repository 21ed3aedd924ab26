// The level of the sign-flip test, exact and random: p-values are ranks among the choices of signs.
module SignFlipLevel {
  import opened Reals
  import opened SignFlip

  // ----- Ranks

  lemma {:induction false} CountDominated(p: seq<real>, alpha: real, v: seq<real>, c: real)
    requires |p| == |v|
    requires forall i :: 0 <= i < |p| && p[i] <= alpha ==> v[i] >= c
    ensures CountAtMost(p, alpha) <= CountAtLeast(v, c)
  {
    if p != [] {
      CountDominated(p[1..], alpha, v[1..], c);
    }
  }

  lemma {:induction false} NoneCounted(p: seq<real>, alpha: real)
    requires CountAtMost(p, alpha) == 0
    ensures forall j :: 0 <= j < |p| ==> p[j] > alpha
  {
    if p != [] {
      NoneCounted(p[1..], alpha);
      assert forall j :: 1 <= j < |p| ==> p[j] == p[1..][j - 1];
    }
  }

  lemma {:induction false} LeastRejected(v: seq<real>, p: seq<real>, alpha: real) returns (i: nat)
    requires |p| == |v| && CountAtMost(p, alpha) > 0
    ensures i < |v| && p[i] <= alpha
    ensures forall j :: 0 <= j < |v| && p[j] <= alpha ==> v[i] <= v[j]
  {
    assert forall j :: 1 <= j < |p| ==> p[j] == p[1..][j - 1] && v[j] == v[1..][j - 1];
    if CountAtMost(p[1..], alpha) == 0 {
      i := 0;
      NoneCounted(p[1..], alpha);
    } else {
      var k := LeastRejected(v[1..], p[1..], alpha);
      i := if p[0] <= alpha && v[0] <= v[k + 1] then 0 else k + 1;
    }
  }

  /** Each p is the share of the values that reach its threshold, one that its own value reaches. */
  ghost predicate AreRankShares(p: seq<real>, v: seq<real>, c: seq<real>) {
    && |p| == |v| == |c|
    && (forall i :: 0 <= i < |p| ==> c[i] <= v[i])
    && (forall i :: 0 <= i < |p| ==> p[i] == Share(CountAtLeast(v, c[i]), |v|))
  }

  /** Whatever the values, at most a share alpha of their rank shares are alpha or less. */
  lemma RankLevel(p: seq<real>, v: seq<real>, c: seq<real>, alpha: real)
    requires AreRankShares(p, v, c) && p != [] && alpha >= 0.0
    ensures Share(CountAtMost(p, alpha), |p|) <= alpha
  {
    if CountAtMost(p, alpha) > 0 {
      var i := LeastRejected(v, p, alpha);
      CountDominated(p, alpha, v, c[i]);
      ShareMonotone(CountAtMost(p, alpha), CountAtLeast(v, c[i]), |p|);
    }
  }

  /** The exact p-values of the first m re-flips of the deltas, in pattern order. */
  ghost function ReflipPValues(deltas: seq<real>, resamples: nat, draws: seq<Signs>, m: nat): (r: seq<real>)
    requires IsExact(deltas, resamples)
    ensures |r| == m
  {
    if m == 0 then [] else
      var s := Pattern(m - 1, |deltas|);
      FlipKeepsSizes(s, deltas);
      ReflipPValues(deltas, resamples, draws, m - 1) + [PValue(Flip(s, deltas), resamples, draws)]
  }

  lemma {:induction false} ReflipAt(deltas: seq<real>, resamples: nat, draws: seq<Signs>, m: nat, k: nat)
    requires IsExact(deltas, resamples) && k < m
    ensures IsExact(Flip(Pattern(k, |deltas|), deltas), resamples)
    ensures ReflipPValues(deltas, resamples, draws, m)[k]
         == PValue(Flip(Pattern(k, |deltas|), deltas), resamples, draws)
  {
    FlipKeepsSizes(Pattern(k, |deltas|), deltas);
    if k < m - 1 {
      ReflipAt(deltas, resamples, draws, m - 1, k);
    }
  }

  /** The thresholds of the first m re-flips. */
  ghost function ReflipThresholds(deltas: seq<real>, m: nat): (r: seq<real>)
    ensures |r| == m
  {
    if m == 0 then [] else ReflipThresholds(deltas, m - 1) + [Threshold(Flip(Pattern(m - 1, |deltas|), deltas))]
  }

  lemma {:induction false} ReflipThresholdAt(deltas: seq<real>, m: nat, k: nat)
    requires k < m
    ensures ReflipThresholds(deltas, m)[k] == Threshold(Flip(Pattern(k, |deltas|), deltas))
  {
    if k < m - 1 {
      ReflipThresholdAt(deltas, m - 1, k);
    }
  }

  /** Deltas under signs reach their own threshold. */
  lemma ReachesThreshold(s: Signs, d: seq<real>)
    requires |s| == |d|
    ensures Threshold(Flip(s, d)) <= Abs(Dot(s, d))
  {
    FlipKeepsSizes(s, d);
  }

  /** A re-flip's p-value is the share of all patterns that reach its threshold. */
  lemma ReflipRank(deltas: seq<real>, resamples: nat, draws: seq<Signs>, k: nat)
    requires IsExact(deltas, resamples) && k < Pow2(|deltas|)
    ensures ReflipPValues(deltas, resamples, draws, Pow2(|deltas|))[k]
         == Share(CountAtLeast(PatternSums(deltas), Threshold(Flip(Pattern(k, |deltas|), deltas))), Pow2(|deltas|))
    ensures Threshold(Flip(Pattern(k, |deltas|), deltas)) <= PatternSums(deltas)[k]
  {
    var s := Pattern(k, |deltas|);
    var flipped := Flip(s, deltas);
    ReflipAt(deltas, resamples, draws, Pow2(|deltas|), k);
    FlipKeepsSizes(s, deltas);
    ExactIsShare(flipped, resamples, draws);
    HitsReflip(s, deltas, 0.0, Threshold(flipped));
    TableHits(deltas, 0.0, Threshold(flipped));
    TableEntry(deltas, 0.0, k);
    ReachesThreshold(s, deltas);
  }

  lemma ReflipsAreRanks(deltas: seq<real>, resamples: nat, draws: seq<Signs>)
    requires IsExact(deltas, resamples)
    ensures var all := Pow2(|deltas|);
      AreRankShares(ReflipPValues(deltas, resamples, draws, all), PatternSums(deltas), ReflipThresholds(deltas, all))
  {
    var all := Pow2(|deltas|);
    var p, v, c := ReflipPValues(deltas, resamples, draws, all), PatternSums(deltas), ReflipThresholds(deltas, all);
    forall k | 0 <= k < all
      ensures c[k] <= v[k] && p[k] == Share(CountAtLeast(v, c[k]), |v|)
    {
      ReflipRank(deltas, resamples, draws, k);
      ReflipThresholdAt(deltas, all, k);
    }
  }

  /**
   * The exact test holds its level: under "no difference" every re-flip of the deltas
   * is as likely as the observed one, and at most a share alpha of them get a p-value
   * of alpha or less. Zero deltas are allowed.
   */
  lemma ExactTestHoldsItsLevel(deltas: seq<real>, resamples: nat, draws: seq<Signs>, alpha: real)
    requires IsExact(deltas, resamples) && alpha >= 0.0
    ensures var all := Pow2(|deltas|);
      Share(CountAtMost(ReflipPValues(deltas, resamples, draws, all), alpha), all) <= alpha
  {
    var all := Pow2(|deltas|);
    ReflipsAreRanks(deltas, resamples, draws);
    RankLevel(ReflipPValues(deltas, resamples, draws, all), PatternSums(deltas), ReflipThresholds(deltas, all), alpha);
  }

  // ----- Level of the random test

  /** Entry-wise product of two rows of signs. */
  ghost function Multiply(g: Signs, h: Signs): (r: Signs)
    requires |g| == |h|
    ensures |r| == |g|
  {
    if g == [] then [] else [g[0] == h[0]] + Multiply(g[1..], h[1..])
  }

  /** Rows as seen from the row h: multiplied by h's own signs. */
  ghost function SeenFrom(rows: seq<Signs>, h: Signs): (r: seq<Signs>)
    requires AllOfLength(rows, |h|)
    ensures |r| == |rows| && AllOfLength(r, |h|)
  {
    if rows == [] then [] else [Multiply(rows[0], h)] + SeenFrom(rows[1..], h)
  }

  lemma {:induction false} SignsCancel(g: Signs, h: Signs, d: seq<real>)
    requires |g| == |h| == |d|
    ensures Dot(Multiply(g, h), Flip(h, d)) == Dot(g, d)
  {
    if d != [] {
      SignsCancel(g[1..], h[1..], d[1..]);
    }
  }

  lemma {:induction false} SeenSums(rows: seq<Signs>, h: Signs, d: seq<real>)
    requires AllOfLength(rows, |h|) && |h| == |d|
    ensures DrawSums(SeenFrom(rows, h), Flip(h, d)) == DrawSums(rows, d)
  {
    if rows != [] {
      SeenSums(rows[1..], h, d);
      SignsCancel(rows[0], h, d);
      assert SeenFrom(rows, h)[1..] == SeenFrom(rows[1..], h);
    }
  }

  predicate NoZero(d: seq<real>) {
    forall i :: 0 <= i < |d| ==> d[i] != 0.0
  }

  lemma {:induction false} FlipHasNoZero(h: Signs, d: seq<real>)
    requires |h| == |d| && NoZero(d)
    ensures NonZero(Flip(h, d)) == Flip(h, d)
  {
    if d != [] {
      FlipHasNoZero(h[1..], d[1..]);
    }
  }

  /** The deltas with the signs of `h` on those that carry one. */
  ghost function WithSigns(h: Signs, d: seq<real>): (r: seq<real>)
    requires |h| == |NonZero(d)|
    ensures |r| == |d|
  {
    if d == [] then []
    else if d[0] != 0.0 then [if h[0] then d[0] else -d[0]] + WithSigns(h[1..], d[1..])
    else [0.0] + WithSigns(h, d[1..])
  }

  lemma {:induction false} WithSignsNonZero(h: Signs, d: seq<real>)
    requires |h| == |NonZero(d)|
    ensures NonZero(WithSigns(h, d)) == Flip(h, NonZero(d)) == NonZero(Flip(h, NonZero(d)))
  {
    FlipHasNoZero(h, NonZero(d));
    if d != [] {
      var rest := WithSigns(if d[0] != 0.0 then h[1..] else h, d[1..]);
      assert WithSigns(h, d)[1..] == rest;
      if d[0] != 0.0 {
        WithSignsNonZero(h[1..], d[1..]);
        assert NonZero(d)[1..] == NonZero(d[1..]);
      } else {
        WithSignsNonZero(h, d[1..]);
      }
    }
  }

  /** The random test is well defined when `h` holds the observed signs and `others` the drawn ones. */
  lemma SeenFits(d: seq<real>, h: Signs, others: seq<Signs>)
    requires |h| == |NonZero(d)| && AllOfLength(others, |NonZero(d)|)
    ensures DrawsFit(WithSigns(h, d), |others|, SeenFrom(others, h))
  {
    WithSignsNonZero(h, d);
  }

  /** Row i is the observed one, the others the drawn ones. */
  ghost function Without(rows: seq<Signs>, i: nat): (r: seq<Signs>)
    requires i < |rows|
    ensures |r| == |rows| - 1
  {
    if i == 0 then rows[1..] else [rows[0]] + Without(rows[1..], i - 1)
  }

  lemma {:induction false} WithoutKeepsLength(rows: seq<Signs>, i: nat, n: nat)
    requires i < |rows| && AllOfLength(rows, n)
    ensures AllOfLength(Without(rows, i), n)
  {
    if i > 0 {
      WithoutKeepsLength(rows[1..], i - 1, n);
    }
  }

  /** The outcome of the test when row i is the observed one, and the others its draws. */
  ghost function ExchangedOutcome(d: seq<real>, rows: seq<Signs>, i: nat): (f: Fraction)
    requires AllOfLength(rows, |NonZero(d)|) && i < |rows|
    ensures f.whole > 0
  {
    WithoutKeepsLength(rows, i, |NonZero(d)|);
    SeenFits(d, rows[i], Without(rows, i));
    ReachingPatterns(WithSigns(rows[i], d), |rows| - 1, SeenFrom(Without(rows, i), rows[i]))
  }

  /** The p-values of the test with each of the first m rows as the observed one in turn. */
  ghost function ExchangedPValues(d: seq<real>, rows: seq<Signs>, m: nat): (r: seq<real>)
    requires AllOfLength(rows, |NonZero(d)|) && m <= |rows|
    ensures |r| == m
  {
    if m == 0 then [] else
      var f := ExchangedOutcome(d, rows, m - 1);
      ExchangedPValues(d, rows, m - 1) + [Share(f.part, f.whole)]
  }

  lemma {:induction false} ExchangedAt(d: seq<real>, rows: seq<Signs>, m: nat, k: nat, f: Fraction)
    requires AllOfLength(rows, |NonZero(d)|) && k < m <= |rows|
    requires ExchangedOutcome(d, rows, k) == f
    ensures ExchangedPValues(d, rows, m)[k] == Share(f.part, f.whole)
  {
    if k < m - 1 {
      ExchangedAt(d, rows, m - 1, k, f);
    }
  }

  ghost function RowThresholds(d: seq<real>, rows: seq<Signs>): (r: seq<real>)
    requires AllOfLength(rows, |d|)
    ensures |r| == |rows|
  {
    if rows == [] then [] else [Threshold(Flip(rows[0], d))] + RowThresholds(d, rows[1..])
  }

  lemma {:induction false} RowAt(d: seq<real>, rows: seq<Signs>, i: nat)
    requires AllOfLength(rows, |d|) && i < |rows|
    ensures RowThresholds(d, rows)[i] == Threshold(Flip(rows[i], d))
    ensures DrawSums(rows, d)[i] == Abs(Dot(rows[i], d))
  {
    if i > 0 {
      RowAt(d, rows[1..], i - 1);
    }
  }

  /** The observed row reaches its own threshold; the other rows are counted as drawn. */
  lemma {:induction false} RowRank(d: seq<real>, rows: seq<Signs>, i: nat, c: real)
    requires i < |rows| && AllOfLength(rows, |d|) && AllOfLength(Without(rows, i), |d|)
    requires Abs(Dot(rows[i], d)) >= c
    ensures CountAtLeast(DrawSums(rows, d), c) == 1 + CountAtLeast(DrawSums(Without(rows, i), d), c)
  {
    if i > 0 {
      WithoutKeepsLength(rows[1..], i - 1, |d|);
      RowRank(d, rows[1..], i - 1, c);
      assert Without(rows, i)[1..] == Without(rows[1..], i - 1);
    }
  }

  lemma ExchangedCount(d: seq<real>, rows: seq<Signs>, i: nat)
    requires AllOfLength(rows, |NonZero(d)|) && i < |rows| && Pow2(|NonZero(d)|) > |rows| - 1
    ensures ExchangedOutcome(d, rows, i)
         == Fraction(CountAtLeast(DrawSums(rows, NonZero(d)), Threshold(Flip(rows[i], NonZero(d)))), |rows|)
  {
    var z, h, others := NonZero(d), rows[i], Without(rows, i);
    WithoutKeepsLength(rows, i, |z|);
    WithSignsNonZero(h, d);
    ReachesThreshold(h, z);
    RowRank(z, rows, i, Threshold(Flip(h, z)));
    if z == [] {
      assert others == [];
    } else {
      SeenSums(others, h, z);
    }
  }

  /**
   * The random test holds its level too. Take the observed signs of the non-zero deltas and the
   * drawn ones as `resamples + 1` exchangeable rows: whichever is the observed one, at most a share
   * alpha of the choices get a p-value of alpha or less.
   */
  lemma RandomTestHoldsItsLevel(d: seq<real>, rows: seq<Signs>, alpha: real)
    requires AllOfLength(rows, |NonZero(d)|) && alpha >= 0.0
    requires rows != [] && Pow2(|NonZero(d)|) > |rows| - 1
    ensures Share(CountAtMost(ExchangedPValues(d, rows, |rows|), alpha), |rows|) <= alpha
  {
    var z := NonZero(d);
    var p, v, c := ExchangedPValues(d, rows, |rows|), DrawSums(rows, z), RowThresholds(z, rows);
    forall i | 0 <= i < |rows|
      ensures c[i] <= v[i] && p[i] == Share(CountAtLeast(v, c[i]), |v|)
    {
      RowAt(z, rows, i);
      ReachesThreshold(rows[i], z);
      ExchangedCount(d, rows, i);
      ExchangedAt(d, rows, |rows|, i, ExchangedOutcome(d, rows, i));
    }
    RankLevel(p, v, c, alpha);
  }
}
