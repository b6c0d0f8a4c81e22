/** What an hourly row is the mean of: when hour rows made from five-minute rows equal the mean of the
    raw samples, and when not. */
module HourlyMeans {
  import opened Retention
  import opened RetentionRuns

  // ---------- sums over an hour ----------

  lemma {:induction false} Splits(m: Samples, w: string, a: nat, x: nat, y: nat)
    ensures SumIn(m, w, a, x + y) == SumIn(m, w, a, x) + SumIn(m, w, a + x, y)
    ensures CountIn(m, w, a, x + y) == CountIn(m, w, a, x) + CountIn(m, w, a + x, y)
  {
    if y > 0 {
      Splits(m, w, a, x, y - 1);
      assert x + y - 1 == x + (y - 1) && a + (x + y) - 1 == (a + x) + y - 1;
    }
  }

  /** Start of bucket `k` of an hour. */
  function Bucket(g: nat, b: nat, k: nat): nat {
    g + k * b
  }

  function RawSum(founds: seq<Samples>, w: string, g: nat, b: nat): real
    decreases |founds|
  {
    if founds == [] then 0.0
    else RawSum(founds[..|founds| - 1], w, g, b) + SumIn(founds[|founds| - 1], w, Bucket(g, b, |founds| - 1), b)
  }

  function RawCount(founds: seq<Samples>, w: string, g: nat, b: nat): nat
    decreases |founds|
  {
    if founds == [] then 0
    else RawCount(founds[..|founds| - 1], w, g, b) + CountIn(founds[|founds| - 1], w, Bucket(g, b, |founds| - 1), b)
  }

  /** Sum of the buckets' means, and how many buckets have any sample. */
  function MeanSum(founds: seq<Samples>, w: string, g: nat, b: nat): real
    decreases |founds|
  {
    if founds == [] then 0.0
    else MeanSum(founds[..|founds| - 1], w, g, b) + Mean(founds[|founds| - 1], w, Bucket(g, b, |founds| - 1), b)
  }

  function Filled(founds: seq<Samples>, w: string, g: nat, b: nat): nat
    decreases |founds|
  {
    if founds == [] then 0
    else
      Filled(founds[..|founds| - 1], w, g, b)
      + (if CountIn(founds[|founds| - 1], w, Bucket(g, b, |founds| - 1), b) > 0 then 1 else 0)
  }

  /** The bucket holds just the mean of what its own fold found, if that was anything. */
  predicate HoldsMean(m: Samples, found: Samples, w: string, a: nat, b: nat) {
    && Lone(m, w, a, b)
    && ((a, w) in m <==> CountIn(found, w, a, b) > 0)
    && ((a, w) in m ==> m[(a, w)] == Mean(found, w, a, b))
  }

  ghost predicate HoldsMeans(m: Samples, founds: seq<Samples>, w: string, g: nat, b: nat) {
    forall k :: 0 <= k < |founds| ==> HoldsMean(m, founds[k], w, Bucket(g, b, k), b)
  }

  lemma {:induction false} EmptySum(m: Samples, w: string, a: nat, n: nat)
    ensures CountIn(m, w, a, n) == 0 ==> SumIn(m, w, a, n) == 0.0
  {
    if n > 0 {
      EmptySum(m, w, a, n - 1);
    }
  }

  lemma NoneIn(m: Samples, w: string, g: nat)
    ensures SumIn(m, w, g, 0) == 0.0 && CountIn(m, w, g, 0) == 0
  {
  }

  lemma OneMean(m: Samples, found: Samples, w: string, a: nat, b: nat)
    requires b > 0 && HoldsMean(m, found, w, a, b)
    ensures SumIn(m, w, a, b) == Mean(found, w, a, b)
    ensures CountIn(m, w, a, b) == if CountIn(found, w, a, b) > 0 then 1 else 0
  {
    LoneMean(m, w, a, b);
    EmptySum(m, w, a, b);
    hide SumIn, CountIn, Lone;
  }

  /** A table that holds the buckets' means has their sum over the hour. */
  lemma {:induction false} SumOfMeans(m: Samples, founds: seq<Samples>, w: string, g: nat, b: nat)
    requires b > 0 && HoldsMeans(m, founds, w, g, b)
    ensures SumIn(m, w, g, |founds| * b) == MeanSum(founds, w, g, b)
    ensures CountIn(m, w, g, |founds| * b) == Filled(founds, w, g, b)
    decreases |founds|
  {
    hide HoldsMean, SumIn, CountIn, Mean;
    if founds == [] {
      NoneIn(m, w, g);
    } else {
      var n := |founds| - 1;
      var front := founds[..n];
      assert forall k :: 0 <= k < n ==> front[k] == founds[k];
      SumOfMeans(m, front, w, g, b);
      assert HoldsMean(m, founds[n], w, Bucket(g, b, n), b);
      OneMean(m, founds[n], w, Bucket(g, b, n), b);
      Splits(m, w, g, n * b, b);
      assert |founds| * b == n * b + b;
    }
  }

  // ---------- the hourly row over a run ----------

  lemma BucketAligned(p: Policy, g: nat, k: nat)
    requires p.Valid() && Aligned(g, p.longBucket)
    ensures Bucket(g, p.midBucket, k) >= g && Aligned(Bucket(g, p.midBucket, k), p.midBucket)
  {
    CoarseIsFine(g, p.midBucket, p.longBucket);
    var q := g / p.midBucket;
    assert g == q * p.midBucket;
    assert g + k * p.midBucket == (q + k) * p.midBucket;
    MultipleAligned(q + k, p.midBucket);
  }

  /** The last bucket of the hour has left the raw tier by pass `j`. */
  lemma HourBelowRaw(p: Policy, rounds: seq<Round>, folds: seq<nat>, j: nat, g: nat)
    requires p.Valid() && InOrder(p, rounds) && j < |rounds| && Aligned(g, p.longBucket)
    requires |folds| * p.midBucket == p.longBucket
    requires forall k :: 0 <= k < |folds| ==>
               folds[k] <= j && Bucket(g, p.midBucket, k) < RawStart(p, rounds[folds[k]].now)
    ensures g + p.longBucket <= RawStart(p, rounds[j].now)
  {
    hide LongStart, HourEnd, MidStart, RawStart;
    var n := |folds| - 1;
    assert n >= 0;
    BucketAligned(p, g, n);
    BoundedByRaw(p, rounds[folds[n]].now, Bucket(g, p.midBucket, n));
    assert n * p.midBucket + p.midBucket == |folds| * p.midBucket;
    if folds[n] < j {
      assert rounds[folds[n]].now <= rounds[j].now;
    }
    BoundariesMove(p, rounds[folds[n]].now, rounds[j].now);
  }

  /** What each bucket's fold found. */
  function Founds(p: Policy, rounds: seq<Round>, folds: seq<nat>): seq<Samples>
    requires forall k :: 0 <= k < |folds| ==> folds[k] < |rounds|
  {
    seq(|folds|, k requires 0 <= k < |folds| => Found(p, rounds, folds[k]))
  }

  /** Bucket `k` of the hour was folded at pass `folds[k]`, all by pass `j`; the hour at the next. */
  ghost predicate FoldedAtPasses(p: Policy, rounds: seq<Round>, folds: seq<nat>, j: nat, g: nat)
    requires p.Valid()
  {
    && InOrder(p, rounds) && j + 1 < |rounds| && Aligned(g, p.longBucket) && |folds| * p.midBucket == p.longBucket
    && LongStart(p, rounds[j + 1].now) <= g < HourEnd(p, rounds[j + 1].now) && HourEnd(p, rounds[j].now) <= g
    && forall k :: 0 <= k < |folds| ==>
         && folds[k] <= j
         && MidStart(p, rounds[folds[k]].now) <= Bucket(g, p.midBucket, k) < RawStart(p, rounds[folds[k]].now)
  }

  /** Over a run: an hour whose buckets were each folded at some pass before its own gets the mean of
      the buckets' means, whatever their counts. */
  lemma HourIsMeanOfMeans(p: Policy, rounds: seq<Round>, folds: seq<nat>, j: nat, g: nat, w: string)
    requires p.Valid() && FoldedAtPasses(p, rounds, folds, j, g)
    ensures var founds := Founds(p, rounds, folds);
            && ((g, w) in At(p, rounds, j + 1) <==> Filled(founds, w, g, p.midBucket) > 0)
            && ((g, w) in At(p, rounds, j + 1) ==>
                  At(p, rounds, j + 1)[(g, w)]
                  == MeanSum(founds, w, g, p.midBucket) / Filled(founds, w, g, p.midBucket) as real)
  {
    hide LongStart, HourEnd, MidStart, RawStart, SumIn, CountIn, Aligned, Passed, At, Found, MeanSum, Filled,
         InOrder, Lone;
    var founds := Founds(p, rounds, folds);
    var m, f, b := At(p, rounds, j), Found(p, rounds, j + 1), p.midBucket;
    forall k | 0 <= k < |folds| ensures HoldsMean(m, founds[k], w, Bucket(g, b, k), b) {
      hide Mean;
      BucketAligned(p, g, k);
      NotYetHour(p, rounds, folds, j, g, k);
      MidKept(p, rounds, folds[k], j, Bucket(g, b, k), w);
    }
    hide HoldsMean;
    SumOfMeans(m, founds, w, g, b);
    HourBelowRaw(p, rounds, folds, j, g);
    AddingAbove(p, rounds, j, j + 1, g, p.longBucket, w);
    SameMeans(m, f, w, g, p.longBucket);
    HourKept(p, rounds, j + 1, j + 1, g, w);
  }

  lemma NotYetHour(p: Policy, rounds: seq<Round>, folds: seq<nat>, j: nat, g: nat, k: nat)
    requires p.Valid() && FoldedAtPasses(p, rounds, folds, j, g) && k < |folds|
    ensures HourEnd(p, rounds[j].now) <= Bucket(g, p.midBucket, k) && folds[k] <= j
    ensures MidStart(p, rounds[folds[k]].now) <= Bucket(g, p.midBucket, k) < RawStart(p, rounds[folds[k]].now)
  {
    hide HourEnd, MidStart, RawStart, LongStart, InOrder;
  }

  // ---------- equal counts ----------

  function Times(c: nat, x: real): real {
    c as real * x
  }

  lemma TimesLaws(c: nat, x: real, y: real)
    ensures Times(c, x + y) == Times(c, x) + Times(c, y) && Times(c, 0.0) == 0.0
  {
  }

  lemma MeanTimesCount(found: Samples, w: string, a: nat, b: nat, c: nat)
    ensures CountIn(found, w, a, b) == c && c > 0 ==> SumIn(found, w, a, b) == Times(c, Mean(found, w, a, b))
  {
    hide SumIn, CountIn;
  }

  lemma OneMore(c: nat, x: nat, y: nat)
    requires y <= 1
    ensures c * (x + y) == c * x + if y == 0 then 0 else c
  {
  }

  /** Every bucket that has any samples has `c` of them. */
  predicate Even(founds: seq<Samples>, w: string, g: nat, b: nat, c: nat) {
    forall k :: 0 <= k < |founds| ==> CountIn(founds[k], w, Bucket(g, b, k), b) in {0, c}
  }

  lemma {:induction false} EvenSums(founds: seq<Samples>, w: string, g: nat, b: nat, c: nat)
    requires c > 0 && Even(founds, w, g, b, c)
    ensures RawSum(founds, w, g, b) == Times(c, MeanSum(founds, w, g, b))
    ensures RawCount(founds, w, g, b) == c * Filled(founds, w, g, b)
    decreases |founds|
  {
    hide SumIn, CountIn, Times;
    TimesLaws(c, 0.0, 0.0);
    if founds != [] {
      var n := |founds| - 1;
      var front, a := founds[..n], Bucket(g, b, n);
      assert forall k :: 0 <= k < n ==> front[k] == founds[k];
      EvenSums(front, w, g, b, c);
      assert CountIn(founds[n], w, a, b) in {0, c};
      MeanTimesCount(founds[n], w, a, b, c);
      EmptySum(founds[n], w, a, b);
      hide Mean;
      EmptyMean(founds[n], w, a, b);
      TimesLaws(c, MeanSum(front, w, g, b), Mean(founds[n], w, a, b));
      OneMore(c, Filled(front, w, g, b), if CountIn(founds[n], w, a, b) > 0 then 1 else 0);
    }
  }

  lemma EmptyMean(m: Samples, w: string, a: nat, n: nat)
    ensures CountIn(m, w, a, n) == 0 ==> Mean(m, w, a, n) == 0.0
  {
  }

  /** With equal counts the mean of means is the raw mean. */
  lemma EvenMeans(founds: seq<Samples>, w: string, g: nat, b: nat, c: nat)
    requires c > 0 && Even(founds, w, g, b, c)
    ensures Filled(founds, w, g, b) > 0 <==> RawCount(founds, w, g, b) > 0
    ensures Filled(founds, w, g, b) > 0 ==>
              MeanSum(founds, w, g, b) / Filled(founds, w, g, b) as real
              == RawSum(founds, w, g, b) / RawCount(founds, w, g, b) as real
  {
    hide Even, MeanSum, Filled, RawSum, RawCount, Times;
    EvenSums(founds, w, g, b, c);
    PositiveTimes(c, Filled(founds, w, g, b));
    if Filled(founds, w, g, b) > 0 {
      Cancel(MeanSum(founds, w, g, b), Filled(founds, w, g, b), c);
    }
  }

  lemma Cancel(s: real, n: nat, c: nat)
    requires c > 0 && c * n > 0
    ensures n > 0 && s / n as real == Times(c, s) / (c * n) as real
  {
    assert n > 0;
    assert (c * n) as real == c as real * n as real;
    CancelReal(s, n as real, c as real);
  }

  lemma CancelReal(s: real, n: real, c: real)
    requires n > 0.0 && c > 0.0 && c * n > 0.0
    ensures s / n == (c * s) / (c * n)
  {
    var q := s / n;
    assert s == q * n;
    assert c * s == q * (c * n);
    Quotient(q, c * n, c * s);
  }

  lemma Quotient(q: real, x: real, y: real)
    requires x > 0.0 && y == q * x
    ensures y / x == q
  {
  }

  lemma PositiveTimes(c: nat, n: nat)
    requires c > 0
    ensures c * n > 0 <==> n > 0
  {
  }

  /** Over a run: with equally many raw samples in each bucket that has any, the hourly row is the mean
      of all the raw samples that the buckets' folds found. */
  lemma HourIsRawMean(p: Policy, rounds: seq<Round>, folds: seq<nat>, j: nat, g: nat, w: string, c: nat)
    requires p.Valid() && FoldedAtPasses(p, rounds, folds, j, g)
    requires c > 0 && Even(Founds(p, rounds, folds), w, g, p.midBucket, c)
    ensures var founds := Founds(p, rounds, folds);
            && ((g, w) in At(p, rounds, j + 1) <==> RawCount(founds, w, g, p.midBucket) > 0)
            && ((g, w) in At(p, rounds, j + 1) ==>
                  At(p, rounds, j + 1)[(g, w)]
                  == RawSum(founds, w, g, p.midBucket) / RawCount(founds, w, g, p.midBucket) as real)
  {
    hide LongStart, HourEnd, MidStart, RawStart, InOrder, Even, MeanSum, Filled, RawSum, RawCount, At, Founds;
    HourIsMeanOfMeans(p, rounds, folds, j, g, w);
    EvenMeans(Founds(p, rounds, folds), w, g, p.midBucket, c);
  }

  // ---------- exactly equal counts ----------

  /** An hour's worth of samples `m`, first folded to five minutes and then to its hour. */
  predicate TwoPasses(p: Policy, now1: int, now2: int, g: nat)
    requires p.Valid()
  {
    && Aligned(g, p.longBucket)
    && MidStart(p, now1) <= g && g + p.longBucket <= RawStart(p, now1)
    && LongStart(p, now2) <= g < HourEnd(p, now2)
  }

  /** The row of the hour exists and is the mean of its samples. */
  predicate RowIsRawMean(m: Samples, p: Policy, now1: int, now2: int, g: nat, w: string)
    requires p.Valid()
  {
    var f := Passed(Passed(m, p, now1), p, now2);
    (g, w) in f && f[(g, w)] == Mean(m, w, g, p.longBucket)
  }

  /** All five-minute buckets of the hour that have any samples have equally many. */
  predicate EvenBuckets(m: Samples, w: string, g: nat, b: nat, n: nat) {
    forall i, j :: 0 <= i < n && 0 <= j < n
                   && CountIn(m, w, Bucket(g, b, i), b) > 0 && CountIn(m, w, Bucket(g, b, j), b) > 0 ==>
      CountIn(m, w, Bucket(g, b, i), b) == CountIn(m, w, Bucket(g, b, j), b)
  }

  function BucketsPerHour(p: Policy): (n: nat)
    requires p.Valid()
    ensures n * p.midBucket == p.longBucket && n > 0
  {
    WholeBuckets(p);
    p.longBucket / p.midBucket
  }

  lemma WholeBuckets(p: Policy)
    requires p.Valid()
    ensures var n := p.longBucket / p.midBucket; n > 0 && n * p.midBucket == p.longBucket
  {
    var n := p.longBucket / p.midBucket;
    assert p.longBucket == n * p.midBucket;
    TimesOrdered(n, 0, p.midBucket);
  }

  function Copies(m: Samples, n: nat): (r: seq<Samples>)
    ensures |r| == n && forall k :: 0 <= k < n ==> r[k] == m
  {
    seq(n, _ => m)
  }

  lemma CopiesFront(m: Samples, n: nat)
    requires n > 0
    ensures Copies(m, n)[..n - 1] == Copies(m, n - 1) && Copies(m, n)[n - 1] == m
  {
  }

  lemma {:induction false} CopiesSum(m: Samples, w: string, g: nat, b: nat, n: nat)
    ensures RawSum(Copies(m, n), w, g, b) == SumIn(m, w, g, n * b)
    ensures RawCount(Copies(m, n), w, g, b) == CountIn(m, w, g, n * b)
  {
    hide SumIn, CountIn, Copies;
    if n == 0 {
      NoneIn(m, w, g);
    } else {
      CopiesFront(m, n);
      CopiesSum(m, w, g, b, n - 1);
      Splits(m, w, g, (n - 1) * b, b);
      assert n * b == (n - 1) * b + b;
    }
  }

  /** Two passes make the hour's row the mean of the buckets' means. */
  lemma TwoPassRow(m: Samples, p: Policy, now1: int, now2: int, g: nat, w: string)
    requires p.Valid() && TwoPasses(p, now1, now2, g)
    ensures var f := Passed(Passed(m, p, now1), p, now2);
            var founds := Copies(m, BucketsPerHour(p));
            && ((g, w) in f <==> Filled(founds, w, g, p.midBucket) > 0)
            && ((g, w) in f ==>
                  f[(g, w)] == MeanSum(founds, w, g, p.midBucket) / Filled(founds, w, g, p.midBucket) as real)
  {
    hide LongStart, HourEnd, MidStart, RawStart, SumIn, CountIn, Aligned, Passed, Lone, MeanSum, Filled;
    var n, b, f := BucketsPerHour(p), p.midBucket, Passed(m, p, now1);
    var founds := Copies(m, n);
    forall k | 0 <= k < n ensures HoldsMean(f, founds[k], w, Bucket(g, b, k), b) {
      hide Mean;
      BucketAligned(p, g, k);
      BucketInHour(g, b, n, k);
      MidFolds(m, p, now1, Bucket(g, b, k), w);
    }
    hide HoldsMean;
    SumOfMeans(f, founds, w, g, b);
    HourFolds(f, p, now2, g, w);
  }

  lemma BucketInHour(g: nat, b: nat, n: nat, k: nat)
    requires k < n && b > 0
    ensures g <= Bucket(g, b, k) && Bucket(g, b, k) + b <= g + n * b
  {
    TimesOrdered(k + 1, n, b);
    TimesOrdered(0, k, b);
    assert (k + 1) * b == k * b + b;
  }

  lemma {:induction false} SameCount(m: Samples, o: Samples, w: string, a: nat, n: nat)
    requires m.Keys == o.Keys
    ensures CountIn(m, w, a, n) == CountIn(o, w, a, n)
  {
    if n > 0 {
      SameCount(m, o, w, a, n - 1);
    }
  }

  /** Two passes give every hour the mean of its raw samples, whatever their values, exactly if the
      five-minute buckets that have any samples have equally many. */
  lemma HourlyRowExactIff(m: Samples, p: Policy, now1: int, now2: int, g: nat, w: string)
    requires p.Valid() && TwoPasses(p, now1, now2, g) && CountIn(m, w, g, p.longBucket) > 0
    ensures (forall v: Samples :: v.Keys == m.Keys ==> RowIsRawMean(v, p, now1, now2, g, w))
       <==> EvenBuckets(m, w, g, p.midBucket, BucketsPerHour(p))
  {
    hide RowIsRawMean, CountIn, TwoPasses;
    var n := BucketsPerHour(p);
    if EvenBuckets(m, w, g, p.midBucket, n) {
      forall v: Samples | v.Keys == m.Keys ensures RowIsRawMean(v, p, now1, now2, g, w) {
        EvenSuffices(m, v, p, now1, now2, g, w);
      }
    }
    if forall v: Samples :: v.Keys == m.Keys ==> RowIsRawMean(v, p, now1, now2, g, w) {
      forall i, j | 0 <= i < n && 0 <= j < n
                    && CountIn(m, w, Bucket(g, p.midBucket, i), p.midBucket) > 0
                    && CountIn(m, w, Bucket(g, p.midBucket, j), p.midBucket) > 0
        ensures CountIn(m, w, Bucket(g, p.midBucket, i), p.midBucket)
            == CountIn(m, w, Bucket(g, p.midBucket, j), p.midBucket)
      {
        BucketShare(m, p, now1, now2, g, w, i);
        BucketShare(m, p, now1, now2, g, w, j);
        SameFactor(CountIn(m, w, Bucket(g, p.midBucket, i), p.midBucket),
            CountIn(m, w, Bucket(g, p.midBucket, j), p.midBucket),
                   Filled(Copies(m, n), w, g, p.midBucket));
      }
    }
  }

  lemma SameFactor(x: nat, y: nat, f: nat)
    requires f > 0 && x * f == y * f
    ensures x == y
  {
    TimesOrdered(x + 1, y, f);
    TimesOrdered(y + 1, x, f);
  }

  lemma EvenSuffices(m: Samples, v: Samples, p: Policy, now1: int, now2: int, g: nat, w: string)
    requires p.Valid() && TwoPasses(p, now1, now2, g) && CountIn(m, w, g, p.longBucket) > 0
    requires v.Keys == m.Keys && EvenBuckets(m, w, g, p.midBucket, BucketsPerHour(p))
    ensures RowIsRawMean(v, p, now1, now2, g, w)
  {
    hide CountIn, SumIn, TwoPasses, Passed, RawSum, RawCount, MeanSum, Filled, Copies;
    var n, b := BucketsPerHour(p), p.midBucket;
    var c := CommonCount(m, w, g, b, n);
    forall k | 0 <= k < n ensures CountIn(v, w, Bucket(g, b, k), b) in {0, c} {
      SameCount(m, v, w, Bucket(g, b, k), b);
    }
    CopiesSum(v, w, g, b, n);
    SameCount(m, v, w, g, n * b);
    TwoPassRow(v, p, now1, now2, g, w);
    EvenMeans(Copies(v, n), w, g, b, c);
  }

  lemma CommonCount(m: Samples, w: string, g: nat, b: nat, n: nat) returns (c: nat)
    requires EvenBuckets(m, w, g, b, n)
    ensures c > 0 && forall k :: 0 <= k < n ==> CountIn(m, w, Bucket(g, b, k), b) in {0, c}
  {
    hide CountIn;
    c := 1;
    if i: nat :| i < n && CountIn(m, w, Bucket(g, b, i), b) > 0 {
      c := CountIn(m, w, Bucket(g, b, i), b);
    }
  }

  /** The same times with value one in one range and zero elsewhere. */
  function Marked(m: Samples, w: string, a: nat, b: nat): Samples {
    map k | k in m :: if k.1 == w && a <= k.0 < a + b then 1.0 else 0.0
  }

  lemma {:induction false} ConstantSum(m: Samples, w: string, a: nat, n: nat, x: real)
    requires forall t: nat :: a <= t < a + n && (t, w) in m ==> m[(t, w)] == x
    ensures SumIn(m, w, a, n) == Times(CountIn(m, w, a, n), x)
  {
    if n > 0 {
      ConstantSum(m, w, a, n - 1, x);
    }
  }

  lemma MarkedBucket(m: Samples, w: string, g: nat, b: nat, i: nat, k: nat)
    requires b > 0
    ensures var v, a := Marked(m, w, Bucket(g, b, i), b), Bucket(g, b, k);
            && CountIn(v, w, a, b) == CountIn(m, w, a, b)
            && SumIn(v, w, a, b) == (if k == i then CountIn(m, w, a, b) as real else 0.0)
            && Mean(v, w, a, b) == (if k == i && CountIn(m, w, a, b) > 0 then 1.0 else 0.0)
  {
    hide SumIn, CountIn, Marked, Times, Mean;
    var v, a := Marked(m, w, Bucket(g, b, i), b), Bucket(g, b, k);
    MarkedValues(m, w, g, b, i, k);
    SameCount(v, m, w, a, b);
    ConstantSum(v, w, a, b, if k == i then 1.0 else 0.0);
    ConstantMean(v, w, a, b, if k == i then 1.0 else 0.0);
  }

  lemma MarkedValues(m: Samples, w: string, g: nat, b: nat, i: nat, k: nat)
    requires b > 0
    ensures var v, a := Marked(m, w, Bucket(g, b, i), b), Bucket(g, b, k);
            && v.Keys == m.Keys
            && forall t: nat :: a <= t < a + b && (t, w) in v ==> v[(t, w)] == if k == i then 1.0 else 0.0
  {
    TimesOrdered(i + 1, k, b);
    TimesOrdered(k + 1, i, b);
    assert (i + 1) * b == i * b + b && (k + 1) * b == k * b + b;
  }

  lemma ConstantMean(m: Samples, w: string, a: nat, n: nat, x: real)
    requires SumIn(m, w, a, n) == Times(CountIn(m, w, a, n), x)
    ensures Mean(m, w, a, n) == if CountIn(m, w, a, n) > 0 then x else 0.0
    ensures x == 1.0 ==> SumIn(m, w, a, n) == CountIn(m, w, a, n) as real
    ensures x == 0.0 ==> SumIn(m, w, a, n) == 0.0
  {
    hide SumIn, CountIn;
    if CountIn(m, w, a, n) > 0 {
      Quotient(x, CountIn(m, w, a, n) as real, SumIn(m, w, a, n));
    }
  }

  lemma {:induction false} MarkedSums(m: Samples, w: string, g: nat, b: nat, i: nat, n: nat)
    requires b > 0 && CountIn(m, w, Bucket(g, b, i), b) > 0
    ensures var v := Marked(m, w, Bucket(g, b, i), b);
            && MeanSum(Copies(v, n), w, g, b) == (if i < n then 1.0 else 0.0)
            && RawSum(Copies(v, n), w, g, b) == (if i < n then CountIn(m, w, Bucket(g, b, i), b) as real else 0.0)
            && Filled(Copies(v, n), w, g, b) == Filled(Copies(m, n), w, g, b)
  {
    hide SumIn, CountIn, Mean, Marked, Copies;
    if n > 0 {
      CopiesFront(m, n);
      CopiesFront(Marked(m, w, Bucket(g, b, i), b), n);
      MarkedSums(m, w, g, b, i, n - 1);
      MarkedBucket(m, w, g, b, i, n - 1);
    }
  }

  /** If the row is right for the marked values, the bucket has its equal share of the samples. */
  lemma BucketShare(m: Samples, p: Policy, now1: int, now2: int, g: nat, w: string, i: nat)
    requires p.Valid() && TwoPasses(p, now1, now2, g) && i < BucketsPerHour(p)
    requires forall v: Samples :: v.Keys == m.Keys ==> RowIsRawMean(v, p, now1, now2, g, w)
    requires CountIn(m, w, Bucket(g, p.midBucket, i), p.midBucket) > 0
    ensures var f := Filled(Copies(m, BucketsPerHour(p)), w, g, p.midBucket);
            f > 0 && CountIn(m, w, Bucket(g, p.midBucket, i), p.midBucket) * f == CountIn(m, w, g, p.longBucket)
  {
    hide CountIn, SumIn, TwoPasses, Passed, RawSum, RawCount, MeanSum, Filled, Copies;
    var n, b := BucketsPerHour(p), p.midBucket;
    var v := Marked(m, w, Bucket(g, b, i), b);
    assert v.Keys == m.Keys;
    assert RowIsRawMean(v, p, now1, now2, g, w);
    MarkedSums(m, w, g, b, i, n);
    CopiesSum(v, w, g, b, n);
    SameCount(m, v, w, g, p.longBucket);
    TwoPassRow(v, p, now1, now2, g, w);
    CountedWithin(m, w, g, b, n, i);
    CrossMultiply(CountIn(m, w, Bucket(g, b, i), b), Filled(Copies(m, n), w, g, b), CountIn(m, w, g, p.longBucket));
  }

  lemma CountedWithin(m: Samples, w: string, g: nat, b: nat, n: nat, i: nat)
    requires b > 0 && i < n && CountIn(m, w, Bucket(g, b, i), b) > 0
    ensures CountIn(m, w, g, n * b) > 0
  {
    BucketInHour(g, b, n, i);
    CountPositive(m, w, Bucket(g, b, i), b);
    CountPositive(m, w, g, n * b);
    hide CountIn;
  }

  lemma CrossMultiply(c: nat, f: nat, all: nat)
    requires f > 0 && all > 0 && 1.0 / f as real == c as real / all as real
    ensures c * f == all
  {
    var q := 1.0 / f as real;
    assert q * f as real == 1.0;
    assert q * all as real == c as real;
    assert (c * f) as real == c as real * f as real;
    assert c as real * f as real == (q * f as real) * all as real;
  }

  // ---------- an hour with unequal counts ----------

  /** With the default policy: five samples of 0 in the first five minutes and one of 6 in the next
      have mean 1, and the hour's row is 3. */
  lemma UnequalCountsShiftTheMean(w: string)
    ensures var m: Samples := map[(0, w) := 0.0, (60, w) := 0.0, (120, w) := 0.0, (180, w) := 0.0, (240, w) := 0.0,
        (300, w) := 6.0];
            var f := Passed(Passed(m, DEFAULT, 2 * 24 * 3600), DEFAULT, 8 * 24 * 3600);
            Mean(m, w, 0, 3600) == 1.0 && (0, w) in f && f[(0, w)] == 3.0
  {
    hide Passed, Mean, CountIn, SumIn, LongStart, HourEnd;
    var m := SixSamples(w);
    SixSums(w);
    DefaultPasses();
    FirstPass(m, Passed(m, DEFAULT, 2 * 24 * 3600), w);
    HourFolds(Passed(m, DEFAULT, 2 * 24 * 3600), DEFAULT, 8 * 24 * 3600, 0, w);
  }

  function SixSamples(w: string): Samples {
    map[(0, w) := 0.0, (60, w) := 0.0, (120, w) := 0.0, (180, w) := 0.0, (240, w) := 0.0, (300, w) := 6.0]
  }

  lemma DefaultPasses()
    ensures DEFAULT.Valid() && DEFAULT.midBucket == 300 && DEFAULT.longBucket == 3600
    ensures TwoPasses(DEFAULT, 2 * 24 * 3600, 8 * 24 * 3600, 0)
    ensures Aligned(0, 3600) && LongStart(DEFAULT, 8 * 24 * 3600) <= 0 < HourEnd(DEFAULT, 8 * 24 * 3600)
  {
    DefaultIsValid();
  }

  lemma SixSums(w: string)
    ensures var m := SixSamples(w);
            && Mean(m, w, 0, 300) == 0.0 && CountIn(m, w, 0, 300) == 5
            && Mean(m, w, 300, 300) == 6.0 && CountIn(m, w, 300, 300) == 1
            && CountIn(m, w, 600, 3000) == 0 && Mean(m, w, 0, 3600) == 1.0
  {
    var m := SixSamples(w);
    hide SumIn, CountIn, SixSamples;
    SixPieces(w);
    Splits(m, w, 0, 60, 60);
    Splits(m, w, 0, 120, 60);
    Splits(m, w, 0, 180, 60);
    Splits(m, w, 0, 240, 60);
    Splits(m, w, 0, 300, 300);
    Splits(m, w, 0, 600, 3000);
  }

  lemma SixPieces(w: string)
    ensures var m := SixSamples(w);
            && SumIn(m, w, 0, 60) == 0.0 && CountIn(m, w, 0, 60) == 1
            && SumIn(m, w, 60, 60) == 0.0 && CountIn(m, w, 60, 60) == 1
            && SumIn(m, w, 120, 60) == 0.0 && CountIn(m, w, 120, 60) == 1
            && SumIn(m, w, 180, 60) == 0.0 && CountIn(m, w, 180, 60) == 1
            && SumIn(m, w, 240, 60) == 0.0 && CountIn(m, w, 240, 60) == 1
            && SumIn(m, w, 300, 300) == 6.0 && CountIn(m, w, 300, 300) == 1
            && SumIn(m, w, 600, 3000) == 0.0 && CountIn(m, w, 600, 3000) == 0
  {
    hide SumIn, CountIn, Mean;
    var m := SixSamples(w);
    LoneMean(m, w, 0, 60);
    LoneMean(m, w, 60, 60);
    LoneMean(m, w, 120, 60);
    LoneMean(m, w, 180, 60);
    LoneMean(m, w, 240, 60);
    LoneMean(m, w, 300, 300);
    LoneMean(m, w, 600, 3000);
    EmptySum(m, w, 600, 3000);
  }

  lemma FirstPass(m: Samples, f: Samples, w: string)
    requires m == SixSamples(w) && f == Passed(m, DEFAULT, 2 * 24 * 3600)
    ensures CountIn(f, w, 0, 3600) == 2 && Mean(f, w, 0, 3600) == 3.0
  {
    SixSums(w);
    DefaultPasses();
    hide SumIn, CountIn, Mean, Passed, SixSamples;
    assert Aligned(300, 300);
    MidFolds(m, DEFAULT, 2 * 24 * 3600, 0, w);
    MidFolds(m, DEFAULT, 2 * 24 * 3600, 300, w);
    LoneMean(f, w, 0, 300);
    LoneMean(f, w, 300, 300);
    forall t: nat | 600 <= t < 3600 ensures (t, w) !in f {
      NothingLater(m, f, w, t);
    }
    LoneMean(f, w, 600, 3000);
    EmptySum(f, w, 600, 3000);
    Splits(f, w, 0, 300, 300);
    Splits(f, w, 0, 600, 3000);
    TwoRows(f, w);
  }

  lemma TwoRows(f: Samples, w: string)
    requires SumIn(f, w, 0, 3600) == 6.0 && CountIn(f, w, 0, 3600) == 2
    ensures Mean(f, w, 0, 3600) == 3.0
  {
    hide SumIn, CountIn;
  }

  lemma NothingLater(m: Samples, f: Samples, w: string, t: nat)
    requires m == SixSamples(w) && f == Passed(m, DEFAULT, 2 * 24 * 3600) && 600 <= t < 3600
    ensures (t, w) !in f
  {
    hide Passed, SumIn, CountIn, Mean;
    PassIsPointwise(m, DEFAULT, 2 * 24 * 3600, t, w);
    CountPositive(m, w, t, 300);
  }
}
