/** Downsampling of hashrate samples: raw, then five-minute, then hourly rows. */
module Retention {

  /** Tiers in seconds. */
  datatype Policy = Policy(raw: nat, mid: nat, long: nat, midBucket: int, longBucket: int) {
    /** The tiers nest and an hour is a whole number of five-minute buckets. */
    predicate Valid() {
      raw <= mid <= long && midBucket > 0 && longBucket > 0 && longBucket % midBucket == 0
    }
  }

  const DEFAULT := Policy(24 * 3600, 7 * 24 * 3600, 30 * 24 * 3600, 300, 3600)

  lemma DefaultIsValid()
    ensures DEFAULT.Valid()
  {
  }

  /** A sample's time and worker. */
  type Key = (nat, string)

  type Samples = map<Key, real>

  // ---------- alignment ----------

  function AlignDown(t: int, bucket: int): int {
    if bucket <= 0 then t else t / bucket * bucket
  }

  predicate Aligned(t: int, bucket: int)
    requires bucket > 0
  {
    t % bucket == 0
  }

  lemma AlignLaws(t: int, b: int)
    requires b > 0
    ensures AlignDown(t, b) <= t < AlignDown(t, b) + b && Aligned(AlignDown(t, b), b)
    ensures t >= 0 ==> AlignDown(t, b) >= 0
  {
    MultipleAligned(t / b, b);
    if t >= 0 {
      assert t / b >= 0;
    }
  }

  lemma MultipleAligned(k: int, b: int)
    requires b > 0
    ensures Aligned(k * b, b)
  {
    var r := (k * b) % b;
    assert k * b == b * ((k * b) / b) + r;
    OnlyMultiple(k - (k * b) / b, r, b);
  }

  lemma OnlyMultiple(k: int, r: int, b: int)
    requires 0 <= r < b && k * b == r
    ensures r == 0 && k == 0
  {
    TimesOrdered(1, k, b);
    TimesOrdered(k, -1, b);
  }

  lemma TimesOrdered(i: int, j: int, b: int)
    requires b > 0
    ensures i <= j ==> i * b <= j * b
  {
    if i <= j {
      assert (j - i) * b >= 0;
    }
  }

  /** Aligned times are at least a bucket apart. */
  lemma AlignedApart(a: int, c: int, b: int)
    requires b > 0 && Aligned(a, b) && Aligned(c, b) && a < c
    ensures a + b <= c
  {
    var i, j := a / b, c / b;
    assert a == i * b && c == j * b;
    TimesOrdered(i + 1, j, b);
    TimesOrdered(j, i, b);
  }

  lemma AlignUnique(t: int, a: int, b: int)
    requires b > 0 && Aligned(a, b) && a <= t < a + b
    ensures AlignDown(t, b) == a
  {
    AlignLaws(t, b);
    hide AlignDown;
    if a < AlignDown(t, b) {
      AlignedApart(a, AlignDown(t, b), b);
    } else if AlignDown(t, b) < a {
      AlignedApart(AlignDown(t, b), a, b);
    }
  }

  lemma AlignMonotone(s: int, t: int, b: int)
    requires b > 0 && s <= t
    ensures AlignDown(s, b) <= AlignDown(t, b)
  {
    AlignLaws(s, b);
    AlignLaws(t, b);
    hide AlignDown;
    if AlignDown(t, b) < AlignDown(s, b) {
      AlignedApart(AlignDown(t, b), AlignDown(s, b), b);
    }
  }

  lemma CoarseIsFine(a: int, fine: int, coarse: int)
    requires fine > 0 && coarse > 0 && coarse % fine == 0 && Aligned(a, coarse)
    ensures Aligned(a, fine)
  {
    var k, n := a / coarse, coarse / fine;
    assert a == k * coarse && coarse == n * fine;
    assert k * (n * fine) == (k * n) * fine;
    MultipleAligned(k * n, fine);
  }

  // ---------- means ----------

  function SumIn(m: Samples, w: string, a: nat, n: nat): real {
    if n == 0 then 0.0
    else SumIn(m, w, a, n - 1) + (if (a + n - 1, w) in m then m[(a + n - 1, w)] else 0.0)
  }

  function CountIn(m: Samples, w: string, a: nat, n: nat): nat {
    if n == 0 then 0 else CountIn(m, w, a, n - 1) + (if (a + n - 1, w) in m then 1 else 0)
  }

  /** SQL's AVG over the worker's samples in `[a, a + n)`. */
  function Mean(m: Samples, w: string, a: nat, n: nat): real {
    var c := CountIn(m, w, a, n);
    if c == 0 then 0.0 else SumIn(m, w, a, n) / c as real
  }

  lemma {:induction false} CountPositive(m: Samples, w: string, a: nat, n: nat)
    ensures CountIn(m, w, a, n) > 0 <==> exists t: nat :: a <= t < a + n && (t, w) in m
  {
    if n > 0 {
      CountPositive(m, w, a, n - 1);
    }
  }

  predicate SameIn(m: Samples, o: Samples, w: string, a: nat, n: nat) {
    forall t: nat :: a <= t < a + n ==> ((t, w) in m <==> (t, w) in o) && ((t, w) in m ==> m[(t, w)] == o[(t, w)])
  }

  lemma {:induction false} SameMeans(m: Samples, o: Samples, w: string, a: nat, n: nat)
    requires SameIn(m, o, w, a, n)
    ensures SumIn(m, w, a, n) == SumIn(o, w, a, n) && CountIn(m, w, a, n) == CountIn(o, w, a, n)
    ensures Mean(m, w, a, n) == Mean(o, w, a, n)
  {
    if n > 0 {
      SameMeans(m, o, w, a, n - 1);
    }
  }

  /** At most one row in the range, at its start. */
  predicate Lone(m: Samples, w: string, a: nat, n: nat) {
    forall t: nat :: a < t < a + n ==> (t, w) !in m
  }

  lemma {:induction false} LoneMean(m: Samples, w: string, a: nat, n: nat)
    requires n > 0 && Lone(m, w, a, n)
    ensures CountIn(m, w, a, n) == (if (a, w) in m then 1 else 0)
    ensures (a, w) in m ==> SumIn(m, w, a, n) == m[(a, w)] && Mean(m, w, a, n) == m[(a, w)]
  {
    if n == 1 {
      assert CountIn(m, w, a, 0) == 0 && SumIn(m, w, a, 0) == 0.0;
    } else {
      LoneMean(m, w, a, n - 1);
    }
  }

  // ---------- one fold ----------

  predicate InRange(k: Key, lo: int, hi: int) {
    lo <= k.0 < hi
  }

  function BucketKey(k: Key, bucket: int): Key {
    AlignNat(k.0, bucket);
    (AlignDown(k.0, bucket), k.1)
  }

  lemma AlignNat(t: nat, b: int)
    ensures AlignDown(t, b) >= 0
  {
    if b > 0 {
      AlignLaws(t, b);
    }
  }

  function FoldedKeys(m: Samples, lo: int, hi: int, bucket: int): set<Key> {
    (set k | k in m.Keys && !InRange(k, lo, hi)) + (set k | k in m.Keys && InRange(k, lo, hi) :: BucketKey(k, bucket))
  }

  /** Every bucket of `[lo, hi)` replaced by its mean. */
  function Folded(m: Samples, lo: int, hi: int, bucket: int): Samples {
    if hi <= lo || bucket <= 0 then m
    else
      map k | k in FoldedKeys(m, lo, hi, bucket) ::
        if InRange(k, lo, hi) then Mean(m, k.1, k.0, bucket) else if k in m then m[k] else 0.0
  }

  /** What a fold leaves at one time: outside the range what was there, inside a bucket's mean at
      its start and nothing elsewhere. */
  ghost predicate FoldedAt(m: Samples, f: Samples, lo: int, hi: int, bucket: int, t: nat, w: string)
    requires bucket > 0
  {
    if lo <= t < hi then
      && ((t, w) in f <==> Aligned(t, bucket) && CountIn(m, w, t, bucket) > 0)
      && ((t, w) in f ==> f[(t, w)] == Mean(m, w, t, bucket))
    else
      && ((t, w) in f <==> (t, w) in m)
      && ((t, w) in f ==> f[(t, w)] == m[(t, w)])
  }

  lemma FoldIsPointwise(m: Samples, lo: int, hi: int, bucket: int, t: nat, w: string)
    requires bucket > 0 && Aligned(lo, bucket) && Aligned(hi, bucket)
    ensures FoldedAt(m, Folded(m, lo, hi, bucket), lo, hi, bucket, t, w)
  {
    hide AlignDown, SumIn, Mean, Aligned;
    if lo < hi {
      BucketsInRange(m, lo, hi, bucket);
      if InRange((t, w), lo, hi) {
        CountPositive(m, w, t, bucket);
        GroupsInRange(m, lo, hi, bucket, t, w);
      }
    }
  }

  /** Bucket starts of times in the range are in the range. */
  lemma BucketsInRange(m: Samples, lo: int, hi: int, bucket: int)
    requires bucket > 0 && Aligned(lo, bucket) && lo < hi
    ensures forall k :: k in m && InRange(k, lo, hi) ==>
        InRange(BucketKey(k, bucket), lo, hi) && Aligned(BucketKey(k, bucket).0, bucket)
  {
    forall k | k in m && InRange(k, lo, hi)
      ensures InRange(BucketKey(k, bucket), lo, hi) && Aligned(BucketKey(k, bucket).0, bucket)
    {
      AlignLaws(k.0, bucket);
      AlignMonotone(lo, k.0, bucket);
      AlignUnique(lo, lo, bucket);
    }
  }

  lemma GroupsInRange(m: Samples, lo: int, hi: int, bucket: int, t: nat, w: string)
    requires bucket > 0 && Aligned(lo, bucket) && Aligned(hi, bucket) && lo <= t < hi
    ensures (exists k :: k in m && InRange(k, lo, hi) && BucketKey(k, bucket) == (t, w))
       <==> Aligned(t, bucket) && exists u: nat :: t <= u < t + bucket && (u, w) in m
  {
    if k :| k in m && InRange(k, lo, hi) && BucketKey(k, bucket) == (t, w) {
      AlignLaws(k.0, bucket);
      assert t <= k.0 < t + bucket && (k.0, w) in m;
    }
    if Aligned(t, bucket) {
      AlignedApart(t, hi, bucket);
      forall u: nat | t <= u < t + bucket && (u, w) in m
        ensures (u, w) in m && InRange((u, w), lo, hi) && BucketKey((u, w), bucket) == (t, w)
      {
        AlignUnique(u, t, bucket);
      }
    }
  }

  // ---------- a pass ----------

  function LongStart(p: Policy, now: int): int { AlignDown(now - p.long, p.longBucket) }
  function HourEnd(p: Policy, now: int): int { AlignDown(now - p.mid, p.longBucket) }
  function MidStart(p: Policy, now: int): int { AlignDown(now - p.mid, p.midBucket) }
  function RawStart(p: Policy, now: int): int { AlignDown(now - p.raw, p.midBucket) }

  function Unexpired(m: Samples, start: int): Samples {
    map k | k in m && k.0 >= start :: m[k]
  }

  function Passed(m: Samples, p: Policy, now: int): Samples {
    Unexpired(Folded(Folded(m, LongStart(p, now), HourEnd(p, now), p.longBucket),
                     MidStart(p, now), RawStart(p, now), p.midBucket), LongStart(p, now))
  }

  /** The boundaries of a pass come in order. */
  lemma Boundaries(p: Policy, now: int)
    requires p.Valid()
    ensures LongStart(p, now) <= HourEnd(p, now) <= MidStart(p, now) <= RawStart(p, now)
    ensures Aligned(LongStart(p, now), p.longBucket) && Aligned(HourEnd(p, now), p.longBucket)
    ensures Aligned(MidStart(p, now), p.midBucket) && Aligned(RawStart(p, now), p.midBucket)
  {
    AlignMonotone(now - p.long, now - p.mid, p.longBucket);
    AlignMonotone(now - p.mid, now - p.raw, p.midBucket);
    AlignLaws(now - p.long, p.longBucket);
    AlignLaws(now - p.mid, p.longBucket);
    AlignLaws(now - p.mid, p.midBucket);
    AlignLaws(now - p.raw, p.midBucket);
    CoarseIsFine(HourEnd(p, now), p.midBucket, p.longBucket);
    AlignMonotone(HourEnd(p, now), now - p.mid, p.midBucket);
    AlignUnique(HourEnd(p, now), HourEnd(p, now), p.midBucket);
  }

  /** What a pass leaves at one time. */
  ghost predicate PassedAt(m: Samples, f: Samples, p: Policy, now: int, t: nat, w: string)
    requires p.Valid()
  {
    if t < LongStart(p, now) then (t, w) !in f
    else if t < HourEnd(p, now) then FoldedAt(m, f, LongStart(p, now), HourEnd(p, now), p.longBucket, t, w)
    else FoldedAt(m, f, MidStart(p, now), RawStart(p, now), p.midBucket, t, w)
  }

  /** A pass expires what is older than the long tier, folds complete hours and complete five-minute
      buckets of their tiers, and leaves the rest, straddling buckets included, as it was. */
  lemma PassIsPointwise(m: Samples, p: Policy, now: int, t: nat, w: string)
    requires p.Valid()
    ensures PassedAt(m, Passed(m, p, now), p, now, t, w)
  {
    hide AlignDown, Folded, SumIn, CountIn, Mean, Aligned, LongStart, HourEnd, MidStart, RawStart;
    Boundaries(p, now);
    var l, h, a, r := LongStart(p, now), HourEnd(p, now), MidStart(p, now), RawStart(p, now);
    var f := Folded(m, l, h, p.longBucket);
    FoldIsPointwise(m, l, h, p.longBucket, t, w);
    FoldIsPointwise(f, a, r, p.midBucket, t, w);
    if a <= t < r {
      forall u: nat | t <= u < t + p.midBucket
        ensures ((u, w) in m <==> (u, w) in f) && ((u, w) in m ==> m[(u, w)] == f[(u, w)])
      {
        FoldIsPointwise(m, l, h, p.longBucket, u, w);
      }
      SameMeans(m, f, w, t, p.midBucket);
    }
  }

  // ---------- the table ----------

  function Dropped(m: Samples, lo: int, hi: int, bucket: int): Samples
    requires bucket > 0
  {
    map k | k in m && !(InRange(k, lo, hi) && !Aligned(k.0, bucket)) :: m[k]
  }

  /** Writing the means over the table and dropping unaligned rows is a fold. */
  lemma UpsertThenDrop(m: Samples, means: Samples, lo: int, hi: int, bucket: int)
    requires lo < hi && bucket > 0 && Aligned(lo, bucket) && Aligned(hi, bucket)
    requires forall k :: k in means <==> exists u :: u in m.Keys && InRange(u, lo, hi) && BucketKey(u, bucket) == k
    requires forall k :: k in means ==> means[k] == Mean(m, k.1, k.0, bucket)
    ensures Dropped(m + means, lo, hi, bucket) == Folded(m, lo, hi, bucket)
  {
    hide AlignDown, Mean, Aligned, BucketKey, InRange;
    BucketsInRange(m, lo, hi, bucket);
    AlignedKeysAreMeans(m, lo, hi, bucket);
    MeansInRange(m, means, lo, hi, bucket);
    var d, f := Dropped(m + means, lo, hi, bucket), Folded(m, lo, hi, bucket);
    forall k: Key ensures (k in d <==> k in f) && (k in d ==> d[k] == f[k]) {
      KeyFolds(m, means, lo, hi, bucket, k);
    }
  }

  lemma MeansInRange(m: Samples, means: Samples, lo: int, hi: int, bucket: int)
    requires bucket > 0
    requires forall k :: k in means <==> exists u :: u in m.Keys && InRange(u, lo, hi) && BucketKey(u, bucket) == k
    requires forall u :: u in m && InRange(u, lo, hi) ==>
        InRange(BucketKey(u, bucket), lo, hi) && Aligned(BucketKey(u, bucket).0, bucket)
    ensures forall k :: k in means ==> InRange(k, lo, hi) && Aligned(k.0, bucket)
  {
    hide AlignDown, Aligned, BucketKey, InRange;
  }

  lemma KeyFolds(m: Samples, means: Samples, lo: int, hi: int, bucket: int, k: Key)
    requires bucket > 0
    requires forall k :: k in means <==> exists u :: u in m.Keys && InRange(u, lo, hi) && BucketKey(u, bucket) == k
    requires forall u :: u in m && InRange(u, lo, hi) ==> InRange(BucketKey(u, bucket), lo, hi)
    ensures k in FoldedKeys(m, lo, hi, bucket) <==> k in means || (k in m && !InRange(k, lo, hi))
  {
    hide AlignDown, Aligned, BucketKey, InRange;
  }

  class SampleTable {
    var rows: Samples

    constructor ()
      ensures rows == map[]
    {
      rows := map[];
    }

    /** Write every bucket's mean, then drop the rows that are not at a bucket's start. */
    method DownsampleRange(lo: int, hi: int, bucket: int)
      requires bucket > 0 ==> Aligned(lo, bucket) && Aligned(hi, bucket)
      modifies this
      ensures rows == Folded(old(rows), lo, hi, bucket)
    {
      hide AlignDown, Mean, Aligned, BucketKey, InRange, Dropped, FoldedKeys;
      if hi <= lo || bucket <= 0 {
        return;
      }
      var means := BucketMeans(lo, hi, bucket);
      UpsertThenDrop(rows, means, lo, hi, bucket);
      rows := rows + means;
      rows := Dropped(rows, lo, hi, bucket);
    }

    /** The grouped averages, by worker and bucket. */
    method BucketMeans(lo: int, hi: int, bucket: int) returns (means: Samples)
      requires bucket > 0
      ensures forall k :: k in means <==> exists u :: u in rows.Keys && InRange(u, lo, hi) && BucketKey(u, bucket) == k
      ensures forall k :: k in means ==> means[k] == Mean(rows, k.1, k.0, bucket)
    {
      hide AlignDown, Mean, Aligned, BucketKey;
      means := map[];
      var left := set k | k in rows.Keys && InRange(k, lo, hi);
      ghost var all := left;
      while left != {}
        invariant left <= all
        invariant forall k :: k in means <==> exists u :: u in all - left && BucketKey(u, bucket) == k
        invariant forall k :: k in means ==> means[k] == Mean(rows, k.1, k.0, bucket)
        decreases left
      {
        var k :| k in left;
        var start := BucketKey(k, bucket);
        means := means[start := Mean(rows, start.1, start.0, bucket)];
        left := left - {k};
      }
    }

    method Retain(p: Policy, now: int)
      requires p.Valid()
      modifies this
      ensures rows == Passed(old(rows), p, now)
    {
      Boundaries(p, now);
      var longStart := AlignDown(now - p.long, p.longBucket);
      var midStart := now - p.mid;
      var rawStart := now - p.raw;
      DownsampleRange(longStart, AlignDown(midStart, p.longBucket), p.longBucket);
      DownsampleRange(AlignDown(midStart, p.midBucket), AlignDown(rawStart, p.midBucket), p.midBucket);
      rows := map k | k in rows && !(k.0 < longStart) :: rows[k];
    }
  }

  /** A row already at its bucket's start is one of the means written. */
  lemma AlignedKeysAreMeans(m: Samples, lo: int, hi: int, bucket: int)
    requires bucket > 0
    ensures forall k :: k in m && InRange(k, lo, hi) && Aligned(k.0, bucket) ==> BucketKey(k, bucket) == k
  {
    forall k | k in m && InRange(k, lo, hi) && Aligned(k.0, bucket) ensures BucketKey(k, bucket) == k {
      AlignUnique(k.0, k.0, bucket);
    }
  }
}
