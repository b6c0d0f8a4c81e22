/** What becomes of a sample over any sequence of retention passes. */
module RetentionRuns {
  import opened Retention

  // ---------- one bucket in one pass ----------

  /** A fold leaves a bucket of its range with one row at most: the mean, if it had any rows. */
  lemma BucketFolds(m: Samples, f: Samples, lo: int, hi: int, b: int, a: nat, w: string)
    requires b > 0 && Aligned(a, b) && Aligned(hi, b) && lo <= a < hi
    requires forall t: nat :: a <= t < a + b ==> FoldedAt(m, f, lo, hi, b, t, w)
    ensures Lone(f, w, a, b)
    ensures (a, w) in f <==> CountIn(m, w, a, b) > 0
    ensures (a, w) in f ==> f[(a, w)] == Mean(m, w, a, b)
  {
    hide CountIn, Mean, Aligned;
    AlignedApart(a, hi, b);
    assert FoldedAt(m, f, lo, hi, b, a, w);
    forall t: nat | a < t < a + b ensures (t, w) !in f {
      assert FoldedAt(m, f, lo, hi, b, t, w);
      if Aligned(t, b) {
        AlignedApart(a, t, b);
      }
    }
  }

  /** Same row at the start of a bucket that holds no other. */
  predicate SameRow(m: Samples, f: Samples, w: string, a: nat, n: nat) {
    && Lone(f, w, a, n)
    && ((a, w) in m <==> (a, w) in f) && ((a, w) in m ==> m[(a, w)] == f[(a, w)])
  }

  lemma HourFolds(m: Samples, p: Policy, now: int, g: nat, w: string)
    requires p.Valid() && Aligned(g, p.longBucket) && LongStart(p, now) <= g < HourEnd(p, now)
    ensures var f := Passed(m, p, now);
            && Lone(f, w, g, p.longBucket)
            && ((g, w) in f <==> CountIn(m, w, g, p.longBucket) > 0)
            && ((g, w) in f ==> f[(g, w)] == Mean(m, w, g, p.longBucket))
  {
    hide Passed, LongStart, HourEnd, MidStart, RawStart, FoldedAt, Aligned;
    Boundaries(p, now);
    AlignedApart(g, HourEnd(p, now), p.longBucket);
    var f := Passed(m, p, now);
    forall t: nat | g <= t < g + p.longBucket
      ensures FoldedAt(m, f, LongStart(p, now), HourEnd(p, now), p.longBucket, t, w)
    {
      PassIsPointwise(m, p, now, t, w);
    }
    BucketFolds(m, f, LongStart(p, now), HourEnd(p, now), p.longBucket, g, w);
  }

  lemma MidFolds(m: Samples, p: Policy, now: int, a: nat, w: string)
    requires p.Valid() && Aligned(a, p.midBucket) && MidStart(p, now) <= a < RawStart(p, now)
    ensures var f := Passed(m, p, now);
            && Lone(f, w, a, p.midBucket)
            && ((a, w) in f <==> CountIn(m, w, a, p.midBucket) > 0)
            && ((a, w) in f ==> f[(a, w)] == Mean(m, w, a, p.midBucket))
  {
    hide Passed, LongStart, HourEnd, MidStart, RawStart, FoldedAt, Aligned;
    Boundaries(p, now);
    AlignedApart(a, RawStart(p, now), p.midBucket);
    var f := Passed(m, p, now);
    forall t: nat | a <= t < a + p.midBucket
      ensures FoldedAt(m, f, MidStart(p, now), RawStart(p, now), p.midBucket, t, w)
    {
      PassIsPointwise(m, p, now, t, w);
    }
    BucketFolds(m, f, MidStart(p, now), RawStart(p, now), p.midBucket, a, w);
  }

  /** An hourly row survives a pass until it expires. */
  lemma HourStays(m: Samples, p: Policy, now: int, g: nat, w: string)
    requires p.Valid() && Aligned(g, p.longBucket) && LongStart(p, now) <= g < HourEnd(p, now)
    requires Lone(m, w, g, p.longBucket)
    ensures SameRow(m, Passed(m, p, now), w, g, p.longBucket)
  {
    hide Passed, LongStart, HourEnd, SumIn, CountIn, Mean, Aligned;
    HourFolds(m, p, now, g, w);
    LoneMean(m, w, g, p.longBucket);
  }

  /** A five-minute row survives a pass until its hour is folded. */
  lemma MidStays(m: Samples, p: Policy, now: int, a: nat, w: string)
    requires p.Valid() && Aligned(a, p.midBucket) && HourEnd(p, now) <= a < RawStart(p, now)
    requires Lone(m, w, a, p.midBucket)
    ensures SameRow(m, Passed(m, p, now), w, a, p.midBucket)
  {
    hide Passed, LongStart, HourEnd, MidStart, RawStart, SumIn, CountIn, Mean, Aligned;
    Boundaries(p, now);
    if a >= MidStart(p, now) {
      MidFolds(m, p, now, a, w);
      LoneMean(m, w, a, p.midBucket);
    } else {
      AlignedApart(a, MidStart(p, now), p.midBucket);
      var f := Passed(m, p, now);
      forall t: nat | a <= t < a + p.midBucket
        ensures ((t, w) in m <==> (t, w) in f) && ((t, w) in m ==> m[(t, w)] == f[(t, w)])
      {
        PassIsPointwise(m, p, now, t, w);
      }
    }
  }

  /** A second pass at the same time changes nothing. */
  lemma PassIdempotent(m: Samples, p: Policy, now: int)
    requires p.Valid()
    ensures Passed(Passed(m, p, now), p, now) == Passed(m, p, now)
  {
    hide Passed;
    var f := Passed(m, p, now);
    var ff := Passed(f, p, now);
    forall k: Key ensures (k in f <==> k in ff) && (k in f ==> f[k] == ff[k]) {
      SecondPassAt(m, p, now, k.0, k.1);
      assert k == (k.0, k.1);
    }
  }

  lemma SecondPassAt(m: Samples, p: Policy, now: int, t: nat, w: string)
    requires p.Valid()
    ensures var f := Passed(m, p, now); var ff := Passed(f, p, now);
            ((t, w) in f <==> (t, w) in ff) && ((t, w) in f ==> f[(t, w)] == ff[(t, w)])
  {
    hide Passed, LongStart, HourEnd, MidStart, RawStart, SumIn, CountIn, Mean, Aligned;
    Boundaries(p, now);
    var f := Passed(m, p, now);
    PassIsPointwise(m, p, now, t, w);
    PassIsPointwise(f, p, now, t, w);
    if LongStart(p, now) <= t < HourEnd(p, now) && Aligned(t, p.longBucket) {
      HourFolds(m, p, now, t, w);
      LoneMean(f, w, t, p.longBucket);
    } else if MidStart(p, now) <= t < RawStart(p, now) && Aligned(t, p.midBucket) {
      MidFolds(m, p, now, t, w);
      LoneMean(f, w, t, p.midBucket);
    }
  }

  // ---------- runs ----------

  /** Samples recorded, then a pass. */
  datatype Round = Round(added: Samples, now: int)

  function After(p: Policy, rounds: seq<Round>): Samples
    decreases |rounds|, 1
  {
    if rounds == [] then map[]
    else Passed(Before(p, rounds), p, rounds[|rounds| - 1].now)
  }

  /** What the last pass finds. */
  function Before(p: Policy, rounds: seq<Round>): Samples
    requires rounds != []
    decreases |rounds|, 0
  {
    After(p, rounds[..|rounds| - 1]) + rounds[|rounds| - 1].added
  }

  /** Time does not run backwards, and samples are recorded in the raw tier. */
  ghost predicate InOrder(p: Policy, rounds: seq<Round>) {
    && (forall i, j :: 0 <= i < j < |rounds| ==> rounds[i].now <= rounds[j].now)
    && forall i, k :: 0 < i < |rounds| && k in rounds[i].added ==> k.0 >= RawStart(p, rounds[i - 1].now)
  }

  /** Tier boundaries only move forward. */
  lemma BoundariesMove(p: Policy, s: int, t: int)
    requires p.Valid() && s <= t
    ensures LongStart(p, s) <= LongStart(p, t) && HourEnd(p, s) <= HourEnd(p, t)
    ensures MidStart(p, s) <= MidStart(p, t) && RawStart(p, s) <= RawStart(p, t)
  {
    AlignMonotone(s - p.long, t - p.long, p.longBucket);
    AlignMonotone(s - p.mid, t - p.mid, p.longBucket);
    AlignMonotone(s - p.mid, t - p.mid, p.midBucket);
    AlignMonotone(s - p.raw, t - p.raw, p.midBucket);
  }

  /** Once a time has left the raw tier nothing is recorded there: a bucket is complete when it is
      folded. */
  lemma NothingLate(p: Policy, rounds: seq<Round>, i: nat, j: nat, t: nat, w: string)
    requires p.Valid() && InOrder(p, rounds) && i < j < |rounds| && t < RawStart(p, rounds[i].now)
    ensures (t, w) !in rounds[j].added
  {
    hide RawStart, LongStart, HourEnd, MidStart;
    assert rounds[i].now <= rounds[j - 1].now;
    BoundariesMove(p, rounds[i].now, rounds[j - 1].now);
  }

  /** The state after pass `i`. */
  function At(p: Policy, rounds: seq<Round>, i: nat): Samples
    requires i < |rounds|
  {
    After(p, rounds[..i + 1])
  }

  /** What pass `i` found. */
  function Found(p: Policy, rounds: seq<Round>, i: nat): Samples
    requires i < |rounds|
  {
    Before(p, rounds[..i + 1])
  }

  lemma AtNext(p: Policy, rounds: seq<Round>, i: nat)
    requires i < |rounds|
    ensures At(p, rounds, i) == Passed(Found(p, rounds, i), p, rounds[i].now)
    ensures i > 0 ==> Found(p, rounds, i) == At(p, rounds, i - 1) + rounds[i].added
  {
    assert rounds[..i + 1][..i] == rounds[..i] && rounds[..i + 1][i] == rounds[i];
  }

  /** A complete five-minute bucket gets its mean when it first leaves the raw tier, and keeps it,
      alone, through every later pass until its hour is folded. */
  lemma {:induction false} MidKept(p: Policy, rounds: seq<Round>, i: nat, j: nat, a: nat, w: string)
    requires p.Valid() && InOrder(p, rounds) && i <= j < |rounds| && Aligned(a, p.midBucket)
    requires MidStart(p, rounds[i].now) <= a < RawStart(p, rounds[i].now) && HourEnd(p, rounds[j].now) <= a
    ensures Lone(At(p, rounds, j), w, a, p.midBucket)
    ensures (a, w) in At(p, rounds, j) <==> CountIn(Found(p, rounds, i), w, a, p.midBucket) > 0
    ensures (a, w) in At(p, rounds, j) ==> At(p, rounds, j)[(a, w)] == Mean(Found(p, rounds, i), w, a, p.midBucket)
  {
    hide LongStart, HourEnd, MidStart, RawStart, SumIn, CountIn, Mean, Aligned, Passed, At, Found;
    AtNext(p, rounds, j);
    if i == j {
      MidFolds(Found(p, rounds, i), p, rounds[i].now, a, w);
    } else {
      BoundariesMove(p, rounds[j - 1].now, rounds[j].now);
      BoundariesMove(p, rounds[i].now, rounds[j].now);
      MidKept(p, rounds, i, j - 1, a, w);
      BoundedByRaw(p, rounds[i].now, a);
      AddingAbove(p, rounds, i, j, a, p.midBucket, w);
      MidStays(Found(p, rounds, j), p, rounds[j].now, a, w);
    }
  }

  lemma BoundedByRaw(p: Policy, now: int, a: nat)
    requires p.Valid() && Aligned(a, p.midBucket) && a < RawStart(p, now)
    ensures a + p.midBucket <= RawStart(p, now)
  {
    Boundaries(p, now);
    AlignedApart(a, RawStart(p, now), p.midBucket);
  }

  lemma AddingAbove(p: Policy, rounds: seq<Round>, i: nat, j: nat, a: nat, n: int, w: string)
    requires p.Valid() && InOrder(p, rounds) && i < j < |rounds| && 0 < n && a + n <= RawStart(p, rounds[i].now)
    ensures SameIn(At(p, rounds, j - 1), Found(p, rounds, j), w, a, n)
  {
    hide LongStart, HourEnd, MidStart, RawStart, Passed, At, Found;
    AtNext(p, rounds, j);
    forall t: nat | a <= t < a + n ensures (t, w) !in rounds[j].added {
      NothingLate(p, rounds, i, j, t, w);
    }
  }

  /** A complete hour gets its mean when its last row leaves the middle tier, and keeps it, alone, until
      it expires; it is never split into finer rows again. */
  lemma {:induction false} HourKept(p: Policy, rounds: seq<Round>, i: nat, j: nat, g: nat, w: string)
    requires p.Valid() && InOrder(p, rounds) && i <= j < |rounds| && Aligned(g, p.longBucket)
    requires LongStart(p, rounds[i].now) <= g < HourEnd(p, rounds[i].now) && LongStart(p, rounds[j].now) <= g
    ensures Lone(At(p, rounds, j), w, g, p.longBucket)
    ensures (g, w) in At(p, rounds, j) <==> CountIn(Found(p, rounds, i), w, g, p.longBucket) > 0
    ensures (g, w) in At(p, rounds, j) ==> At(p, rounds, j)[(g, w)] == Mean(Found(p, rounds, i), w, g, p.longBucket)
  {
    hide LongStart, HourEnd, MidStart, RawStart, SumIn, CountIn, Mean, Aligned, Passed, At, Found;
    AtNext(p, rounds, j);
    if i == j {
      HourFolds(Found(p, rounds, i), p, rounds[i].now, g, w);
    } else {
      BoundariesMove(p, rounds[j - 1].now, rounds[j].now);
      BoundariesMove(p, rounds[i].now, rounds[j].now);
      HourKept(p, rounds, i, j - 1, g, w);
      Boundaries(p, rounds[i].now);
      AlignedApart(g, HourEnd(p, rounds[i].now), p.longBucket);
      AddingAbove(p, rounds, i, j, g, p.longBucket, w);
      HourStays(Found(p, rounds, j), p, rounds[j].now, g, w);
    }
  }

  /** Raw samples are untouched, and what is older than the long tier is gone. */
  lemma RawKeptOldGone(p: Policy, rounds: seq<Round>, j: nat, t: nat, w: string)
    requires p.Valid() && j < |rounds|
    ensures t >= RawStart(p, rounds[j].now) ==> SameIn(Found(p, rounds, j), At(p, rounds, j), w, t, 1)
    ensures t < LongStart(p, rounds[j].now) ==> (t, w) !in At(p, rounds, j)
  {
    hide LongStart, HourEnd, MidStart, RawStart, Passed, At, Found;
    AtNext(p, rounds, j);
    Boundaries(p, rounds[j].now);
    PassIsPointwise(Found(p, rounds, j), p, rounds[j].now, t, w);
  }
}
