/** When the difficulty must move and where to, and that a steady worker's reaches its optimum. */
module Retargeting {
  import opened Wrappers
  import opened Bytes
  import opened Vardiff

  // ---------- the optimum ----------

  lemma {:induction false} WorkAdds(a: seq<Share>, b: seq<Share>)
    ensures WorkOf(a + b) == WorkOf(a) + WorkOf(b)
    decreases |b|
  {
    if b == [] {
      assert a + b == a;
    } else {
      assert (a + b)[..|a + b| - 1] == a + b[..|b| - 1];
      WorkAdds(a, b[..|b| - 1]);
    }
  }

  /** The work of shares is the sum of their difficulties. */
  lemma {:induction false} EqualShares(shares: seq<Share>, difficulty: real)
    requires forall i :: 0 <= i < |shares| ==> shares[i].1 == difficulty
    ensures WorkOf(shares) == |shares| as real * difficulty
  {
    if shares != [] {
      EqualShares(shares[..|shares| - 1], difficulty);
    }
  }

  function Least(x: real, y: real): real {
    if x < y then x else y
  }

  function Most(x: real, y: real): real {
    if x < y then y else x
  }

  function Gap(x: real, y: real): real {
    Most(x, y) - Least(x, y)
  }

  /** Seconds the evidence covers: since the start, at most four retarget intervals, at least one. */
  function Covered(cfg: Config, started: real, now: real): real {
    Most(1.0, Least(Most(0.0, now - started), 4.0 * cfg.retargetSeconds))
  }

  /** At the optimum the work of the window, at one share per target interval, takes as long as it did. */
  lemma OptimumIs(cfg: Config, s: State, now: real)
    ensures Optimal(cfg, s, now) * Covered(cfg, s.started, now) == WorkOf(s.shares) * cfg.targetShareSeconds
  {
    hide WorkOf;
    var span := Covered(cfg, s.started, now);
    Scaled(WorkOf(s.shares), span, cfg.targetShareSeconds);
  }

  lemma Scaled(work: real, span: real, target: real)
    requires span >= 1.0
    ensures work / span * target * span == work * target
  {
    assert work / span * span == work;
    assert work / span * target * span == (work / span * span) * target;
  }

  lemma OneOptimum(x: real, y: real, span: real)
    requires span >= 1.0 && x * span == y * span
    ensures x == y
  {
    assert (x - y) * span == 0.0;
  }

  lemma OptimumFrom(cfg: Config, s: State, now: real, optimum: real)
    requires optimum * Covered(cfg, s.started, now) == WorkOf(s.shares) * cfg.targetShareSeconds
    ensures optimum == Optimal(cfg, s, now)
  {
    OptimumIs(cfg, s, now);
    CoveredAtLeast(cfg, s.started, now);
    hide Optimal, WorkOf, Covered;
    OneOptimum(optimum, Optimal(cfg, s, now), Covered(cfg, s.started, now));
  }

  lemma CoveredAtLeast(cfg: Config, started: real, now: real)
    ensures Covered(cfg, started, now) >= 1.0
  {
  }

  // ---------- the decision ----------

  /** Off by more than the allowed percentage. */
  predicate Off(cfg: Config, current: real, optimum: real) {
    Gap(optimum, current) * 100.0 > cfg.variancePercent * current
  }

  /** Too little of a difference to count. */
  predicate Alike(x: real, current: real) {
    Gap(x, current) * 1000000000.0 < current
  }

  lemma OffIs(cfg: Config, current: real, optimum: real)
    requires current > 0.0
    ensures WithinVariance(cfg, current, optimum) <==> !Off(cfg, current, optimum)
  {
    var d := (optimum - current) / current * 100.0;
    assert d * current == (optimum - current) * 100.0;
    Times(d, cfg.variancePercent, current);
    Times(-d, cfg.variancePercent, current);
  }

  lemma Times(x: real, y: real, c: real)
    requires c > 0.0
    ensures x <= y <==> x * c <= y * c
    ensures x < y <==> x * c < y * c
  {
    assert y * c - x * c == (y - x) * c;
  }

  lemma AlikeIs(x: real, current: real)
    requires current > 0.0
    ensures SameAs(x, current) <==> Alike(x, current)
  {
    var change := x - current;
    assert (if change < 0.0 then -change else change) == Gap(x, current);
    RatioBelow(Gap(x, current), current, 0.000000001);
  }

  lemma RatioBelow(gap: real, c: real, bound: real)
    requires c > 0.0
    ensures gap / c < bound <==> gap < bound * c
  {
    assert gap / c * c == gap;
    Times(gap / c, bound, c);
  }

  lemma RaisesIs(optimum: real, current: real)
    requires current > 0.0
    ensures optimum / current > 1.0 <==> optimum > current
  {
    assert optimum / current * current == optimum;
    Times(1.0, optimum / current, current);
  }

  /** Half to double the current difficulty, in the configured range. */
  function Reached(cfg: Config, current: real, optimum: real): real {
    Most(cfg.minDifficulty, Least(cfg.maxDifficulty, Most(current / 2.0, Least(current * 2.0, optimum))))
  }

  /** What every evaluation decides, given the shares of the last four intervals and the difficulty at
      which their work would have come at one share per target interval. Before an interval is over since
      the last change nothing happens; without shares the difficulty drops to a quarter; else it moves
      exactly if it is off by more than the variance, and up only on eight shares or more. */
  lemma DecisionIs(cfg: Config, s: State, now: real, current: real, optimum: real)
    requires cfg.Valid() && InRange(cfg, current)
    requires optimum * Covered(cfg, s.started, now)
          == WorkOf(Trimmed(s.shares, now, 4.0 * cfg.retargetSeconds)) * cfg.targetShareSeconds
    ensures var (t, d) := Evaluated(cfg, s, now, current);
            var kept := Trimmed(s.shares, now, 4.0 * cfg.retargetSeconds);
            var quarter, reached := Most(cfg.minDifficulty, current / 4.0), Reached(cfg, current, optimum);
            if now - s.lastChange < cfg.retargetSeconds then t == s && d == None
            else
              && t == State(kept, s.started, if d.Some? then now else s.lastChange)
              && (kept == [] ==> d == if Alike(quarter, current) then None else Some(quarter))
              && (kept != [] ==>
                    d == if && Off(cfg, current, optimum) && (optimum <= current || |kept| >= 8)
                            && !Alike(reached, current)
                         then Some(reached) else None)
  {
    var kept := Trimmed(s.shares, now, 4.0 * cfg.retargetSeconds);
    var t := s.(shares := kept);
    OptimumFrom(cfg, t, now, optimum);
    assert cfg.Window() == 4.0 * cfg.retargetSeconds;
    hide Optimal, WorkOf, Trimmed, Covered, Proposal, Off, Alike, Reached, Most;
    ProposalIs(cfg, |kept|, current, optimum);
  }

  /** The decision by the number of shares and the optimum. */
  lemma ProposalIs(cfg: Config, count: nat, current: real, optimum: real)
    requires cfg.Valid() && InRange(cfg, current)
    ensures var quarter, reached := Most(cfg.minDifficulty, current / 4.0), Reached(cfg, current, optimum);
            Proposal(cfg, count, current, optimum)
              == if count == 0 then if Alike(quarter, current) then None else Some(quarter)
                 else if && Off(cfg, current, optimum) && (optimum <= current || count >= 8)
                         && !Alike(reached, current)
                 then Some(reached) else None
  {
    OffIs(cfg, current, optimum);
    RaisesIs(optimum, current);
    ReachedIs(cfg, current, optimum);
    AlikeIs(cfg.Clamped(current * QUIET_STEP), current);
    AlikeIs(cfg.Clamped(Stepped(current, optimum)), current);
    hide WithinVariance, SameAs, Stepped, Off, Alike, Reached, Clamp;
  }

  lemma ReachedIs(cfg: Config, current: real, optimum: real)
    requires cfg.Valid() && InRange(cfg, current)
    ensures cfg.Clamped(Stepped(current, optimum)) == Reached(cfg, current, optimum)
    ensures cfg.Clamped(current * QUIET_STEP) == Most(cfg.minDifficulty, current / 4.0)
  {
    SteppedIsClamp(current, optimum);
    hide Stepped;
  }

  /** With eight shares or more the difficulty must go to an optimum in range that it is off, as far as
      a factor of two. */
  lemma MustMove(cfg: Config, s: State, now: real, current: real, optimum: real)
    requires cfg.Valid() && InRange(cfg, current) && InRange(cfg, optimum)
    requires optimum * Covered(cfg, s.started, now)
          == WorkOf(Trimmed(s.shares, now, 4.0 * cfg.retargetSeconds)) * cfg.targetShareSeconds
    requires now - s.lastChange >= cfg.retargetSeconds
    requires |Trimmed(s.shares, now, 4.0 * cfg.retargetSeconds)| >= 8
    requires Off(cfg, current, optimum) && !Alike(optimum, current)
    ensures Evaluated(cfg, s, now, current).1
         == Some(if optimum < current / 2.0 then current / 2.0
                 else if optimum > current * 2.0 then current * 2.0
                 else optimum)
  {
    hide Trimmed, WorkOf, Covered, Evaluated, Off;
    DecisionIs(cfg, s, now, current, optimum);
  }

  /** On fewer shares it never goes up. */
  lemma FewNeverRaise(cfg: Config, s: State, now: real, current: real)
    requires cfg.Valid() && InRange(cfg, current)
    requires |Trimmed(s.shares, now, 4.0 * cfg.retargetSeconds)| < 8
    ensures var d := Evaluated(cfg, s, now, current).1; d.Some? ==> d.value < current
  {
    var t := s.(shares := Trimmed(s.shares, now, 4.0 * cfg.retargetSeconds));
    OptimumIs(cfg, t, now);
    hide Trimmed, WorkOf, Covered, Evaluated, Off, Optimal;
    DecisionIs(cfg, s, now, current, Optimal(cfg, t, now));
  }

  /** A worker that sends twice the shares it should, or more, over a full window, has its difficulty
      doubled. */
  lemma TooManyShares(cfg: Config, s: State, now: real, current: real)
    requires cfg.Valid() && cfg.minDifficulty <= current && current * 2.0 <= cfg.maxDifficulty
    requires cfg.variancePercent < 100.0 && 4.0 * cfg.retargetSeconds >= 1.0
    requires now - s.started >= 4.0 * cfg.retargetSeconds && now - s.lastChange >= cfg.retargetSeconds
    requires var kept := Trimmed(s.shares, now, 4.0 * cfg.retargetSeconds);
             && |kept| >= 8 && (forall i :: 0 <= i < |kept| ==> kept[i].1 == current)
             && |kept| as real * cfg.targetShareSeconds >= 2.0 * (4.0 * cfg.retargetSeconds)
    ensures Evaluated(cfg, s, now, current).1 == Some(current * 2.0)
  {
    hide *;
    var kept := Trimmed(s.shares, now, 4.0 * cfg.retargetSeconds);
    var t := s.(shares := kept);
    OptimumIs(cfg, t, now);
    FullWindow(cfg, s.started, now);
    EqualShares(kept, current);
    var optimum := Optimal(cfg, t, now);
    Lowest(cfg, current);
    TwiceOver(|kept| as real, cfg.targetShareSeconds, 4.0 * cfg.retargetSeconds, current, optimum);
    FarOff(cfg, current, optimum);
    DoubledIs(cfg, current, optimum);
    DecisionIs(cfg, s, now, current, optimum);
  }

  lemma FullWindow(cfg: Config, started: real, now: real)
    requires now - started >= 4.0 * cfg.retargetSeconds >= 1.0
    ensures Covered(cfg, started, now) == 4.0 * cfg.retargetSeconds
  {
  }

  lemma Lowest(cfg: Config, current: real)
    requires cfg.Valid() && cfg.minDifficulty <= current && current * 2.0 <= cfg.maxDifficulty
    ensures current > 0.0 && InRange(cfg, current) && cfg.retargetSeconds > 0.0
  {
  }

  lemma TwiceOver(n: real, target: real, window: real, current: real, optimum: real)
    requires window >= 1.0 && current > 0.0 && n * target >= 2.0 * window && optimum * window == n * current * target
    ensures optimum >= 2.0 * current
  {
    assert n * current * target == n * target * current;
    MulMonotone(2.0 * window, n * target, current);
    assert 2.0 * window * current == 2.0 * current * window;
    Times(2.0 * current, optimum, window);
  }

  lemma DoubledIs(cfg: Config, current: real, optimum: real)
    requires cfg.Valid() && cfg.minDifficulty <= current && current * 2.0 <= cfg.maxDifficulty
    requires optimum >= 2.0 * current
    ensures Reached(cfg, current, optimum) == current * 2.0
    ensures !Alike(current * 2.0, current)
  {
  }

  lemma FarOff(cfg: Config, current: real, optimum: real)
    requires current > 0.0 && optimum >= 2.0 * current && cfg.variancePercent < 100.0
    ensures Off(cfg, current, optimum)
  {
    var v := cfg.variancePercent;
    assert Gap(optimum, current) >= current;
    assert (100.0 - v) * current > 0.0 by {
      Times(0.0, 100.0 - v, current);
    }
    assert (100.0 - v) * current == 100.0 * current - v * current;
  }

  lemma MulMonotone(x: real, y: real, c: real)
    requires x <= y && c > 0.0
    ensures x * c <= y * c
  {
    Times(x, y, c);
  }

  // ---------- runs ----------

  /** The difficulty a run ends with, when every change is followed. */
  function Final(cfg: Config, s: State, ops: seq<Op>, current: real): real
    requires Callable(ops)
    decreases |ops|
  {
    if ops == [] then current
    else
      var (t, d) := Apply(cfg, s, ops[0]);
      Final(cfg, t, ops[1..], if d.Some? then d.value else current)
  }

  /** How many of its evaluations come after the interval since the last change is over. */
  function Decisions(cfg: Config, s: State, ops: seq<Op>): nat
    requires Callable(ops)
    decreases |ops|
  {
    if ops == [] then 0
    else
      (if ops[0].Evaluate? && ops[0].now - s.lastChange >= cfg.retargetSeconds then 1 else 0)
      + Decisions(cfg, Apply(cfg, s, ops[0]).0, ops[1..])
  }

  /** As near to the optimum as the decision can tell. */
  predicate Near(cfg: Config, current: real, optimum: real) {
    !Off(cfg, current, optimum) || Alike(optimum, current)
  }

  /** A decision on enough shares to leave the difficulty alone means that it is near. */
  lemma LeftAloneIsNear(cfg: Config, count: nat, current: real, optimal: real)
    requires cfg.Valid() && InRange(cfg, current) && InRange(cfg, optimal) && count >= MIN_SHARES_TO_RAISE
    ensures Proposal(cfg, count, current, optimal).None? ==> Near(cfg, current, optimal)
    ensures current == optimal ==> Proposal(cfg, count, current, optimal).None?
  {
    OffIs(cfg, current, optimal);
    SteppedIsClamp(current, optimal);
    AlikeIs(cfg.Clamped(Stepped(current, optimal)), current);
    hide WithinVariance, SameAs, Stepped, Off;
  }

  /** One decision of a steady run, on its own. */
  lemma SteadyDecides(cfg: Config, s: State, ops: seq<Op>, current: real, optimal: real) returns (count: nat)
    requires cfg.Valid() && current > 0.0 && Callable(ops) && Steady(cfg, s, ops, current, optimal)
    requires ops != [] && ops[0].Evaluate? && Since(ops[0].now, s.lastChange) >= cfg.retargetSeconds
    ensures count >= MIN_SHARES_TO_RAISE
    ensures Apply(cfg, s, ops[0]).1 == Proposal(cfg, count, current, optimal)
  {
    hide Proposal, Optimal, Trimmed;
    count := |Trimmed(s.shares, ops[0].now, cfg.Window())|;
  }

  lemma SteadyGoesOn(cfg: Config, s: State, ops: seq<Op>, current: real, optimal: real)
    requires cfg.Valid() && current > 0.0 && Callable(ops) && Steady(cfg, s, ops, current, optimal) && ops != []
    ensures Callable(ops[1..])
    ensures var (t, d) := Apply(cfg, s, ops[0]);
            && (d.Some? ==> d.value > 0.0)
            && Steady(cfg, t, ops[1..], if d.Some? then d.value else current, optimal)
            && (d.Some? ==> ops[0].Evaluate? && Since(ops[0].now, s.lastChange) >= cfg.retargetSeconds)
  {
    hide Proposal, Optimal, Trimmed, EnoughAt;
    assert forall i :: 0 <= i < |ops| - 1 ==> ops[1..][i] == ops[i + 1];
  }

  /** Once left alone, the difficulty of a steady run is never changed. */
  lemma {:induction false} StaysPut(cfg: Config, s: State, ops: seq<Op>, current: real, optimal: real)
    requires cfg.Valid() && InRange(cfg, current) && InRange(cfg, optimal)
    requires Callable(ops) && Steady(cfg, s, ops, current, optimal)
    requires Proposal(cfg, MIN_SHARES_TO_RAISE, current, optimal).None?
    ensures Final(cfg, s, ops, current) == current
    decreases |ops|
  {
    hide Steady, Apply, Proposal, InRange;
    if ops != [] {
      Positive(cfg, current);
      SteadyGoesOn(cfg, s, ops, current, optimal);
      var (t, d) := Apply(cfg, s, ops[0]);
      if ops[0].Evaluate? && Since(ops[0].now, s.lastChange) >= cfg.retargetSeconds {
        var count := SteadyDecides(cfg, s, ops, current, optimal);
        EnoughIsEnough(cfg, count, current, optimal);
      }
      StaysPut(cfg, t, ops[1..], current, optimal);
    }
  }

  lemma Positive(cfg: Config, current: real)
    requires cfg.Valid() && InRange(cfg, current)
    ensures current > 0.0
  {
  }

  /** Over every run of shares and evaluations with a steady optimum in range: from a ratio of at most 2^k
      either way, k evaluations after their interval bring the difficulty near the optimum, and there it
      is when the run ends. */
  lemma {:induction false} RunReaches(cfg: Config, s: State, ops: seq<Op>, current: real, optimal: real, k: nat)
    requires cfg.Valid() && InRange(cfg, current) && InRange(cfg, optimal)
    requires Callable(ops) && Steady(cfg, s, ops, current, optimal)
    requires optimal <= current * Pow2(k) as real && current <= optimal * Pow2(k) as real
    requires Decisions(cfg, s, ops) >= k
    ensures Near(cfg, Final(cfg, s, ops, current), optimal)
    decreases |ops|
  {
    hide Steady, Apply, Proposal, Near, Pow2;
    LeftAloneIsNear(cfg, MIN_SHARES_TO_RAISE, current, optimal);
    if Proposal(cfg, MIN_SHARES_TO_RAISE, current, optimal).None? {
      StaysPut(cfg, s, ops, current, optimal);
    } else {
      StepShrinks(current, optimal, k);
      SteadyGoesOn(cfg, s, ops, current, optimal);
      var (t, d) := Apply(cfg, s, ops[0]);
      if ops[0].Evaluate? && Since(ops[0].now, s.lastChange) >= cfg.retargetSeconds {
        var count := SteadyDecides(cfg, s, ops, current, optimal);
        EnoughIsEnough(cfg, count, current, optimal);
        ProposalStep(cfg, count, current, optimal);
        RunReaches(cfg, t, ops[1..], d.value, optimal, k - 1);
      } else {
        RunReaches(cfg, t, ops[1..], current, optimal, k);
      }
    }
  }
}
