/** Variable difficulty: keep each worker near one share per `targetShareSeconds`. Times and
    difficulties are reals; a duration since a later instant is zero. */
module Vardiff {
  import opened Wrappers
  import opened Bytes

  datatype Config = Config(
    initialDifficulty: real, minDifficulty: real, maxDifficulty: real,
    targetShareSeconds: real, retargetSeconds: real, variancePercent: real)
  {
    /** The checks of `VardiffConfig::validate`. */
    predicate Valid() {
      && 0.0 < minDifficulty <= maxDifficulty
      && minDifficulty <= initialDifficulty <= maxDifficulty
      && targetShareSeconds > 0.0 && retargetSeconds > 0.0
    }

    function Window(): real {
      retargetSeconds * 4.0
    }

    function Clamped(difficulty: real): real {
      Clamp(difficulty, minDifficulty, maxDifficulty)
    }
  }

  const MAX_STEP := 2.0
  const QUIET_STEP := 0.25
  const MIN_SHARES_TO_RAISE := 8
  const MAX_WINDOW_SHARES := 512

  /** When an accepted share arrived and the difficulty of its job. */
  type Share = (real, real)

  datatype State = State(shares: seq<Share>, started: real, lastChange: real)

  function Clamp(x: real, lo: real, hi: real): real {
    if x < lo then lo else if x > hi then hi else x
  }

  function Since(now: real, t: real): real {
    if now < t then 0.0 else now - t
  }

  // ---------- the window ----------

  /** Drop shares from the front while they are older than the window. */
  function Trimmed(shares: seq<Share>, now: real, window: real): (r: seq<Share>)
    ensures |r| <= |shares|
  {
    if shares != [] && Since(now, shares[0].0) > window then Trimmed(shares[1..], now, window) else shares
  }

  /** The last shares, at most as many as are remembered. */
  function Last(shares: seq<Share>): (r: seq<Share>)
    ensures |r| <= MAX_WINDOW_SHARES
  {
    if |shares| > MAX_WINDOW_SHARES then shares[|shares| - MAX_WINDOW_SHARES..] else shares
  }

  function Recorded(cfg: Config, s: State, now: real, difficulty: real): State {
    s.(shares := Trimmed(Last(s.shares + [(now, difficulty)]), now, cfg.Window()))
  }

  // ---------- the decision ----------

  function WorkOf(shares: seq<Share>): real {
    if shares == [] then 0.0 else WorkOf(shares[..|shares| - 1]) + shares[|shares| - 1].1
  }

  /** The difficulty at which the work rate of the window gives one share per target interval. */
  function Optimal(cfg: Config, s: State, now: real): real {
    var elapsed := Since(now, s.started);
    var covered := if elapsed < cfg.Window() then elapsed else cfg.Window();
    var span := if covered < 1.0 then 1.0 else covered;
    WorkOf(s.shares) / span * cfg.targetShareSeconds
  }

  predicate WithinVariance(cfg: Config, current: real, optimal: real)
    requires current > 0.0
  {
    var deviation := (optimal - current) / current * 100.0;
    (if deviation < 0.0 then -deviation else deviation) <= cfg.variancePercent
  }

  /** `current` scaled by the ratio to the optimum, at most a factor of two either way. */
  function Stepped(current: real, optimal: real): real
    requires current > 0.0
  {
    current * Clamp(optimal / current, 1.0 / MAX_STEP, MAX_STEP)
  }

  /** Too close to the current difficulty to be worth a change. */
  predicate SameAs(proposed: real, current: real)
    requires current > 0.0
  {
    var change := proposed - current;
    (if change < 0.0 then -change else change) / current < 0.000000001
  }

  /** What the evidence calls for, given the number of shares in the window. */
  function Proposal(cfg: Config, count: nat, current: real, optimal: real): Option<real>
    requires current > 0.0
  {
    if count > 0 && WithinVariance(cfg, current, optimal) then None
    else if count > 0 && optimal / current > 1.0 && count < MIN_SHARES_TO_RAISE then None
    else
      var proposed := cfg.Clamped(if count == 0 then current * QUIET_STEP else Stepped(current, optimal));
      if SameAs(proposed, current) then None else Some(proposed)
  }

  function Evaluated(cfg: Config, s: State, now: real, current: real): (State, Option<real>)
    requires current > 0.0
  {
    if Since(now, s.lastChange) < cfg.retargetSeconds then (s, None)
    else
      var t := s.(shares := Trimmed(s.shares, now, cfg.Window()));
      var d := Proposal(cfg, |t.shares|, current, Optimal(cfg, t, now));
      (if d.Some? then t.(lastChange := now) else t, d)
  }

  // ---------- the object ----------

  class Estimator {
    const cfg: Config
    var shares: seq<Share>
    var started: real
    var lastChange: real

    function View(): State
      reads this
    {
      State(shares, started, lastChange)
    }

    constructor (cfg: Config, now: real)
      ensures View() == State([], now, now) && this.cfg == cfg
    {
      this.cfg := cfg;
      shares, started, lastChange := [], now, now;
    }

    method Trim(now: real)
      modifies this`shares
      ensures shares == Trimmed(old(shares), now, cfg.Window())
    {
      var window := cfg.Window();
      while shares != []
        invariant Trimmed(shares, now, window) == Trimmed(old(shares), now, window)
        decreases |shares|
      {
        if Since(now, shares[0].0) > window {
          shares := shares[1..];
        } else {
          break;
        }
      }
    }

    method OnShare(now: real, difficulty: real)
      requires |shares| <= MAX_WINDOW_SHARES
      modifies this`shares
      ensures View() == Recorded(cfg, old(View()), now, difficulty)
    {
      shares := shares + [(now, difficulty)];
      if |shares| > MAX_WINDOW_SHARES {
        shares := shares[1..];
      }
      Trim(now);
    }

    method Evaluate(now: real, current: real) returns (d: Option<real>)
      requires current > 0.0
      modifies this
      ensures (View(), d) == Evaluated(cfg, old(View()), now, current)
    {
      hide Optimal, WithinVariance, Stepped, SameAs, Trimmed;
      if Since(now, lastChange) < cfg.retargetSeconds {
        return None;
      }
      Trim(now);
      var optimal := Rate(now);
      var proposed;
      if shares == [] {
        proposed := cfg.Clamped(current * QUIET_STEP);
      } else {
        if WithinVariance(cfg, current, optimal) {
          return None;
        }
        if optimal / current > 1.0 && |shares| < MIN_SHARES_TO_RAISE {
          return None;
        }
        proposed := cfg.Clamped(Stepped(current, optimal));
      }
      if SameAs(proposed, current) {
        return None;
      }
      lastChange := now;
      return Some(proposed);
    }

    /** Sum the work in the window and scale it. */
    method Rate(now: real) returns (optimal: real)
      ensures optimal == Optimal(cfg, View(), now)
    {
      var work, i := 0.0, 0;
      while i < |shares|
        invariant 0 <= i <= |shares|
        invariant work == WorkOf(shares[..i])
      {
        assert shares[..i + 1][..i] == shares[..i];
        work := work + shares[i].1;
        i := i + 1;
      }
      assert shares[..i] == shares;
      var elapsed := Since(now, started);
      var covered := if elapsed < cfg.Window() then elapsed else cfg.Window();
      var span := if covered < 1.0 then 1.0 else covered;
      optimal := work / span * cfg.targetShareSeconds;
    }
  }

  // ---------- one step ----------

  /** Scaling by a clamped ratio is clamping the optimum around the current difficulty. */
  lemma SteppedIsClamp(current: real, optimal: real)
    requires current > 0.0
    ensures Stepped(current, optimal) == Clamp(optimal, current / 2.0, current * 2.0)
  {
    var ratio := optimal / current;
    assert current * ratio == optimal;
    if ratio < 0.5 {
      ScaleStrict(ratio, 0.5, current);
    } else if ratio > 2.0 {
      ScaleStrict(2.0, ratio, current);
    } else {
      ScaleStrict(ratio, 0.5, current);
      ScaleStrict(2.0, ratio, current);
    }
  }

  lemma ScaleStrict(x: real, y: real, c: real)
    requires c > 0.0
    ensures x < y <==> x * c < y * c
  {
    assert y * c - x * c == (y - x) * c;
  }

  /** A change stays inside the configured range and, unless the window was empty, between the
      current difficulty and the clamped optimum; with an empty window it only goes down. */
  lemma StepIsBounded(cfg: Config, s: State, now: real, current: real)
    requires cfg.Valid() && cfg.minDifficulty <= current <= cfg.maxDifficulty
    ensures var (t, d) := Evaluated(cfg, s, now, current);
            d.Some? ==>
              && cfg.minDifficulty <= d.value <= cfg.maxDifficulty
              && (t.shares == [] ==> d.value < current)
              && var best := cfg.Clamped(Optimal(cfg, t, now));
                 (t.shares != [] ==> current <= d.value <= best || best <= d.value <= current)
  {
    hide Optimal, WithinVariance, Trimmed, Stepped;
    var t := s.(shares := Trimmed(s.shares, now, cfg.Window()));
    var optimal := Optimal(cfg, t, now);
    SteppedIsClamp(current, optimal);
    OptimalIgnoresLastChange(cfg, t, now, now);
  }

  lemma OptimalIgnoresLastChange(cfg: Config, s: State, now: real, changed: real)
    ensures Optimal(cfg, s.(lastChange := changed), now) == Optimal(cfg, s, now)
  {
  }

  // ---------- whole runs ----------

  datatype Op = OnShare(now: real, difficulty: real) | Evaluate(now: real, current: real)

  function Apply(cfg: Config, s: State, op: Op): (State, Option<real>)
    requires op.Evaluate? ==> op.current > 0.0
  {
    match op
    case OnShare(now, difficulty) => (Recorded(cfg, s, now, difficulty), None)
    case Evaluate(now, current) => Evaluated(cfg, s, now, current)
  }

  predicate Callable(ops: seq<Op>) {
    forall i :: 0 <= i < |ops| ==> ops[i].Evaluate? ==> ops[i].current > 0.0
  }

  /** The times at which a run of operations changes the difficulty. */
  function ChangeTimes(cfg: Config, s: State, ops: seq<Op>): seq<real>
    requires Callable(ops)
    decreases |ops|
  {
    if ops == [] then []
    else
      var (t, d) := Apply(cfg, s, ops[0]);
      (if d.Some? then [ops[0].now] else []) + ChangeTimes(cfg, t, ops[1..])
  }

  /** Every time lies at least `gap` after `from` and after every earlier one. */
  predicate Spaced(times: seq<real>, from: real, gap: real) {
    && (forall i :: 0 <= i < |times| ==> times[i] - from >= gap)
    && (forall i, j :: 0 <= i < j < |times| ==> times[j] - times[i] >= gap)
  }

  lemma SpacedPrepend(x: real, rest: seq<real>, from: real, gap: real)
    requires gap > 0.0 && x - from >= gap && Spaced(rest, x, gap)
    ensures Spaced([x] + rest, from, gap)
  {
    var all := [x] + rest;
    forall i | 0 <= i < |all| ensures all[i] - from >= gap && (i > 0 ==> all[i] == rest[i - 1] && all[i] - x >= gap) {
    }
  }

  /** Two changes of difficulty are never closer than `retargetSeconds`, over any run. */
  lemma {:induction false} RetargetsApart(cfg: Config, s: State, ops: seq<Op>)
    requires cfg.Valid() && Callable(ops)
    ensures Spaced(ChangeTimes(cfg, s, ops), s.lastChange, cfg.retargetSeconds)
    decreases |ops|
  {
    if ops != [] {
      hide Proposal, Optimal, Recorded, Trimmed, Spaced;
      var (t, d) := Apply(cfg, s, ops[0]);
      RetargetsApart(cfg, t, ops[1..]);
      LastChangeIs(cfg, s, ops[0]);
      var rest := ChangeTimes(cfg, t, ops[1..]);
      if d.Some? {
        SpacedPrepend(ops[0].now, rest, s.lastChange, cfg.retargetSeconds);
      } else {
        assert [] + rest == rest;
      }
    }
  }

  lemma LastChangeIs(cfg: Config, s: State, op: Op)
    requires cfg.Valid() && (op.Evaluate? ==> op.current > 0.0)
    ensures var (t, d) := Apply(cfg, s, op);
            if d.Some? then t.lastChange == op.now && op.now - s.lastChange >= cfg.retargetSeconds
            else t.lastChange == s.lastChange
  {
    hide Proposal, Optimal, Trimmed;
  }

  // ---------- what the window holds ----------

  predicate InOrder(shares: seq<Share>) {
    forall i, j :: 0 <= i < j < |shares| ==> shares[i].0 <= shares[j].0
  }

  /** Trimming an ordered list keeps exactly the shares inside the window. */
  lemma {:induction false} TrimmedIsWindow(shares: seq<Share>, now: real, window: real)
    requires InOrder(shares) && window >= 0.0
    ensures var r := Trimmed(shares, now, window);
            && |r| <= |shares| && r == shares[|shares| - |r|..]
            && forall i :: 0 <= i < |shares| ==> (i >= |shares| - |r| <==> Since(now, shares[i].0) <= window)
    decreases |shares|
  {
    if shares != [] && Since(now, shares[0].0) > window {
      TrimmedIsWindow(shares[1..], now, window);
      assert forall i :: 0 < i < |shares| ==> shares[i] == shares[1..][i - 1];
    }
  }

  lemma TrimLater(shares: seq<Share>, early: real, now: real, window: real)
    requires InOrder(shares) && window >= 0.0 && early <= now
    ensures Trimmed(Trimmed(shares, early, window), now, window) == Trimmed(shares, now, window)
    decreases |shares|
  {
  }

  /** Adding a share to a trimmed deque and cutting it to size gives the same as cutting the whole
      history to size and trimming it now: the size cut only ever removes shares the window would
      have lost to newer ones. */
  lemma RecordedIsHistory(history: seq<Share>, early: real, now: real, difficulty: real, window: real)
    requires InOrder(history + [(now, difficulty)]) && window >= 0.0 && early <= now
    ensures Trimmed(Last(Trimmed(Last(history), early, window) + [(now, difficulty)]), now, window)
         == Trimmed(Last(history + [(now, difficulty)]), now, window)
  {
    var x := (now, difficulty);
    var all := Last(history);
    assert forall i :: 0 <= i < |history| ==> history[i] == (history + [x])[i];
    LastInOrder(history);
    TrimmedIsWindow(all, early, window);
    var kept := Trimmed(all, early, window);
    assert forall i :: 0 <= i < |all| - |kept| ==> Since(now, all[i].0) > window;
    CutThenDrop(history, all, kept, x, now, window);
  }

  lemma CutThenDrop(history: seq<Share>, all: seq<Share>, kept: seq<Share>, x: Share, now: real, window: real)
    requires all == Last(history) && |kept| <= |all| && kept == all[|all| - |kept|..]
    requires forall i :: 0 <= i < |all| - |kept| ==> Since(now, all[i].0) > window
    ensures Trimmed(Last(kept + [x]), now, window) == Trimmed(Last(history + [x]), now, window)
  {
    LastNext(history, x);
    LastNext(kept, x);
    LastWhole(kept);
    hide Trimmed, Last;
    var cut, long := |all| - |kept|, Last(history + [x]);
    if |history| < MAX_WINDOW_SHARES {
      Shifted(all, kept, x, cut);
      DropOld(long, cut, now, window);
    } else if cut == 0 {
      assert kept == all;
    } else {
      Shifted(all[1..], kept, x, cut - 1);
      assert forall i :: 0 <= i < cut - 1 ==> long[i] == all[i + 1];
      DropOld(long, cut - 1, now, window);
    }
  }

  /** Cutting to size with one more share: it goes at the end, and the oldest goes if there were enough. */
  lemma LastNext(shares: seq<Share>, x: Share)
    ensures |shares| < MAX_WINDOW_SHARES ==> Last(shares + [x]) == Last(shares) + [x]
    ensures |shares| >= MAX_WINDOW_SHARES ==>
              |Last(shares)| == MAX_WINDOW_SHARES && Last(shares + [x]) == Last(shares)[1..] + [x]
  {
  }

  lemma LastWhole(shares: seq<Share>)
    ensures |shares| <= MAX_WINDOW_SHARES ==> Last(shares) == shares
  {
  }

  lemma Shifted(all: seq<Share>, kept: seq<Share>, x: Share, cut: nat)
    requires cut <= |all| && kept == all[cut..]
    ensures (all + [x])[cut..] == kept + [x]
    ensures forall i :: 0 <= i < cut ==> (all + [x])[i] == all[i]
  {
  }

  /** Shares at the front that are all too old do not change what trimming leaves. */
  lemma {:induction false} DropOld(shares: seq<Share>, n: nat, now: real, window: real)
    requires n <= |shares| && forall i :: 0 <= i < n ==> Since(now, shares[i].0) > window
    ensures Trimmed(shares[n..], now, window) == Trimmed(shares, now, window)
    decreases n
  {
    if n > 0 {
      assert shares[1..][n - 1..] == shares[n..];
      DropOld(shares[1..], n - 1, now, window);
    } else {
      assert shares[0..] == shares;
    }
  }

  /** Accepted shares of a run, oldest first. */
  function History(ops: seq<Op>): seq<Share> {
    if ops == [] then []
    else History(ops[..|ops| - 1]) + Adds(ops[|ops| - 1])
  }

  function Adds(op: Op): seq<Share> {
    match op case OnShare(now, d) => [(now, d)] case Evaluate(_, _) => []
  }

  function StateAfter(cfg: Config, s: State, ops: seq<Op>): State
    requires Callable(ops)
  {
    if ops == [] then s else Apply(cfg, StateAfter(cfg, s, ops[..|ops| - 1]), ops[|ops| - 1]).0
  }

  predicate TimesOrdered(start: real, ops: seq<Op>) {
    && (forall i :: 0 <= i < |ops| ==> start <= ops[i].now)
    && forall i, j :: 0 <= i < j < |ops| ==> ops[i].now <= ops[j].now
  }

  /** When a run last trimmed its deque: at its last share or evaluation that was not rate-limited. */
  function TrimTime(cfg: Config, start: real, ops: seq<Op>): real
    requires Callable(ops)
    decreases |ops|
  {
    if ops == [] then start
    else
      var front, op := ops[..|ops| - 1], ops[|ops| - 1];
      if op.Evaluate? && Since(op.now, StateAfter(cfg, State([], start, start), front).lastChange) < cfg.retargetSeconds
      then TrimTime(cfg, start, front)
      else op.now
  }

  /** Over any run in time order the deque is the last at most 512 accepted shares, trimmed to the
      window as of the run's last trim. */
  lemma {:induction false} DequeIsRecentHistory(cfg: Config, start: real, ops: seq<Op>)
    requires cfg.Valid() && Callable(ops) && TimesOrdered(start, ops)
    ensures InOrder(History(ops))
    ensures forall i :: 0 <= i < |History(ops)| ==> start <= History(ops)[i].0 <= TrimTime(cfg, start, ops)
    ensures start <= TrimTime(cfg, start, ops) <= if ops == [] then start else ops[|ops| - 1].now
    ensures StateAfter(cfg, State([], start, start), ops).shares
         == Trimmed(Last(History(ops)), TrimTime(cfg, start, ops), cfg.Window())
    decreases |ops|
  {
    hide Apply, Trimmed, Last, Adds, InOrder, TimesOrdered;
    if ops == [] {
      EmptyTrim(start, cfg.Window());
      EmptyInOrder();
    } else {
      var front, op := ops[..|ops| - 1], ops[|ops| - 1];
      FrontOrdered(start, ops);
      DequeIsRecentHistory(cfg, start, front);
      DequeStep(cfg, StateAfter(cfg, State([], start, start), front), op, History(front), start,
          TrimTime(cfg, start, front));
    }
  }

  lemma FrontOrdered(start: real, ops: seq<Op>)
    requires ops != [] && TimesOrdered(start, ops) && Callable(ops)
    ensures var front := ops[..|ops| - 1];
            && TimesOrdered(start, front) && Callable(front)
            && start <= ops[|ops| - 1].now && (front != [] ==> front[|front| - 1].now <= ops[|ops| - 1].now)
  {
    assert forall i :: 0 <= i < |ops| - 1 ==> ops[..|ops| - 1][i] == ops[i];
  }

  /** What that leaves, share by share: of the last 512 accepted ones those no older than four retarget
      intervals at the last trim. */
  lemma DequeHolds(cfg: Config, start: real, ops: seq<Op>)
    requires cfg.Valid() && Callable(ops) && TimesOrdered(start, ops)
    ensures var all, held := History(ops), StateAfter(cfg, State([], start, start), ops).shares;
            && |held| <= |all| && |held| <= 512 && held == all[|all| - |held|..]
            && forall i :: 0 <= i < |all| && i >= |all| - 512 ==>
                 (i >= |all| - |held| <==> TrimTime(cfg, start, ops) - all[i].0 <= 4.0 * cfg.retargetSeconds)
  {
    DequeIsRecentHistory(cfg, start, ops);
    var all := History(ops);
    hide StateAfter, Callable, TrimTime, History, TimesOrdered, Trimmed;
    LastInOrder(all);
    TrimmedIsWindow(Last(all), TrimTime(cfg, start, ops), cfg.Window());
  }

  /** One operation keeps the deque in step with the history. */
  lemma DequeStep(cfg: Config, s: State, op: Op, history: seq<Share>, start: real, early: real)
    requires cfg.Valid() && (op.Evaluate? ==> op.current > 0.0) && start <= early <= op.now
    requires InOrder(history) && forall i :: 0 <= i < |history| ==> start <= history[i].0 <= early
    requires s.shares == Trimmed(Last(history), early, cfg.Window())
    ensures var asOf := if op.Evaluate? && Since(op.now, s.lastChange) < cfg.retargetSeconds then early else op.now;
            && InOrder(history + Adds(op))
            && (forall i :: 0 <= i < |history + Adds(op)| ==> start <= (history + Adds(op))[i].0 <= asOf)
            && Apply(cfg, s, op).0.shares == Trimmed(Last(history + Adds(op)), asOf, cfg.Window())
  {
    hide Proposal, Optimal, Trimmed, Last;
    match op {
      case OnShare(now, d) =>
        RecordedIsHistory(history, early, now, d, cfg.Window());
      case Evaluate(now, current) =>
        assert history + [] == history;
        LastInOrder(history);
        TrimLater(Last(history), early, now, cfg.Window());
    }
  }

  lemma EmptyInOrder()
    ensures InOrder([])
  {
  }

  lemma EmptyTrim(now: real, window: real)
    ensures Trimmed(Last([]), now, window) == []
  {
  }

  lemma LastInOrder(shares: seq<Share>)
    requires InOrder(shares)
    ensures InOrder(Last(shares))
  {
  }

  // ---------- convergence ----------

  /** How often the difficulty changes over evaluations that all see the same optimum; `counts`
      gives the number of shares in the window at each. */
  function Changes(cfg: Config, current: real, optimal: real, counts: seq<nat>): nat
    requires cfg.Valid() && current > 0.0
    decreases |counts|
  {
    if counts == [] then 0
    else match Proposal(cfg, counts[0], current, optimal)
      case None => Changes(cfg, current, optimal, counts[1..])
      case Some(d) =>
        assert d >= cfg.minDifficulty;
        1 + Changes(cfg, d, optimal, counts[1..])
  }

  predicate InRange(cfg: Config, x: real) {
    cfg.minDifficulty <= x <= cfg.maxDifficulty
  }

  predicate Enough(counts: seq<nat>) {
    forall i :: 0 <= i < |counts| ==> counts[i] >= MIN_SHARES_TO_RAISE
  }

  /** Once an evaluation leaves the difficulty alone, all later ones do. */
  lemma {:induction false} SettledStays(cfg: Config, current: real, optimal: real, counts: seq<nat>)
    requires cfg.Valid() && current > 0.0 && Enough(counts)
    requires Proposal(cfg, MIN_SHARES_TO_RAISE, current, optimal).None?
    ensures Changes(cfg, current, optimal, counts) == 0
    decreases |counts|
  {
    if counts != [] {
      EnoughIsEnough(cfg, counts[0], current, optimal);
      SettledStays(cfg, current, optimal, counts[1..]);
    }
  }

  lemma EnoughIsEnough(cfg: Config, count: nat, current: real, optimal: real)
    requires current > 0.0 && count >= MIN_SHARES_TO_RAISE
    ensures Proposal(cfg, count, current, optimal) == Proposal(cfg, MIN_SHARES_TO_RAISE, current, optimal)
  {
  }

  /** With a fixed optimum in range and enough shares, a ratio of at most 2^k either way is worked
      off in at most k changes. */
  lemma {:induction false} Converges(cfg: Config, current: real, optimal: real, counts: seq<nat>, k: nat)
    requires cfg.Valid() && InRange(cfg, current) && InRange(cfg, optimal) && Enough(counts)
    requires optimal <= current * Pow2(k) as real && current <= optimal * Pow2(k) as real
    ensures Changes(cfg, current, optimal, counts) <= k
    decreases |counts|
  {
    hide Proposal, Pow2, Clamp;
    if counts != [] {
      EnoughIsEnough(cfg, counts[0], current, optimal);
      var d := Proposal(cfg, counts[0], current, optimal);
      if d.None? {
        SettledStays(cfg, current, optimal, counts);
      } else {
        ProposalStep(cfg, counts[0], current, optimal);
        StepShrinks(current, optimal, k);
        Converges(cfg, d.value, optimal, counts[1..], k - 1);
      }
    }
  }

  lemma StepShrinks(current: real, optimal: real, k: nat)
    requires current > 0.0 && optimal > 0.0 && current != optimal
    requires optimal <= current * Pow2(k) as real && current <= optimal * Pow2(k) as real
    ensures k > 0
    ensures var d := Clamp(optimal, current / 2.0, current * 2.0);
            d > 0.0 && optimal <= d * Pow2(k - 1) as real && d <= optimal * Pow2(k - 1) as real
  {
    assert k > 0;
    ShrinkBy(current, optimal, Clamp(optimal, current / 2.0, current * 2.0), Pow2(k - 1) as real);
  }

  lemma ShrinkBy(current: real, optimal: real, d: real, p: real)
    requires current > 0.0 && optimal > 0.0 && p >= 1.0 && d == Clamp(optimal, current / 2.0, current * 2.0)
    requires optimal <= current * (2.0 * p) && current <= optimal * (2.0 * p)
    ensures optimal <= d * p && d <= optimal * p
  {
    DoubledFactor(current, p);
    DoubledFactor(optimal, p);
    NotSmaller(optimal, p);
    NotSmaller(current / 2.0, p);
    assert optimal < current / 2.0 ==> d * p == current / 2.0 * p;
    assert optimal > current * 2.0 ==> d * p == current * 2.0 * p;
    assert current / 2.0 <= optimal <= current * 2.0 ==> d * p == optimal * p;
  }

  lemma NotSmaller(x: real, p: real)
    requires x > 0.0 && p >= 1.0
    ensures x <= x * p
  {
    assert x * p - x == x * (p - 1.0);
  }

  lemma DoubledFactor(x: real, p: real)
    ensures x * (2.0 * p) == 2.0 * (x * p)
    ensures x * 2.0 * p == x * (2.0 * p)
    ensures x / 2.0 * p == x * p / 2.0
  {
  }

  /** A change with enough shares is a move by a factor of two, or onto the optimum itself; at the
      optimum there is none. */
  lemma ProposalStep(cfg: Config, count: nat, current: real, optimal: real)
    requires cfg.Valid() && InRange(cfg, current) && InRange(cfg, optimal) && count >= MIN_SHARES_TO_RAISE
    requires Proposal(cfg, count, current, optimal).Some?
    ensures Proposal(cfg, count, current, optimal).value == Clamp(optimal, current / 2.0, current * 2.0)
    ensures current != optimal && InRange(cfg, Proposal(cfg, count, current, optimal).value)
  {
    hide WithinVariance, Stepped;
    SteppedIsClamp(current, optimal);
  }

  // ---------- convergence over runs ----------

  /** A run that the session could make from difficulty `current`, in which every evaluation that is
      not rate-limited finds enough shares and the same optimum. */
  predicate Steady(cfg: Config, s: State, ops: seq<Op>, current: real, optimal: real)
    requires cfg.Valid() && current > 0.0
    decreases |ops|
  {
    ops == []
    || match ops[0]
       case OnShare(_, _) => Steady(cfg, Apply(cfg, s, ops[0]).0, ops[1..], current, optimal)
       case Evaluate(now, c) =>
         && c == current
         && (Since(now, s.lastChange) >= cfg.retargetSeconds ==> EnoughAt(cfg, s, now, optimal))
         && var (t, d) := Evaluated(cfg, s, now, current);
         (d.Some? ==> d.value > 0.0) && Steady(cfg, t, ops[1..], if d.Some? then d.value else current, optimal)
  }

  /** The window holds enough shares now, and their work calls for the given difficulty. */
  predicate EnoughAt(cfg: Config, s: State, now: real, optimal: real) {
    var t := s.(shares := Trimmed(s.shares, now, cfg.Window()));
    |t.shares| >= MIN_SHARES_TO_RAISE && Optimal(cfg, t, now) == optimal
  }

  lemma {:induction false} SteadyCallable(cfg: Config, s: State, ops: seq<Op>, current: real, optimal: real)
    requires cfg.Valid() && current > 0.0 && Steady(cfg, s, ops, current, optimal)
    ensures Callable(ops)
    decreases |ops|
  {
    hide Evaluated, EnoughAt, Recorded;
    if ops != [] {
      match ops[0] {
        case OnShare(_, _) =>
          SteadyCallable(cfg, Apply(cfg, s, ops[0]).0, ops[1..], current, optimal);
        case Evaluate(now, c) =>
          var (t, d) := Evaluated(cfg, s, now, current);
          SteadyCallable(cfg, t, ops[1..], if d.Some? then d.value else current, optimal);
      }
      assert forall i :: 0 < i < |ops| ==> ops[i] == ops[1..][i - 1];
    }
  }

  /** A steady run changes the difficulty as often as its decisions, taken one after another, do. */
  lemma {:induction false} SteadyIsIteration(cfg: Config, s: State, ops: seq<Op>, current: real, optimal: real)
    returns (counts: seq<nat>)
    requires cfg.Valid() && current > 0.0 && Callable(ops) && Steady(cfg, s, ops, current, optimal)
    ensures Enough(counts) && |ChangeTimes(cfg, s, ops)| == Changes(cfg, current, optimal, counts)
    decreases |ops|
  {
    counts := [];
    if ops != [] {
      hide Proposal, Optimal, Recorded, Trimmed;
      var rest := ops[1..];
      assert Callable(rest) by {
        assert forall i :: 0 <= i < |rest| ==> rest[i] == ops[i + 1];
      }
      match ops[0] {
        case OnShare(_, _) =>
          counts := SteadyIsIteration(cfg, Apply(cfg, s, ops[0]).0, rest, current, optimal);
        case Evaluate(now, c) =>
          var (t, d) := Evaluated(cfg, s, now, current);
          counts := SteadyIsIteration(cfg, t, rest, if d.Some? then d.value else current, optimal);
          if Since(now, s.lastChange) >= cfg.retargetSeconds {
            counts := Prepend(cfg, current, optimal, |Trimmed(s.shares, now, cfg.Window())|, d, counts);
          }
      }
    }
  }

  lemma Prepend(cfg: Config, current: real, optimal: real, count: nat, d: Option<real>, rest: seq<nat>)
    returns (counts: seq<nat>)
    requires cfg.Valid() && current > 0.0 && count >= MIN_SHARES_TO_RAISE && Enough(rest)
    requires d == Proposal(cfg, count, current, optimal) && (d.Some? ==> d.value > 0.0)
    ensures Enough(counts)
    ensures Changes(cfg, current, optimal, counts)
         == (if d.Some? then 1 else 0) + Changes(cfg, if d.Some? then d.value else current, optimal, rest)
  {
    hide Proposal;
    counts := [count] + rest;
    assert counts[1..] == rest;
  }

  /** Over every run of shares and evaluations with a steady optimum in range: a ratio of at most 2^k
      either way is worked off in at most k changes of difficulty. */
  lemma RunConverges(cfg: Config, s: State, ops: seq<Op>, current: real, optimal: real, k: nat)
    requires cfg.Valid() && InRange(cfg, current) && InRange(cfg, optimal)
    requires Callable(ops) && Steady(cfg, s, ops, current, optimal)
    requires optimal <= current * Pow2(k) as real && current <= optimal * Pow2(k) as real
    ensures |ChangeTimes(cfg, s, ops)| <= k
  {
    hide Steady, ChangeTimes, Changes, Pow2;
    var counts := SteadyIsIteration(cfg, s, ops, current, optimal);
    Converges(cfg, current, optimal, counts, k);
  }

  /** And once an evaluation that is not rate-limited leaves the difficulty alone, it stays. */
  lemma RunStays(cfg: Config, s: State, ops: seq<Op>, current: real, optimal: real)
    requires cfg.Valid() && InRange(cfg, current) && InRange(cfg, optimal)
    requires Callable(ops) && Steady(cfg, s, ops, current, optimal)
    requires ops != [] && ops[0].Evaluate? && Since(ops[0].now, s.lastChange) >= cfg.retargetSeconds
    requires Evaluated(cfg, s, ops[0].now, current).1.None?
    ensures |ChangeTimes(cfg, s, ops)| == 0
  {
    hide Optimal, Proposal, Trimmed;
    EnoughIsEnough(cfg, |Trimmed(s.shares, ops[0].now, cfg.Window())|, current, optimal);
    var counts := SteadyIsIteration(cfg, s, ops, current, optimal);
    SettledStays(cfg, current, optimal, counts);
  }
}
