/** The session drives its difficulty estimator: what the estimator holds and when difficulty is
    retargeted, over every run of a session. */
module SessionVardiff {
  import opened Wrappers
  import opened Jobs
  import opened Validate
  import opened Events
  import opened Session
  import opened SessionSteps
  import opened SessionRuns
  import Vardiff

  // ---------- what a step asks of the estimator ----------

  predicate Timed(input: Input) {
    input.SubmitShare? || input.Tick?
  }

  /** An accepted share is recorded; a judged one, accepted or not, is followed by an evaluation, as
      is every tick of an authorized session. */
  function StepOps(s: State, input: Input, fx: Effects): seq<Vardiff.Op> {
    match input
    case SubmitShare(_, _, now, _) =>
      if fx.events == [] || !fx.events[0].Share? then []
      else
        (if fx.accepted.Some? then [Vardiff.OnShare(now, fx.events[0].jobDifficulty)] else [])
        + [Vardiff.Evaluate(now, s.difficulty)]
    case Tick(now) => if s.payout.Some? then [Vardiff.Evaluate(now, s.difficulty)] else []
    case Authorize(_, _) => []
    case OnWork(_) => []
    case Suggest(_) => []
  }

  lemma RetargetApplies(env: Env, s: State, fx: Effects, now: real)
    requires Sane(env, s)
    ensures Retarget(env, s, fx, now).0.vardiff
        == Vardiff.Apply(env.cfg, s.vardiff, Vardiff.Evaluate(now, s.difficulty)).0
  {
    hide Vardiff.Evaluated;
  }

  lemma TwoOps(cfg: Vardiff.Config, v: Vardiff.State, a: Vardiff.Op, b: Vardiff.Op)
    requires (a.Evaluate? ==> a.current > 0.0) && (b.Evaluate? ==> b.current > 0.0)
    ensures Vardiff.Callable([a, b]) && Vardiff.Callable([b])
    ensures Vardiff.StateAfter(cfg, v, [a, b]) == Vardiff.Apply(cfg, Vardiff.Apply(cfg, v, a).0, b).0
    ensures Vardiff.StateAfter(cfg, v, [b]) == Vardiff.Apply(cfg, v, b).0
    ensures Vardiff.StateAfter(cfg, v, []) == v
  {
    OneOp(cfg, v, a);
    OneOp(cfg, v, b);
    hide Vardiff.Apply;
    assert [a, b][..1] == [a];
  }

  lemma OneOp(cfg: Vardiff.Config, v: Vardiff.State, a: Vardiff.Op)
    requires a.Evaluate? ==> a.current > 0.0
    ensures Vardiff.Callable([a]) && Vardiff.StateAfter(cfg, v, [a]) == Vardiff.Apply(cfg, v, a).0
    ensures Vardiff.StateAfter(cfg, v, []) == v && Vardiff.History([a]) == Vardiff.Adds(a)
  {
    hide Vardiff.Apply;
    assert [a][..0] == [];
  }

  /** A step changes the estimator by exactly its operations. */
  lemma StepFollows(env: Env, s: State, input: Input)
    requires Sane(env, s)
    ensures var (t, fx) := Step(env, s, input); var ops := StepOps(s, input, fx);
            Vardiff.Callable(ops) && t.vardiff == Vardiff.StateAfter(env.cfg, s.vardiff, ops)
  {
    hide SendJob, Retarget, SubmitStep, Resolve, SameScripts, AuxInfos, AgedAll, Sane, Vardiff.Apply,
         Vardiff.StateAfter;
    match input {
      case SubmitShare(jobId, submit, now, nowUnix) =>
        SubmitFollows(env, s, jobId, submit, now, nowUnix);
      case Tick(now) =>
        PositiveDifficulty(env, s);
        RetargetApplies(env, s, NOTHING, now);
        TwoOps(env.cfg, s.vardiff, Vardiff.Evaluate(now, s.difficulty), Vardiff.Evaluate(now, s.difficulty));
      case Authorize(username, password) =>
        AuthorizeFollows(env, s, username, password);
        Nothing(env.cfg, s.vardiff);
      case OnWork(work) =>
        AgedSane(env, s, work);
        var made := SendJobMakes(env, s.(jobs := AgedAll(s.jobs, work), work := Some(work)), NOTHING, work.cleanJobs);
        Nothing(env.cfg, s.vardiff);
      case Suggest(_) =>
        Nothing(env.cfg, s.vardiff);
    }
  }

  lemma PositiveDifficulty(env: Env, s: State)
    requires Sane(env, s)
    ensures s.difficulty > 0.0
  {
  }

  lemma Nothing(cfg: Vardiff.Config, v: Vardiff.State)
    ensures Vardiff.Callable([]) && Vardiff.StateAfter(cfg, v, []) == v
  {
  }

  lemma AuthorizeFollows(env: Env, s: State, username: string, password: string)
    requires Sane(env, s)
    ensures AuthorizeStep(env, s, username, password).0.vardiff == s.vardiff
  {
    hide SendJob, Resolve, SameScripts, AuxInfos;
    if username != [] && s.payout.None? {
      var payout := Resolve(env.payouts, username, password);
      var workers := if username in s.workers then s.workers else s.workers + [username];
      var event := Authorized(env.id, username, payout.parent.address, payout.parent.fallback, AuxInfos(payout.aux));
      var (u, fx2) := WithDifficulty(env, s.(workers := workers, payout := Some(payout)),
                                     NOTHING.(reply := Granted, events := [event]), s.difficulty);
      var made := SendJobMakes(env, u, fx2, false);
    }
  }

  lemma SubmitFollows(env: Env, s: State, jobId: nat, submit: Submit, now: real, nowUnix: nat)
    requires Sane(env, s)
    ensures var (t, fx) := SubmitStep(env, s, jobId, submit, now, nowUnix);
            var ops := StepOps(s, SubmitShare(jobId, submit, now, nowUnix), fx);
            Vardiff.Callable(ops) && t.vardiff == Vardiff.StateAfter(env.cfg, s.vardiff, ops)
  {
    PositiveDifficulty(env, s);
    Nothing(env.cfg, s.vardiff);
    hide Judge, Retarget, FindJob, AcceptedKey, Vardiff.Recorded, Vardiff.StateAfter, Vardiff.Callable, StepOps, Sane;
    var input := SubmitShare(jobId, submit, now, nowUnix);
    if s.payout.Some? && submit.worker in s.workers && FindJob(s.jobs, jobId).Some? {
      var k := FindJob(s.jobs, jobId).value;
      var job, address := s.jobs[k], s.payout.value.parent.address;
      var v := Judge(env.h, job, env.extranonce1, submit, address, nowUnix);
      var event := ShareEvent(env, job, submit.worker, v.outcome);
      var t := s.(jobs := s.jobs[k := v.job]);
      EnteringSane(env, s, k, v.job, now, job.difficulty);
      JudgeKeepsParts(env.h, job, env.extranonce1, submit, address, nowUnix);
      if v.outcome.Rejected? {
        JudgedFollows(env, s, t, NOTHING.(reply := Denied(Reject(v.outcome.reason)), events := [event]), input);
      } else {
        JudgedFollows(env, s, t.(vardiff := Vardiff.Recorded(env.cfg, t.vardiff, now, job.difficulty)),
                      NOTHING.(reply := Granted, accepted := Some((jobId, AcceptedKey(submit))), blocks := v.blocks,
                               events := [event]), input);
      }
    } else {
      NothingAsked(s, input);
    }
  }

  lemma NothingAsked(s: State, input: Input)
    requires input.SubmitShare?
    ensures forall reply :: StepOps(s, input, NOTHING.(reply := reply)) == []
  {
  }

  lemma EnteringSane(env: Env, s: State, k: nat, job: SessionJob, now: real, difficulty: real)
    requires Sane(env, s) && k < |s.jobs|
    ensures PartsFit(s.jobs[k])
    ensures PartsFit(job) ==>
              var t := s.(jobs := s.jobs[k := job]);
              Sane(env, t) && Sane(env, t.(vardiff := Vardiff.Recorded(env.cfg, t.vardiff, now, difficulty)))
  {
    hide Vardiff.Trimmed;
  }

  /** After a share is judged: recorded if it is accepted, and then an evaluation. */
  lemma JudgedFollows(env: Env, s: State, u: State, fx: Effects, input: Input)
    requires Sane(env, s) && Sane(env, u) && u.difficulty == s.difficulty && input.SubmitShare?
    requires |fx.events| == 1 && fx.events[0].Share?
    requires u.vardiff == if fx.accepted.Some?
                          then Vardiff.Recorded(env.cfg, s.vardiff, input.now, fx.events[0].jobDifficulty)
                          else s.vardiff
    ensures var (t, fx2) := Retarget(env, u, fx, input.now); var ops := StepOps(s, input, fx2);
            Vardiff.Callable(ops) && t.vardiff == Vardiff.StateAfter(env.cfg, s.vardiff, ops)
  {
    PositiveDifficulty(env, s);
    hide Retarget, Vardiff.Recorded, Vardiff.Evaluated, Vardiff.StateAfter, Vardiff.Callable, Sane;
    RetargetFrame(env, u, fx, input.now);
    RetargetApplies(env, u, fx, input.now);
    var fx2 := Retarget(env, u, fx, input.now).1;
    assert fx2.events[0] == fx2.events[..1][0] == fx.events[0];
    TwoOps(env.cfg, s.vardiff, Vardiff.OnShare(input.now, fx.events[0].jobDifficulty),
        Vardiff.Evaluate(input.now, s.difficulty));
    var share, evaluation := Vardiff.OnShare(input.now, fx.events[0].jobDifficulty),
        Vardiff.Evaluate(input.now, s.difficulty);
    assert [share] + [evaluation] == [share, evaluation] && [] + [evaluation] == [evaluation];
  }

  // ---------- runs ----------

  /** Everything a session has asked of its estimator. */
  function Ops(env: Env, ins: seq<Input>, n: nat): seq<Vardiff.Op>
    requires env.cfg.Valid() && n <= |ins|
  {
    if n == 0 then [] else Ops(env, ins, n - 1) + StepOps(Before(env, ins, n - 1), ins[n - 1], Effect(env, ins, n - 1))
  }

  lemma {:induction false} Concatenated(cfg: Vardiff.Config, v: Vardiff.State, a: seq<Vardiff.Op>, b: seq<Vardiff.Op>)
    requires Vardiff.Callable(a) && Vardiff.Callable(b)
    ensures Vardiff.Callable(a + b)
    ensures Vardiff.StateAfter(cfg, v, a + b) == Vardiff.StateAfter(cfg, Vardiff.StateAfter(cfg, v, a), b)
    decreases |b|
  {
    hide Vardiff.Apply;
    if b == [] {
      assert a + b == a;
    } else {
      var front := b[..|b| - 1];
      assert (a + b)[..|a + b| - 1] == a + front;
      assert Vardiff.Callable(front) by {
        assert forall i :: 0 <= i < |front| ==> front[i] == b[i];
      }
      Concatenated(cfg, v, a, front);
    }
  }

  /** The estimator of a session is in the state its operations lead to. */
  lemma {:induction false} EstimatorFollows(env: Env, ins: seq<Input>, n: nat)
    requires env.cfg.Valid() && n <= |ins|
    ensures Vardiff.Callable(Ops(env, ins, n))
    ensures Before(env, ins, n).vardiff
         == Vardiff.StateAfter(env.cfg, Vardiff.State([], env.started, env.started), Ops(env, ins, n))
  {
    var start := Vardiff.State([], env.started, env.started);
    assert ins[..0] == [];
    if n == 0 {
      Nothing(env.cfg, start);
    } else {
      hide Step, StepOps, Vardiff.StateAfter, Sane;
      EstimatorFollows(env, ins, n - 1);
      BeforeNext(env, ins, n - 1);
      StepFollows(env, Before(env, ins, n - 1), ins[n - 1]);
      Concatenated(env.cfg, start, Ops(env, ins, n - 1),
                   StepOps(Before(env, ins, n - 1), ins[n - 1], Effect(env, ins, n - 1)));
    }
  }

  /** The share a step accepts: when, and the difficulty of the job it was for. */
  function Entered(input: Input, fx: Effects): seq<Vardiff.Share> {
    if input.SubmitShare? && fx.accepted.Some? && fx.events != [] && fx.events[0].Share?
    then [(input.now, fx.events[0].jobDifficulty)] else []
  }

  function AcceptedShares(env: Env, ins: seq<Input>, n: nat): seq<Vardiff.Share>
    requires env.cfg.Valid() && n <= |ins|
  {
    if n == 0 then [] else AcceptedShares(env, ins, n - 1) + Entered(ins[n - 1], Effect(env, ins, n - 1))
  }

  lemma StepHistory(s: State, input: Input, fx: Effects)
    ensures Vardiff.History(StepOps(s, input, fx)) == Entered(input, fx)
  {
    hide Vardiff.History;
    match input {
      case SubmitShare(_, _, now, _) =>
        if fx.events != [] && fx.events[0].Share? {
          var b := Vardiff.Evaluate(now, s.difficulty);
          HistoryOfTwo(Vardiff.OnShare(now, fx.events[0].jobDifficulty), b);
        } else {
          HistoryOfNone();
        }
      case Tick(now) =>
        HistoryOfNone();
        HistoryOfOne(Vardiff.Evaluate(now, s.difficulty));
      case _ =>
        HistoryOfNone();
    }
  }

  lemma HistoryOfNone()
    ensures Vardiff.History([]) == []
  {
  }

  lemma HistoryOfTwo(a: Vardiff.Op, b: Vardiff.Op)
    ensures Vardiff.History([a] + [b]) == Vardiff.Adds(a) + Vardiff.Adds(b)
    ensures Vardiff.History([] + [b]) == Vardiff.Adds(b)
  {
    HistoryAppends([a], [b]);
    HistoryAppends([], [b]);
    HistoryOfOne(a);
    HistoryOfOne(b);
  }

  lemma HistoryOfOne(a: Vardiff.Op)
    ensures Vardiff.History([a]) == Vardiff.Adds(a) && Vardiff.History([]) == []
  {
    assert [a][..0] == [];
  }

  lemma {:induction false} HistoryAppends(a: seq<Vardiff.Op>, b: seq<Vardiff.Op>)
    ensures Vardiff.History(a + b) == Vardiff.History(a) + Vardiff.History(b)
    decreases |b|
  {
    if b == [] {
      assert a + b == a;
    } else {
      assert (a + b)[..|a + b| - 1] == a + b[..|b| - 1];
      HistoryAppends(a, b[..|b| - 1]);
    }
  }

  lemma {:induction false} HistoryIsAccepted(env: Env, ins: seq<Input>, n: nat)
    requires env.cfg.Valid() && n <= |ins|
    ensures Vardiff.History(Ops(env, ins, n)) == AcceptedShares(env, ins, n)
  {
    if n > 0 {
      hide StepOps, Effect, Before, Sane, Entered, Vardiff.History;
      HistoryIsAccepted(env, ins, n - 1);
      var s, fx := Before(env, ins, n - 1), Effect(env, ins, n - 1);
      StepHistory(s, ins[n - 1], fx);
      HistoryAppends(Ops(env, ins, n - 1), StepOps(s, ins[n - 1], fx));
    } else {
      assert Vardiff.History([]) == [];
    }
  }

  /** The clock does not run backwards. */
  predicate InTime(env: Env, ins: seq<Input>) {
    && (forall i :: 0 <= i < |ins| && Timed(ins[i]) ==> env.started <= ins[i].now)
    && forall i, j :: 0 <= i < j < |ins| && Timed(ins[i]) && Timed(ins[j]) ==> ins[i].now <= ins[j].now
  }

  predicate AtSomeInput(op: Vardiff.Op, ins: seq<Input>, n: nat) {
    exists i :: 0 <= i < n <= |ins| && Timed(ins[i]) && op.now == ins[i].now
  }

  lemma {:induction false} OpsInTime(env: Env, ins: seq<Input>, n: nat)
    requires env.cfg.Valid() && n <= |ins| && InTime(env, ins)
    ensures Vardiff.TimesOrdered(env.started, Ops(env, ins, n))
    ensures forall k :: 0 <= k < |Ops(env, ins, n)| ==> AtSomeInput(Ops(env, ins, n)[k], ins, n)
  {
    hide Before, Effect, StepOps;
    if n > 0 {
      OpsInTime(env, ins, n - 1);
      var front, last := Ops(env, ins, n - 1), StepOps(Before(env, ins, n - 1), ins[n - 1], Effect(env, ins, n - 1));
      StepOpsTimes(Before(env, ins, n - 1), ins[n - 1], Effect(env, ins, n - 1));
      assert Ops(env, ins, n) == front + last;
      hide Ops;
      forall k | 0 <= k < |front|
        ensures AtSomeInput(front[k], ins, n) && (last != [] ==> front[k].now <= ins[n - 1].now)
      {
        assert AtSomeInput(front[k], ins, n - 1);
      }
      forall k | 0 <= k < |last| ensures AtSomeInput(last[k], ins, n) && env.started <= last[k].now {
      }
      OrderedTogether(env.started, front, last, if Timed(ins[n - 1]) then ins[n - 1].now else 0.0);
    }
  }

  lemma StepOpsTimes(s: State, input: Input, fx: Effects)
    ensures var ops := StepOps(s, input, fx);
            (ops != [] ==> Timed(input)) && forall k :: 0 <= k < |ops| ==> ops[k].now == input.now
  {
  }

  lemma OrderedTogether(start: real, front: seq<Vardiff.Op>, last: seq<Vardiff.Op>, now: real)
    requires Vardiff.TimesOrdered(start, front)
    requires forall k :: 0 <= k < |front| ==> last != [] ==> front[k].now <= now
    requires forall k :: 0 <= k < |last| ==> start <= last[k].now == now
    ensures Vardiff.TimesOrdered(start, front + last)
  {
  }

  /** When a session last trimmed its window: at the last share it accepted, or judged share or tick
      that was not within `retarget_seconds` of a change of difficulty. */
  function TrimmedAt(env: Env, ins: seq<Input>, n: nat): real
    requires env.cfg.Valid() && n <= |ins|
  {
    if n == 0 then env.started
    else
      var s, input, fx := Before(env, ins, n - 1), ins[n - 1], Effect(env, ins, n - 1);
      if StepOps(s, input, fx) != []
         && (fx.accepted.Some? || Vardiff.Since(input.now, s.vardiff.lastChange) >= env.cfg.retargetSeconds)
      then input.now
      else TrimmedAt(env, ins, n - 1)
  }

  lemma TrimAfterStep(cfg: Vardiff.Config, start: real, ops: seq<Vardiff.Op>, s: State, input: Input, fx: Effects)
    requires Vardiff.Callable(ops) && Vardiff.Callable(StepOps(s, input, fx))
    requires Vardiff.Callable(ops + StepOps(s, input, fx))
    requires s.vardiff == Vardiff.StateAfter(cfg, Vardiff.State([], start, start), ops)
    requires input.Tick? ==> fx.accepted.None?
    ensures Vardiff.TrimTime(cfg, start, ops + StepOps(s, input, fx))
         == if StepOps(s, input, fx) != []
               && (fx.accepted.Some? || Vardiff.Since(input.now, s.vardiff.lastChange) >= cfg.retargetSeconds)
            then input.now else Vardiff.TrimTime(cfg, start, ops)
  {
    hide Vardiff.StateAfter, Vardiff.Recorded;
    var last := StepOps(s, input, fx);
    if |last| == 1 {
      assert (ops + last)[..|ops|] == ops;
    } else if |last| == 2 {
      var mid := ops + [last[0]];
      assert (ops + last)[..|ops| + 1] == mid && mid[..|ops|] == ops;
      ShareKeepsLastChange(cfg, start, ops, last[0]);
    } else {
      assert ops + last == ops;
    }
  }

  lemma ShareKeepsLastChange(cfg: Vardiff.Config, start: real, ops: seq<Vardiff.Op>, share: Vardiff.Op)
    requires Vardiff.Callable(ops) && share.OnShare?
    ensures Vardiff.Callable(ops + [share])
    ensures Vardiff.StateAfter(cfg, Vardiff.State([], start, start), ops + [share]).lastChange
         == Vardiff.StateAfter(cfg, Vardiff.State([], start, start), ops).lastChange
  {
    hide Vardiff.Trimmed;
    assert (ops + [share])[..|ops|] == ops;
  }

  lemma {:induction false} TrimTimeIs(env: Env, ins: seq<Input>, n: nat)
    requires env.cfg.Valid() && n <= |ins|
    ensures Vardiff.Callable(Ops(env, ins, n))
    ensures Vardiff.TrimTime(env.cfg, env.started, Ops(env, ins, n)) == TrimmedAt(env, ins, n)
  {
    hide StepOps, Effect, Before, Sane, Vardiff.StateAfter, Vardiff.TrimTime, Vardiff.Callable;
    EstimatorFollows(env, ins, n);
    if n > 0 {
      TrimTimeIs(env, ins, n - 1);
      EstimatorFollows(env, ins, n - 1);
      var s, fx, ops := Before(env, ins, n - 1), Effect(env, ins, n - 1), Ops(env, ins, n - 1);
      assert Ops(env, ins, n) == ops + StepOps(s, ins[n - 1], fx);
      hide Ops;
      TickAcceptsNothing(env, ins, n - 1);
      LastCallable(ops, StepOps(s, ins[n - 1], fx));
      TrimAfterStep(env.cfg, env.started, ops, s, ins[n - 1], fx);
    } else {
      NoTrim(env.cfg, env.started);
    }
  }

  lemma LastCallable(a: seq<Vardiff.Op>, b: seq<Vardiff.Op>)
    requires Vardiff.Callable(a + b)
    ensures Vardiff.Callable(b)
  {
    assert forall i :: 0 <= i < |b| ==> b[i] == (a + b)[|a| + i];
  }

  lemma NoTrim(cfg: Vardiff.Config, start: real)
    ensures Vardiff.TrimTime(cfg, start, []) == start
  {
  }

  lemma TickAcceptsNothing(env: Env, ins: seq<Input>, i: nat)
    requires env.cfg.Valid() && i < |ins|
    ensures ins[i].Tick? ==> Effect(env, ins, i).accepted.None?
  {
    if ins[i].Tick? {
      RetargetFrame(env, Before(env, ins, i), NOTHING, ins[i].now);
      hide Retarget, Before;
    }
  }

  /** Over any run in time order a session's estimator holds exactly the last at most 512 shares it
      accepted that were inside the window at its last trim, each at its job's difficulty. */
  lemma EstimatorHoldsAccepted(env: Env, ins: seq<Input>, n: nat)
    requires env.cfg.Valid() && n <= |ins| && InTime(env, ins)
    ensures Before(env, ins, n).vardiff.shares
         == Vardiff.Trimmed(Vardiff.Last(AcceptedShares(env, ins, n)), TrimmedAt(env, ins, n), env.cfg.Window())
    ensures Vardiff.InOrder(AcceptedShares(env, ins, n))
    ensures forall i :: 0 <= i < |AcceptedShares(env, ins, n)| ==>
        AcceptedShares(env, ins, n)[i].0 <= TrimmedAt(env, ins, n)
    ensures env.started <= TrimmedAt(env, ins, n)
  {
    hide Before, Vardiff.StateAfter, Vardiff.Trimmed, Vardiff.Last, TrimmedAt, Vardiff.TrimTime, Vardiff.InOrder;
    EstimatorFollows(env, ins, n);
    HistoryIsAccepted(env, ins, n);
    OpsInTime(env, ins, n);
    TrimTimeIs(env, ins, n);
    Vardiff.DequeIsRecentHistory(env.cfg, env.started, Ops(env, ins, n));
  }

  /** No trim lies after the latest timed input. */
  lemma {:induction false} TrimmedByNow(env: Env, ins: seq<Input>, n: nat)
    requires env.cfg.Valid() && n <= |ins| && InTime(env, ins)
    ensures TrimmedAt(env, ins, n) == env.started
         || exists i :: 0 <= i < n && Timed(ins[i]) && TrimmedAt(env, ins, n) == ins[i].now
  {
    hide Before, Effect;
    if n > 0 {
      TrimmedByNow(env, ins, n - 1);
    }
  }

  // ---------- retargets ----------

  /** Step `i` changed the difficulty by retargeting: not on the miner's own suggestion. */
  ghost predicate Retargets(env: Env, ins: seq<Input>, i: nat)
    requires env.cfg.Valid()
  {
    i < |ins| && Timed(ins[i]) && Before(env, ins, i).difficulty != Before(env, ins, i + 1).difficulty
  }

  lemma RetargetMoves(env: Env, s: State, fx: Effects, now: real)
    requires Sane(env, s)
    ensures var t := Retarget(env, s, fx, now).0;
            || (t.vardiff.lastChange == s.vardiff.lastChange && t.difficulty == s.difficulty)
            || (t.vardiff.lastChange == now && now - s.vardiff.lastChange >= env.cfg.retargetSeconds)
  {
    hide Vardiff.Proposal, Vardiff.Optimal, Vardiff.Trimmed;
  }

  lemma StepMoves(env: Env, s: State, input: Input)
    requires Sane(env, s)
    ensures var t := Step(env, s, input).0;
            || (t.vardiff.lastChange == s.vardiff.lastChange && (Timed(input) ==> t.difficulty == s.difficulty))
            || (Timed(input) && t.vardiff.lastChange == input.now
                && input.now - s.vardiff.lastChange >= env.cfg.retargetSeconds)
  {
    hide SendJob, Retarget, SubmitStep, Sane, AuthorizeStep, StepOps, AgedAll;
    match input {
      case SubmitShare(jobId, submit, now, nowUnix) =>
        SubmitMoves(env, s, jobId, submit, now, nowUnix);
      case Tick(now) =>
        RetargetMoves(env, s, NOTHING, now);
      case Authorize(username, password) =>
        AuthorizeFollows(env, s, username, password);
      case OnWork(work) =>
        AgedSane(env, s, work);
        var made := SendJobMakes(env, s.(jobs := AgedAll(s.jobs, work), work := Some(work)), NOTHING, work.cleanJobs);
      case Suggest(_) =>
    }
  }

  lemma SubmitMoves(env: Env, s: State, jobId: nat, submit: Submit, now: real, nowUnix: nat)
    requires Sane(env, s)
    ensures var t := SubmitStep(env, s, jobId, submit, now, nowUnix).0;
            || (t.vardiff.lastChange == s.vardiff.lastChange && t.difficulty == s.difficulty)
            || (t.vardiff.lastChange == now && now - s.vardiff.lastChange >= env.cfg.retargetSeconds)
  {
    hide Judge, Retarget, FindJob, AcceptedKey, Vardiff.Trimmed;
    if s.payout.Some? && submit.worker in s.workers && FindJob(s.jobs, jobId).Some? {
      var k := FindJob(s.jobs, jobId).value;
      var job, address := s.jobs[k], s.payout.value.parent.address;
      var v := Judge(env.h, job, env.extranonce1, submit, address, nowUnix);
      var event := ShareEvent(env, job, submit.worker, v.outcome);
      var t := s.(jobs := s.jobs[k := v.job]);
      JudgeKeepsParts(env.h, job, env.extranonce1, submit, address, nowUnix);
      if v.outcome.Rejected? {
        RetargetMoves(env, t, NOTHING.(reply := Denied(Reject(v.outcome.reason)), events := [event]), now);
      } else {
        RetargetMoves(env, t.(vardiff := Vardiff.Recorded(env.cfg, t.vardiff, now, job.difficulty)),
                      NOTHING.(reply := Granted, accepted := Some((jobId, AcceptedKey(submit))), blocks := v.blocks,
                               events := [event]), now);
      }
    }
  }

  lemma RunMoves(env: Env, ins: seq<Input>, i: nat)
    requires env.cfg.Valid() && i < |ins|
    ensures var s, t := Before(env, ins, i), Before(env, ins, i + 1);
            || (t.vardiff.lastChange == s.vardiff.lastChange && !Retargets(env, ins, i))
            || (Timed(ins[i]) && t.vardiff.lastChange == ins[i].now
                && ins[i].now - s.vardiff.lastChange >= env.cfg.retargetSeconds)
  {
    hide Step, Sane;
    BeforeNext(env, ins, i);
    StepMoves(env, Before(env, ins, i), ins[i]);
  }

  lemma {:induction false} LastChangeGrows(env: Env, ins: seq<Input>, i: nat, j: nat)
    requires env.cfg.Valid() && i <= j <= |ins|
    ensures Before(env, ins, i).vardiff.lastChange <= Before(env, ins, j).vardiff.lastChange
  {
    hide Before, Sane, Retargets;
    if i < j {
      LastChangeGrows(env, ins, i, j - 1);
      RunMoves(env, ins, j - 1);
    }
  }

  /** Over any run two retargets of a session are at least `retarget_seconds` apart, whatever happens
      and is suggested in between; the first is as long after the start. */
  lemma SessionRetargetsApart(env: Env, ins: seq<Input>, i: nat, j: nat)
    requires env.cfg.Valid() && Retargets(env, ins, j)
    ensures ins[j].now - env.started >= env.cfg.retargetSeconds
    ensures i < j && Retargets(env, ins, i) ==> ins[j].now - ins[i].now >= env.cfg.retargetSeconds
  {
    assert ins[..0] == [];
    assert Before(env, ins, 0).vardiff.lastChange == env.started;
    hide Before, Sane;
    RunMoves(env, ins, j);
    LastChangeGrows(env, ins, 0, j);
    if i < j && Retargets(env, ins, i) {
      RunMoves(env, ins, i);
      LastChangeGrows(env, ins, i + 1, j);
    }
  }
}
