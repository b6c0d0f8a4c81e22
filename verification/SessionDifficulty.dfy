/** A session follows its estimator: unless the miner suggests a difficulty, the session's is the one the
    estimator's decisions lead to, and so a steady miner's reaches its optimum. */
module SessionDifficulty {
  import opened Wrappers
  import opened Bytes
  import opened Validate
  import opened Events
  import opened Session
  import opened SessionSteps
  import opened SessionRuns
  import opened SessionVardiff
  import opened Retargeting
  import Vardiff

  // ---------- decisions one after another ----------

  lemma {:induction false} FinalOfParts(
    cfg: Vardiff.Config, v: Vardiff.State, a: seq<Vardiff.Op>, b: seq<Vardiff.Op>, current: real)
    requires Vardiff.Callable(a) && Vardiff.Callable(b)
    ensures Vardiff.Callable(a + b)
    ensures Final(cfg, v, a + b, current) == Final(cfg, Vardiff.StateAfter(cfg, v, a), b, Final(cfg, v, a, current))
    decreases |a|
  {
    hide Vardiff.Apply, Vardiff.StateAfter;
    assert Vardiff.Callable(a + b);
    if a == [] {
      Nothing(cfg, v);
      assert a + b == b;
    } else {
      var rest := a[1..];
      var (t, d) := Vardiff.Apply(cfg, v, a[0]);
      assert (a + b)[1..] == rest + b && (a + b)[0] == a[0];
      assert Vardiff.Callable(rest) by {
        assert forall i :: 0 <= i < |rest| ==> rest[i] == a[i + 1];
      }
      FinalOfParts(cfg, t, rest, b, if d.Some? then d.value else current);
      OneOp(cfg, v, a[0]);
      Concatenated(cfg, v, [a[0]], rest);
      assert [a[0]] + rest == a;
    }
  }

  lemma FinalOfTwo(cfg: Vardiff.Config, v: Vardiff.State, a: Vardiff.Op, b: Vardiff.Op, current: real)
    requires a.OnShare? && (b.Evaluate? ==> b.current > 0.0)
    ensures Vardiff.Callable([a, b]) && Vardiff.Callable([b]) && Vardiff.Callable([])
    ensures var d := Vardiff.Apply(cfg, Vardiff.Apply(cfg, v, a).0, b).1;
            Final(cfg, v, [a, b], current) == if d.Some? then d.value else current
    ensures var d := Vardiff.Apply(cfg, v, b).1;
            Final(cfg, v, [b], current) == if d.Some? then d.value else current
    ensures Final(cfg, v, [], current) == current
  {
    FinalOfOne(cfg, v, b, current);
    FinalOfOne(cfg, Vardiff.Apply(cfg, v, a).0, b, current);
    assert Vardiff.Apply(cfg, v, a).1.None?;
    hide Vardiff.Apply;
    assert [a, b][1..] == [b];
  }

  lemma FinalOfOne(cfg: Vardiff.Config, v: Vardiff.State, b: Vardiff.Op, current: real)
    requires b.Evaluate? ==> b.current > 0.0
    ensures Vardiff.Callable([b]) && Vardiff.Callable([])
    ensures var d := Vardiff.Apply(cfg, v, b).1;
            Final(cfg, v, [b], current) == if d.Some? then d.value else current
    ensures Final(cfg, v, [], current) == current
  {
    hide Vardiff.Apply;
    assert [b][1..] == [];
  }

  // ---------- one step ----------

  lemma RetargetGoes(env: Env, s: State, fx: Effects, now: real)
    requires Sane(env, s)
    ensures var d := Vardiff.Apply(env.cfg, s.vardiff, Vardiff.Evaluate(now, s.difficulty)).1;
            Retarget(env, s, fx, now).0.difficulty == if d.Some? then d.value else s.difficulty
  {
    hide Vardiff.Evaluated;
  }

  /** A step other than a suggestion takes the difficulty where its own operations on the estimator do. */
  lemma StepGoes(env: Env, s: State, input: Input)
    requires Sane(env, s) && !input.Suggest?
    ensures var (t, fx) := Step(env, s, input); var ops := StepOps(s, input, fx);
            Vardiff.Callable(ops) && t.difficulty == Final(env.cfg, s.vardiff, ops, s.difficulty)
  {
    hide SendJob, Retarget, SubmitStep, Resolve, SameScripts, AuxInfos, AgedAll, Sane, Vardiff.Apply, Final;
    StepFollows(env, s, input);
    PositiveDifficulty(env, s);
    FinalOfOne(env.cfg, s.vardiff, Vardiff.Evaluate(0.0, s.difficulty), s.difficulty);
    match input {
      case SubmitShare(jobId, submit, now, nowUnix) =>
        SubmitGoes(env, s, jobId, submit, now, nowUnix);
      case Tick(now) =>
        RetargetGoes(env, s, NOTHING, now);
        FinalOfOne(env.cfg, s.vardiff, Vardiff.Evaluate(now, s.difficulty), s.difficulty);
      case Authorize(username, password) =>
        AuthorizeGoes(env, s, username, password);
      case OnWork(work) =>
        AgedSane(env, s, work);
        var made := SendJobMakes(env, s.(jobs := AgedAll(s.jobs, work), work := Some(work)), NOTHING, work.cleanJobs);
      case Suggest(_) =>
    }
  }

  lemma AuthorizeGoes(env: Env, s: State, username: string, password: string)
    requires Sane(env, s)
    ensures AuthorizeStep(env, s, username, password).0.difficulty == s.difficulty
  {
    hide SendJob, Resolve, SameScripts, AuxInfos;
    if username != [] && s.payout.None? {
      var payout := Resolve(env.payouts, username, password);
      var workers := if username in s.workers then s.workers else s.workers + [username];
      var event := Authorized(env.id, username, payout.parent.address, payout.parent.fallback, AuxInfos(payout.aux));
      var (u, fx2) := WithDifficulty(env, s.(workers := workers, payout := Some(payout)),
                                     NOTHING.(reply := Granted, events := [event]), s.difficulty);
      var made := SendJobMakes(env, u, fx2, false);
    }
  }

  lemma SubmitGoes(env: Env, s: State, jobId: nat, submit: Submit, now: real, nowUnix: nat)
    requires Sane(env, s)
    ensures var (t, fx) := SubmitStep(env, s, jobId, submit, now, nowUnix);
            var ops := StepOps(s, SubmitShare(jobId, submit, now, nowUnix), fx);
            Vardiff.Callable(ops) && t.difficulty == Final(env.cfg, s.vardiff, ops, s.difficulty)
  {
    PositiveDifficulty(env, s);
    FinalOfOne(env.cfg, s.vardiff, Vardiff.Evaluate(now, s.difficulty), s.difficulty);
    hide Judge, Retarget, FindJob, AcceptedKey, Vardiff.Recorded, Final, Vardiff.Callable, StepOps, Sane;
    var input := SubmitShare(jobId, submit, now, nowUnix);
    if s.payout.Some? && submit.worker in s.workers && FindJob(s.jobs, jobId).Some? {
      var k := FindJob(s.jobs, jobId).value;
      var job, address := s.jobs[k], s.payout.value.parent.address;
      var v := Judge(env.h, job, env.extranonce1, submit, address, nowUnix);
      var event := ShareEvent(env, job, submit.worker, v.outcome);
      var t := s.(jobs := s.jobs[k := v.job]);
      EnteringSane(env, s, k, v.job, now, job.difficulty);
      JudgeKeepsParts(env.h, job, env.extranonce1, submit, address, nowUnix);
      if v.outcome.Rejected? {
        JudgedGoes(env, s, t, NOTHING.(reply := Denied(Reject(v.outcome.reason)), events := [event]), input);
      } else {
        JudgedGoes(env, s, t.(vardiff := Vardiff.Recorded(env.cfg, t.vardiff, now, job.difficulty)),
                   NOTHING.(reply := Granted, accepted := Some((jobId, AcceptedKey(submit))), blocks := v.blocks,
                            events := [event]), input);
      }
    } else {
      NothingAsked(s, input);
    }
  }

  lemma JudgedGoes(env: Env, s: State, u: State, fx: Effects, input: Input)
    requires Sane(env, s) && Sane(env, u) && u.difficulty == s.difficulty && input.SubmitShare?
    requires |fx.events| == 1 && fx.events[0].Share?
    requires u.vardiff == if fx.accepted.Some?
                          then Vardiff.Recorded(env.cfg, s.vardiff, input.now, fx.events[0].jobDifficulty)
                          else s.vardiff
    ensures var (t, fx2) := Retarget(env, u, fx, input.now); var ops := StepOps(s, input, fx2);
            Vardiff.Callable(ops) && t.difficulty == Final(env.cfg, s.vardiff, ops, s.difficulty)
  {
    PositiveDifficulty(env, s);
    var share, evaluation := Vardiff.OnShare(input.now, fx.events[0].jobDifficulty),
        Vardiff.Evaluate(input.now, s.difficulty);
    FinalOfTwo(env.cfg, s.vardiff, share, evaluation, s.difficulty);
    hide Retarget, Vardiff.Recorded, Vardiff.Evaluated, Final, Vardiff.Callable, Sane;
    RetargetFrame(env, u, fx, input.now);
    RetargetGoes(env, u, fx, input.now);
    var fx2 := Retarget(env, u, fx, input.now).1;
    assert fx2.events[0] == fx2.events[..1][0] == fx.events[0];
    assert [share] + [evaluation] == [share, evaluation] && [] + [evaluation] == [evaluation];
  }

  // ---------- runs ----------

  /** What a session asks of its estimator in steps `i..n`. */
  function OpsFrom(env: Env, ins: seq<Input>, i: nat, n: nat): seq<Vardiff.Op>
    requires env.cfg.Valid() && i <= n <= |ins|
    decreases n
  {
    if n == i then []
    else OpsFrom(env, ins, i, n - 1) + StepOps(Before(env, ins, n - 1), ins[n - 1], Effect(env, ins, n - 1))
  }

  /** Over any stretch of a run without suggestions the session's difficulty goes where the estimator's
      decisions take it. */
  lemma {:induction false} DifficultyGoes(env: Env, ins: seq<Input>, i: nat, n: nat)
    requires env.cfg.Valid() && i <= n <= |ins| && forall m :: i <= m < n ==> !ins[m].Suggest?
    ensures Vardiff.Callable(OpsFrom(env, ins, i, n))
    ensures var s, t, ops := Before(env, ins, i), Before(env, ins, n), OpsFrom(env, ins, i, n);
            && t.vardiff == Vardiff.StateAfter(env.cfg, s.vardiff, ops)
            && t.difficulty == Final(env.cfg, s.vardiff, ops, s.difficulty)
    decreases n
  {
    hide *;
    OpsNext(env, ins, i, n);
    var s := Before(env, ins, i);
    if n == i {
      Nothing(env.cfg, s.vardiff);
      FinalOfNone(env.cfg, s.vardiff, s.difficulty);
    } else {
      DifficultyGoes(env, ins, i, n - 1);
      StepIs(env, ins, n - 1);
      var u, ops := Before(env, ins, n - 1), OpsFrom(env, ins, i, n - 1);
      var more := StepOps(u, ins[n - 1], Effect(env, ins, n - 1));
      FinalOfParts(env.cfg, s.vardiff, ops, more, s.difficulty);
      Concatenated(env.cfg, s.vardiff, ops, more);
    }
  }

  lemma OpsNext(env: Env, ins: seq<Input>, i: nat, n: nat)
    requires env.cfg.Valid() && i <= n <= |ins|
    ensures OpsFrom(env, ins, i, i) == []
    ensures i < n ==> OpsFrom(env, ins, i, n) == OpsFrom(env, ins, i, n - 1)
                                                + StepOps(Before(env, ins, n - 1), ins[n - 1], Effect(env, ins, n - 1))
  {
    hide Before, StepOps, Effect, Sane;
  }

  lemma FinalOfNone(cfg: Vardiff.Config, v: Vardiff.State, current: real)
    ensures Vardiff.Callable([]) && Final(cfg, v, [], current) == current
  {
  }

  lemma StepIs(env: Env, ins: seq<Input>, n: nat)
    requires env.cfg.Valid() && n < |ins| && !ins[n].Suggest?
    ensures var u, t, ops := Before(env, ins, n), Before(env, ins, n + 1),
                StepOps(Before(env, ins, n), ins[n], Effect(env, ins, n));
            && Vardiff.Callable(ops) && t.vardiff == Vardiff.StateAfter(env.cfg, u.vardiff, ops)
            && t.difficulty == Final(env.cfg, u.vardiff, ops, u.difficulty)
  {
    BeforeNext(env, ins, n);
    hide Before, Step, StepOps, Vardiff.StateAfter, Final, Sane, Vardiff.Callable;
    StepFollows(env, Before(env, ins, n), ins[n]);
    StepGoes(env, Before(env, ins, n), ins[n]);
  }

  /** From step `i` to step `n` the session sees the same optimum, at most k doublings away, and makes at
      least k decisions. */
  ghost predicate SteadyFrom(env: Env, ins: seq<Input>, i: nat, n: nat, optimal: real, k: nat)
    requires env.cfg.Valid() && i <= n <= |ins|
  {
    var s, ops := Before(env, ins, i), OpsFrom(env, ins, i, n);
    && Vardiff.InRange(env.cfg, optimal) && Vardiff.Callable(ops)
    && Vardiff.Steady(env.cfg, s.vardiff, ops, s.difficulty, optimal)
    && optimal <= s.difficulty * Pow2(k) as real && s.difficulty <= optimal * Pow2(k) as real
    && Decisions(env.cfg, s.vardiff, ops) >= k
  }

  /** So a steady miner's difficulty gets near its optimum in as many decisions as it is doublings away,
      and stays there. */
  lemma SessionReaches(env: Env, ins: seq<Input>, i: nat, n: nat, optimal: real, k: nat)
    requires env.cfg.Valid() && i <= n <= |ins| && SteadyFrom(env, ins, i, n, optimal, k)
    requires forall m :: i <= m < n ==> !ins[m].Suggest?
    ensures Near(env.cfg, Before(env, ins, n).difficulty, optimal)
  {
    hide *;
    DifficultyGoes(env, ins, i, n);
    SteadyEnds(env, ins, i, n, optimal, k);
  }

  lemma SteadyEnds(env: Env, ins: seq<Input>, i: nat, n: nat, optimal: real, k: nat)
    requires env.cfg.Valid() && i <= n <= |ins| && SteadyFrom(env, ins, i, n, optimal, k)
    requires Vardiff.Callable(OpsFrom(env, ins, i, n))
    ensures var s := Before(env, ins, i);
            Near(env.cfg, Final(env.cfg, s.vardiff, OpsFrom(env, ins, i, n), s.difficulty), optimal)
  {
    hide Before, OpsFrom, Vardiff.Steady, Final, Pow2, Decisions, Near;
    var s := Before(env, ins, i);
    RunReaches(env.cfg, s.vardiff, OpsFrom(env, ins, i, n), s.difficulty, optimal, k);
  }
}
