/** The session as the object the connection handler drives: its fields change in place, request by
    request, exactly as the state machine of module Session says. */
module Connection {
  import opened Wrappers
  import opened Work
  import opened Coinbase
  import opened Jobs
  import opened Events
  import opened Session
  import V = Validate
  import Vardiff

  class Conn {
    const env: Env
    var payout: Option<Payouts>
    var workers: seq<string>
    var difficulty: real
    var nextJob: nat
    var jobs: seq<SessionJob>
    var work: Option<MergedWork>
    const vardiff: Vardiff.Estimator

    function View(): State
      reads this, vardiff
    {
      State(payout, workers, difficulty, nextJob, jobs, work, vardiff.View())
    }

    ghost predicate Valid()
      reads this, vardiff
    {
      vardiff.cfg == env.cfg && Sane(env, View())
    }

    constructor (env: Env)
      requires env.cfg.Valid()
      ensures Valid() && this.env == env && View() == Initial(env) && fresh(vardiff)
    {
      this.env := env;
      payout, workers, difficulty, nextJob := None, [], env.cfg.initialDifficulty, 1;
      jobs, work := [], None;
      vardiff := new Vardiff.Estimator(env.cfg, env.started);
    }

    method SetDifficulty(d: real, fx: Effects) returns (fx': Effects)
      modifies this`difficulty
      ensures (View(), fx') == WithDifficulty(env, old(View()), fx, d)
    {
      difficulty := d;
      fx' := fx.(events := fx.events + [DifficultyChanged(env.id, d)]);
    }

    method MaybeRetarget(now: real, fx: Effects) returns (fx': Effects)
      requires Valid()
      modifies this, vardiff
      ensures Valid() && (View(), fx') == Retarget(env, old(View()), fx, now)
    {
      RetargetKeepsSane(env, View(), fx, now);
      hide Vardiff.Evaluated;
      var d := vardiff.Evaluate(now, difficulty);
      fx' := fx;
      if d.Some? {
        fx' := SetDifficulty(d.value, fx);
      }
    }

    /** Send the current work as a new job, if there is work and a payout. */
    method SendJob(clean: bool, fx: Effects) returns (fx': Effects)
      requires Valid()
      modifies this
      ensures Valid() && (View(), fx') == Session.SendJob(env, old(View()), fx, clean)
    {
      ghost var s := View();
      SendJobKeepsSane(env, s, fx, clean);
      hide Session.SendJob, Sane, Newest;
      if work.None? || payout.None? {
        NothingToSend(env, s, fx, clean);
        return fx;
      }
      fx' := SendMade(clean, fx);
    }

    /** The same, once there are both. */
    method SendMade(clean: bool, fx: Effects) returns (fx': Effects)
      requires Valid() && work.Some? && payout.Some?
      modifies this`nextJob, this`jobs
      ensures (View(), fx') == Session.SendJob(env, old(View()), fx, clean)
    {
      hide Session.SendJob, Sane, Newest;
      ghost var s := View();
      var made := MakeJob(env, View(), fx, clean);
      if made.Err? {
        return if made.error then fx.(panicked := true) else fx.(close := true);
      }
      fx' := Announce(made.value, clean, fx);
      assert View() == s.(nextJob := s.nextJob + 1, jobs := Newest(s.jobs + [made.value]));
    }

    /** Notify the miner of a job and keep it. */
    method Announce(job: SessionJob, clean: bool, fx: Effects) returns (fx': Effects)
      modifies this`nextJob, this`jobs
      ensures nextJob == old(nextJob) + 1 && jobs == Newest(old(jobs) + [job])
      ensures fx' == fx.(notified := Some((old(nextJob), clean || old(jobs) == [])))
    {
      hide Newest;
      var cleanJobs := clean || jobs == [];
      fx' := fx.(notified := Some((nextJob, cleanJobs)));
      nextJob := nextJob + 1;
      Enqueue(job);
    }

    /** `push_back`, then `pop_front` while there are too many. */
    method Enqueue(job: SessionJob)
      modifies this`jobs
      ensures jobs == Newest(old(jobs) + [job])
    {
      jobs := jobs + [job];
      ghost var all := jobs;
      while |jobs| > MAX_JOBS
        invariant |jobs| <= |all| && jobs == all[|all| - |jobs|..]
        invariant |jobs| < |all| ==> |jobs| >= MAX_JOBS
        decreases |jobs|
      {
        jobs := jobs[1..];
      }
    }

    method Authorize(username: string, password: string) returns (fx: Effects)
      requires Valid()
      modifies this
      ensures Valid() && (View(), fx) == AuthorizeStep(env, old(View()), username, password)
    {
      AuthorizeKeepsSane(env, View(), username, password);
      hide Session.SendJob, Resolve, SameScripts;
      if username == [] {
        return NOTHING.(reply := Denied(MissingUsername));
      }
      var resolved := Resolve(env.payouts, username, password);
      if payout.Some? && !SameScripts(payout.value, resolved) {
        return NOTHING.(reply := Denied(OtherAddress));
      }
      var first := payout.None?;
      if username !in workers {
        workers := workers + [username];
      }
      fx := NOTHING.(reply := Granted,
                     events := [Authorized(env.id, username, resolved.parent.address, resolved.parent.fallback,
                                           AuxInfos(resolved.aux))]);
      payout := Some(resolved);
      if first {
        fx := SetDifficulty(difficulty, fx);
        fx := SendJob(false, fx);
      }
    }

    method Find(jobId: nat) returns (found: Option<nat>)
      ensures found == FindJob(jobs, jobId)
    {
      var i := 0;
      while i < |jobs|
        invariant 0 <= i <= |jobs|
        invariant FindJob(jobs, jobId)
            == (match FindJob(jobs[i..], jobId) case None => None case Some(k) => Some(i + k))
      {
        if jobs[i].id == jobId {
          return Some(i);
        }
        assert jobs[i..][1..] == jobs[i + 1..];
        i := i + 1;
      }
      return None;
    }

    method Submit(jobId: nat, submit: V.Submit, now: real, nowUnix: nat) returns (fx: Effects)
      requires Valid()
      modifies this, vardiff
      ensures Valid() && (View(), fx) == SubmitStep(env, old(View()), jobId, submit, now, nowUnix)
    {
      SubmitKeepsSane(env, View(), jobId, submit, now, nowUnix);
      hide V.Judge, Retarget, FindJob, AcceptedKey, Vardiff.Recorded;
      if payout.None? || submit.worker !in workers {
        return NOTHING.(reply := Denied(Reject(V.Unauthorized)));
      }
      var found := Find(jobId);
      if found.None? {
        return NOTHING.(reply := Denied(Reject(V.UnknownJob)));
      }
      var i, job := found.value, jobs[found.value];
      JudgeKeepsParts(env.h, job, env.extranonce1, submit, payout.value.parent.address, nowUnix);
      var outcome, blocks, judged := V.Validate(env.h, job, env.extranonce1, submit, payout.value.parent.address,
          nowUnix);
      jobs := jobs[i := judged];
      fx := NOTHING.(events := [ShareEvent(env, job, submit.worker, outcome)]);
      if outcome.Rejected? {
        fx := fx.(reply := Denied(Reject(outcome.reason)));
      } else {
        vardiff.OnShare(now, job.difficulty);
        fx := fx.(reply := Granted, accepted := Some((jobId, AcceptedKey(submit))), blocks := blocks);
      }
      fx := MaybeRetarget(now, fx);
    }

    method TimerTick(now: real) returns (fx: Effects)
      requires Valid()
      modifies this, vardiff
      ensures Valid() && (View(), fx) == TickStep(env, old(View()), now)
    {
      hide Retarget;
      fx := NOTHING;
      if payout.Some? {
        fx := MaybeRetarget(now, fx);
      }
    }

    method SuggestDifficulty(suggested: real) returns (fx: Effects)
      requires Valid()
      modifies this`difficulty
      ensures Valid() && (View(), fx) == SuggestStep(env, old(View()), suggested)
    {
      fx := NOTHING.(reply := Granted);
      if suggested > 0.0 {
        var d := env.cfg.Clamped(suggested);
        var change := d - difficulty;
        if (if change < 0.0 then -change else change) > EPSILON {
          fx := SetDifficulty(d, fx);
        }
      }
    }

    method NewWork(w: MergedWork) returns (fx: Effects)
      requires Valid()
      modifies this
      ensures Valid() && (View(), fx) == WorkStep(env, old(View()), w)
    {
      hide Session.SendJob, Aged;
      var i := 0;
      while i < |jobs|
        invariant 0 <= i <= |jobs| == |old(jobs)|
        invariant forall k :: 0 <= k < i ==> jobs[k] == Aged(old(jobs)[k], w)
        invariant forall k :: i <= k < |jobs| ==> jobs[k] == old(jobs)[k]
        invariant View() == old(View()).(jobs := jobs)
      {
        var aged := Age(jobs[i], w);
        jobs := jobs[i := aged];
        i := i + 1;
      }
      assert jobs == AgedAll(old(jobs), w);
      AgingKeepsParts(old(jobs), w);
      work := Some(w);
      fx := SendJob(w.cleanJobs, NOTHING);
    }
  }

  lemma NothingToSend(env: Env, s: State, fx: Effects, clean: bool)
    requires Sane(env, s) && (s.work.None? || s.payout.None?)
    ensures Session.SendJob(env, s, fx, clean) == (s, fx)
  {
  }

  /** The job to send; Err(true) is the failed `expect`, Err(false) a coinbase that does not fit. */
  method MakeJob(env: Env, s: State, ghost fx: Effects, ghost clean: bool) returns (r: Result<SessionJob, bool>)
    requires Sane(env, s) && s.work.Some? && s.payout.Some?
    ensures Session.SendJob(env, s, fx, clean) ==
              match r
              case Err(panics) => (s, if panics then fx.(panicked := true) else fx.(close := true))
              case Ok(job) => (s.(nextJob := s.nextJob + 1, jobs := Newest(s.jobs + [job])),
                               fx.(notified := Some((s.nextJob, clean || s.jobs == []))))
  {
    hide BuildAux, BuildParts, Algorithm.ShareTarget, Newest;
    var built := BuildAuxJobs(env.h, s.work.value, s.payout.value);
    if built.Failed? {
      return Err(false);
    }
    if built.Panicked? {
      return Err(true);
    }
    var parts := Coinbase.Build(s.work.value.parent, s.payout.value.parent.script, built.commitment,
                                EXTRANONCE1_LEN + EXTRANONCE2_LEN);
    if parts.Err? {
      return Err(false);
    }
    return Ok(NewJob(s, s.work.value.parent, parts.value, built.aux));
  }

  lemma AgingKeepsParts(jobs: seq<SessionJob>, w: MergedWork)
    requires forall i :: 0 <= i < |jobs| ==> V.PartsFit(jobs[i])
    ensures forall i :: 0 <= i < |jobs| ==> V.PartsFit(AgedAll(jobs, w)[i])
  {
  }

  /** One job against new work: its own flag, then every aux block's. */
  method Age(job: SessionJob, w: MergedWork) returns (aged: SessionJob)
    ensures aged == Aged(job, w)
  {
    aged := if w.cleanJobs then job.(stale := true) else job;
    var aux := aged.aux;
    var i := 0;
    while i < |aux|
      invariant 0 <= i <= |aux| == |job.aux|
      invariant forall k :: 0 <= k < i ==> aux[k] == Aged(job, w).aux[k]
      invariant forall k :: i <= k < |aux| ==> aux[k] == job.aux[k]
    {
      var current := HasTip(w, aux[i]);
      aux := aux[i := aux[i].(stale := aux[i].stale || !current)];
      i := i + 1;
    }
    aged := aged.(aux := aux);
  }

  method HasTip(w: MergedWork, aux: AuxJob) returns (current: bool)
    ensures current == IsCurrent(w, aux)
  {
    var i := 0;
    while i < |w.aux|
      invariant 0 <= i <= |w.aux|
      invariant forall k :: 0 <= k < i ==> !(w.aux[k].coin == aux.work.coin && w.aux[k].prevHash == aux.work.prevHash)
    {
      if w.aux[i].coin == aux.work.coin && w.aux[i].prevHash == aux.work.prevHash {
        return true;
      }
      i := i + 1;
    }
    return false;
  }
}
