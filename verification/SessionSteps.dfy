/** What one step of a session does to its jobs, its payouts and its work. */
module SessionSteps {
  import opened Bytes
  import opened Wrappers
  import opened Work
  import opened Jobs
  import opened Validate
  import opened Events
  import opened Session
  import Vardiff
  import Target

  // ---------- what a step does to one job ----------

  function AgedBy(job: SessionJob, input: Input): SessionJob {
    if input.OnWork? then Aged(job, input.work) else job
  }

  /** A submit that reaches a job, if there is one of its id. */
  predicate Reaches(s: State, input: Input) {
    input.SubmitShare? && s.payout.Some? && input.submit.worker in s.workers
  }

  /** The submit enters the job's seen shares, unless it is among them already. */
  predicate Enters(job: SessionJob, input: Input)
    requires input.SubmitShare?
  {
    input.jobId == job.id && Timely(job, input.submit, input.nowUnix)
  }

  function SeenAfter(job: SessionJob, input: Input, reaches: bool): set<(u32, u32, u32)> {
    if reaches && input.SubmitShare? && Enters(job, input) then job.seen + {ShareKey(input.submit)} else job.seen
  }

  /** `b` is `a` one step later: new work may raise stale flags, and a submit that reaches it and
      passes the first checks is entered. */
  predicate Succeeds(a: SessionJob, b: SessionJob, input: Input, reaches: bool) {
    b == AgedBy(a, input).(seen := SeenAfter(a, input, reaches))
  }

  /** A job just sent from the state's work, payout and difficulty. */
  ghost predicate Fresh(env: Env, t: State, id: nat, job: SessionJob) {
    && job.id == id && !job.stale && job.seen == {}
    && (forall m :: 0 <= m < |job.aux| ==> !job.aux[m].stale)
    && t.work.Some? && t.payout.Some? && MadeFrom(env.h, job, t.work.value, t.payout.value)
    && t.difficulty > 0.0 && job.difficulty == t.difficulty
    && job.target == job.work.algorithm.ShareTarget(t.difficulty)
  }

  predicate HasSource(s: State, job: SessionJob, input: Input) {
    exists k :: 0 <= k < |s.jobs| && Succeeds(s.jobs[k], job, input, Reaches(s, input))
  }

  /** Exactly the MAX_JOBS newest jobs are held, under consecutive ids. */
  predicate IdsOrdered(s: State) {
    && s.nextJob >= 1 && |s.jobs| == (if s.nextJob - 1 < MAX_JOBS then s.nextJob - 1 else MAX_JOBS)
    && forall i :: 0 <= i < |s.jobs| ==> s.jobs[i].id == s.nextJob - |s.jobs| + i
  }

  /** The job an accepted share was for: not stale and not holding the key before the step, and
      where every block of the step comes from. */
  ghost predicate AcceptedBy(env: Env, s: State, input: Input, t: State, fx: Effects, k: nat) {
    && input.SubmitShare? && k < |s.jobs| == |t.jobs| && s.payout.Some?
    && |input.submit.extranonce2| == EXTRANONCE2_LEN && input.submit.worker in s.workers
    && fx.accepted == Some((s.jobs[k].id, ShareKey(input.submit)))
    && !s.jobs[k].stale && ShareKey(input.submit) !in s.jobs[k].seen
    && t.jobs[k] == s.jobs[k].(seen := s.jobs[k].seen + {ShareKey(input.submit)})
    && PartsFit(s.jobs[k])
    && Target.IsMetBy(s.jobs[k].target,
         ShareHash(env.h, s.jobs[k], env.extranonce1 + input.submit.extranonce2, input.submit))
    && fx.blocks == Assess(env.h, s.jobs[k], env.extranonce1 + input.submit.extranonce2, input.submit,
                           s.payout.value.parent.address, input.nowUnix).1
  }


  predicate Cleans(input: Input) {
    input.OnWork? && input.work.cleanJobs
  }

  /** The step relation: where jobs come from, which ids are used, when a miner is told of a job
      and of its being clean. */
  ghost predicate JobsStep(env: Env, s: State, input: Input, t: State, fx: Effects) {
    && IdsOrdered(t)
    && (forall i :: 0 <= i < |t.jobs| ==> Fresh(env, t, s.nextJob, t.jobs[i]) || HasSource(s, t.jobs[i], input))
    && (if fx.notified.Some?
        then fx.notified.value == (s.nextJob, Cleans(input) || s.jobs == []) && t.nextJob == s.nextJob + 1
             && t.jobs != [] && Fresh(env, t, s.nextJob, t.jobs[|t.jobs| - 1])
        else t.nextJob == s.nextJob && |t.jobs| == |s.jobs|)
  }

  /** Coins are fixed by the configuration, scripts by the first successful authorize. */
  predicate SamePay(a: Payouts, b: Payouts) {
    SameScripts(a, b) && forall i :: 0 <= i < |a.aux| ==> a.aux[i].coin == b.aux[i].coin
  }

  /** The payouts resolve some username and password. */
  ghost predicate Resolved(env: Env, p: Payouts) {
    exists u, w :: p == Resolve(env.payouts, u, w)
  }

  ghost predicate PayStep(env: Env, s: State, input: Input, t: State) {
    && t.work == (if input.OnWork? then Some(input.work) else s.work)
    && (s.payout.Some? ==> t.payout.Some? && SamePay(s.payout.value, t.payout.value))
    && (t.payout.Some? && s.payout.None? ==>
          input.Authorize? && t.payout.value == Resolve(env.payouts, input.username, input.password))
    && (t.payout.Some? ==> Resolved(env, t.payout.value))
  }

  // ---------- sending a job ----------

  lemma SendJobMakes(env: Env, s: State, fx: Effects, clean: bool) returns (made: Option<SessionJob>)
    requires Sane(env, s)
    ensures var (t, fx2) := SendJob(env, s, fx, clean);
            match made
            case None => t == s && fx2 == fx.(close := fx2.close, panicked := fx2.panicked)
            case Some(job) =>
              && Fresh(env, s, s.nextJob, job)
              && t == s.(nextJob := s.nextJob + 1, jobs := Newest(s.jobs + [job]))
              && fx2 == fx.(notified := Some((s.nextJob, clean || s.jobs == [])))
  {
    hide BuildAux, Coinbase.BuildParts, Algorithm.ShareTarget, Newest, ProvenBy, AuxSound;
    made := None;
    if s.work.Some? && s.payout.Some? {
      var b := BuildAux(env.h, s.work.value, s.payout.value);
      if b.Built? {
        if b.aux != [] {
          BuiltAuxSound(env.h, s.work.value, s.payout.value);
        }
        var parts := Coinbase.BuildParts(s.work.value.parent, s.payout.value.parent.script, b.commitment,
                                         EXTRANONCE1_LEN + EXTRANONCE2_LEN);
        if parts.Ok? {
          made := Some(NewJob(s, s.work.value.parent, parts.value, b.aux));
        }
      }
    }
  }

  lemma NewestOrdered(s: State, job: SessionJob)
    requires IdsOrdered(s) && job.id == s.nextJob
    ensures var t := s.(nextJob := s.nextJob + 1, jobs := Newest(s.jobs + [job]));
            && IdsOrdered(t) && t.jobs != [] && t.jobs[|t.jobs| - 1] == job
            && forall i :: 0 <= i < |t.jobs| - 1 ==> t.jobs[i] in s.jobs
  {
    var all := s.jobs + [job];
    var t := Newest(all);
    var cut := |all| - |t|;
    assert forall i :: 0 <= i < |t| ==> t[i] == all[i + cut];
  }

  /** From a state whose jobs all succeed the earlier ones, sending a job completes a step. */
  lemma SendJobSteps(env: Env, s: State, input: Input, m: State, fx: Effects, clean: bool)
    requires Sane(env, m) && IdsOrdered(m) && fx.notified.None?
    requires m.nextJob == s.nextJob && |m.jobs| == |s.jobs|
    requires clean == Cleans(input)
    requires forall i :: 0 <= i < |m.jobs| ==> HasSource(s, m.jobs[i], input)
    ensures var (t, fx2) := SendJob(env, m, fx, clean); JobsStep(env, s, input, t, fx2)
    ensures var (t, fx2) := SendJob(env, m, fx, clean);
            t.payout == m.payout && t.work == m.work && fx2.accepted == fx.accepted && fx2.blocks == fx.blocks
  {
    hide SendJob, HasSource, Fresh, Newest, IdsOrdered;
    var made := SendJobMakes(env, m, fx, clean);
    if made.Some? {
      FreshId(env, m, m.nextJob, made.value);
      NewestOrdered(m, made.value);
      FreshFrame(env, m, SendJob(env, m, fx, clean).0, m.nextJob, made.value);
    }
  }

  lemma FreshId(env: Env, t: State, id: nat, job: SessionJob)
    requires Fresh(env, t, id, job)
    ensures job.id == id
  {
  }

  lemma FreshFrame(env: Env, t: State, u: State, id: nat, job: SessionJob)
    requires Fresh(env, t, id, job)
    requires u == t.(nextJob := u.nextJob, jobs := u.jobs)
    ensures Fresh(env, u, id, job)
  {
  }

  // ---------- the steps ----------

  lemma SourceItself(s: State, k: nat, input: Input)
    requires k < |s.jobs| && !input.OnWork? && SeenAfter(s.jobs[k], input, Reaches(s, input)) == s.jobs[k].seen
    ensures HasSource(s, s.jobs[k], input)
  {
    assert Succeeds(s.jobs[k], s.jobs[k], input, Reaches(s, input));
  }

  lemma SameJobsStep(env: Env, s: State, input: Input, t: State, fx: Effects)
    requires IdsOrdered(s) && !input.OnWork? && !input.SubmitShare? && fx.notified.None?
    requires t.jobs == s.jobs && t.nextJob == s.nextJob
    ensures JobsStep(env, s, input, t, fx)
  {
    hide HasSource, Fresh;
    forall i | 0 <= i < |t.jobs| ensures HasSource(s, t.jobs[i], input) {
      SourceItself(s, i, input);
    }
  }

  /** The given events, then at most difficulty changes. */
  predicate EventsFrom(first: seq<PoolEvent>, events: seq<PoolEvent>) {
    && |first| <= |events| && events[..|first|] == first
    && forall i :: |first| <= i < |events| ==> events[i].DifficultyChanged?
  }

  lemma RetargetFrame(env: Env, s: State, fx: Effects, now: real)
    requires Sane(env, s)
    ensures var (t, fx2) := Retarget(env, s, fx, now);
            && t == s.(difficulty := t.difficulty, vardiff := t.vardiff)
            && fx2 == fx.(events := fx2.events) && EventsFrom(fx.events, fx2.events)
  {
    hide Vardiff.Evaluated;
  }

  lemma AuthorizeSteps(env: Env, s: State, username: string, password: string)
    requires Sane(env, s) && IdsOrdered(s)
    ensures var (t, fx) := AuthorizeStep(env, s, username, password);
            JobsStep(env, s, Authorize(username, password), t, fx) && fx.accepted.None? && fx.blocks == []
  {
    hide SendJob, SameScripts, JobsStep, Resolve, HasSource, AuxInfos;
    var input := Authorize(username, password);
    var (t, fx) := AuthorizeStep(env, s, username, password);
    if username != [] && s.payout.None? {
      var payout := Resolve(env.payouts, username, password);
      var workers := if username in s.workers then s.workers else s.workers + [username];
      var event := Authorized(env.id, username, payout.parent.address, payout.parent.fallback, AuxInfos(payout.aux));
      var (u, fx2) := WithDifficulty(env, s.(workers := workers, payout := Some(payout)),
                                     NOTHING.(reply := Granted, events := [event]), s.difficulty);
      forall i | 0 <= i < |u.jobs| ensures HasSource(s, u.jobs[i], input) {
        SourceItself(s, i, input);
      }
      SendJobSteps(env, s, input, u, fx2, false);
    } else {
      SameJobsStep(env, s, input, t, fx);
    }
  }

  lemma AuthorizePays(env: Env, s: State, username: string, password: string)
    requires Sane(env, s) && (s.payout.Some? ==> Resolved(env, s.payout.value))
    ensures PayStep(env, s, Authorize(username, password), AuthorizeStep(env, s, username, password).0)
  {
    hide SendJob, AuxInfos;
    var payout := Resolve(env.payouts, username, password);
    if username != [] && s.payout.None? {
      var workers := if username in s.workers then s.workers else s.workers + [username];
      var event := Authorized(env.id, username, payout.parent.address, payout.parent.fallback, AuxInfos(payout.aux));
      var (u, fx2) := WithDifficulty(env, s.(workers := workers, payout := Some(payout)),
                                     NOTHING.(reply := Granted, events := [event]), s.difficulty);
      var made := SendJobMakes(env, u, fx2, false);
    }
  }

  lemma AgedSource(s: State, i: nat, work: MergedWork)
    requires i < |s.jobs|
    ensures HasSource(s, Aged(s.jobs[i], work), OnWork(work))
    ensures Aged(s.jobs[i], work).id == s.jobs[i].id && Aged(s.jobs[i], work).coinbase == s.jobs[i].coinbase
  {
    assert Succeeds(s.jobs[i], Aged(s.jobs[i], work), OnWork(work), Reaches(s, OnWork(work)));
  }

  lemma WorkSteps(env: Env, s: State, work: MergedWork)
    requires Sane(env, s) && IdsOrdered(s)
    ensures var (t, fx) := WorkStep(env, s, work);
            && JobsStep(env, s, OnWork(work), t, fx) && fx.accepted.None? && fx.blocks == []
            && t.payout == s.payout && t.work == Some(work)
  {
    hide SendJob, Aged, JobsStep, HasSource;
    var aged := s.(jobs := AgedAll(s.jobs, work), work := Some(work));
    forall i | 0 <= i < |s.jobs|
      ensures HasSource(s, aged.jobs[i], OnWork(work))
      ensures aged.jobs[i].id == s.jobs[i].id && PartsFit(aged.jobs[i])
    {
      AgedSource(s, i, work);
    }
    SendJobSteps(env, s, OnWork(work), aged, NOTHING, work.cleanJobs);
  }

  lemma SubmitFrame(env: Env, s: State, jobId: nat, submit: Submit, now: real, nowUnix: nat) returns (k: Option<nat>)
    requires Sane(env, s)
    ensures var (t, fx) := SubmitStep(env, s, jobId, submit, now, nowUnix);
            && fx.notified.None?
            && match k
               case None =>
                 && t == s && fx.accepted.None? && fx.blocks == [] && fx.events == []
                 && (s.payout.Some? && submit.worker in s.workers ==> forall i :: 0 <= i < |s.jobs| ==>
                      s.jobs[i].id != jobId)
               case Some(k) =>
                 && k < |s.jobs| && s.jobs[k].id == jobId && s.payout.Some? && submit.worker in s.workers
                 && var v := Judge(env.h, s.jobs[k], env.extranonce1, submit, s.payout.value.parent.address, nowUnix);
                 && t == s.(jobs := s.jobs[k := v.job], difficulty := t.difficulty, vardiff := t.vardiff)
                 && EventsFrom([ShareEvent(env, s.jobs[k], submit.worker, v.outcome)], fx.events)
                 && (if v.outcome.Rejected?
                     then fx.accepted.None? && fx.blocks == [] && fx.reply == Denied(Reject(v.outcome.reason))
                     else && fx.reply == Granted && fx.accepted == Some((jobId, AcceptedKey(submit)))
                          && fx.blocks == v.blocks)
  {
    hide Judge, Retarget, FindJob, AcceptedKey, Vardiff.Trimmed;
    k := None;
    if s.payout.Some? && submit.worker in s.workers && FindJob(s.jobs, jobId).Some? {
      k := FindJob(s.jobs, jobId);
      var job, address := s.jobs[k.value], s.payout.value.parent.address;
      var v := Judge(env.h, job, env.extranonce1, submit, address, nowUnix);
      var event := ShareEvent(env, job, submit.worker, v.outcome);
      var t := s.(jobs := s.jobs[k.value := v.job]);
      JudgeKeepsParts(env.h, job, env.extranonce1, submit, address, nowUnix);
      if v.outcome.Rejected? {
        RetargetFrame(env, t, NOTHING.(reply := Denied(Reject(v.outcome.reason)), events := [event]), now);
      } else {
        RetargetFrame(env, t.(vardiff := Vardiff.Recorded(env.cfg, t.vardiff, now, job.difficulty)),
                      NOTHING.(reply := Granted, accepted := Some((jobId, AcceptedKey(submit))), blocks := v.blocks,
                               events := [event]), now);
      }
    }
  }

  /** Judging only enters the share; and an accepted share's blocks are the ones assessed. */
  lemma JudgeEnters(h: Hashes, job: SessionJob, en1: Extranonce1, submit: Submit, address: string, now: nat)
    requires PartsFit(job)
    ensures var v := Judge(h, job, en1, submit, address, now);
            && v.job == job.(seen := v.job.seen) && job.seen <= v.job.seen
            && (!v.outcome.Rejected? ==>
                  && |submit.extranonce2| == EXTRANONCE2_LEN && !job.stale
                  && ShareKey(submit) !in job.seen && v.job.seen == job.seen + {ShareKey(submit)}
                  && Target.IsMetBy(job.target, ShareHash(h, job, en1 + submit.extranonce2, submit))
                  && v.blocks == Assess(h, job, en1 + submit.extranonce2, submit, address, now).1)
  {
    hide ShareHash, ShareKey, ParentCandidates, AuxCandidates, ShareDifficulty, Target.IsMetBy;
  }

  lemma SubmitSteps(env: Env, s: State, jobId: nat, submit: Submit, now: real, nowUnix: nat)
    requires Sane(env, s) && IdsOrdered(s)
    ensures var input := SubmitShare(jobId, submit, now, nowUnix);
            var (t, fx) := SubmitStep(env, s, jobId, submit, now, nowUnix);
            && JobsStep(env, s, input, t, fx) && t.payout == s.payout && t.work == s.work
            && (fx.blocks != [] ==> fx.accepted.Some?)
            && (fx.accepted.Some? ==> exists k :: AcceptedBy(env, s, input, t, fx, k))
  {
    hide Judge, SubmitStep, Assess, ShareHash, ShareKey, Fresh, HasSource, Target.IsMetBy, Timely, SeenAfter;
    var input := SubmitShare(jobId, submit, now, nowUnix);
    var (t, fx) := SubmitStep(env, s, jobId, submit, now, nowUnix);
    var k := SubmitFrame(env, s, jobId, submit, now, nowUnix);
    forall i | 0 <= i < |s.jobs| && Some(i) != k ensures HasSource(s, s.jobs[i], input) {
      NotReached(s, i, input);
      SourceItself(s, i, input);
    }
    if k.Some? {
      JudgeEnters(env.h, s.jobs[k.value], env.extranonce1, submit, s.payout.value.parent.address, nowUnix);
      SourceOf(env, s, k.value, input, s.payout.value.parent.address);
      assert fx.accepted.Some? ==> AcceptedBy(env, s, input, t, fx, k.value);
    }
  }

  lemma NotReached(s: State, i: nat, input: Input)
    requires i < |s.jobs| && input.SubmitShare? && (Reaches(s, input) ==> s.jobs[i].id != input.jobId)
    ensures SeenAfter(s.jobs[i], input, Reaches(s, input)) == s.jobs[i].seen
  {
  }

  lemma SourceOf(env: Env, s: State, k: nat, input: Input, address: string)
    requires k < |s.jobs| && input.SubmitShare? && Reaches(s, input) && s.jobs[k].id == input.jobId
    requires PartsFit(s.jobs[k])
    ensures HasSource(s, Judge(env.h, s.jobs[k], env.extranonce1, input.submit, address, input.nowUnix).job, input)
  {
    hide Judge, ShareKey, Timely, WellFormed;
    SeenGrowsIff(env.h, s.jobs[k], env.extranonce1, input.submit, address, input.nowUnix);
    assert Succeeds(s.jobs[k], Judge(env.h, s.jobs[k], env.extranonce1, input.submit, address, input.nowUnix).job,
        input, true);
  }

  lemma QuietSteps(env: Env, s: State, input: Input)
    requires Sane(env, s) && IdsOrdered(s) && (input.Tick? || input.Suggest?)
    ensures var (t, fx) := Step(env, s, input);
            && JobsStep(env, s, input, t, fx) && t.payout == s.payout && t.work == s.work
            && fx.accepted.None? && fx.blocks == []
  {
    hide JobsStep, Retarget;
    var (t, fx) := Step(env, s, input);
    if input.Tick? {
      RetargetFrame(env, s, NOTHING, input.now);
    }
    SameJobsStep(env, s, input, t, fx);
  }

  /** Every step, whatever the request. */
  lemma StepSteps(env: Env, s: State, input: Input)
    requires Sane(env, s) && IdsOrdered(s) && (s.payout.Some? ==> Resolved(env, s.payout.value))
    ensures var (t, fx) := Step(env, s, input);
            && JobsStep(env, s, input, t, fx) && PayStep(env, s, input, t)
            && (fx.blocks != [] ==> fx.accepted.Some?)
            && (fx.accepted.Some? ==> exists k :: AcceptedBy(env, s, input, t, fx, k))
  {
    hide JobsStep, AcceptedBy, SubmitStep, AuthorizeStep, WorkStep, IdsOrdered, Retarget;
    match input {
      case Authorize(username, password) =>
        AuthorizeSteps(env, s, username, password);
        AuthorizePays(env, s, username, password);
      case SubmitShare(jobId, submit, now, nowUnix) =>
        SubmitSteps(env, s, jobId, submit, now, nowUnix);
      case OnWork(work) =>
        WorkSteps(env, s, work);
      case Tick(_) =>
        QuietSteps(env, s, input);
      case Suggest(_) =>
        QuietSteps(env, s, input);
    }
  }

  predicate NoShares(events: seq<PoolEvent>) {
    forall i :: 0 <= i < |events| ==> !events[i].Share?
  }

  /** Only a submit reports a share. */
  lemma OnlySubmitsReport(env: Env, s: State, input: Input)
    requires Sane(env, s) && !input.SubmitShare?
    ensures NoShares(Step(env, s, input).1.events)
  {
    hide SendJob, Retarget, Resolve, SameScripts, AuxInfos, Aged, Sane;
    match input {
      case Authorize(username, password) =>
        AuthorizeReports(env, s, username, password);
      case OnWork(work) =>
        AgedSane(env, s, work);
        var made := SendJobMakes(env, s.(jobs := AgedAll(s.jobs, work), work := Some(work)), NOTHING, work.cleanJobs);
      case Tick(now) =>
        RetargetFrame(env, s, NOTHING, now);
      case Suggest(_) =>
    }
  }

  lemma AgedSane(env: Env, s: State, work: MergedWork)
    requires Sane(env, s)
    ensures Sane(env, s.(jobs := AgedAll(s.jobs, work), work := Some(work)))
  {
    hide IsCurrent;
  }

  lemma AuthorizeReports(env: Env, s: State, username: string, password: string)
    requires Sane(env, s)
    ensures NoShares(AuthorizeStep(env, s, username, password).1.events)
  {
    hide SendJob, Resolve, SameScripts, AuxInfos;
    if username != [] && s.payout.None? {
      var payout := Resolve(env.payouts, username, password);
      var workers := if username in s.workers then s.workers else s.workers + [username];
      var event := Authorized(env.id, username, payout.parent.address, payout.parent.fallback, AuxInfos(payout.aux));
      var (u, fx2) := WithDifficulty(env, s.(workers := workers, payout := Some(payout)),
                                     NOTHING.(reply := Granted, events := [event]), s.difficulty);
      var made := SendJobMakes(env, u, fx2, false);
    }
  }
}
