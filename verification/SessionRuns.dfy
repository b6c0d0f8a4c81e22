/** Safety of whole sessions: statements over every run of requests, new work and timer ticks. */
module SessionRuns {
  import opened Wrappers
  import opened Work
  import opened Jobs
  import opened Validate
  import opened Session
  import opened SessionSteps
  import Target

  // ---------- runs ----------

  /** The state after a run. */
  function After(env: Env, ins: seq<Input>): (s: State)
    requires env.cfg.Valid()
    ensures Sane(env, s)
    decreases |ins|
  {
    if ins == [] then Initial(env)
    else
      var s := After(env, ins[..|ins| - 1]);
      StepKeepsSane(env, s, ins[|ins| - 1]);
      Step(env, s, ins[|ins| - 1]).0
  }

  /** The state before step `i`. */
  function Before(env: Env, ins: seq<Input>, i: nat): (s: State)
    requires env.cfg.Valid() && i <= |ins|
    ensures Sane(env, s)
  {
    After(env, ins[..i])
  }

  /** What step `i` does besides changing the state. */
  function Effect(env: Env, ins: seq<Input>, i: nat): Effects
    requires env.cfg.Valid() && i < |ins|
  {
    Step(env, Before(env, ins, i), ins[i]).1
  }

  lemma BeforeNext(env: Env, ins: seq<Input>, i: nat)
    requires env.cfg.Valid() && i < |ins|
    ensures Before(env, ins, i + 1) == Step(env, Before(env, ins, i), ins[i]).0
  {
    assert ins[..i + 1][..i] == ins[..i] && ins[..i + 1][i] == ins[i];
  }

  ghost predicate Ordered(env: Env, s: State) {
    IdsOrdered(s) && (s.payout.Some? ==> Resolved(env, s.payout.value))
  }

  lemma {:induction false} AlwaysOrdered(env: Env, ins: seq<Input>, i: nat)
    requires env.cfg.Valid() && i <= |ins|
    ensures Ordered(env, Before(env, ins, i))
  {
    hide Step, Sane;
    if i == 0 {
      assert ins[..0] == [];
    } else {
      AlwaysOrdered(env, ins, i - 1);
      BeforeNext(env, ins, i - 1);
      StepSteps(env, Before(env, ins, i - 1), ins[i - 1]);
    }
  }

  /** Step `i` of a run satisfies the step relation. */
  lemma RunSteps(env: Env, ins: seq<Input>, i: nat)
    requires env.cfg.Valid() && i < |ins|
    ensures var s, t, fx := Before(env, ins, i), Before(env, ins, i + 1), Effect(env, ins, i);
            && IdsOrdered(s) && JobsStep(env, s, ins[i], t, fx) && PayStep(env, s, ins[i], t)
            && (fx.blocks != [] ==> fx.accepted.Some?)
            && (fx.accepted.Some? ==> exists k :: AcceptedBy(env, s, ins[i], t, fx, k))
  {
    hide Step, JobsStep, AcceptedBy, PayStep, IdsOrdered, Sane;
    AlwaysOrdered(env, ins, i);
    BeforeNext(env, ins, i);
    StepSteps(env, Before(env, ins, i), ins[i]);
  }

  // ---------- job ids ----------

  lemma IdMoves(env: Env, ins: seq<Input>, i: nat)
    requires env.cfg.Valid() && i < |ins|
    ensures var s, t, fx := Before(env, ins, i), Before(env, ins, i + 1), Effect(env, ins, i);
            if fx.notified.Some? then fx.notified.value.0 == s.nextJob && t.nextJob == s.nextJob + 1
            else t.nextJob == s.nextJob
  {
    hide Before, Effect, AcceptedBy, PayStep, IdsOrdered, Fresh, HasSource, Sane;
    RunSteps(env, ins, i);
  }

  lemma {:induction false} IdsGrow(env: Env, ins: seq<Input>, i: nat, j: nat)
    requires env.cfg.Valid() && i <= j <= |ins|
    ensures Before(env, ins, i).nextJob <= Before(env, ins, j).nextJob
  {
    hide Before, Effect, Sane;
    if i < j {
      IdsGrow(env, ins, i, j - 1);
      IdMoves(env, ins, j - 1);
    }
  }

  /** Job ids are never reused: every job a miner is told of has a higher id than any before. */
  lemma JobIdsIncrease(env: Env, ins: seq<Input>, i: nat, j: nat)
    requires env.cfg.Valid() && i < j < |ins|
    requires Effect(env, ins, i).notified.Some? && Effect(env, ins, j).notified.Some?
    ensures Effect(env, ins, i).notified.value.0 < Effect(env, ins, j).notified.value.0
  {
    hide Before, Effect, Sane;
    IdMoves(env, ins, i);
    IdMoves(env, ins, j);
    IdsGrow(env, ins, i + 1, j);
  }

  /** A job is held exactly while fewer than eight others have been sent after it. */
  lemma HeldIffRecent(env: Env, ins: seq<Input>, id: nat)
    requires env.cfg.Valid()
    ensures |After(env, ins).jobs| <= 8
    ensures var s := After(env, ins);
            (exists i :: 0 <= i < |s.jobs| && s.jobs[i].id == id)
            <==> 1 <= id < s.nextJob && s.nextJob - id <= 8
  {
    AlwaysOrdered(env, ins, |ins|);
    assert ins[..|ins|] == ins;
    var s := After(env, ins);
    if 1 <= id < s.nextJob && s.nextJob - id <= MAX_JOBS {
      assert s.jobs[id - (s.nextJob - |s.jobs|)].id == id;
    }
  }

  // ---------- a job's life ----------

  /** Work that arrived at steps `i..j` of a run. */
  ghost predicate Got(ins: seq<Input>, i: nat, j: nat, work: MergedWork) {
    exists m :: i <= m < j <= |ins| && ins[m] == OnWork(work)
  }

  ghost predicate GotClean(ins: seq<Input>, i: nat, j: nat) {
    exists m :: i <= m < j <= |ins| && Cleans(ins[m])
  }

  /** Some template of the aux job's coin in the work stands on the aux job's tip. */
  predicate HasTip(work: MergedWork, aux: AuxJob) {
    exists t :: t in work.aux && t.coin == aux.work.coin && t.prevHash == aux.work.prevHash
  }

  /** Work without the aux job's tip arrived. */
  ghost predicate TipGone(ins: seq<Input>, i: nat, j: nat, aux: AuxJob) {
    exists m :: i <= m < j <= |ins| && ins[m].OnWork? && !HasTip(ins[m].work, aux)
  }

  lemma CurrentIsTip(work: MergedWork, aux: AuxJob)
    ensures IsCurrent(work, aux) <==> HasTip(work, aux)
  {
    if HasTip(work, aux) {
      var t :| t in work.aux && t.coin == aux.work.coin && t.prevHash == aux.work.prevHash;
      var i :| 0 <= i < |work.aux| && work.aux[i] == t;
    }
  }

  /** `job`, held before step `j`, is the one sent at step `k`, as it was sent but for the shares
      entered and the flags: stale exactly if clean work came since, each of its aux jobs exactly
      if work without that aux chain's tip came since. */
  ghost predicate Lives(env: Env, ins: seq<Input>, k: nat, j: nat, job: SessionJob)
    requires env.cfg.Valid()
  {
    && k < j <= |ins|
    && Effect(env, ins, k).notified.Some? && Effect(env, ins, k).notified.value.0 == Before(env, ins, k).nextJob
    && Before(env, ins, k + 1).nextJob == job.id + 1
    && (exists born :: Fresh(env, Before(env, ins, k + 1), Before(env, ins, k).nextJob, born) && Grown(born, job))
    && (job.stale <==> GotClean(ins, k + 1, j))
    && forall m :: 0 <= m < |job.aux| ==> (job.aux[m].stale <==> TipGone(ins, k + 1, j, job.aux[m]))
  }

  /** Equal but for the entered shares and the stale flags. */
  predicate Grown(a: SessionJob, b: SessionJob) {
    && b == a.(stale := b.stale, seen := b.seen, aux := b.aux) && |a.aux| == |b.aux|
    && forall m :: 0 <= m < |a.aux| ==> b.aux[m] == a.aux[m].(stale := b.aux[m].stale)
  }

  /** Every job a session holds was sent at a step of the run, and its flags say exactly what has
      arrived since. */
  lemma {:induction false} JobLives(env: Env, ins: seq<Input>, j: nat, i: nat) returns (k: nat)
    requires env.cfg.Valid() && j <= |ins| && i < |Before(env, ins, j).jobs|
    ensures Lives(env, ins, k, j, Before(env, ins, j).jobs[i])
  {
    hide Sane, AcceptedBy, PayStep, Step, Lives, Fresh, Effect, IdsOrdered;
    k := 0;
    assert ins[..0] == [];
    if j > 0 {
      RunSteps(env, ins, j - 1);
      hide Before;
      var s, t := Before(env, ins, j - 1), Before(env, ins, j);
      if HasSource(s, t.jobs[i], ins[j - 1]) {
        var n :| 0 <= n < |s.jobs| && Succeeds(s.jobs[n], t.jobs[i], ins[j - 1], Reaches(s, ins[j - 1]));
        k := JobLives(env, ins, j - 1, n);
        LivesOn(env, ins, k, j - 1, s.jobs[n], t.jobs[i], Reaches(s, ins[j - 1]));
      } else {
        k := j - 1;
        FreshLives(env, ins, k, t.jobs[i]);
      }
    }
  }

  lemma FreshLives(env: Env, ins: seq<Input>, k: nat, job: SessionJob)
    requires env.cfg.Valid() && k < |ins|
    requires job in Before(env, ins, k + 1).jobs
    requires !HasSource(Before(env, ins, k), job, ins[k])
    ensures Lives(env, ins, k, k + 1, job)
  {
    hide Before, Effect, AcceptedBy, PayStep, Sane, MadeFrom;
    RunSteps(env, ins, k);
    var s, t, fx := Before(env, ins, k), Before(env, ins, k + 1), Effect(env, ins, k);
    assert Fresh(env, t, s.nextJob, job);
    assert Grown(job, job);
  }

  lemma LivesOn(env: Env, ins: seq<Input>, k: nat, j: nat, a: SessionJob, b: SessionJob, reaches: bool)
    requires env.cfg.Valid() && j < |ins|
    requires Lives(env, ins, k, j, a) && Succeeds(a, b, ins[j], reaches)
    ensures Lives(env, ins, k, j + 1, b)
  {
    hide Before, Effect, Sane, Fresh, IsCurrent;
    SucceedsGrows(a, b, ins[j], reaches);
    var born :| Fresh(env, Before(env, ins, k + 1), Before(env, ins, k).nextJob, born) && Grown(born, a);
    GrownTransitive(born, a, b);
    GotCleanNext(ins, k + 1, j);
    forall m | 0 <= m < |b.aux|
      ensures b.aux[m].stale <==> TipGone(ins, k + 1, j + 1, b.aux[m])
    {
      SucceedsAux(a, b, ins[j], reaches, m);
      TipGoneNext(ins, k + 1, j, a.aux[m], b.aux[m]);
    }
  }

  lemma SucceedsGrows(a: SessionJob, b: SessionJob, input: Input, reaches: bool)
    requires Succeeds(a, b, input, reaches)
    ensures Grown(a, b) && (b.stale <==> a.stale || Cleans(input))
  {
  }

  lemma SucceedsAux(a: SessionJob, b: SessionJob, input: Input, reaches: bool, m: nat)
    requires Succeeds(a, b, input, reaches) && m < |b.aux|
    ensures |a.aux| == |b.aux| && b.aux[m].work == a.aux[m].work
    ensures b.aux[m].stale <==> a.aux[m].stale || (input.OnWork? && !IsCurrent(input.work, a.aux[m]))
  {
  }

  lemma GrownTransitive(a: SessionJob, b: SessionJob, c: SessionJob)
    requires Grown(a, b) && Grown(b, c)
    ensures Grown(a, c)
  {
    forall m | 0 <= m < |a.aux| ensures c.aux[m] == a.aux[m].(stale := c.aux[m].stale) {
      assert b.aux[m] == a.aux[m].(stale := b.aux[m].stale);
    }
  }

  lemma GotCleanNext(ins: seq<Input>, i: nat, j: nat)
    requires i <= j < |ins|
    ensures GotClean(ins, i, j + 1) <==> GotClean(ins, i, j) || Cleans(ins[j])
  {
  }

  lemma TipGoneNext(ins: seq<Input>, i: nat, j: nat, a: AuxJob, b: AuxJob)
    requires i <= j < |ins| && a.work == b.work
    ensures TipGone(ins, i, j + 1, b) <==> TipGone(ins, i, j, a) || (ins[j].OnWork? && !IsCurrent(ins[j].work, a))
  {
    assert forall w: MergedWork :: HasTip(w, a) <==> HasTip(w, b);
    if ins[j].OnWork? {
      CurrentIsTip(ins[j].work, a);
    }
    hide HasTip, IsCurrent;
  }

  // ---------- no share twice ----------

  /** A job stays what it was, but for its age, and a share entered under it stays entered, as long as
      it is held. */
  lemma {:induction false} SeenStays(env: Env, ins: seq<Input>, i: nat, j: nat, a: SessionJob, b: SessionJob)
    requires env.cfg.Valid() && i <= j <= |ins|
    requires a in Before(env, ins, i).jobs && b in Before(env, ins, j).jobs && a.id == b.id
    ensures a.seen <= b.seen && Grown(a, b)
  {
    hide Sane, AcceptedBy, PayStep, Before, Effect, Grown;
    AlwaysOrdered(env, ins, j);
    if i == j {
      assert Before(env, ins, i).jobs == Before(env, ins, j).jobs;
      GrownReflexive(a);
    } else {
      RunSteps(env, ins, j - 1);
      AlwaysOrdered(env, ins, i);
      IdsGrow(env, ins, i, j - 1);
      hide Fresh;
      var s := Before(env, ins, j - 1);
      assert !Fresh(env, Before(env, ins, j), s.nextJob, b) by {
        FreshHasId(env, Before(env, ins, j), s.nextJob, b);
      }
      var n :| 0 <= n < |s.jobs| && Succeeds(s.jobs[n], b, ins[j - 1], Reaches(s, ins[j - 1]));
      SeenStays(env, ins, i, j - 1, a, s.jobs[n]);
      SucceedsGrows(s.jobs[n], b, ins[j - 1], Reaches(s, ins[j - 1]));
      GrownTransitive(a, s.jobs[n], b);
    }
  }

  lemma GrownReflexive(a: SessionJob)
    ensures Grown(a, a)
  {
  }

  lemma FreshHasId(env: Env, t: State, id: nat, job: SessionJob)
    ensures Fresh(env, t, id, job) ==> job.id == id
  {
  }

  /** No (job id, extranonce2, ntime, nonce) is ever accepted twice in a session. */
  lemma NoDoubleAccept(env: Env, ins: seq<Input>, i: nat, j: nat)
    requires env.cfg.Valid() && i < j < |ins|
    requires Effect(env, ins, i).accepted.Some?
    ensures Effect(env, ins, i).accepted != Effect(env, ins, j).accepted
  {
    hide Sane, PayStep, Before, Effect, Fresh, HasSource, JobsStep, ShareHash, Assess, Target.IsMetBy, IdsOrdered;
    RunSteps(env, ins, i);
    RunSteps(env, ins, j);
    if Effect(env, ins, i).accepted == Effect(env, ins, j).accepted {
      var k: nat :| AcceptedBy(env, Before(env, ins, i), ins[i], Before(env, ins, i + 1), Effect(env, ins, i), k);
      var n: nat :| AcceptedBy(env, Before(env, ins, j), ins[j], Before(env, ins, j + 1), Effect(env, ins, j), n);
      SeenStays(env, ins, i + 1, j, Before(env, ins, i + 1).jobs[k], Before(env, ins, j).jobs[n]);
    }
  }
}
