/** Who is paid, what is stale and which difficulty counts, over every run of a session. */
module SessionSafety {
  import opened Bytes
  import opened Wrappers
  import opened Work
  import opened Jobs
  import opened Validate
  import opened Candidates
  import opened Events
  import opened Session
  import opened SessionSteps
  import opened SessionRuns
  import AuxCheck
  import AuxPow
  import BlockTheorems
  import Vardiff
  import Target

  // ---------- payouts ----------

  /** Step `a` is the first successful authorize. */
  ghost predicate FirstAuthorize(env: Env, ins: seq<Input>, a: nat)
    requires env.cfg.Valid()
  {
    a < |ins| && ins[a].Authorize? && Before(env, ins, a).payout.None? && Before(env, ins, a + 1).payout.Some?
  }

  /** The scripts a username and a password ask for, chain by chain: the parent's comes from the
      username, every aux chain's from the password. */
  ghost predicate AskedBy(tables: PayoutSet, username: string, password: string, p: Payouts) {
    && p.parent.script == tables.parent(username).script && |p.aux| == |tables.aux|
    && forall i :: 0 <= i < |p.aux| ==>
         && p.aux[i].coin == tables.aux[i].coin
         && p.aux[i].payout.script == tables.aux[i].resolve(password).script
  }

  lemma ResolvedAsAsked(tables: PayoutSet, username: string, password: string)
    ensures AskedBy(tables, username, password, Resolve(tables, username, password))
  {
  }

  lemma AskedKept(tables: PayoutSet, username: string, password: string, p: Payouts, q: Payouts)
    requires AskedBy(tables, username, password, p) && SamePay(p, q)
    ensures AskedBy(tables, username, password, q)
  {
    forall i | 0 <= i < |q.aux|
      ensures q.aux[i].coin == tables.aux[i].coin && q.aux[i].payout.script == tables.aux[i].resolve(password).script
    {
      assert p.aux[i].coin == q.aux[i].coin && p.aux[i].payout.script == q.aux[i].payout.script;
    }
  }

  /** A session that has payouts got them at its first authorize, and keeps the scripts that its
      username and password asked for. */
  lemma {:induction false} PayoutFixed(env: Env, ins: seq<Input>, j: nat) returns (a: nat)
    requires env.cfg.Valid() && j <= |ins| && Before(env, ins, j).payout.Some?
    ensures a < j && ins[a].Authorize? && FirstAuthorize(env, ins, a)
    ensures AskedBy(env.payouts, ins[a].username, ins[a].password, Before(env, ins, j).payout.value)
  {
    hide Sane, Step, JobsStep, AcceptedBy, Effect, Resolve, Resolved, IdsOrdered, SamePay, AskedBy;
    a := 0;
    assert ins[..0] == [];
    if j > 0 {
      RunSteps(env, ins, j - 1);
      hide Before;
      if Before(env, ins, j - 1).payout.Some? {
        a := PayoutFixed(env, ins, j - 1);
        AskedKept(env.payouts, ins[a].username, ins[a].password, Before(env, ins, j - 1).payout.value,
                  Before(env, ins, j).payout.value);
      } else {
        a := j - 1;
        ResolvedAsAsked(env.payouts, ins[a].username, ins[a].password);
      }
    }
  }

  lemma {:induction false} PayoutStays(env: Env, ins: seq<Input>, i: nat, j: nat)
    requires env.cfg.Valid() && i <= j <= |ins| && Before(env, ins, i).payout.Some?
    ensures Before(env, ins, j).payout.Some?
  {
    hide Sane, Step, JobsStep, AcceptedBy, Effect, Resolve, Resolved, IdsOrdered, SamePay, Before;
    if i < j {
      PayoutStays(env, ins, i, j - 1);
      RunSteps(env, ins, j - 1);
    }
  }

  /** A session has only one first authorize. */
  lemma FirstAuthorizeOnce(env: Env, ins: seq<Input>, a: nat, b: nat)
    requires env.cfg.Valid() && FirstAuthorize(env, ins, a) && FirstAuthorize(env, ins, b)
    ensures a == b
  {
    hide Before, Sane;
    if a < b {
      PayoutStays(env, ins, a + 1, b);
    } else if b < a {
      PayoutStays(env, ins, b + 1, a);
    }
  }

  /** The first table for a coin. */
  ghost predicate FirstTable(tables: seq<AuxTable>, coin: string, t: nat) {
    && t < |tables| && tables[t].coin == coin && forall i :: 0 <= i < t ==> tables[i].coin != coin
  }

  /** What a coin is paid is what the first table for it gives. */
  lemma {:induction false} PaidByTable(tables: seq<AuxTable>, password: string, p: seq<AuxPayout>, coin: string)
    returns (t: nat)
    requires |p| == |tables| && FindPayout(p, coin).Some?
    requires forall i :: 0 <= i < |p| ==>
               p[i].coin == tables[i].coin && p[i].payout.script == tables[i].resolve(password).script
    ensures FirstTable(tables, coin, t) && FindPayout(p, coin) == Some(p[t].payout)
    ensures p[t].payout.script == tables[t].resolve(password).script
  {
    if p[0].coin == coin {
      t := 0;
    } else {
      var n := PaidByTable(tables[1..], password, p[1..], coin);
      t := n + 1;
      assert forall i :: 0 < i < |tables| ==> tables[i] == tables[1..][i - 1];
    }
  }

  lemma {:induction false} WorkReceived(env: Env, ins: seq<Input>, j: nat)
    requires env.cfg.Valid() && j <= |ins| && Before(env, ins, j).work.Some?
    ensures Got(ins, 0, j, Before(env, ins, j).work.value)
  {
    hide Sane, Step, JobsStep, AcceptedBy, Effect, Resolve, Resolved, IdsOrdered, SamePay;
    assert ins[..0] == [];
    if j > 0 {
      RunSteps(env, ins, j - 1);
      hide Before;
      if !ins[j - 1].OnWork? {
        WorkReceived(env, ins, j - 1);
      }
    }
  }

  // ---------- jobs ----------

  /** Same blocks for a job that has aged. */
  lemma GrownMadeFrom(h: Hashes, born: SessionJob, job: SessionJob, work: MergedWork, payouts: Payouts)
    requires MadeFrom(h, born, work, payouts) && Grown(born, job)
    ensures MadeFrom(h, job, work, payouts)
  {
    hide BuildAux, Coinbase.BuildParts;
  }

  /** A job sent at step `k` was made from work received by then and the payouts in force. */
  lemma JobMade(env: Env, ins: seq<Input>, k: nat, j: nat, job: SessionJob) returns (work: MergedWork, payouts: Payouts)
    requires env.cfg.Valid() && Lives(env, ins, k, j, job)
    ensures Got(ins, 0, j, work) && MadeFrom(env.h, job, work, payouts)
    ensures Before(env, ins, k + 1) == Before(env, ins, k + 1).(payout := Some(payouts), work := Some(work))
    ensures job.difficulty == Before(env, ins, k + 1).difficulty
    ensures job.target == job.work.algorithm.ShareTarget(job.difficulty)
    ensures env.cfg.minDifficulty <= job.difficulty <= env.cfg.maxDifficulty
  {
    hide Before, MadeFrom, Algorithm.ShareTarget, PartsFit, Effect;
    var t := Before(env, ins, k + 1);
    var born :| Fresh(env, t, Before(env, ins, k).nextJob, born) && Grown(born, job);
    work, payouts := t.work.value, t.payout.value;
    GrownMadeFrom(env.h, born, job, work, payouts);
    WorkReceived(env, ins, k + 1);
  }

  /** An accepted share was for a job sent earlier in the run; no clean work has come since. */
  lemma AcceptedJob(env: Env, ins: seq<Input>, j: nat) returns (k: nat, n: nat)
    requires env.cfg.Valid() && j < |ins| && Effect(env, ins, j).accepted.Some?
    ensures n < |Before(env, ins, j).jobs|
    ensures AcceptedBy(env, Before(env, ins, j), ins[j], Before(env, ins, j + 1), Effect(env, ins, j), n)
    ensures Lives(env, ins, k, j, Before(env, ins, j).jobs[n])
    ensures !GotClean(ins, k + 1, j)
  {
    hide Before, Sane, Fresh, JobsStep, PayStep, Effect, IdsOrdered, Assess, ShareHash, ShareKey, Target.IsMetBy,
         Grown, TipGone;
    RunSteps(env, ins, j);
    n :| AcceptedBy(env, Before(env, ins, j), ins[j], Before(env, ins, j + 1), Effect(env, ins, j), n);
    k := JobLives(env, ins, j, n);
  }

  // ---------- staleness ----------

  /** After clean work no earlier job ever yields an accepted share. */
  lemma CleanWorkEndsJobs(env: Env, ins: seq<Input>, i: nat, j: nat)
    requires env.cfg.Valid() && i < j < |ins| && Cleans(ins[i]) && Effect(env, ins, j).accepted.Some?
    ensures Effect(env, ins, j).accepted.value.0 >= Before(env, ins, i).nextJob
  {
    hide Before, Sane, Fresh, JobsStep, PayStep, Effect, IdsOrdered, Assess, ShareHash, ShareKey, Target.IsMetBy,
         Grown, TipGone;
    var k, n := AcceptedJob(env, ins, j);
    IdsGrow(env, ins, i, k);
    LivesId(env, ins, k, j, Before(env, ins, j).jobs[n]);
  }

  lemma LivesId(env: Env, ins: seq<Input>, k: nat, j: nat, job: SessionJob)
    requires env.cfg.Valid() && Lives(env, ins, k, j, job)
    ensures job.id == Before(env, ins, k).nextJob
    ensures Effect(env, ins, k).notified.Some? && Effect(env, ins, k).notified.value.0 == job.id
  {
    hide Before, MadeFrom, Effect, Sane;
  }

  /** A share for a job still held is answered stale exactly if clean work came since the job was
      sent: work that is not clean never makes a job stale. */
  lemma StaleIffCleanWork(env: Env, ins: seq<Input>, j: nat, i: nat) returns (k: nat)
    requires env.cfg.Valid() && j < |ins| && ins[j].SubmitShare? && i < |Before(env, ins, j).jobs|
    requires Before(env, ins, j).jobs[i].id == ins[j].jobId
    requires Before(env, ins, j).payout.Some? && ins[j].submit.worker in Before(env, ins, j).workers
    ensures k < j && Effect(env, ins, k).notified.Some? && Effect(env, ins, k).notified.value.0 == ins[j].jobId
    ensures Effect(env, ins, j).reply == Denied(Reject(StaleJob)) <==> GotClean(ins, k + 1, j)
  {
    k := JobLives(env, ins, j, i);
    AlwaysOrdered(env, ins, j);
    hide Before, Sane, Fresh, GotClean, TipGone, Grown, Resolved, Assess, ShareKey, SubmitStep, FindJob;
    LivesId(env, ins, k, j, Before(env, ins, j).jobs[i]);
    HeldIsFound(env, Before(env, ins, j), i, ins[j].jobId, ins[j].submit, ins[j].now, ins[j].nowUnix);
  }

  lemma HeldIsFound(env: Env, s: State, i: nat, jobId: nat, submit: Submit, now: real, nowUnix: nat)
    requires Sane(env, s) && IdsOrdered(s) && i < |s.jobs| && s.jobs[i].id == jobId
    requires s.payout.Some? && submit.worker in s.workers
    ensures SubmitStep(env, s, jobId, submit, now, nowUnix).1.reply == Denied(Reject(StaleJob)) <==> s.jobs[i].stale
  {
    hide Judge, Retarget, FindJob, AcceptedKey, Vardiff.Trimmed, Sane;
    var job, address := s.jobs[i], s.payout.value.parent.address;
    assert FindJob(s.jobs, jobId) == Some(i);
    assert PartsFit(job) by { SaneParts(env, s, i); }
    JudgeStale(env.h, job, env.extranonce1, submit, address, nowUnix);
    SubmitReply(env, s, i, jobId, submit, now, nowUnix);
  }

  lemma SaneParts(env: Env, s: State, i: nat)
    requires Sane(env, s) && i < |s.jobs|
    ensures PartsFit(s.jobs[i])
  {
  }

  lemma SubmitReply(env: Env, s: State, i: nat, jobId: nat, submit: Submit, now: real, nowUnix: nat)
    requires Sane(env, s) && i < |s.jobs| && FindJob(s.jobs, jobId) == Some(i)
    requires s.payout.Some? && submit.worker in s.workers
    ensures var v := Judge(env.h, s.jobs[i], env.extranonce1, submit, s.payout.value.parent.address, nowUnix);
            SubmitStep(env, s, jobId, submit, now, nowUnix).1.reply
              == if v.outcome.Rejected? then Denied(Reject(v.outcome.reason)) else Granted
  {
    hide Judge, FindJob, AcceptedKey, Vardiff.Trimmed, Vardiff.Evaluated;
    JudgeKeepsParts(env.h, s.jobs[i], env.extranonce1, submit, s.payout.value.parent.address, nowUnix);
  }

  lemma JudgeStale(h: Hashes, job: SessionJob, en1: Extranonce1, submit: Submit, address: string, now: nat)
    requires PartsFit(job)
    ensures Judge(h, job, en1, submit, address, now).outcome == Rejected(StaleJob) <==> job.stale
  {
    hide ShareKey, ParentCandidates, AuxCandidates, ShareDifficulty, ShareHash, Target.IsMetBy;
  }

  // ---------- blocks ----------

  /** An aux candidate that is good, pays what a password asks for by the first table for its coin, and
      names the address the payouts hold there. */
  ghost predicate PaysPassword(
    env: Env, c: BlockCandidate, work: MergedWork, password: string, p: Payouts, aux: AuxJob, t: nat, share: Solved)
  {
    && FirstTable(env.payouts.aux, aux.work.coin, t) && t < |p.aux|
    && GoodAux(env.h, c, work, env.payouts.aux[t].resolve(password).script, p.aux[t].payout.address, aux, share)
  }

  /** Every block candidate of a session was found on work the session had received and is good for its
      chain. A parent block pays the script of the username of the first successful authorize, an aux
      block that of its password; the address reported is that of the payouts in force, for an aux block
      when its job was sent. An aux candidate's tip has been current in all work received since then. */
  lemma BlocksPayFirstAuthorize(env: Env, ins: seq<Input>, j: nat, c: BlockCandidate)
    returns (a: nat, k: nat, work: MergedWork)
    requires env.cfg.Valid() && j < |ins| && c in Effect(env, ins, j).blocks
    requires forall m :: 0 <= m < j && ins[m].OnWork? ==> WorkSound(env.h, ins[m].work)
    ensures a < j && ins[a].Authorize? && FirstAuthorize(env, ins, a) && k < j && Got(ins, 0, j, work)
    ensures Before(env, ins, k + 1).work == Some(work)
    ensures ins[j].SubmitShare? && Before(env, ins, j).payout.Some? && Before(env, ins, k + 1).payout.Some?
    ensures var share := Solved(env.extranonce1, ins[j].submit, ins[j].nowUnix);
            var p := Before(env, ins, k + 1).payout.value;
            || GoodParent(env.h, c, work, env.payouts.parent(ins[a].username).script,
                          Before(env, ins, j).payout.value.parent.address, share)
            || exists aux, t ::
                 && PaysPassword(env, c, work, ins[a].password, p, aux, t, share)
                 && !TipGone(ins, k + 1, j, aux)
    ensures Effect(env, ins, k).notified.Some? && Effect(env, ins, j).accepted.Some?
            && Effect(env, ins, k).notified.value.0 == Effect(env, ins, j).accepted.value.0
    ensures !GotClean(ins, k + 1, j)
  {
    hide *;
    BlocksNeedAcceptance(env, ins, j);
    var n;
    k, n := AcceptedJob(env, ins, j);
    var job := Before(env, ins, j).jobs[n];
    var p;
    work, p := JobMade(env, ins, k, j, job);
    LivesId(env, ins, k, j, job);
    LivesFlags(env, ins, k, j, job);
    GotSound(env.h, ins, j, work);
    a := PayoutFixed(env, ins, k + 1);
    AcceptedBlock(env, Before(env, ins, j), ins[j], Before(env, ins, j + 1), Effect(env, ins, j), n, work, p, c);
    var share := Solved(env.extranonce1, ins[j].submit, ins[j].nowUnix);
    AskedParent(env.payouts, ins[a].username, ins[a].password, p);
    if !GoodParent(env.h, c, work, p.parent.script, Before(env, ins, j).payout.value.parent.address, share) {
      var i :| 0 <= i < |job.aux| && GoodAuxOf(env.h, c, work, p, job.aux[i], share);
      var t := AuxPaysPassword(env, c, work, ins[a].username, ins[a].password, p, job.aux[i], share);
    }
  }

  lemma AskedParent(tables: PayoutSet, username: string, password: string, p: Payouts)
    requires AskedBy(tables, username, password, p)
    ensures p.parent.script == tables.parent(username).script
  {
  }

  lemma AuxPaysPassword(
    env: Env, c: BlockCandidate, work: MergedWork, username: string, password: string, p: Payouts, aux: AuxJob,
    share: Solved)
    returns (t: nat)
    requires AskedBy(env.payouts, username, password, p) && GoodAuxOf(env.h, c, work, p, aux, share)
    ensures PaysPassword(env, c, work, password, p, aux, t, share) && !aux.stale
  {
    t := PaidByTable(env.payouts.aux, password, p.aux, aux.work.coin);
    AuxNotStale(env.h, c, work, p, aux, share);
    hide GoodAux, FirstTable, FindPayout;
  }

  lemma AuxNotStale(h: Hashes, c: BlockCandidate, work: MergedWork, p: Payouts, aux: AuxJob, share: Solved)
    requires GoodAuxOf(h, c, work, p, aux, share)
    ensures !aux.stale
  {
    hide Heads, Reported, AuxCheck.Accepts, AuxCheck.MagicOf, AuxCheck.FindMagic, BlockTheorems.BodyAgrees,
         BlockTheorems.BodyScript, HeaderOf, AuxPow.Decode, ProofOfShare, FindPayout;
  }

  lemma BlocksNeedAcceptance(env: Env, ins: seq<Input>, j: nat)
    requires env.cfg.Valid() && j < |ins| && Effect(env, ins, j).blocks != []
    ensures Effect(env, ins, j).accepted.Some?
  {
    hide Before, Sane, JobsStep, PayStep, Effect, IdsOrdered, AcceptedBy;
    RunSteps(env, ins, j);
  }

  lemma LivesFlags(env: Env, ins: seq<Input>, k: nat, j: nat, job: SessionJob)
    requires env.cfg.Valid() && Lives(env, ins, k, j, job)
    ensures k < j
    ensures forall m :: 0 <= m < |job.aux| ==> (job.aux[m].stale <==> TipGone(ins, k + 1, j, job.aux[m]))
  {
    hide Before, Fresh, Effect, Sane, Grown, TipGone, GotClean;
  }

  lemma GotSound(h: Hashes, ins: seq<Input>, j: nat, work: MergedWork)
    requires Got(ins, 0, j, work) && forall m :: 0 <= m < j <= |ins| && ins[m].OnWork? ==> WorkSound(h, ins[m].work)
    ensures WorkSound(h, work)
  {
    hide WorkSound;
  }

  lemma AcceptedBlock(
    env: Env, s: State, input: Input, t: State, fx: Effects, n: nat, work: MergedWork, payouts: Payouts,
        c: BlockCandidate)
    requires AcceptedBy(env, s, input, t, fx, n) && c in fx.blocks
    requires MadeFrom(env.h, s.jobs[n], work, payouts) && WorkSound(env.h, work)
    ensures input.SubmitShare? && s.payout.Some? && n < |s.jobs|
    ensures fx.accepted == Some((s.jobs[n].id, ShareKey(input.submit)))
    ensures var share := Solved(env.extranonce1, input.submit, input.nowUnix);
            || GoodParent(env.h, c, work, payouts.parent.script, s.payout.value.parent.address, share)
            || exists i :: 0 <= i < |s.jobs[n].aux| && GoodAuxOf(env.h, c, work, payouts, s.jobs[n].aux[i], share)
  {
    hide MadeFrom, WorkSound, Assess, GoodParent, GoodAuxOf, ShareHash, ShareKey, Target.IsMetBy;
    CandidateGood(env.h, s.jobs[n], work, payouts, env.extranonce1, input.submit, s.payout.value.parent.address,
                  input.nowUnix, c);
  }

  // ---------- difficulty ----------

  /** Every share is weighted by its job's difficulty, which is the session's difficulty when the
      job was sent and lies in the configured range; it is reported as accepted exactly if it is. */
  lemma ShareEventsBounded(env: Env, ins: seq<Input>, j: nat, e: PoolEvent)
    requires env.cfg.Valid() && j < |ins| && e in Effect(env, ins, j).events && e.Share?
    ensures ins[j].SubmitShare?
    ensures env.cfg.minDifficulty <= e.jobDifficulty <= env.cfg.maxDifficulty
    ensures exists n :: 0 <= n < |Before(env, ins, j).jobs| && Before(env, ins, j).jobs[n].id == ins[j].jobId
                        && Before(env, ins, j).jobs[n].difficulty == e.jobDifficulty
    ensures e.rejected.None? <==> Effect(env, ins, j).accepted.Some?
    ensures e.worker == ins[j].submit.worker && e.worker in Before(env, ins, j).workers
  {
    hide *;
    var s, i := Before(env, ins, j), ins[j];
    if !i.SubmitShare? {
      OnlySubmitsReport(env, s, i);
      EffectIs(env, ins, j, e);
    }
    assert Effect(env, ins, j) == SubmitStep(env, s, i.jobId, i.submit, i.now, i.nowUnix).1
        by { SubmitEffect(env, ins, j); }
    var k := SubmitFrame(env, s, i.jobId, i.submit, i.now, i.nowUnix);
    if k.Some? {
      var lived := JobLives(env, ins, j, k.value);
      var w, p := JobMade(env, ins, lived, j, s.jobs[k.value]);
      SaneParts(env, s, k.value);
      OneShare(env, s.jobs[k.value], i.submit.worker,
               Judge(env.h, s.jobs[k.value], env.extranonce1, i.submit, s.payout.value.parent.address,
                   i.nowUnix).outcome,
               Effect(env, ins, j).events, e);
    }
  }

  lemma EffectIs(env: Env, ins: seq<Input>, j: nat, e: PoolEvent)
    requires env.cfg.Valid() && j < |ins| && e in Effect(env, ins, j).events
    ensures NoShares(Step(env, Before(env, ins, j), ins[j]).1.events) ==> !e.Share?
  {
    hide Before, Step;
  }

  lemma SubmitEffect(env: Env, ins: seq<Input>, j: nat)
    requires env.cfg.Valid() && j < |ins| && ins[j].SubmitShare?
    ensures Effect(env, ins, j)
        == SubmitStep(env, Before(env, ins, j), ins[j].jobId, ins[j].submit, ins[j].now, ins[j].nowUnix).1
  {
    hide Before, SubmitStep;
  }

  lemma OneShare(env: Env, job: SessionJob, worker: string, outcome: ShareOutcome, events: seq<PoolEvent>, e: PoolEvent)
    requires EventsFrom([ShareEvent(env, job, worker, outcome)], events) && e in events && e.Share?
    ensures e.worker == worker && e.jobDifficulty == job.difficulty && (e.rejected.None? <==> !outcome.Rejected?)
  {
    var first := [ShareEvent(env, job, worker, outcome)];
    assert events[0] == events[..1][0] == first[0];
  }
}
