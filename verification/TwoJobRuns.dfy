/** Sessions that get two works, one after the other, and submit a share for each job. */
module TwoJobRuns {
  import opened Bytes
  import opened Wrappers
  import opened Header
  import opened Work
  import opened Coinbase
  import opened Jobs
  import opened Validate
  import opened Session
  import opened SessionSteps
  import opened SessionRuns
  import opened SessionSafety
  import opened SessionSeen
  import opened SameHeader
  import Target

  // ---------- the run ----------

  /** What a miner sends and receives: it authorizes, gets two works without aux chains, the second
      not clean, and submits a share for the job of each. */
  datatype Story = Story(
    name: string, first: MergedWork, second: MergedWork, x: Submit, y: Submit, now: real, nowUnix: nat)
  {
    function Inputs(): (ins: seq<Input>)
      ensures |ins| == 5
    {
      [Authorize(name, ""), OnWork(first), OnWork(second), SubmitShare(1, x, now, nowUnix),
          SubmitShare(2, y, now, nowUnix)]
    }

    /** The work of job `n + 1`, and the share for it. */
    function WorkOf(n: nat): MergedWork {
      if n == 0 then first else second
    }

    function ShareOf(n: nat): Submit {
      if n == 0 then x else y
    }
  }

  /** The coinbases can be built and the shares are timely. */
  predicate Told(env: Env, s: Story) {
    && s.name != "" && env.payouts.parent(s.name).script != [] && !s.second.cleanJobs
    && Fine(s, s.first, s.x) && Fine(s, s.second, s.y)
  }

  predicate Fine(s: Story, work: MergedWork, submit: Submit) {
    && work.aux == [] && ScriptLen(work.parent, [], 8) <= MAX_COINBASE_SCRIPT_LEN
    && submit.worker == s.name && |submit.extranonce2| == EXTRANONCE2_LEN
    && work.parent.minTime <= submit.ntime <= s.nowUnix + MAX_FUTURE_NTIME
  }

  /** The header of a share on a template, for what the session pays. */
  function HeaderFor(env: Env, name: string, t: WorkTemplate, submit: Submit): BlockHeader
    requires ScriptLen(t, [], 8) <= MAX_COINBASE_SCRIPT_LEN
  {
    var coinbase := Serialize(Parts(t, env.payouts.parent(name).script, [], 8), env.extranonce1 + submit.extranonce2);
    BlockHeader(t.version, t.prevHash, t.MerkleRoot(env.h, env.h.sha256d(coinbase)), submit.ntime, t.bits, submit.nonce)
  }

  /** Its hash meets the target of the difficulty a session starts with. */
  predicate LowEnough(env: Env, name: string, t: WorkTemplate, submit: Submit)
    requires env.cfg.Valid() && ScriptLen(t, [], 8) <= MAX_COINBASE_SCRIPT_LEN
  {
    Target.IsMetBy(t.algorithm.ShareTarget(env.cfg.initialDifficulty),
                   t.algorithm.PowHash(env.h, HeaderBytes(HeaderFor(env, name, t, submit))))
  }

  // ---------- step by step ----------

  /** The miner is authorized, at the first difficulty, and the next job has this id. */
  ghost predicate Open(env: Env, s: Story, j: nat, next: nat)
    requires env.cfg.Valid() && j <= 5
  {
    var state := Before(env, s.Inputs(), j);
    && state.nextJob == next && s.name in state.workers && state.payout == Some(Resolve(env.payouts, s.name, ""))
    && (j <= 3 ==> state.difficulty == env.cfg.initialDifficulty)
  }

  /** Sending a job without aux chains. */
  lemma SendsPlain(env: Env, s: State, fx: Effects, clean: bool)
    requires Sane(env, s) && s.work.Some? && s.work.value.aux == [] && s.payout.Some?
    requires s.payout.value.parent.script != [] && ScriptLen(s.work.value.parent, [], 8) <= MAX_COINBASE_SCRIPT_LEN
    ensures var u := SendJob(env, s, fx, clean).0;
            && u.nextJob == s.nextJob + 1 && u.workers == s.workers && u.payout == s.payout
            && u.difficulty == s.difficulty
  {
    hide Parts, Newest, Algorithm.ShareTarget;
  }

  lemma WorkSends(env: Env, s: State, work: MergedWork)
    requires Sane(env, s) && work.aux == [] && s.payout.Some? && s.payout.value.parent.script != []
    requires ScriptLen(work.parent, [], 8) <= MAX_COINBASE_SCRIPT_LEN
    ensures var u := Step(env, s, OnWork(work)).0;
            && u.nextJob == s.nextJob + 1 && u.workers == s.workers && u.payout == s.payout
            && u.difficulty == s.difficulty
  {
    AgedSane(env, s, work);
    hide SendJob, Sane, AgedAll, ScriptLen;
    SendsPlain(env, s.(jobs := AgedAll(s.jobs, work), work := Some(work)), NOTHING, work.cleanJobs);
  }

  lemma SubmitKeeps(env: Env, s: State, input: Input)
    requires Sane(env, s) && input.SubmitShare?
    ensures var u := Step(env, s, input).0;
            u.nextJob == s.nextJob && u.workers == s.workers && u.payout == s.payout
  {
    hide SubmitStep, Sane, Judge;
    var k := SubmitFrame(env, s, input.jobId, input.submit, input.now, input.nowUnix);
  }

  lemma AuthorizeOpens(env: Env, s: Story)
    requires env.cfg.Valid() && Told(env, s)
    ensures Before(env, s.Inputs(), 0).nextJob == 1 && Open(env, s, 1, 1)
  {
    var ins := s.Inputs();
    assert ins[..0] == [];
    BeforeNext(env, ins, 0);
    hide Before, Sane;
  }

  lemma ResolvedParent(env: Env, name: string)
    ensures Resolve(env.payouts, name, "").parent == env.payouts.parent(name)
  {
  }

  lemma WorkOpens(env: Env, s: Story, j: nat)
    requires env.cfg.Valid() && Told(env, s) && 1 <= j <= 2 && Open(env, s, j, j)
    ensures Open(env, s, j + 1, j + 1)
  {
    var ins := s.Inputs();
    ResolvedParent(env, s.name);
    hide Before, Sane, Step, Resolve, ScriptLen;
    BeforeNext(env, ins, j);
    WorkSends(env, Before(env, ins, j), s.WorkOf(j - 1));
  }

  /** Before the two submits jobs 1 and 2 are held. */
  lemma AfterWorks(env: Env, s: Story)
    requires env.cfg.Valid() && Told(env, s)
    ensures Before(env, s.Inputs(), 0).nextJob == 1 && Open(env, s, 1, 1) && Open(env, s, 2, 2)
    ensures Open(env, s, 3, 3) && Open(env, s, 4, 3)
  {
    hide Told;
    AuthorizeOpens(env, s);
    WorkOpens(env, s, 1);
    WorkOpens(env, s, 2);
    var ins := s.Inputs();
    hide Before, Sane, Step, Resolve;
    BeforeNext(env, ins, 3);
    SubmitKeeps(env, Before(env, ins, 3), ins[3]);
  }

  lemma TwoHeld(env: Env, ins: seq<Input>, j: nat)
    requires env.cfg.Valid() && j <= |ins| && Before(env, ins, j).nextJob == 3
    ensures var jobs := Before(env, ins, j).jobs; |jobs| == 2 && jobs[0].id == 1 && jobs[1].id == 2
  {
    AlwaysOrdered(env, ins, j);
    hide Before, Sane, Resolved;
  }

  // ---------- the jobs ----------

  /** The job made of a work: its template, its coinbase and its target, and not stale. */
  predicate IsJobOf(env: Env, name: string, work: MergedWork, job: SessionJob)
    requires env.cfg.Valid() && ScriptLen(work.parent, [], 8) <= MAX_COINBASE_SCRIPT_LEN
  {
    && !job.stale && job.work == work.parent
    && job.coinbase == Parts(work.parent, env.payouts.parent(name).script, [], 8)
    && job.target == work.parent.algorithm.ShareTarget(env.cfg.initialDifficulty)
  }

  lemma PlainJob(h: Hashes, job: SessionJob, work: MergedWork, p: Payouts)
    requires MadeFrom(h, job, work, p) && work.aux == []
    ensures job.work == work.parent && ScriptLen(work.parent, [], 8) <= MAX_COINBASE_SCRIPT_LEN
    ensures job.coinbase == Parts(work.parent, p.parent.script, [], 8)
  {
    hide Parts;
  }

  lemma NextJobs(env: Env, s: Story)
    requires env.cfg.Valid() && Told(env, s)
    ensures var ins := s.Inputs();
            && Before(env, ins, 0).nextJob == 1 && Before(env, ins, 1).nextJob == 1 && Before(env, ins, 2).nextJob == 2
            && Before(env, ins, 3).nextJob == 3 && Before(env, ins, 4).nextJob == 3
  {
    AfterWorks(env, s);
    hide Before, Sane, Told, Resolve;
  }

  /** Job `n + 1` was sent at step `n + 1`. */
  lemma SentAt(env: Env, s: Story, k: nat, j: nat, n: nat, job: SessionJob)
    requires env.cfg.Valid() && Told(env, s) && n <= 1 && 3 <= j <= 4
    requires Lives(env, s.Inputs(), k, j, job) && job.id == n + 1
    ensures k == n + 1
  {
    hide *;
    NextJobs(env, s);
    LivesId(env, s.Inputs(), k, j, job);
    LivesSpan(env, s.Inputs(), k, j, job);
    assert k == 0 || k == 1 || k == 2 || k == 3;
  }

  lemma LivesSpan(env: Env, ins: seq<Input>, k: nat, j: nat, job: SessionJob)
    requires env.cfg.Valid() && Lives(env, ins, k, j, job)
    ensures k < j <= |ins| && Before(env, ins, k + 1).nextJob == job.id + 1
    ensures job.stale <==> GotClean(ins, k + 1, j)
  {
    hide Before, Effect, Sane, Fresh, Grown, TipGone, GotClean;
  }

  lemma ToldOf(env: Env, s: Story, n: nat)
    requires Told(env, s) && n <= 1
    ensures var work, submit, ins := s.WorkOf(n), s.ShareOf(n), s.Inputs();
            && work.aux == [] && ScriptLen(work.parent, [], 8) <= MAX_COINBASE_SCRIPT_LEN && Fine(s, work, submit)
            && ins[n + 1] == OnWork(work) && ins[n + 3] == SubmitShare(n + 1, submit, s.now, s.nowUnix)
            && !s.second.cleanJobs
  {
  }

  lemma OpenTwo(env: Env, s: Story, j: nat)
    requires env.cfg.Valid() && Told(env, s) && 3 <= j <= 4
    ensures var state := Before(env, s.Inputs(), j);
            && |state.jobs| == 2 && state.jobs[0].id == 1 && state.jobs[1].id == 2
            && s.name in state.workers && state.payout.Some?
  {
    hide Before, Sane, Resolve, Told, Open, Story.Inputs;
    AfterWorks(env, s);
    OpenAt(env, s, j, 3);
    TwoHeld(env, s.Inputs(), j);
  }

  lemma FirstDifficulty(env: Env, s: Story, n: nat)
    requires env.cfg.Valid() && Told(env, s) && n <= 1
    ensures var state := Before(env, s.Inputs(), n + 2);
            && state.difficulty == env.cfg.initialDifficulty && state.payout.Some?
            && state.payout.value.parent == env.payouts.parent(s.name)
            && state.work == Some(s.WorkOf(n))
  {
    hide Before, Sane, Resolve, Told, Fine, ScriptLen, Story.Inputs;
    AfterWorks(env, s);
    OpenAt(env, s, n + 2, n + 2);
    ResolvedParent(env, s.name);
    ToldOf(env, s, n);
    hide Open;
    WorkInForce(env, s.Inputs(), n + 1);
  }

  lemma OpenAt(env: Env, s: Story, j: nat, next: nat)
    requires env.cfg.Valid() && j <= 4
    ensures Open(env, s, j, next) ==>
              var state := Before(env, s.Inputs(), j);
              && state.nextJob == next && s.name in state.workers
              && (j <= 3 ==> state.difficulty == env.cfg.initialDifficulty)
              && state.payout == Some(Resolve(env.payouts, s.name, ""))
  {
    hide Before, Sane, Resolve, Story.Inputs;
  }

  lemma JobIs(env: Env, s: Story, j: nat, n: nat)
    requires env.cfg.Valid() && Told(env, s) && n <= 1 && 3 <= j <= 4
    ensures ScriptLen(s.WorkOf(n).parent, [], 8) <= MAX_COINBASE_SCRIPT_LEN
    ensures var jobs := Before(env, s.Inputs(), j).jobs;
            |jobs| == 2 && jobs[n].id == n + 1 && IsJobOf(env, s.name, s.WorkOf(n), jobs[n])
  {
    hide *;
    ToldOf(env, s, n);
    OpenTwo(env, s, j);
    FirstDifficulty(env, s, n);
    NotCleaned(s, n, j);
    var ins := s.Inputs();
    var job := Before(env, ins, j).jobs[n];
    var k := JobLives(env, ins, j, n);
    SentAt(env, s, k, j, n, job);
    LivesSpan(env, ins, k, j, job);
    var work, p := JobMade(env, ins, k, j, job);
    PlainJob(env.h, job, work, p);
    JobOf(env, s.name, work, job);
  }

  lemma JobOf(env: Env, name: string, work: MergedWork, job: SessionJob)
    requires env.cfg.Valid() && ScriptLen(work.parent, [], 8) <= MAX_COINBASE_SCRIPT_LEN
    requires !job.stale && job.work == work.parent
    requires job.coinbase == Parts(work.parent, env.payouts.parent(name).script, [], 8)
    requires env.cfg.minDifficulty <= job.difficulty == env.cfg.initialDifficulty
    requires job.target == job.work.algorithm.ShareTarget(job.difficulty)
    ensures IsJobOf(env, name, work, job)
  {
    hide Parts, Algorithm.ShareTarget;
  }

  lemma NotCleaned(s: Story, n: nat, j: nat)
    requires !s.second.cleanJobs && n <= 1 && j <= 4
    ensures !GotClean(s.Inputs(), n + 2, j)
  {
  }

  /** After work arrived it is the work in force. */
  lemma WorkInForce(env: Env, ins: seq<Input>, j: nat)
    requires env.cfg.Valid() && j < |ins| && ins[j].OnWork?
    ensures Before(env, ins, j + 1).work == Some(ins[j].work)
  {
    hide Before, Sane, JobsStep, AcceptedBy, IdsOrdered, Resolved, SamePay, Effect;
    RunSteps(env, ins, j);
  }

  // ---------- the shares ----------

  lemma NoneBefore(env: Env, ins: seq<Input>, j: nat, id: nat, key: (u32, u32, u32))
    requires env.cfg.Valid() && j <= |ins|
    requires forall i :: 0 <= i < j ==> ins[i].SubmitShare? ==> ins[i].jobId != id
    ensures forall i: nat :: i < j ==> !Entered(env, ins, i, id, key)
  {
    hide Before, Sane, ShareKey, Timely;
  }

  lemma MeetsIsLowEnough(env: Env, name: string, work: MergedWork, job: SessionJob, submit: Submit)
    requires env.cfg.Valid() && ScriptLen(work.parent, [], 8) <= MAX_COINBASE_SCRIPT_LEN
    requires IsJobOf(env, name, work, job)
    ensures ShareHeader(env.h, job, env.extranonce1 + submit.extranonce2, submit)
        == HeaderFor(env, name, work.parent, submit)
    ensures Meets(env, job, submit) <==> LowEnough(env, name, work.parent, submit)
  {
    hide Parts, Serialize, HeaderBytes, Target.IsMetBy, Algorithm.ShareTarget, WorkTemplate.MerkleRoot;
  }

  /** The share for job `n + 1` hashes the header of its work, and is accepted exactly if that meets the
      target. */
  lemma ShareAccepted(env: Env, s: Story, n: nat)
    requires env.cfg.Valid() && Told(env, s) && n <= 1
    ensures ScriptLen(s.WorkOf(n).parent, [], 8) <= MAX_COINBASE_SCRIPT_LEN
    ensures var ins := s.Inputs();
            && |Before(env, ins, n + 3).jobs| == 2
            && HeaderAt(env, ins, n + 3, n) == HeaderFor(env, s.name, s.WorkOf(n).parent, s.ShareOf(n))
            && (Effect(env, ins, n + 3).accepted == Some((n + 1, ShareKey(s.ShareOf(n))))
                <==> LowEnough(env, s.name, s.WorkOf(n).parent, s.ShareOf(n)))
  {
    var ins, j, work, submit := s.Inputs(), n + 3, s.WorkOf(n), s.ShareOf(n);
    ToldOf(env, s, n);
    OpenTwo(env, s, j);
    JobIs(env, s, j, n);
    MeetsIsLowEnough(env, s.name, work, Before(env, ins, j).jobs[n], submit);
    EntersFirst(env, s, n, n + 1, ShareKey(submit));
    hide Before, Sane, Effect, ShareKey, Meets, LowEnough, ScriptLen, HeaderFor, ShareHeader, Told, Fine, Entered,
         IsJobOf;
    EnteredIsAnswered(env, ins, j, n, ShareKey(submit));
  }

  /** The share for job `n + 1` is entered there, as the first of its key. */
  lemma EntersFirst(env: Env, s: Story, n: nat, id: nat, key: (u32, u32, u32))
    requires env.cfg.Valid() && Told(env, s) && n <= 1 && id == n + 1
    requires |s.ShareOf(n).extranonce2| == EXTRANONCE2_LEN && key == ShareKey(s.ShareOf(n))
    ensures Entered(env, s.Inputs(), n + 3, id, key)
    ensures forall i: nat :: i < n + 3 ==> !Entered(env, s.Inputs(), i, id, key)
  {
    var ins, j := s.Inputs(), n + 3;
    ToldOf(env, s, n);
    OpenTwo(env, s, j);
    JobIs(env, s, j, n);
    NoneBefore(env, ins, j, id, key);
    hide Before, Sane, ShareKey, ScriptLen, Told, Parts, Algorithm.ShareTarget;
    var job := Before(env, ins, j).jobs[n];
    assert HeldAs(Before(env, ins, j), n, id) && Enters(job, ins[j]);
  }

  /** There are hash functions under which a share is low enough, whatever the difficulty. */
  lemma SomeHashIsLow(env: Env, name: string, t: WorkTemplate, submit: Submit)
    requires env.cfg.Valid() && ScriptLen(t, [], 8) <= MAX_COINBASE_SCRIPT_LEN
    ensures LowEnough(env.(h := AllHash(0)), name, t, submit)
  {
    hide Parts, Serialize, HeaderBytes, Algorithm.ShareTarget, WorkTemplate.MerkleRoot, FromLE, ToLE, AllHash;
  }

  // ---------- one header under two job ids ----------

  /** A template's id is no part of its coinbase. */
  lemma SameParts(a: WorkTemplate, b: WorkTemplate, script: Vec)
    requires a == b.(id := a.id) && ScriptLen(a, [], 8) <= MAX_COINBASE_SCRIPT_LEN
    ensures ScriptLen(b, [], 8) <= MAX_COINBASE_SCRIPT_LEN && Parts(a, script, [], 8) == Parts(b, script, [], 8)
  {
  }

  lemma StoryParts(s: Story)
    ensures s.WorkOf(0) == s.first && s.WorkOf(1) == s.second && s.ShareOf(0) == s.x && s.ShareOf(1) == s.y
    ensures s.Inputs()[2] == OnWork(s.second) && s.Inputs()[3].SubmitShare? && s.Inputs()[4].SubmitShare?
  {
  }

  lemma SameHeaderFor(env: Env, name: string, a: WorkTemplate, b: WorkTemplate, submit: Submit)
    requires a == b.(id := a.id) && ScriptLen(a, [], 8) <= MAX_COINBASE_SCRIPT_LEN
    ensures ScriptLen(b, [], 8) <= MAX_COINBASE_SCRIPT_LEN
    ensures HeaderFor(env, name, a, submit) == HeaderFor(env, name, b, submit)
    ensures env.cfg.Valid() ==> (LowEnough(env, name, a, submit) <==> LowEnough(env, name, b, submit))
  {
    SameParts(a, b, env.payouts.parent(name).script);
    hide ScriptLen, Parts, Serialize, HeaderBytes, Algorithm.ShareTarget, Target.IsMetBy, Merkle.RootFromBranch;
  }

  lemma SameWorkOf(env: Env, name: string, x: MergedWork, y: MergedWork, a: SessionJob, b: SessionJob)
    requires env.cfg.Valid() && ScriptLen(x.parent, [], 8) <= MAX_COINBASE_SCRIPT_LEN
    requires ScriptLen(y.parent, [], 8) <= MAX_COINBASE_SCRIPT_LEN && x.parent == y.parent.(id := x.parent.id)
    requires IsJobOf(env, name, x, a) && IsJobOf(env, name, y, b)
    ensures SameWork(a, b)
  {
    SameParts(x.parent, y.parent, env.payouts.parent(name).script);
    hide ScriptLen, Parts, Algorithm.ShareTarget;
  }

  /** A template comes again under another id, not clean, and one share is submitted for both jobs: they
      are made of the same work, both submits hash one header, and if it meets the target both are
      accepted. */
  lemma AcceptedUnderTwoIds(env: Env, s: Story)
    requires env.cfg.Valid() && Told(env, s)
    requires s.second.parent == s.first.parent.(id := s.second.parent.id) && s.x == s.y
    ensures ScriptLen(s.first.parent, [], 8) <= MAX_COINBASE_SCRIPT_LEN
    ensures var ins := s.Inputs();
            && |Before(env, ins, 3).jobs| == 2 && |Before(env, ins, 4).jobs| == 2
            && SameWork(Before(env, ins, 3).jobs[0], Before(env, ins, 4).jobs[1])
            && HeaderAt(env, ins, 3, 0) == HeaderAt(env, ins, 4, 1)
            && (LowEnough(env, s.name, s.first.parent, s.x) ==>
                  && Effect(env, ins, 3).accepted == Some((1, ShareKey(s.x)))
                  && Effect(env, ins, 4).accepted == Some((2, ShareKey(s.x))))
  {
    hide *;
    StoryParts(s);
    ShareAccepted(env, s, 0);
    ShareAccepted(env, s, 1);
    JobIs(env, s, 3, 0);
    JobIs(env, s, 4, 1);
    SameHeaderFor(env, s.name, s.first.parent, s.second.parent, s.x);
    SameWorkOf(env, s.name, s.first, s.second, Before(env, s.Inputs(), 3).jobs[0], Before(env, s.Inputs(), 4).jobs[1]);
  }
}
