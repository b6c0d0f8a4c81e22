/** What a session answers and reports: who is registered, which payouts are in force, what is said of a
    share, and which difficulty the miner has been told. */
module SessionReports {
  import opened Bytes
  import opened Wrappers
  import opened Header
  import opened AuxTree
  import opened Work
  import opened Jobs
  import opened Validate
  import opened Candidates
  import opened Events
  import opened Session
  import opened SessionSteps
  import opened SessionRuns
  import opened SessionSafety
  import Coinbase
  import Target
  import Vardiff

  // ---------- authorize ----------

  /** The payouts a username and a password give, whole: the parent's from the username, every aux
      chain's from the password, under the coins of the tables and in their order. */
  ghost predicate GivenBy(tables: PayoutSet, username: string, password: string, p: Payouts) {
    && p.parent == tables.parent(username) && |p.aux| == |tables.aux|
    && forall i :: 0 <= i < |p.aux| ==>
         p.aux[i].coin == tables.aux[i].coin && p.aux[i].payout == tables.aux[i].resolve(password)
  }

  /** What the event of a granted authorize says. */
  ghost predicate Announces(env: Env, username: string, password: string, e: PoolEvent) {
    && e.Authorized? && e.session == env.id && e.worker == username
    && e.address == env.payouts.parent(username).address && e.fallback == env.payouts.parent(username).fallback
    && |e.aux| == |env.payouts.aux|
    && forall i :: 0 <= i < |e.aux| ==>
         && e.aux[i].coin == env.payouts.aux[i].coin
         && e.aux[i].address == env.payouts.aux[i].resolve(password).address
         && e.aux[i].fallback == env.payouts.aux[i].resolve(password).fallback
  }

  lemma ResolvedGives(tables: PayoutSet, username: string, password: string)
    ensures GivenBy(tables, username, password, Resolve(tables, username, password))
  {
  }

  lemma GivenAnnounced(env: Env, username: string, password: string, p: Payouts)
    requires GivenBy(env.payouts, username, password, p)
    ensures Announces(env, username, password,
                      Authorized(env.id, username, p.parent.address, p.parent.fallback, AuxInfos(p.aux)))
  {
  }

  /** Only a username is needed for the first authorize; a later one must ask for the same scripts. It
      is then registered, its payouts are in force, and it is announced. */
  lemma AuthorizeAnswer(env: Env, s: State, username: string, password: string)
    requires Sane(env, s)
    ensures var (t, fx) := AuthorizeStep(env, s, username, password);
            var same := s.payout.Some? ==> SameAsked(env.payouts, username, password, s.payout.value);
            var granted := username != "" && same;
            && (fx.reply == Granted <==> granted)
            && (fx.reply == Denied(MissingUsername) <==> username == "")
            && (fx.reply == Denied(OtherAddress) <==> username != "" && !same)
            && (if granted
                then && t.payout.Some? && GivenBy(env.payouts, username, password, t.payout.value)
                     && (forall w :: w in t.workers <==> w in s.workers || w == username)
                     && fx.events != [] && Announces(env, username, password, fx.events[0])
                     && forall i :: 1 <= i < |fx.events| ==> fx.events[i].DifficultyChanged?
                else t == s && fx.events == [])
  {
    ResolvedGives(env.payouts, username, password);
    var p := Resolve(env.payouts, username, password);
    GivenAnnounced(env, username, password, p);
    if s.payout.Some? {
      SameScriptsAsked(env.payouts, username, password, s.payout.value, p);
    }
    hide SendJob, Resolve, SameScripts, AuxInfos, GivenBy, Announces, SameAsked;
    if username != "" && s.payout.None? {
      var workers := if username in s.workers then s.workers else s.workers + [username];
      var event := Authorized(env.id, username, p.parent.address, p.parent.fallback, AuxInfos(p.aux));
      var (u, fx2) := WithDifficulty(env, s.(workers := workers, payout := Some(p)),
                                     NOTHING.(reply := Granted, events := [event]), s.difficulty);
      var made := SendJobMakes(env, u, fx2, false);
    }
  }

  /** The scripts of `p` are those that a username and a password ask for. */
  ghost predicate SameAsked(tables: PayoutSet, username: string, password: string, p: Payouts) {
    && p.parent.script == tables.parent(username).script && |p.aux| == |tables.aux|
    && forall i :: 0 <= i < |p.aux| ==> p.aux[i].payout.script == tables.aux[i].resolve(password).script
  }

  lemma SameScriptsAsked(tables: PayoutSet, username: string, password: string, p: Payouts, q: Payouts)
    requires GivenBy(tables, username, password, q)
    ensures SameScripts(p, q) <==> SameAsked(tables, username, password, p)
  {
    if SameAsked(tables, username, password, p) {
      assert forall i :: 0 <= i < |p.aux| ==> q.aux[i].payout == tables.aux[i].resolve(password);
    }
    if SameScripts(p, q) {
      assert forall i :: 0 <= i < |p.aux| ==> p.aux[i].payout.script == q.aux[i].payout.script;
    }
  }

  lemma OthersKeep(env: Env, s: State, input: Input)
    requires Sane(env, s) && !input.Authorize?
    ensures var t := Step(env, s, input).0; t.payout == s.payout && t.workers == s.workers
  {
    hide SendJob, Retarget, SubmitStep, Aged, Sane;
    match input {
      case SubmitShare(jobId, submit, now, nowUnix) =>
        var k := SubmitFrame(env, s, jobId, submit, now, nowUnix);
      case OnWork(work) =>
        AgedSane(env, s, work);
        var made := SendJobMakes(env, s.(jobs := AgedAll(s.jobs, work), work := Some(work)), NOTHING, work.cleanJobs);
      case Tick(now) =>
        RetargetFrame(env, s, NOTHING, now);
      case Suggest(_) =>
    }
  }

  /** Step `b` is an authorize that was granted. */
  ghost predicate GrantedAt(env: Env, ins: seq<Input>, b: nat)
    requires env.cfg.Valid()
  {
    b < |ins| && ins[b].Authorize? && Effect(env, ins, b).reply == Granted
  }

  lemma AuthorizeAt(env: Env, ins: seq<Input>, b: nat)
    requires env.cfg.Valid() && b < |ins|
    ensures var s, t := Before(env, ins, b), Before(env, ins, b + 1);
            if GrantedAt(env, ins, b)
            then && t.payout.Some? && GivenBy(env.payouts, ins[b].username, ins[b].password, t.payout.value)
                 && (forall w :: w in t.workers <==> w in s.workers || w == ins[b].username)
            else t.payout == s.payout && t.workers == s.workers
  {
    BeforeNext(env, ins, b);
    hide Before, Sane, AuthorizeStep, GivenBy, SubmitStep, WorkStep, TickStep, SuggestStep;
    var s := Before(env, ins, b);
    if ins[b].Authorize? {
      AuthorizeAnswer(env, s, ins[b].username, ins[b].password);
    } else {
      OthersKeep(env, s, ins[b]);
    }
  }

  lemma Start(env: Env, ins: seq<Input>)
    requires env.cfg.Valid()
    ensures Before(env, ins, 0).payout.None? && Before(env, ins, 0).workers == []
  {
    assert ins[..0] == [];
  }

  /** Over any run a worker is registered exactly if an authorize of that name was granted. */
  lemma {:induction false} WorkersAre(env: Env, ins: seq<Input>, j: nat, name: string)
    requires env.cfg.Valid() && j <= |ins|
    ensures name in Before(env, ins, j).workers
       <==> exists b: nat :: b < j && GrantedAt(env, ins, b) && ins[b].username == name
  {
    hide *;
    Start(env, ins);
    if j > 0 {
      WorkersAre(env, ins, j - 1, name);
      AuthorizeAt(env, ins, j - 1);
    }
  }

  /** Over any run the payouts in force are those of the last granted authorize. */
  lemma {:induction false} PayoutIsLatest(env: Env, ins: seq<Input>, j: nat) returns (b: nat)
    requires env.cfg.Valid() && j <= |ins| && Before(env, ins, j).payout.Some?
    ensures b < j && GrantedAt(env, ins, b) && forall m: nat :: b < m < j ==> !GrantedAt(env, ins, m)
    ensures GivenBy(env.payouts, ins[b].username, ins[b].password, Before(env, ins, j).payout.value)
  {
    hide *;
    b := 0;
    Start(env, ins);
    if j > 0 {
      AuthorizeAt(env, ins, j - 1);
      if GrantedAt(env, ins, j - 1) {
        b := j - 1;
      } else {
        b := PayoutIsLatest(env, ins, j - 1);
      }
    }
  }

  // ---------- share reports ----------

  /** The difficulty a hash achieves, in stratum units. */
  function Achieved(algorithm: Algorithm, hash: Hash256): real {
    Target.DIFF1 as real / AtLeastOne(FromLE(hash)) as real * (if algorithm == Scrypt then 65536.0 else 1.0)
  }

  /** What is reported of a share for a job that was answered so. */
  ghost predicate Reports(env: Env, job: SessionJob, submit: Submit, reply: Reply, e: PoolEvent) {
    && e.Share? && e.session == env.id && e.worker == submit.worker && e.coin == job.work.coin
    && e.jobDifficulty == job.difficulty
    && (forall r :: e.rejected == Some(r) <==> reply == Denied(Reject(r)))
    && (e.rejected.None? <==> reply == Granted)
    && (e.rejected.Some? ==> e.shareDifficulty == 0.0)
    && (e.rejected.None? ==>
          var header := HeaderBytes(ShareHeader(env.h, job, env.extranonce1 + submit.extranonce2, submit));
          var hash := if job.work.algorithm == Scrypt then env.h.scrypt(header) else env.h.sha256d(header);
          e.shareDifficulty == Achieved(job.work.algorithm, hash))
  }

  /** A submit for a held job by a registered worker is reported once, as it was answered; any other is
      not reported. */
  lemma SubmitReports(env: Env, s: State, jobId: nat, submit: Submit, now: real, nowUnix: nat)
    requires Sane(env, s)
    ensures var fx := SubmitStep(env, s, jobId, submit, now, nowUnix).1;
            var k := FindJob(s.jobs, jobId);
            if s.payout.Some? && submit.worker in s.workers && k.Some?
            then && fx.events != [] && Reports(env, s.jobs[k.value], submit, fx.reply, fx.events[0])
                 && forall i :: 1 <= i < |fx.events| ==> fx.events[i].DifficultyChanged?
            else fx.events == []
    ensures var reply := SubmitStep(env, s, jobId, submit, now, nowUnix).1.reply;
            && (s.payout.None? || submit.worker !in s.workers ==> reply == Denied(Reject(Unauthorized)))
            && (s.payout.Some? && submit.worker in s.workers && FindJob(s.jobs, jobId).None? ==>
                  reply == Denied(Reject(UnknownJob)))
  {
    hide Judge, Retarget, AcceptedKey, Vardiff.Trimmed, Reports, ShareEvent;
    if s.payout.Some? && submit.worker in s.workers && FindJob(s.jobs, jobId).Some? {
      var k := FindJob(s.jobs, jobId).value;
      var job, address := s.jobs[k], s.payout.value.parent.address;
      JudgeKeepsParts(env.h, job, env.extranonce1, submit, address, nowUnix);
      var v := Judge(env.h, job, env.extranonce1, submit, address, nowUnix);
      var event := ShareEvent(env, job, submit.worker, v.outcome);
      var t := s.(jobs := s.jobs[k := v.job]);
      OutcomeReports(env, job, submit, address, nowUnix);
      if v.outcome.Rejected? {
        RetargetFrame(env, t, NOTHING.(reply := Denied(Reject(v.outcome.reason)), events := [event]), now);
      } else {
        RetargetFrame(env, t.(vardiff := Vardiff.Recorded(env.cfg, t.vardiff, now, job.difficulty)),
                      NOTHING.(reply := Granted, accepted := Some((jobId, AcceptedKey(submit))), blocks := v.blocks,
                               events := [event]), now);
      }
      var fx := SubmitStep(env, s, jobId, submit, now, nowUnix).1;
      assert fx.events[0] == fx.events[..1][0] == event;
    }
  }

  lemma OutcomeReports(env: Env, job: SessionJob, submit: Submit, address: string, nowUnix: nat)
    requires PartsFit(job)
    ensures var v := Judge(env.h, job, env.extranonce1, submit, address, nowUnix);
            var reply := if v.outcome.Rejected? then Denied(Reject(v.outcome.reason)) else Granted;
            Reports(env, job, submit, reply, ShareEvent(env, job, submit.worker, v.outcome))
  {
    hide ShareKey, ParentCandidates, AuxCandidates, Target.IsMetBy, HeaderBytes, FromLE, ShareHeader, Target.DIFF1;
  }

  // ---------- sending a job ----------

  /** Every coinbase of the work can be built for the payouts: the aux chains' that are paid, and the
      parent's, with 45 bytes for the commitment if any is. */
  ghost predicate Buildable(work: MergedWork, p: Payouts) {
    var paid := exists i :: 0 <= i < |work.aux| && Paid(work.aux[i], p.aux);
    && AllFit(work.aux, p.aux) && p.parent.script != []
    && |work.parent.prefix| + (if paid then 45 else 0) + 8 <= 100
  }

  /** Two paid aux chains carry one chain id, and all aux coinbases can be built. */
  ghost predicate Clashes(work: MergedWork, p: Payouts) {
    AllFit(work.aux, p.aux) && Twins(work.aux, p.aux)
  }

  /** With work and payouts in force a job is sent, unless two paid aux chains carry one chain id, which
      panics, or some coinbase cannot be built, which ends the session. */
  lemma SendJobAnswer(env: Env, s: State, fx: Effects, clean: bool)
    requires Sane(env, s)
    ensures var (t, fx2) := SendJob(env, s, fx, clean);
            if s.work.None? || s.payout.None? then t == s && fx2 == fx
            else
              var clash, built := Clashes(s.work.value, s.payout.value), Buildable(s.work.value, s.payout.value);
              && fx2 == fx.(notified := fx2.notified, close := fx2.close, panicked := fx2.panicked)
              && fx2.panicked == (fx.panicked || clash)
              && fx2.close == (fx.close || (!clash && !built))
              && (if built && !clash
                  then && fx2.notified == Some((s.nextJob, clean || s.jobs == [])) && t.nextJob == s.nextJob + 1
                       && t.jobs != [] && t.jobs[|t.jobs| - 1].id == s.nextJob
                  else t == s && fx2.notified == fx.notified)
  {
    if s.work.Some? && s.payout.Some? {
      var work, p := s.work.value, s.payout.value;
      BuildPanicsIff(env.h, work, p);
      BuildsIff(env.h, work, p);
    }
    hide BuildAux, AllFit, Twins, Coinbase.Parts, Algorithm.ShareTarget, Paid;
  }

  /** When a miner gets a job: on new work once it has authorized, and at its first authorize if there is
      work; clean if the work is, or if it has none. */
  lemma JobsAreSent(env: Env, s: State, input: Input)
    requires Sane(env, s)
    ensures var (t, fx) := Step(env, s, input);
            match input
            case OnWork(work) =>
              var p := s.payout;
              fx.notified == if p.Some? && Buildable(work, p.value) && !Clashes(work, p.value)
                             then Some((s.nextJob, work.cleanJobs || s.jobs == [])) else None
            case Authorize(username, _) =>
              var first := s.payout.None? && username != "" && t.payout.Some? && s.work.Some?;
              var built := first && Buildable(s.work.value, t.payout.value) && !Clashes(s.work.value, t.payout.value);
              fx.notified == if built then Some((s.nextJob, s.jobs == [])) else None
            case _ => fx.notified.None?
  {
    hide SendJob, Retarget, SubmitStep, AuthorizeStep, Aged, Sane, Buildable, Clashes;
    match input {
      case Authorize(username, password) =>
        AuthorizeSends(env, s, username, password);
      case SubmitShare(jobId, submit, now, nowUnix) =>
        var k := SubmitFrame(env, s, jobId, submit, now, nowUnix);
      case OnWork(work) =>
        AgedSane(env, s, work);
        SendJobAnswer(env, s.(jobs := AgedAll(s.jobs, work), work := Some(work)), NOTHING, work.cleanJobs);
      case Tick(now) =>
        RetargetFrame(env, s, NOTHING, now);
      case Suggest(_) =>
    }
  }

  lemma AuthorizeSends(env: Env, s: State, username: string, password: string)
    requires Sane(env, s)
    ensures var (t, fx) := AuthorizeStep(env, s, username, password);
            var first := s.payout.None? && username != "" && t.payout.Some? && s.work.Some?;
            var built := first && Buildable(s.work.value, t.payout.value) && !Clashes(s.work.value, t.payout.value);
            fx.notified == if built then Some((s.nextJob, s.jobs == [])) else None
  {
    hide SendJob, Resolve, SameScripts, AuxInfos, Buildable, Clashes;
    if username != "" && s.payout.None? {
      var p := Resolve(env.payouts, username, password);
      var workers := if username in s.workers then s.workers else s.workers + [username];
      var event := Authorized(env.id, username, p.parent.address, p.parent.fallback, AuxInfos(p.aux));
      var (u, fx2) := WithDifficulty(env, s.(workers := workers, payout := Some(p)),
                                     NOTHING.(reply := Granted, events := [event]), s.difficulty);
      SendJobAnswer(env, u, fx2, false);
      var made := SendJobMakes(env, u, fx2, false);
    }
  }

  /** What building the aux jobs gives, by what can be built. */
  lemma BuildsIff(h: Hashes, work: MergedWork, p: Payouts)
    ensures BuildAux(h, work, p).Failed? <==> !AllFit(work.aux, p.aux)
    ensures BuildAux(h, work, p).Built? ==>
              var paid := exists i :: 0 <= i < |work.aux| && Paid(work.aux[i], p.aux);
              |BuildAux(h, work, p).commitment| == if paid then 44 else 0
  {
    DraftsPaid(h, work.aux, p.aux);
    AnyPaid(work.aux, p.aux);
    hide BuildTree, Commitment, Drafts, AllFit, Paid, PaidIds;
    if BuildAux(h, work, p).Built? {
      CommitmentSized(h, work, p);
    }
  }

  lemma CommitmentSized(h: Hashes, work: MergedWork, p: Payouts)
    requires BuildAux(h, work, p).Built?
    ensures var drafts := Drafts(h, work.aux, p.aux);
            drafts.Ok? && |BuildAux(h, work, p).commitment| == if drafts.value == [] then 0 else 44
  {
    hide BuildTree, Commitment, Drafts;
  }

  lemma {:induction false} AnyPaid(templates: seq<WorkTemplate>, payouts: seq<AuxPayout>)
    ensures PaidIds(templates, payouts) != [] <==> exists i :: 0 <= i < |templates| && Paid(templates[i], payouts)
  {
    if templates != [] {
      AnyPaid(templates[1..], payouts);
      assert forall i :: 0 < i < |templates| ==> templates[i] == templates[1..][i - 1];
    }
  }

  // ---------- difficulty ----------

  function Gap(x: real, y: real): real {
    if x < y then y - x else x - y
  }

  /** A suggestion in the configured range is followed, one outside it as far as the range goes, and one
      that is not positive, or no change to speak of, is ignored. */
  lemma SuggestSets(env: Env, s: State, difficulty: real)
    requires Sane(env, s)
    ensures var (t, fx) := SuggestStep(env, s, difficulty);
            var lo, hi, gap := env.cfg.minDifficulty, env.cfg.maxDifficulty, 1.0 / 4503599627370496.0;
            && fx.reply == Granted && t == s.(difficulty := t.difficulty)
            && (difficulty <= 0.0 ==> t == s && fx.events == [])
            && (lo <= difficulty <= hi ==>
                  t.difficulty == if Gap(difficulty, s.difficulty) > gap then difficulty else s.difficulty)
            && (difficulty > hi ==> t.difficulty == if hi - s.difficulty > gap then hi else s.difficulty)
            && (0.0 < difficulty < lo ==> t.difficulty == if s.difficulty - lo > gap then lo else s.difficulty)
            && fx.events == (if t.difficulty == s.difficulty then [] else [DifficultyChanged(env.id, t.difficulty)])
  {
  }

  /** The last difficulty that some events tell the miner of. */
  function LastTold(events: seq<PoolEvent>): Option<real> {
    if events == [] then None
    else if events[|events| - 1].DifficultyChanged? then Some(events[|events| - 1].difficulty)
    else LastTold(events[..|events| - 1])
  }

  /** The last one in the first `n` steps of a run. */
  function Told(env: Env, ins: seq<Input>, n: nat): Option<real>
    requires env.cfg.Valid() && n <= |ins|
  {
    if n == 0 then None
    else if LastTold(Effect(env, ins, n - 1).events).Some? then LastTold(Effect(env, ins, n - 1).events)
    else Told(env, ins, n - 1)
  }

  /** The events tell of the new difficulty, or it is the old one. */
  predicate Tells(s: State, t: State, events: seq<PoolEvent>) {
    t.difficulty == match LastTold(events) case None => s.difficulty case Some(d) => d
  }

  lemma NoneTold(events: seq<PoolEvent>)
    requires |events| <= 1 && (events != [] ==> !events[0].DifficultyChanged?)
    ensures LastTold(events).None?
  {
  }

  lemma RetargetTells(env: Env, s: State, fx: Effects, now: real)
    requires Sane(env, s) && LastTold(fx.events).None?
    ensures Tells(s, Retarget(env, s, fx, now).0, Retarget(env, s, fx, now).1.events)
  {
    hide Vardiff.Evaluated;
  }

  lemma SubmitTells(env: Env, s: State, jobId: nat, submit: Submit, now: real, nowUnix: nat)
    requires Sane(env, s)
    ensures Tells(s, SubmitStep(env, s, jobId, submit, now, nowUnix).0,
                  SubmitStep(env, s, jobId, submit, now, nowUnix).1.events)
  {
    hide Judge, Retarget, FindJob, AcceptedKey, Vardiff.Trimmed, LastTold;
    NoneTold([]);
    if s.payout.Some? && submit.worker in s.workers && FindJob(s.jobs, jobId).Some? {
      var k := FindJob(s.jobs, jobId).value;
      var job, address := s.jobs[k], s.payout.value.parent.address;
      JudgeKeepsParts(env.h, job, env.extranonce1, submit, address, nowUnix);
      var v := Judge(env.h, job, env.extranonce1, submit, address, nowUnix);
      var event := ShareEvent(env, job, submit.worker, v.outcome);
      var t := s.(jobs := s.jobs[k := v.job]);
      NoneTold([event]);
      if v.outcome.Rejected? {
        RetargetTells(env, t, NOTHING.(reply := Denied(Reject(v.outcome.reason)), events := [event]), now);
      } else {
        RetargetTells(env, t.(vardiff := Vardiff.Recorded(env.cfg, t.vardiff, now, job.difficulty)),
                      NOTHING.(reply := Granted, accepted := Some((jobId, AcceptedKey(submit))), blocks := v.blocks,
                               events := [event]), now);
      }
    }
  }

  lemma AuthorizeTells(env: Env, s: State, username: string, password: string)
    requires Sane(env, s)
    ensures var (t, fx) := AuthorizeStep(env, s, username, password);
            Tells(s, t, fx.events) && (s.payout.None? && t.payout.Some? ==> LastTold(fx.events).Some?)
  {
    hide SendJob, Resolve, SameScripts, AuxInfos;
    var p := Resolve(env.payouts, username, password);
    var event := Authorized(env.id, username, p.parent.address, p.parent.fallback, AuxInfos(p.aux));
    NoneTold([event]);
    if username != "" && s.payout.None? {
      var workers := if username in s.workers then s.workers else s.workers + [username];
      var (u, fx2) := WithDifficulty(env, s.(workers := workers, payout := Some(p)),
                                     NOTHING.(reply := Granted, events := [event]), s.difficulty);
      var made := SendJobMakes(env, u, fx2, false);
    }
  }

  lemma StepTells(env: Env, s: State, input: Input)
    requires Sane(env, s)
    ensures var (t, fx) := Step(env, s, input);
            Tells(s, t, fx.events) && (s.payout.None? && t.payout.Some? ==> LastTold(fx.events).Some?)
  {
    NoneTold([]);
    hide SendJob, Retarget, SubmitStep, AuthorizeStep, Aged, Sane;
    match input {
      case Authorize(username, password) =>
        AuthorizeTells(env, s, username, password);
      case SubmitShare(jobId, submit, now, nowUnix) =>
        SubmitTells(env, s, jobId, submit, now, nowUnix);
        OthersKeep(env, s, input);
      case OnWork(work) =>
        AgedSane(env, s, work);
        var made := SendJobMakes(env, s.(jobs := AgedAll(s.jobs, work), work := Some(work)), NOTHING, work.cleanJobs);
      case Tick(now) =>
        RetargetTells(env, s, NOTHING, now);
        OthersKeep(env, s, input);
      case Suggest(_) =>
    }
  }

  /** Over any run a miner that is authorized has been told a difficulty, and the last one it was told is
      the session's, in which the next job will be set. */
  lemma {:induction false} DifficultyIsTold(env: Env, ins: seq<Input>, n: nat)
    requires env.cfg.Valid() && n <= |ins|
    ensures Before(env, ins, n).difficulty
         == match Told(env, ins, n) case None => env.cfg.initialDifficulty case Some(d) => d
    ensures Before(env, ins, n).payout.Some? ==> Told(env, ins, n).Some?
  {
    assert ins[..0] == [];
    if n > 0 {
      DifficultyIsTold(env, ins, n - 1);
      BeforeNext(env, ins, n - 1);
      StepTells(env, Before(env, ins, n - 1), ins[n - 1]);
      hide Before, Step, Sane, LastTold;
    }
  }

  /** So every job was sent at the difficulty the miner had last been told by then. */
  lemma JobAtTold(env: Env, ins: seq<Input>, k: nat, j: nat, job: SessionJob)
    requires env.cfg.Valid() && Lives(env, ins, k, j, job)
    ensures k < j <= |ins| && Told(env, ins, k + 1) == Some(job.difficulty)
  {
    LivesAfter(env, ins, k, j, job);
    var work, payouts := JobMade(env, ins, k, j, job);
    DifficultyIsTold(env, ins, k + 1);
    hide Before, Told, Lives, MadeFrom, Sane, Algorithm.ShareTarget;
  }

  lemma LivesAfter(env: Env, ins: seq<Input>, k: nat, j: nat, job: SessionJob)
    requires env.cfg.Valid() && Lives(env, ins, k, j, job)
    ensures k < j <= |ins|
  {
    hide Before, Effect, Fresh, Grown, GotClean, TipGone, Sane;
  }
}
