/** Protocol state for one miner connection, as a state machine over its requests, new work and
    the timer. */
module Session {
  import opened Bytes
  import opened Wrappers
  import opened Work
  import opened Coinbase
  import opened Jobs
  import opened Validate
  import opened Events
  import Vardiff

  const MAX_JOBS := 8
  const EPSILON := 1.0 / 4503599627370496.0

  // ---------- payouts ----------

  /** Payout resolution per chain; aux chains in the order they are mined. */
  datatype AuxTable = AuxTable(coin: string, resolve: string -> Payout)

  datatype PayoutSet = PayoutSet(parent: string -> Payout, aux: seq<AuxTable>)

  /** The parent payout comes from the username, the aux payouts from the password. */
  function Resolve(tables: PayoutSet, username: string, password: string): Payouts {
    Payouts(tables.parent(username),
            seq(|tables.aux|, i requires 0 <= i < |tables.aux| =>
              AuxPayout(tables.aux[i].coin, tables.aux[i].resolve(password))))
  }

  /** The comparison `authorize` makes before it lets a connection change its payouts. */
  predicate SameScripts(a: Payouts, b: Payouts) {
    && a.parent.script == b.parent.script && |a.aux| == |b.aux|
    && forall i :: 0 <= i < |a.aux| ==> a.aux[i].payout.script == b.aux[i].payout.script
  }

  // ---------- state ----------

  /** What is fixed when a session starts. */
  datatype Env = Env(
    h: Hashes, id: nat, extranonce1: Extranonce1, cfg: Vardiff.Config, payouts: PayoutSet, started: real)

  datatype State = State(
    payout: Option<Payouts>, workers: seq<string>, difficulty: real, nextJob: nat, jobs: seq<SessionJob>,
    work: Option<MergedWork>, vardiff: Vardiff.State)

  function Initial(env: Env): State {
    State(None, [], env.cfg.initialDifficulty, 1, [], None, Vardiff.State([], env.started, env.started))
  }

  datatype Denial = MissingUsername | OtherAddress | Reject(reason: RejectReason)

  datatype Reply = Silent | Granted | Denied(why: Denial)

  type Key = (nat, (u32, u32, u32))

  /** `accepted` names the job and the share; `notified` the new job's id and clean flag. */
  datatype Effects = Effects(
    reply: Reply, accepted: Option<Key>, blocks: seq<BlockCandidate>, notified: Option<(nat, bool)>,
    events: seq<PoolEvent>, close: bool, panicked: bool)

  const NOTHING := Effects(Silent, None, [], None, [], false, false)

  datatype Input =
    | Authorize(username: string, password: string)
    | SubmitShare(jobId: nat, submit: Submit, now: real, nowUnix: nat)
    | OnWork(work: MergedWork)
    | Tick(now: real)
    | Suggest(difficulty: real)

  /** What every step relies on and keeps, as far as its own definedness goes. */
  predicate Sane(env: Env, s: State) {
    && env.cfg.Valid() && env.cfg.minDifficulty <= s.difficulty <= env.cfg.maxDifficulty
    && |s.vardiff.shares| <= Vardiff.MAX_WINDOW_SHARES
    && forall i :: 0 <= i < |s.jobs| ==> PartsFit(s.jobs[i])
  }

  // ---------- difficulty ----------

  function WithDifficulty(env: Env, s: State, fx: Effects, difficulty: real): (State, Effects) {
    (s.(difficulty := difficulty), fx.(events := fx.events + [DifficultyChanged(env.id, difficulty)]))
  }

  function Retarget(env: Env, s: State, fx: Effects, now: real): (State, Effects)
    requires Sane(env, s)
  {
    var (v, d) := Vardiff.Evaluated(env.cfg, s.vardiff, now, s.difficulty);
    match d
    case None => (s.(vardiff := v), fx)
    case Some(difficulty) => WithDifficulty(env, s.(vardiff := v), fx, difficulty)
  }

  // ---------- jobs ----------

  /** The newest jobs, at most as many as a session keeps. */
  function Newest(jobs: seq<SessionJob>): (r: seq<SessionJob>)
    ensures |r| <= MAX_JOBS
  {
    if |jobs| > MAX_JOBS then jobs[|jobs| - MAX_JOBS..] else jobs
  }

  function NewJob(s: State, work: WorkTemplate, coinbase: CoinbaseParts, aux: seq<AuxJob>): SessionJob
    requires s.difficulty > 0.0
  {
    SessionJob(s.nextJob, work, coinbase, aux, s.difficulty, work.algorithm.ShareTarget(s.difficulty), false, {})
  }

  function SendJob(env: Env, s: State, fx: Effects, clean: bool): (State, Effects)
    requires Sane(env, s)
  {
    if s.work.None? || s.payout.None? then (s, fx)
    else
      match BuildAux(env.h, s.work.value, s.payout.value)
      case Failed(_) => (s, fx.(close := true))
      case Panicked => (s, fx.(panicked := true))
      case Built(aux, commitment) =>
        match BuildParts(s.work.value.parent, s.payout.value.parent.script, commitment,
                         EXTRANONCE1_LEN + EXTRANONCE2_LEN)
        case Err(_) => (s, fx.(close := true))
        case Ok(coinbase) =>
          (s.(nextJob := s.nextJob + 1, jobs := Newest(s.jobs + [NewJob(s, s.work.value.parent, coinbase, aux)])),
           fx.(notified := Some((s.nextJob, clean || s.jobs == []))))
  }

  // ---------- the steps ----------

  function AuthorizeStep(env: Env, s: State, username: string, password: string): (State, Effects)
    requires Sane(env, s)
  {
    if username == [] then (s, NOTHING.(reply := Denied(MissingUsername)))
    else
      var payout := Resolve(env.payouts, username, password);
      if s.payout.Some? && !SameScripts(s.payout.value, payout) then (s, NOTHING.(reply := Denied(OtherAddress)))
      else
        var workers := if username in s.workers then s.workers else s.workers + [username];
        var event := Authorized(env.id, username, payout.parent.address, payout.parent.fallback, AuxInfos(payout.aux));
        var t := s.(workers := workers, payout := Some(payout));
        var fx := NOTHING.(reply := Granted, events := [event]);
        if s.payout.Some? then (t, fx)
        else
          var (u, fx2) := WithDifficulty(env, t, fx, t.difficulty);
          SendJob(env, u, fx2, false)
  }

  function AuxInfos(aux: seq<AuxPayout>): seq<AuxPayoutInfo> {
    seq(|aux|, i requires 0 <= i < |aux| =>
      AuxPayoutInfo(aux[i].coin, aux[i].payout.address, aux[i].payout.fallback))
  }

  function FindJob(jobs: seq<SessionJob>, id: nat): (r: Option<nat>)
    ensures r.Some? ==> r.value < |jobs| && jobs[r.value].id == id
    ensures r.None? ==> forall i :: 0 <= i < |jobs| ==> jobs[i].id != id
  {
    if jobs == [] then None
    else if jobs[0].id == id then Some(0)
    else
      match FindJob(jobs[1..], id)
      case None => assert forall i :: 0 < i < |jobs| ==> jobs[i] == jobs[1..][i - 1]; None
      case Some(i) => Some(i + 1)
  }

  function ShareEvent(env: Env, job: SessionJob, worker: string, outcome: ShareOutcome): PoolEvent {
    Share(env.id, worker, job.work.coin, job.difficulty,
          if outcome.Rejected? then 0.0 else outcome.difficulty,
          if outcome.Rejected? then Some(outcome.reason) else None)
  }

  function SubmitStep(env: Env, s: State, jobId: nat, submit: Submit, now: real, nowUnix: nat): (State, Effects)
    requires Sane(env, s)
  {
    if s.payout.None? || submit.worker !in s.workers then (s, NOTHING.(reply := Denied(Reject(Unauthorized))))
    else
      match FindJob(s.jobs, jobId)
      case None => (s, NOTHING.(reply := Denied(Reject(UnknownJob))))
      case Some(i) =>
        var job := s.jobs[i];
        var v := Judge(env.h, job, env.extranonce1, submit, s.payout.value.parent.address, nowUnix);
        var event := ShareEvent(env, job, submit.worker, v.outcome);
        var t := s.(jobs := s.jobs[i := v.job]);
        JudgeKeepsParts(env.h, job, env.extranonce1, submit, s.payout.value.parent.address, nowUnix);
        if v.outcome.Rejected? then
          Retarget(env, t, NOTHING.(reply := Denied(Reject(v.outcome.reason)), events := [event]), now)
        else
          Retarget(env, t.(vardiff := Vardiff.Recorded(env.cfg, t.vardiff, now, job.difficulty)),
                   NOTHING.(reply := Granted, accepted := Some((jobId, AcceptedKey(submit))), blocks := v.blocks,
                            events := [event]), now)
  }

  /** The key of an accepted share, whose extranonce2 has the right length. */
  function AcceptedKey(submit: Submit): (u32, u32, u32) {
    if |submit.extranonce2| == EXTRANONCE2_LEN then ShareKey(submit) else (0, submit.ntime, submit.nonce)
  }

  lemma JudgeKeepsParts(h: Hashes, job: SessionJob, en1: Extranonce1, submit: Submit, address: string, now: nat)
    requires PartsFit(job)
    ensures PartsFit(Judge(h, job, en1, submit, address, now).job)
  {
  }

  /** An aux block built on a tip the new work no longer has can no longer be accepted. */
  predicate IsCurrent(work: MergedWork, aux: AuxJob) {
    exists i :: 0 <= i < |work.aux| && work.aux[i].coin == aux.work.coin && work.aux[i].prevHash == aux.work.prevHash
  }

  function Aged(job: SessionJob, work: MergedWork): SessionJob {
    job.(stale := job.stale || work.cleanJobs,
         aux := seq(|job.aux|, i requires 0 <= i < |job.aux| =>
                  job.aux[i].(stale := job.aux[i].stale || !IsCurrent(work, job.aux[i]))))
  }

  function AgedAll(jobs: seq<SessionJob>, work: MergedWork): (r: seq<SessionJob>)
    ensures |r| == |jobs| && forall i :: 0 <= i < |jobs| ==> r[i] == Aged(jobs[i], work)
  {
    seq(|jobs|, i requires 0 <= i < |jobs| => Aged(jobs[i], work))
  }

  function WorkStep(env: Env, s: State, work: MergedWork): (State, Effects)
    requires Sane(env, s)
  {
    SendJob(env, s.(jobs := AgedAll(s.jobs, work), work := Some(work)), NOTHING, work.cleanJobs)
  }

  function TickStep(env: Env, s: State, now: real): (State, Effects)
    requires Sane(env, s)
  {
    if s.payout.Some? then Retarget(env, s, NOTHING, now) else (s, NOTHING)
  }

  function SuggestStep(env: Env, s: State, difficulty: real): (State, Effects) {
    var fx := NOTHING.(reply := Granted);
    var d := env.cfg.Clamped(difficulty);
    var change := d - s.difficulty;
    if difficulty > 0.0 && (if change < 0.0 then -change else change) > EPSILON
    then WithDifficulty(env, s, fx, d) else (s, fx)
  }

  function Step(env: Env, s: State, input: Input): (State, Effects)
    requires Sane(env, s)
  {
    match input
    case Authorize(username, password) => AuthorizeStep(env, s, username, password)
    case SubmitShare(jobId, submit, now, nowUnix) => SubmitStep(env, s, jobId, submit, now, nowUnix)
    case OnWork(work) => WorkStep(env, s, work)
    case Tick(now) => TickStep(env, s, now)
    case Suggest(difficulty) => SuggestStep(env, s, difficulty)
  }

  /** Difficulty stays in the configured range, whatever the request. */
  lemma StepKeepsSane(env: Env, s: State, input: Input)
    requires Sane(env, s)
    ensures Sane(env, Step(env, s, input).0)
  {
    hide BuildAux, BuildParts, Judge, Vardiff.Recorded, Vardiff.Evaluated, ShareKey, IsCurrent;
    match input {
      case SubmitShare(jobId, submit, now, nowUnix) =>
        SubmitKeepsSane(env, s, jobId, submit, now, nowUnix);
      case OnWork(work) =>
        SendJobKeepsSane(env, s.(jobs := AgedAll(s.jobs, work), work := Some(work)), NOTHING, work.cleanJobs);
      case Authorize(username, password) =>
        AuthorizeKeepsSane(env, s, username, password);
      case Tick(now) =>
        RetargetKeepsSane(env, s, NOTHING, now);
      case Suggest(difficulty) =>
    }
  }

  lemma AuthorizeKeepsSane(env: Env, s: State, username: string, password: string)
    requires Sane(env, s)
    ensures Sane(env, AuthorizeStep(env, s, username, password).0)
  {
    hide SendJob, SameScripts;
    if username != [] {
      var payout := Resolve(env.payouts, username, password);
      var workers := if username in s.workers then s.workers else s.workers + [username];
      var event := Authorized(env.id, username, payout.parent.address, payout.parent.fallback, AuxInfos(payout.aux));
      var t := s.(workers := workers, payout := Some(payout));
      var (u, fx2) := WithDifficulty(env, t, NOTHING.(reply := Granted, events := [event]), t.difficulty);
      SendJobKeepsSane(env, u, fx2, false);
    }
  }

  lemma SendJobKeepsSane(env: Env, s: State, fx: Effects, clean: bool)
    requires Sane(env, s)
    ensures Sane(env, SendJob(env, s, fx, clean).0)
  {
    hide BuildAux, Work.Algorithm.ShareTarget;
  }

  lemma RetargetKeepsSane(env: Env, s: State, fx: Effects, now: real)
    requires Sane(env, s)
    ensures Sane(env, Retarget(env, s, fx, now).0)
  {
    hide Vardiff.Optimal, Vardiff.Proposal;
    Vardiff.StepIsBounded(env.cfg, s.vardiff, now, s.difficulty);
  }

  lemma SubmitKeepsSane(env: Env, s: State, jobId: nat, submit: Submit, now: real, nowUnix: nat)
    requires Sane(env, s)
    ensures Sane(env, SubmitStep(env, s, jobId, submit, now, nowUnix).0)
  {
    hide Judge, Retarget, FindJob, ShareKey, Vardiff.Trimmed;
    if s.payout.Some? && submit.worker in s.workers && FindJob(s.jobs, jobId).Some? {
      var i := FindJob(s.jobs, jobId).value;
      var job, address := s.jobs[i], s.payout.value.parent.address;
      JudgeKeepsParts(env.h, job, env.extranonce1, submit, address, nowUnix);
      var v := Judge(env.h, job, env.extranonce1, submit, address, nowUnix);
      var event := ShareEvent(env, job, submit.worker, v.outcome);
      var t := s.(jobs := s.jobs[i := v.job]);
      if v.outcome.Rejected? {
        RetargetKeepsSane(env, t, NOTHING.(reply := Denied(Reject(v.outcome.reason)), events := [event]), now);
      } else {
        RetargetKeepsSane(env, t.(vardiff := Vardiff.Recorded(env.cfg, t.vardiff, now, job.difficulty)),
                          NOTHING.(reply := Granted, accepted := Some((jobId, AcceptedKey(submit))), blocks := v.blocks,
                                   events := [event]), now);
      }
    }
  }
}
