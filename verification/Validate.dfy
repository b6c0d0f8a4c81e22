/** Share validation: rebuild the header a miner hashed, compare it against the targets, and
    assemble a block for every chain whose target it meets. */
module Validate {
  import opened Bytes
  import opened Header
  import opened Work
  import opened Coinbase
  import opened Jobs
  import AuxPow
  import Target

  datatype RejectReason =
    StaleJob | UnknownJob | LowDifficulty | Duplicate | InvalidNtime | InvalidExtranonce2 | Unauthorized

  datatype ShareOutcome = Accepted(difficulty: real) | Block(difficulty: real) | Rejected(reason: RejectReason)

  /** The fields of a submit, already parsed from hex. */
  datatype Submit = Submit(worker: string, extranonce2: seq<byte>, ntime: u32, nonce: u32)

  /** `blockHash` is in display order. */
  datatype BlockCandidate = BlockCandidate(
    coin: string, height: u64, blockHash: seq<byte>, powHash: Hash256, worker: string, address: string,
    block: seq<byte>, networkDifficulty: real, shareDifficulty: real, coinbaseValue: u64, foundAt: nat)

  datatype Verdict = Verdict(outcome: ShareOutcome, blocks: seq<BlockCandidate>, job: SessionJob)

  const MAX_FUTURE_NTIME := 7_200

  type Extranonce1 = s: seq<byte> | |s| == EXTRANONCE1_LEN witness Zeros(EXTRANONCE1_LEN)

  /** Difficulty of a 256-bit value relative to difficulty 1; zero counts as one. */
  function DifficultyOf(value: nat): real {
    Target.DIFF1 as real / (if value == 0 then 1 else value) as real
  }

  /** Stratum difficulty a hash achieves. */
  function ShareDifficulty(algorithm: Algorithm, pow: Hash256): real {
    DifficultyOf(FromLE(pow)) * algorithm.ShareMultiplier()
  }

  /** `u32::from_be_bytes`. */
  function FromBE(s: seq<byte>): u32
    requires |s| == 4
  {
    Pow256Values();
    FromLE(Reverse(s))
  }

  function ShareKey(submit: Submit): (u32, u32, u32)
    requires |submit.extranonce2| == EXTRANONCE2_LEN
  {
    (FromBE(submit.extranonce2), submit.ntime, submit.nonce)
  }

  // ---------- the header and the blocks ----------

  /** The header the miner hashed. */
  function ShareHeader(h: Hashes, job: SessionJob, extranonce: seq<byte>, submit: Submit): BlockHeader {
    BlockHeader(job.work.version, job.work.prevHash, job.work.MerkleRoot(h, Txid(h, job.coinbase, extranonce)),
                submit.ntime, job.work.bits, submit.nonce)
  }

  function ShareHash(h: Hashes, job: SessionJob, extranonce: seq<byte>, submit: Submit): Hash256 {
    job.work.algorithm.PowHash(h, HeaderBytes(ShareHeader(h, job, extranonce, submit)))
  }

  function CandidateFor(
    work: WorkTemplate, hash: Hash256, pow: Hash256, worker: string, address: string, block: seq<byte>,
    difficulty: real, now: nat): BlockCandidate
  {
    BlockCandidate(work.coin, work.height, Reverse(hash), pow, worker, address, block,
                   DifficultyOf(work.NetworkTarget()), difficulty, work.coinbaseValue, now)
  }

  function ParentBlock(h: Hashes, job: SessionJob, extranonce: seq<byte>, submit: Submit): seq<byte>
    requires |job.coinbase.coinb1| >= 4 && |job.coinbase.coinb2| >= 4
  {
    BlockBytes(job.work, ShareHeader(h, job, extranonce, submit), [], SerializeForBlock(job.coinbase, extranonce))
  }

  function AuxProof(h: Hashes, job: SessionJob, aux: AuxJob, extranonce: seq<byte>, submit: Submit): AuxPow.Proof {
    var header := ShareHeader(h, job, extranonce, submit);
    AuxPow.Proof(Serialize(job.coinbase, extranonce), BlockHash(h, header), job.work.merkleBranch,
                 aux.chainBranch, aux.chainIndex, header)
  }

  function AuxBlock(h: Hashes, job: SessionJob, aux: AuxJob, extranonce: seq<byte>, submit: Submit): seq<byte> {
    BlockBytes(aux.work, aux.header, AuxPow.ProofBytes(AuxProof(h, job, aux, extranonce, submit)), aux.coinbase)
  }

  /** The aux candidates, in job order: not stale, and the pow meets the aux chain's target. */
  function AuxCandidates(
    h: Hashes, job: SessionJob, aux: seq<AuxJob>, extranonce: seq<byte>, submit: Submit, difficulty: real, now: nat)
    : seq<BlockCandidate>
  {
    if aux == [] then []
    else
      var rest := AuxCandidates(h, job, aux[1..], extranonce, submit, difficulty, now);
      if MeetsAux(h, job, aux[0], extranonce, submit)
      then [AuxCandidate(h, job, aux[0], extranonce, submit, difficulty, now)] + rest
      else rest
  }

  predicate MeetsAux(h: Hashes, job: SessionJob, aux: AuxJob, extranonce: seq<byte>, submit: Submit) {
    !aux.stale && Target.IsMetBy(aux.work.NetworkTarget(), ShareHash(h, job, extranonce, submit))
  }

  function AuxCandidate(
    h: Hashes, job: SessionJob, aux: AuxJob, extranonce: seq<byte>, submit: Submit, difficulty: real, now: nat)
    : BlockCandidate
  {
    CandidateFor(aux.work, aux.hash, ShareHash(h, job, extranonce, submit), submit.worker, aux.address,
                 AuxBlock(h, job, aux, extranonce, submit), difficulty, now)
  }

  function ParentCandidates(
    h: Hashes, job: SessionJob, extranonce: seq<byte>, submit: Submit, address: string, difficulty: real, now: nat)
    : seq<BlockCandidate>
    requires |job.coinbase.coinb1| >= 4 && |job.coinbase.coinb2| >= 4
  {
    var pow := ShareHash(h, job, extranonce, submit);
    if Target.IsMetBy(job.work.NetworkTarget(), pow)
    then [CandidateFor(job.work, BlockHash(h, ShareHeader(h, job, extranonce, submit)), pow, submit.worker, address,
                       ParentBlock(h, job, extranonce, submit), difficulty, now)]
    else []
  }

  /** The job's parts were built for a session's extranonce. */
  predicate PartsFit(job: SessionJob) {
    |job.coinbase.coinb1| >= 4 && |job.coinbase.coinb2| >= 4
    && job.coinbase.extranonceLen == EXTRANONCE1_LEN + EXTRANONCE2_LEN
  }

  /** The share's checks in the order the code makes them. A share that fails only on difficulty
      has already been entered in `seen`. */
  function Judge(h: Hashes, job: SessionJob, en1: Extranonce1, submit: Submit, address: string, now: nat): Verdict
    requires PartsFit(job)
  {
    if job.stale then Verdict(Rejected(StaleJob), [], job)
    else if |submit.extranonce2| + EXTRANONCE1_LEN != job.coinbase.extranonceLen then
      Verdict(Rejected(InvalidExtranonce2), [], job)
    else if submit.ntime < job.work.minTime || submit.ntime > now + MAX_FUTURE_NTIME then
      Verdict(Rejected(InvalidNtime), [], job)
    else if ShareKey(submit) in job.seen then Verdict(Rejected(Duplicate), [], job)
    else
      var (outcome, blocks) := Assess(h, job, en1 + submit.extranonce2, submit, address, now);
      Verdict(outcome, blocks, job.(seen := job.seen + {ShareKey(submit)}))
  }

  /** Hash the share and compare it with every target. */
  function Assess(h: Hashes, job: SessionJob, extranonce: seq<byte>, submit: Submit, address: string, now: nat)
    : (ShareOutcome, seq<BlockCandidate>)
    requires PartsFit(job)
  {
    var pow := ShareHash(h, job, extranonce, submit);
    var difficulty := ShareDifficulty(job.work.algorithm, pow);
    if !Target.IsMetBy(job.target, pow) then (Rejected(LowDifficulty), [])
    else
      var blocks := ParentCandidates(h, job, extranonce, submit, address, difficulty, now)
                    + AuxCandidates(h, job, job.aux, extranonce, submit, difficulty, now);
      (if blocks == [] then Accepted(difficulty) else Block(difficulty), blocks)
  }

  // ---------- the imperative form ----------

  method Validate(h: Hashes, job: SessionJob, en1: Extranonce1, submit: Submit, address: string, now: nat)
    returns (outcome: ShareOutcome, candidates: seq<BlockCandidate>, job': SessionJob)
    requires PartsFit(job)
    ensures Verdict(outcome, candidates, job') == Judge(h, job, en1, submit, address, now)
  {
    hide Assess, FromBE;
    if job.stale {
      return Rejected(StaleJob), [], job;
    }
    if |submit.extranonce2| + EXTRANONCE1_LEN != job.coinbase.extranonceLen {
      return Rejected(InvalidExtranonce2), [], job;
    }
    if submit.ntime < job.work.minTime || submit.ntime > now + MAX_FUTURE_NTIME {
      return Rejected(InvalidNtime), [], job;
    }
    var key := ShareKey(submit);
    if key in job.seen {
      return Rejected(Duplicate), [], job;
    }
    job' := job.(seen := job.seen + {key});
    var buffer := FillExtranonce(en1, submit.extranonce2);
    outcome, candidates := AssessShare(h, job, buffer[..], submit, address, now);
  }

  method AssessShare(h: Hashes, job: SessionJob, extranonce: seq<byte>, submit: Submit, address: string, now: nat)
    returns (outcome: ShareOutcome, candidates: seq<BlockCandidate>)
    requires PartsFit(job)
    ensures (outcome, candidates) == Assess(h, job, extranonce, submit, address, now)
  {
    hide ShareHash, ParentCandidates, AuxCandidates, ShareDifficulty, Target.IsMetBy;
    candidates := [];
    var pow := HashShare(h, job, extranonce, submit);
    var difficulty := ShareDifficulty(job.work.algorithm, pow);
    if !Target.IsMetBy(job.target, pow) {
      return Rejected(LowDifficulty), [];
    }
    candidates := CollectParent(h, job, extranonce, submit, address, difficulty, now);
    var more := CollectAux(h, job, extranonce, submit, difficulty, now);
    candidates := candidates + more;
    outcome := if candidates == [] then Accepted(difficulty) else Block(difficulty);
  }

  method HashShare(h: Hashes, job: SessionJob, extranonce: seq<byte>, submit: Submit) returns (pow: Hash256)
    ensures pow == ShareHash(h, job, extranonce, submit)
  {
    hide HeaderBytes;
    var txid := Txid(h, job.coinbase, extranonce);
    var header := BlockHeader(job.work.version, job.work.prevHash, job.work.MerkleRoot(h, txid),
                              submit.ntime, job.work.bits, submit.nonce);
    var bytes := WriteHeader(header);
    pow := job.work.algorithm.PowHash(h, bytes[..]);
  }

  method CollectParent(
    h: Hashes, job: SessionJob, extranonce: seq<byte>, submit: Submit, address: string, difficulty: real, now: nat)
    returns (found: seq<BlockCandidate>)
    requires PartsFit(job)
    ensures found == ParentCandidates(h, job, extranonce, submit, address, difficulty, now)
  {
    hide BlockBytes, HeaderBytes;
    var pow, header := ShareHash(h, job, extranonce, submit), ShareHeader(h, job, extranonce, submit);
    if !Target.IsMetBy(job.work.NetworkTarget(), pow) {
      return [];
    }
    var coinbase := WriteForBlock(job.coinbase, extranonce);
    var block := AssembleBlock(job.work, header, [], coinbase);
    return [CandidateFor(job.work, BlockHash(h, header), pow, submit.worker, address, block, difficulty, now)];
  }

  method FillExtranonce(en1: Extranonce1, en2: seq<byte>) returns (buffer: array<byte>)
    requires |en2| == EXTRANONCE2_LEN
    ensures fresh(buffer) && buffer[..] == en1 + en2
  {
    buffer := new byte[EXTRANONCE1_LEN + EXTRANONCE2_LEN](_ => 0);
    assert buffer[..0] == [];
    CopyInto(buffer, 0, en1);
    CopyInto(buffer, EXTRANONCE1_LEN, en2);
    assert buffer[..] == buffer[..EXTRANONCE1_LEN + EXTRANONCE2_LEN];
  }

  method CollectAux(h: Hashes, job: SessionJob, extranonce: seq<byte>, submit: Submit, difficulty: real, now: nat)
    returns (found: seq<BlockCandidate>)
    ensures found == AuxCandidates(h, job, job.aux, extranonce, submit, difficulty, now)
  {
    hide ShareHash, CandidateFor, AuxCandidates, MeetsAux, AuxBlock;
    found := [];
    var i := 0;
    assert job.aux[0..] == job.aux;
    while i < |job.aux|
      invariant 0 <= i <= |job.aux|
      invariant found + AuxCandidates(h, job, job.aux[i..], extranonce, submit, difficulty, now)
             == AuxCandidates(h, job, job.aux, extranonce, submit, difficulty, now)
    {
      var aux := job.aux[i];
      ghost var rest := AuxCandidates(h, job, job.aux[i + 1..], extranonce, submit, difficulty, now);
      AuxNext(h, job, i, extranonce, submit, difficulty, now);
      if MeetsAux(h, job, aux, extranonce, submit) {
        var block := AssembleAux(h, job, aux, extranonce, submit);
        var c := CandidateFor(aux.work, aux.hash, ShareHash(h, job, extranonce, submit), submit.worker, aux.address,
                              block, difficulty, now);
        assert c == AuxCandidate(h, job, aux, extranonce, submit, difficulty, now);
        assert found + ([c] + rest) == (found + [c]) + rest;
        found := found + [c];
      }
      i := i + 1;
    }
    assert AuxCandidates(h, job, [], extranonce, submit, difficulty, now) == [] by {
      AuxNone(h, job, extranonce, submit, difficulty, now);
    }
    assert job.aux[i..] == [] && found + [] == found;
  }

  lemma AuxNext(h: Hashes, job: SessionJob, i: nat, extranonce: seq<byte>, submit: Submit, difficulty: real, now: nat)
    requires i < |job.aux|
    ensures AuxCandidates(h, job, job.aux[i..], extranonce, submit, difficulty, now)
         == (if MeetsAux(h, job, job.aux[i], extranonce, submit)
             then [AuxCandidate(h, job, job.aux[i], extranonce, submit, difficulty, now)] else [])
            + AuxCandidates(h, job, job.aux[i + 1..], extranonce, submit, difficulty, now)
  {
    hide MeetsAux, AuxCandidate;
    assert job.aux[i..][1..] == job.aux[i + 1..];
    var rest := AuxCandidates(h, job, job.aux[i + 1..], extranonce, submit, difficulty, now);
    assert [] + rest == rest;
  }

  lemma AuxNone(h: Hashes, job: SessionJob, extranonce: seq<byte>, submit: Submit, difficulty: real, now: nat)
    ensures AuxCandidates(h, job, [], extranonce, submit, difficulty, now) == []
  {
  }

  method AssembleAux(h: Hashes, job: SessionJob, aux: AuxJob, extranonce: seq<byte>, submit: Submit)
    returns (block: seq<byte>)
    ensures block == AuxBlock(h, job, aux, extranonce, submit)
  {
    hide AuxProof, AuxPow.ProofBytes, BlockBytes;
    var out := new ByteBuf();
    AuxPow.Write(out, AuxProof(h, job, aux, extranonce, submit));
    assert out.data == AuxPow.ProofBytes(AuxProof(h, job, aux, extranonce, submit));
    block := AssembleBlock(aux.work, aux.header, out.data, aux.coinbase);
  }

  // ---------- first consequences ----------

  predicate IsAccepted(outcome: ShareOutcome) {
    !outcome.Rejected?
  }

  /** A share that passes the checks made before the seen shares are looked at. */
  predicate Timely(job: SessionJob, submit: Submit, now: nat) {
    && !job.stale && |submit.extranonce2| == EXTRANONCE2_LEN
    && job.work.minTime <= submit.ntime <= now + MAX_FUTURE_NTIME
  }

  /** A share that passes all the checks made before it is hashed. */
  predicate WellFormed(job: SessionJob, submit: Submit, now: nat) {
    Timely(job, submit, now) && ShareKey(submit) !in job.seen
  }

  /** Exactly when a share is accepted, and what that means of its scrypt or SHA-256d hash; and acceptance
      always enters it in `seen`. */
  lemma AcceptedIff(h: Hashes, job: SessionJob, en1: Extranonce1, submit: Submit, address: string, now: nat)
    requires PartsFit(job)
    ensures var v := Judge(h, job, en1, submit, address, now);
            && (IsAccepted(v.outcome) <==>
                  && !job.stale && |submit.extranonce2| == 4
                  && job.work.minTime <= submit.ntime <= now + 7200
                  && ShareKey(submit) !in job.seen
                  && Target.IsMetBy(job.target, ShareHash(h, job, en1 + submit.extranonce2, submit)))
            && (IsAccepted(v.outcome) ==> ShareKey(submit) in v.job.seen)
            && v.job == job.(seen := v.job.seen) && job.seen <= v.job.seen
    ensures WellFormed(job, submit, now) ==>
              var header := HeaderBytes(ShareHeader(h, job, en1 + submit.extranonce2, submit));
              var accepted := IsAccepted(Judge(h, job, en1, submit, address, now).outcome);
              accepted <==> WorkWithin(h, job.work.algorithm, header, job.target)
    ensures var outcome := Judge(h, job, en1, submit, address, now).outcome;
            && (outcome == Rejected(StaleJob) <==> job.stale)
            && (outcome == Rejected(InvalidExtranonce2) <==> !job.stale && |submit.extranonce2| != 4)
            && (outcome == Rejected(InvalidNtime) <==>
                  && !job.stale && |submit.extranonce2| == 4
                  && !(job.work.minTime <= submit.ntime <= now + 7200))
            && (outcome.Block? <==> Judge(h, job, en1, submit, address, now).blocks != [])
  {
    hide FromLE, HeaderBytes, FromBE;
  }

  /** In stratum units, a share that meets a job's target achieves the job's difficulty, and one that
      achieves it meets the target, as far as the fixed-point form of the target can express it. */
  lemma ShareAchieves(algorithm: Algorithm, difficulty: real, hash: Hash256)
    requires difficulty > 0.0 && FromLE(hash) > 0
    ensures var unit := if algorithm == Scrypt then 65536.0 else 1.0;
            var achieved, wanted := ShareDifficulty(algorithm, hash), Target.Effective(difficulty / unit) * unit;
            && (Target.IsMetBy(algorithm.ShareTarget(difficulty), hash) ==> achieved > wanted - unit / 4294967296.0)
            && (achieved >= wanted ==> Target.IsMetBy(algorithm.ShareTarget(difficulty), hash))
  {
    hide Target.FromDifficulty, Target.Effective, FromLE, Target.DIFF1, Target.IsMetBy;
    Target.AcceptsByDifficulty(difficulty / (if algorithm == Scrypt then 65536.0 else 1.0), hash);
  }

  /** `seen` grows exactly with every well-formed share, whether it is accepted or not: one that misses
      the job's target is entered as well, and answered as a duplicate when it comes again. */
  lemma SeenGrowsIff(h: Hashes, job: SessionJob, en1: Extranonce1, submit: Submit, address: string, now: nat)
    requires PartsFit(job)
    ensures var v := Judge(h, job, en1, submit, address, now);
            && v.job == job.(seen := v.job.seen)
            && v.job.seen == (if Timely(job, submit, now) then job.seen + {ShareKey(submit)} else job.seen)
            && (v.job.seen != job.seen <==> WellFormed(job, submit, now))
            && (v.job.seen != job.seen && !IsAccepted(v.outcome) <==>
                  && WellFormed(job, submit, now)
                  && !Target.IsMetBy(job.target, ShareHash(h, job, en1 + submit.extranonce2, submit)))
            && (v.outcome == Rejected(LowDifficulty) <==> v.job.seen != job.seen && !IsAccepted(v.outcome))
            && (v.outcome == Rejected(Duplicate) <==> Timely(job, submit, now) && ShareKey(submit) in job.seen)
  {
    hide ShareHash, FromBE, ParentCandidates, AuxCandidates, ShareDifficulty, Target.IsMetBy;
    if Timely(job, submit, now) && ShareKey(submit) in job.seen {
      assert job.seen + {ShareKey(submit)} == job.seen;
    }
  }

  /** Where an aux candidate comes from. */
  lemma {:induction false} AuxCandidateOrigin(
    h: Hashes, job: SessionJob, aux: seq<AuxJob>, extranonce: seq<byte>, submit: Submit, difficulty: real, now: nat,
    c: BlockCandidate)
    returns (i: nat)
    requires c in AuxCandidates(h, job, aux, extranonce, submit, difficulty, now)
    ensures i < |aux| && MeetsAux(h, job, aux[i], extranonce, submit)
    ensures c == AuxCandidate(h, job, aux[i], extranonce, submit, difficulty, now)
  {
    hide MeetsAux, AuxCandidate;
    if MeetsAux(h, job, aux[0], extranonce, submit)
        && c == AuxCandidate(h, job, aux[0], extranonce, submit, difficulty, now) {
      i := 0;
    } else {
      var j := AuxCandidateOrigin(h, job, aux[1..], extranonce, submit, difficulty, now, c);
      i := j + 1;
    }
  }

  /** Every aux job that is not stale and whose target is met has its candidate. */
  lemma {:induction false} AuxCandidateFound(
    h: Hashes, job: SessionJob, aux: seq<AuxJob>, extranonce: seq<byte>, submit: Submit, difficulty: real,
        now: nat, i: nat)
    requires i < |aux| && MeetsAux(h, job, aux[i], extranonce, submit)
    ensures AuxCandidate(h, job, aux[i], extranonce, submit, difficulty, now)
         in AuxCandidates(h, job, aux, extranonce, submit, difficulty, now)
  {
    hide MeetsAux, AuxCandidate;
    if i > 0 {
      AuxCandidateFound(h, job, aux[1..], extranonce, submit, difficulty, now, i - 1);
    }
  }


  /** A well-formed share yields blocks exactly if it meets the job's own target and some chain's, and
      then one for every chain whose target it meets. */
  lemma BlocksFoundIff(h: Hashes, job: SessionJob, en1: Extranonce1, submit: Submit, address: string, now: nat)
    requires PartsFit(job) && WellFormed(job, submit, now)
    ensures var extranonce := en1 + submit.extranonce2;
            var pow := ShareHash(h, job, extranonce, submit);
            var blocks := Judge(h, job, en1, submit, address, now).blocks;
            && (blocks != [] <==>
                  && Target.IsMetBy(job.target, pow)
                  && (|| Target.IsMetBy(job.work.NetworkTarget(), pow)
                      || exists i :: 0 <= i < |job.aux| && MeetsAux(h, job, job.aux[i], extranonce, submit)))
            && (Target.IsMetBy(job.target, pow) && Target.IsMetBy(job.work.NetworkTarget(), pow) ==>
                  exists c :: c in blocks && c.coin == job.work.coin
                      && c.block == ParentBlock(h, job, extranonce, submit))
            && (Target.IsMetBy(job.target, pow) ==>
                  forall i :: 0 <= i < |job.aux| && MeetsAux(h, job, job.aux[i], extranonce, submit) ==>
                    AuxCandidate(h, job, job.aux[i], extranonce, submit, ShareDifficulty(job.work.algorithm, pow),
                        now) in blocks)
  {
    hide ShareHash, MeetsAux, AuxCandidate, ShareDifficulty, Target.IsMetBy, AuxCandidates, ParentBlock, FromBE,
         DifficultyOf;
    var extranonce := en1 + submit.extranonce2;
    var pow := ShareHash(h, job, extranonce, submit);
    var difficulty := ShareDifficulty(job.work.algorithm, pow);
    var parents := ParentCandidates(h, job, extranonce, submit, address, difficulty, now);
    var found := AuxCandidates(h, job, job.aux, extranonce, submit, difficulty, now);
    forall i | 0 <= i < |job.aux| && MeetsAux(h, job, job.aux[i], extranonce, submit)
      ensures AuxCandidate(h, job, job.aux[i], extranonce, submit, difficulty, now) in found
    {
      AuxCandidateFound(h, job, job.aux, extranonce, submit, difficulty, now, i);
    }
    if found != [] {
      var i := AuxCandidateOrigin(h, job, job.aux, extranonce, submit, difficulty, now, found[0]);
    }
    if parents != [] {
      assert parents[0] in parents + found;
    }
  }

  /** No block of a chain is lost as long as the job's target is no harder than the chain's. */
  lemma EasyJobLosesNothing(h: Hashes, job: SessionJob, en1: Extranonce1, submit: Submit, address: string, now: nat)
    requires PartsFit(job) && WellFormed(job, submit, now)
    ensures var pow := ShareHash(h, job, en1 + submit.extranonce2, submit);
            var v := Judge(h, job, en1, submit, address, now);
            && (job.work.NetworkTarget() <= job.target && Target.IsMetBy(job.work.NetworkTarget(), pow) ==>
                  exists c :: c in v.blocks && c.block == ParentBlock(h, job, en1 + submit.extranonce2, submit))
            && forall i :: 0 <= i < |job.aux| && job.aux[i].work.NetworkTarget() <= job.target
                           && MeetsAux(h, job, job.aux[i], en1 + submit.extranonce2, submit) ==>
                 exists c :: c in v.blocks && c.block == AuxBlock(h, job, job.aux[i], en1 + submit.extranonce2, submit)
  {
    hide ShareHash, Judge, ParentBlock, AuxBlock, FromBE, ShareDifficulty, WellFormed;
    BlocksFoundIff(h, job, en1, submit, address, now);
  }

  /** The share meets the parent chain's target and yields no block. */
  ghost predicate LosesParent(h: Hashes, job: SessionJob, en1: Extranonce1, submit: Submit, address: string, now: nat)
    requires PartsFit(job)
  {
    && Target.IsMetBy(job.work.NetworkTarget(), ShareHash(h, job, en1 + submit.extranonce2, submit))
    && Judge(h, job, en1, submit, address, now).blocks == []
  }

  /** The same for aux job `i`. */
  ghost predicate LosesAux(
    h: Hashes, job: SessionJob, i: nat, en1: Extranonce1, submit: Submit, address: string, now: nat)
    requires PartsFit(job)
  {
    && i < |job.aux| && MeetsAux(h, job, job.aux[i], en1 + submit.extranonce2, submit)
    && Judge(h, job, en1, submit, address, now).blocks == []
  }

  /** Hashes that all have one value. */
  function AllHash(value: nat): (h: Hashes)
    requires value < Pow256(32)
    ensures forall x :: FromLE(h.scrypt(x)) == value && FromLE(h.sha256d(x)) == value
  {
    LEWordRoundTrip(value);
    var hash: Hash256 := ToLE(value, 32);
    Hashes(_ => hash, _ => hash)
  }

  lemma LEWordRoundTrip(value: nat)
    requires value < Pow256(32)
    ensures FromLE(ToLE(value, 32)) == value
  {
    hide ToLE, FromLE, Pow256;
    LERoundTrip(value, 32);
  }

  /** With hashes just above the job's target nothing is accepted. */
  lemma JustAbove(job: SessionJob, en1: Extranonce1, submit: Submit, address: string, now: nat)
    requires PartsFit(job) && WellFormed(job, submit, now) && job.target + 1 < Pow256(32)
    ensures var h := AllHash(job.target + 1);
            && FromLE(ShareHash(h, job, en1 + submit.extranonce2, submit)) == job.target + 1
            && Judge(h, job, en1, submit, address, now).blocks == []
  {
    hide AllHash, FromLE, ToLE, Pow256, ShareHeader, FromBE;
    BlocksFoundIff(AllHash(job.target + 1), job, en1, submit, address, now);
  }

  /** A well-formed share can lose a parent block, for some values of the hash, exactly if the job is
      harder than the parent chain; and an aux block exactly if it is harder than that aux chain. */
  lemma BlockCanBeLostIff(job: SessionJob, en1: Extranonce1, submit: Submit, address: string, now: nat)
    requires PartsFit(job) && WellFormed(job, submit, now)
    ensures (exists h :: LosesParent(h, job, en1, submit, address, now)) <==> job.target < job.work.NetworkTarget()
    ensures forall i: nat :: i < |job.aux| && !job.aux[i].stale ==>
              ((exists h :: LosesAux(h, job, i, en1, submit, address, now))
                  <==> job.target < job.aux[i].work.NetworkTarget())
  {
    hide ShareHash, AllHash, FromLE, Judge, WellFormed, ParentBlock, AuxBlock, Target.FromCompact;
    forall h | LosesParent(h, job, en1, submit, address, now) ensures job.target < job.work.NetworkTarget() {
      EasyJobLosesNothing(h, job, en1, submit, address, now);
    }
    if job.target < job.work.NetworkTarget() {
      JustAbove(job, en1, submit, address, now);
      assert LosesParent(AllHash(job.target + 1), job, en1, submit, address, now);
    }
    forall i: nat | i < |job.aux| && !job.aux[i].stale
      ensures (exists h :: LosesAux(h, job, i, en1, submit, address, now))
          <==> job.target < job.aux[i].work.NetworkTarget()
    {
      forall h | LosesAux(h, job, i, en1, submit, address, now) ensures job.target < job.aux[i].work.NetworkTarget() {
        EasyJobLosesNothing(h, job, en1, submit, address, now);
      }
      if job.target < job.aux[i].work.NetworkTarget() {
        JustAbove(job, en1, submit, address, now);
        assert LosesAux(AllHash(job.target + 1), job, i, en1, submit, address, now);
      }
    }
  }

  /** Such a job: the initial difficulty of the default configuration on a chain of the lowest
      difficulty, as a regression-test network has it. */
  lemma DefaultJobOnEasyChain(job: SessionJob)
    requires job.work.algorithm == Scrypt && job.work.bits == 0x207f_ffff
    requires job.target == job.work.algorithm.ShareTarget(65536.0)
    ensures job.target < job.work.NetworkTarget()
  {
    hide Pow256;
    Target.LowestDifficulty();
    Target.UnitDifficulty();
  }

  /** Whatever job a session has just sent, its first share may be rejected and yet entered: then the
      same share again is a duplicate. */
  lemma RejectedYetEntered(job: SessionJob, difficulty: real, en1: Extranonce1, worker: string, address: string)
    requires PartsFit(job) && !job.stale && job.seen == {}
    requires difficulty > 0.0 && job.target == job.work.algorithm.ShareTarget(difficulty)
    ensures job.target + 1 < Pow256(32)
    ensures var h := AllHash(job.target + 1);
            var submit := Submit(worker, Zeros(EXTRANONCE2_LEN), job.work.minTime, 0);
            var v := Judge(h, job, en1, submit, address, job.work.minTime);
            && v.outcome == Rejected(LowDifficulty) && ShareKey(submit) in v.job.seen
            && Judge(h, v.job, en1, submit, address, job.work.minTime).outcome == Rejected(Duplicate)
  {
    hide AllHash, FromLE, ToLE, Pow256, ShareHash, FromBE, Judge, Target.FromDifficulty;
    Target.BelowAll(difficulty / job.work.algorithm.ShareMultiplier());
    var h := AllHash(job.target + 1);
    var submit := Submit(worker, Zeros(EXTRANONCE2_LEN), job.work.minTime, 0);
    var v := Judge(h, job, en1, submit, address, job.work.minTime);
    JustAbove(job, en1, submit, address, job.work.minTime);
    SeenGrowsIff(h, job, en1, submit, address, job.work.minTime);
    SeenGrowsIff(h, v.job, en1, submit, address, job.work.minTime);
  }
}
