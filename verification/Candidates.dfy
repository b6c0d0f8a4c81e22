/** What holds of every block candidate a share yields, on any job a session sends. */
module Candidates {
  import opened Bytes
  import opened Wrappers
  import opened Header
  import opened Work
  import opened Coinbase
  import opened Jobs
  import opened Validate
  import opened BlockTheorems
  import opened AuxCheck
  import AuxPow
  import Target

  /** The share a candidate comes from: a submit to the session with this extranonce1. */
  datatype Solved = Solved(en1: Extranonce1, submit: Submit, now: nat)
  {
    function Extranonce(): seq<byte> {
      en1 + submit.extranonce2
    }
  }

  /** The block opens with the header whose hash the candidate reports. */
  ghost predicate Heads(h: Hashes, c: BlockCandidate) {
    |c.block| >= Header.LEN && c.blockHash == Reverse(h.sha256d(c.block[..Header.LEN]))
  }

  /** A header on the template's tip, with the template's version and target. */
  predicate IsHeaderOf(header: BlockHeader, work: WorkTemplate, time: u32, nonce: u32) {
    && header.version == work.version && header.prevHash == work.prevHash && header.bits == work.bits
    && header.time == time && header.nonce == nonce
  }

  predicate HeaderOf(block: seq<byte>, work: WorkTemplate, time: u32, nonce: u32) {
    |block| >= Header.LEN && IsHeaderOf(ReadHeader(block[..Header.LEN]), work, time, nonce)
  }

  function AtLeastOne(n: nat): nat {
    if n == 0 then 1 else n
  }

  /** What a candidate says beside its block: whose share it was and when, for whom, and the
      difficulties of the chain and of the share, the latter in stratum units. */
  predicate Reported(c: BlockCandidate, work: WorkTemplate, algorithm: Algorithm, address: string, share: Solved) {
    && c.coin == work.coin && c.height == work.height && c.coinbaseValue == work.coinbaseValue
    && c.worker == share.submit.worker && c.address == address && c.foundAt == share.now
    && c.networkDifficulty == Target.DIFF1 as real / AtLeastOne(Target.FromCompact(work.bits)) as real
    && c.shareDifficulty == Target.DIFF1 as real / AtLeastOne(FromLE(c.powHash)) as real
                            * (if algorithm == Scrypt then 65536.0 else 1.0)
  }

  /** A parent block: the share's own header on the template's tip, consistent, paying the script, with
      the session's extranonce at the end of its coinbase script, and with enough work for the target
      its own header names. */
  ghost predicate GoodParent(
    h: Hashes, c: BlockCandidate, work: MergedWork, script: Vec, address: string, share: Solved)
  {
    && Reported(c, work.parent, work.parent.algorithm, address, share)
    && Heads(h, c) && HeaderOf(c.block, work.parent, share.submit.ntime, share.submit.nonce)
    && c.powHash == (match work.parent.algorithm
                     case Scrypt => h.scrypt(c.block[..Header.LEN])
                     case Sha256d => h.sha256d(c.block[..Header.LEN]))
    && WorkWithin(h, work.parent.algorithm, c.block[..Header.LEN],
                  Target.FromCompact(ReadHeader(c.block[..Header.LEN]).bits))
    && BodyAgrees(h, c.block, Header.LEN, work.parent, script,
                  if work.parent.witnessCommitment.Some? then Some(Zeros(32)) else None)
    && var coinbase := BodyScript(c.block, Header.LEN, work.parent);
    && coinbase.Some? && EndsWith(coinbase.value, share.Extranonce())
  }

  /** The proof in an aux block is the share: its parent header stands on the parent's tip, the hash
      beside it is that header's, and its coinbase ends with the session's extranonce. */
  predicate ProofOfShare(h: Hashes, proof: AuxPow.Decoded, work: MergedWork, share: Solved) {
    && IsHeaderOf(proof.parentHeader, work.parent, share.submit.ntime, share.submit.nonce)
    && proof.parentHash == BlockHash(h, proof.parentHeader)
    && ScriptSig(proof.coinbase).Some? && EndsWith(ScriptSig(proof.coinbase).value, share.Extranonce())
  }

  /** An aux block: on its template's tip, with a proof that an aux node accepts and that is the share,
      and right behind the proof a body that pays the script. */
  ghost predicate GoodAux(
    h: Hashes, c: BlockCandidate, work: MergedWork, script: Vec, address: string, aux: AuxJob,
    share: Solved)
  {
    && aux.work in work.aux && Reported(c, aux.work, work.parent.algorithm, address, share)
    && Heads(h, c) && HeaderOf(c.block, aux.work, aux.work.curTime, 0)
    && !aux.stale
    && Accepts(h, work.parent.algorithm, c.block, |work.parent.prefix| + 1)
    && (MagicOf(c.block) == Some(|work.parent.prefix| + 1) <==> FindMagic(work.parent.prefix, 0).None?)
    && var proof := AuxPow.Decode(c.block[Header.LEN..]);
    && proof.Some? && ProofOfShare(h, proof.value, work, share)
    && BodyAgrees(h, c.block, Header.LEN + proof.value.len, aux.work, script, None)
    && BodyScript(c.block, Header.LEN + proof.value.len, aux.work) == Some(aux.work.prefix)
  }

  /** The same for the script and address the payouts hold for the aux job's coin. */
  ghost predicate GoodAuxOf(
    h: Hashes, c: BlockCandidate, work: MergedWork, payouts: Payouts, aux: AuxJob, share: Solved)
  {
    && FindPayout(payouts.aux, aux.work.coin).Some?
    && var p := FindPayout(payouts.aux, aux.work.coin).value;
    && GoodAux(h, c, work, p.script, p.address, aux, share)
  }

  /** Every candidate of a judged share is good for its chain. */
  lemma CandidateGood(
    h: Hashes, job: SessionJob, work: MergedWork, payouts: Payouts, en1: Extranonce1, submit: Submit,
    address: string, now: nat, c: BlockCandidate)
    requires MadeFrom(h, job, work, payouts) && WorkSound(h, work)
    requires PartsFit(job) && |submit.extranonce2| == EXTRANONCE2_LEN
    requires c in Assess(h, job, en1 + submit.extranonce2, submit, address, now).1
    ensures || GoodParent(h, c, work, payouts.parent.script, address, Solved(en1, submit, now))
            || exists i :: 0 <= i < |job.aux| && GoodAuxOf(h, c, work, payouts, job.aux[i], Solved(en1, submit, now))
  {
    hide MadeFrom, WorkSound, GoodParent, GoodAuxOf, ParentCandidates, AuxCandidates, ShareDifficulty, ShareHash,
         Target.IsMetBy;
    var extranonce := en1 + submit.extranonce2;
    var difficulty := ShareDifficulty(job.work.algorithm, ShareHash(h, job, extranonce, submit));
    if c in ParentCandidates(h, job, extranonce, submit, address, difficulty, now) {
      ParentGood(h, job, work, payouts, en1, submit, address, now, c);
    } else {
      var i := AuxCandidateOrigin(h, job, job.aux, extranonce, submit, difficulty, now, c);
      AuxGood(h, job, work, payouts, en1, submit, now, i);
    }
  }

  lemma ParentGood(
    h: Hashes, job: SessionJob, work: MergedWork, payouts: Payouts, en1: Extranonce1, submit: Submit,
    address: string, now: nat, c: BlockCandidate)
    requires MadeFrom(h, job, work, payouts) && WorkSound(h, work)
    requires PartsFit(job) && |submit.extranonce2| == EXTRANONCE2_LEN
    requires var pow := ShareHash(h, job, en1 + submit.extranonce2, submit);
             c in ParentCandidates(h, job, en1 + submit.extranonce2, submit, address,
                                   ShareDifficulty(job.work.algorithm, pow), now)
    ensures GoodParent(h, c, work, payouts.parent.script, address, Solved(en1, submit, now))
  {
    var extranonce := en1 + submit.extranonce2;
    ParentReported(h, job, en1, submit, address, now, c);
    hide MadeFrom, WorkSound, BodyAgrees, BodyScript, HeaderBytes, ReadHeader, ParentBlock, Target.IsMetBy,
         Target.FromCompact, ShareHeader, Reported, Reverse, WorkWithin, ShareDifficulty, EndsWith, Zeros,
         WorkTemplate.NetworkTarget;
    ParentBlockAgrees(h, job, work, payouts, en1, submit);
    JobWork(h, job, work, payouts);
    ParentStart(h, job, extranonce, submit);
    ShareHeaderOf(h, job, extranonce, submit);
    PowMeets(h, job.work.algorithm, HeaderBytes(ShareHeader(h, job, extranonce, submit)), job.work.NetworkTarget());
    TargetOf(job.work);
  }

  lemma ParentReported(
    h: Hashes, job: SessionJob, en1: Extranonce1, submit: Submit, address: string, now: nat, c: BlockCandidate)
    requires PartsFit(job)
    requires var pow := ShareHash(h, job, en1 + submit.extranonce2, submit);
             c in ParentCandidates(h, job, en1 + submit.extranonce2, submit, address,
                                   ShareDifficulty(job.work.algorithm, pow), now)
    ensures Reported(c, job.work, job.work.algorithm, address, Solved(en1, submit, now))
  {
    hide ShareHash, ParentBlock, Target.IsMetBy, Target.FromCompact, FromLE, Reverse, BlockHash, Target.DIFF1;
  }

  lemma TargetOf(work: WorkTemplate)
    ensures work.NetworkTarget() == Target.FromCompact(work.bits)
  {
    hide Target.FromCompact;
  }

  lemma ShareHeaderOf(h: Hashes, job: SessionJob, extranonce: seq<byte>, submit: Submit)
    ensures IsHeaderOf(ShareHeader(h, job, extranonce, submit), job.work, submit.ntime, submit.nonce)
  {
  }

  lemma JobWork(h: Hashes, job: SessionJob, work: MergedWork, payouts: Payouts)
    requires MadeFrom(h, job, work, payouts)
    ensures job.work == work.parent
  {
  }

  lemma ParentStart(h: Hashes, job: SessionJob, extranonce: seq<byte>, submit: Submit)
    requires PartsFit(job)
    ensures var block := ParentBlock(h, job, extranonce, submit);
            |block| >= Header.LEN && block[..Header.LEN] == HeaderBytes(ShareHeader(h, job, extranonce, submit))
  {
    hide HeaderBytes, BlockBytes, ShareHeader, SerializeForBlock;
    BlockParts(job.work, ShareHeader(h, job, extranonce, submit), [],
               SerializeForBlock(job.coinbase, extranonce));
  }

  lemma AuxGood(
    h: Hashes, job: SessionJob, work: MergedWork, payouts: Payouts, en1: Extranonce1, submit: Submit, now: nat, i: nat)
    requires MadeFrom(h, job, work, payouts) && WorkSound(h, work) && |submit.extranonce2| == EXTRANONCE2_LEN
    requires i < |job.aux| && MeetsAux(h, job, job.aux[i], en1 + submit.extranonce2, submit)
    ensures var pow := ShareHash(h, job, en1 + submit.extranonce2, submit);
            GoodAuxOf(h, AuxCandidate(h, job, job.aux[i], en1 + submit.extranonce2, submit,
                                      ShareDifficulty(job.work.algorithm, pow), now),
                      work, payouts, job.aux[i], Solved(en1, submit, now))
  {
    hide *;
    JobWork(h, job, work, payouts);
    JobAuxSound(h, job, work, payouts, i);
    AuxReported(h, job, job.aux[i], work, payouts, en1, submit, now);
    AuxBlockAccepted(h, job, work, payouts, en1, submit, i);
    AuxBlockAgrees(h, job, work, payouts, en1, submit, i);
    ShareProof(h, job, work, payouts, en1, submit, now, i);
    AuxStart(h, job, job.aux[i], work, payouts, en1 + submit.extranonce2, submit);
    var pow := ShareHash(h, job, en1 + submit.extranonce2, submit);
    CandidateIs(h, job, job.aux[i], en1 + submit.extranonce2, submit, ShareDifficulty(job.work.algorithm, pow), now);
    AuxTogether(h, AuxCandidate(h, job, job.aux[i], en1 + submit.extranonce2, submit,
                                ShareDifficulty(job.work.algorithm, pow), now),
                work, payouts, job.aux[i], Solved(en1, submit, now));
  }

  lemma CandidateIs(
    h: Hashes, job: SessionJob, aux: AuxJob, extranonce: seq<byte>, submit: Submit, difficulty: real, now: nat)
    ensures var c := AuxCandidate(h, job, aux, extranonce, submit, difficulty, now);
            c.block == AuxBlock(h, job, aux, extranonce, submit) && c.blockHash == Reverse(aux.hash)
    ensures MeetsAux(h, job, aux, extranonce, submit) ==> !aux.stale
  {
    hide AuxBlock, ShareHash, Reverse, DifficultyOf, Target.FromCompact;
  }

  /** What makes an aux candidate good, put together. */
  lemma AuxTogether(h: Hashes, c: BlockCandidate, work: MergedWork, payouts: Payouts, aux: AuxJob, share: Solved)
    requires FindPayout(payouts.aux, aux.work.coin).Some? && aux.work in work.aux && !aux.stale
    requires Reported(c, aux.work, work.parent.algorithm, FindPayout(payouts.aux, aux.work.coin).value.address, share)
    requires |c.block| >= Header.LEN && c.blockHash == Reverse(h.sha256d(c.block[..Header.LEN]))
    requires HeaderOf(c.block, aux.work, aux.work.curTime, 0)
    requires Accepts(h, work.parent.algorithm, c.block, |work.parent.prefix| + 1)
    requires MagicOf(c.block) == Some(|work.parent.prefix| + 1) <==> FindMagic(work.parent.prefix, 0).None?
    requires var proof := AuxPow.Decode(c.block[Header.LEN..]);
             && proof.Some? && ProofOfShare(h, proof.value, work, share)
             && BodyAgrees(h, c.block, Header.LEN + proof.value.len, aux.work,
                           FindPayout(payouts.aux, aux.work.coin).value.script, None)
             && BodyScript(c.block, Header.LEN + proof.value.len, aux.work) == Some(aux.work.prefix)
    ensures GoodAuxOf(h, c, work, payouts, aux, share)
  {
    hide BodyAgrees, BodyScript, Accepts, MagicOf, FindMagic, Reported, Reverse, AuxPow.Decode, HeaderOf,
         ProofOfShare, FindPayout;
  }

  lemma ShareProof(
    h: Hashes, job: SessionJob, work: MergedWork, payouts: Payouts, en1: Extranonce1, submit: Submit, now: nat, i: nat)
    requires MadeFrom(h, job, work, payouts) && |submit.extranonce2| == EXTRANONCE2_LEN && i < |job.aux|
    ensures var proof := AuxPow.Decode(AuxBlock(h, job, job.aux[i], en1 + submit.extranonce2, submit)[Header.LEN..]);
            proof.Some? && ProofOfShare(h, proof.value, work, Solved(en1, submit, now))
  {
    JobWork(h, job, work, payouts);
    ProofIsShares(h, job, work, payouts, en1, submit, i);
    ShareHeaderOf(h, job, en1 + submit.extranonce2, submit);
    hide MadeFrom, AuxBlock, AuxPow.Decode, ScriptSig, EndsWith, ShareHeader, BlockHash;
  }

  lemma AuxReported(
    h: Hashes, job: SessionJob, aux: AuxJob, work: MergedWork, payouts: Payouts, en1: Extranonce1, submit: Submit,
    now: nat)
    requires AuxSound(h, aux, work, payouts)
    ensures FindPayout(payouts.aux, aux.work.coin).Some?
    ensures var extranonce := en1 + submit.extranonce2;
            var difficulty := ShareDifficulty(job.work.algorithm, ShareHash(h, job, extranonce, submit));
            Reported(AuxCandidate(h, job, aux, extranonce, submit, difficulty, now), aux.work, job.work.algorithm,
                     FindPayout(payouts.aux, aux.work.coin).value.address, Solved(en1, submit, now))
  {
    hide ShareHash, AuxBlock, Target.FromCompact, FromLE, Reverse, BlockHash, Target.DIFF1, Serialize, Parts,
         FindPayout, WorkTemplate.MerkleRoot;
  }

  lemma AuxStart(
    h: Hashes, job: SessionJob, aux: AuxJob, work: MergedWork, payouts: Payouts, extranonce: seq<byte>, submit: Submit)
    requires AuxSound(h, aux, work, payouts)
    ensures var block := AuxBlock(h, job, aux, extranonce, submit);
            |block| >= Header.LEN && h.sha256d(block[..Header.LEN]) == aux.hash && aux.work in work.aux
            && HeaderOf(block, aux.work, aux.work.curTime, 0)
  {
    hide HeaderBytes, ReadHeader, BlockBytes, AuxPow.ProofBytes, AuxProof, Serialize, Parts;
    BlockParts(aux.work, aux.header, AuxPow.ProofBytes(AuxProof(h, job, aux, extranonce, submit)), aux.coinbase);
  }
}
