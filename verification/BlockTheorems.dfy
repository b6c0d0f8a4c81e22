/** What holds of the blocks that `Validate` assembles, read back from the bytes alone: their coinbase,
    their transactions, their header's commitment, and an aux block's proof. */
module BlockTheorems {
  import opened Bytes
  import opened Wrappers
  import opened Encode
  import opened Header
  import opened Transaction
  import opened AuxTree
  import opened Work
  import opened Coinbase
  import opened Jobs
  import opened Validate
  import opened AuxCheck
  import AuxPow
  import Merkle
  import Target

  /** A version 1 transaction that is final, with one input that spends nothing (output 0xffffffff of
      the hash that is all zeros), under a script that opens with the template's prefix and is no longer
      than consensus allows. */
  predicate IsCoinbaseOf(tx: Tx, work: WorkTemplate) {
    && FromLE(tx.version) == 1 && FromLE(tx.locktime) == 0
    && |tx.ins| == 1 && |tx.ins[0].prevout| == 36 && FromLE(tx.ins[0].sequence) == 0xffff_ffff
    && (forall k :: 0 <= k < 32 ==> tx.ins[0].prevout[k] == 0) && FromLE(tx.ins[0].prevout[32..]) == 0xffff_ffff
    && |tx.ins[0].script| <= 100 && At(tx.ins[0].script, 0, work.prefix)
  }

  /** The whole coinbase value goes to `script`; a witness commitment is one more output of no value. */
  predicate PaysOnly(outs: seq<TxOut>, work: WorkTemplate, script: Vec) {
    && |outs| == (if work.witnessCommitment.Some? then 2 else 1)
    && outs[0].value == work.coinbaseValue && outs[0].script == script
    && (work.witnessCommitment.Some? ==> outs[1].value == 0 && outs[1].script == work.witnessCommitment.value)
  }

  /** The coinbase script read from a block's body at `pos`. */
  function BodyScript(block: seq<byte>, pos: nat, work: WorkTemplate): Option<seq<byte>> {
    match ReadTx(block, pos + VarintLen(1 + |work.transactions|))
    case None => None
    case Some((tx, _, _)) => if tx.ins == [] then None else Some(tx.ins[0].script)
  }

  /** From `pos` on the block holds a transaction count, a coinbase paying exactly the template's
      outputs to `script`, and the template's transactions and payload, to the end; and the header
      in front commits to the coinbase's txid and every template transaction. */
  ghost predicate BodyAgrees(
    h: Hashes, block: seq<byte>, pos: nat, work: WorkTemplate, script: Vec, item: Option<seq<byte>>)
  {
    && |block| >= Header.LEN
    && ReadVarint(block, pos) == Some((1 + |work.transactions|, VarintLen(1 + |work.transactions|)))
    && var tx := ReadTx(block, pos + VarintLen(1 + |work.transactions|));
    && tx.Some? && Sized(tx.value.0) && tx.value.1 == item && tx.value.2 <= |block|
    && PaysOnly(tx.value.0.outs, work, script) && IsCoinbaseOf(tx.value.0, work)
    && block[tx.value.2..] == TxData(work.transactions) + work.extraPayload
    && ReadHeader(block[..Header.LEN]).merkleRoot == Merkle.Root(h, [h.sha256d(PlainBytes(tx.value.0))] + work.Txids())
  }

  predicate EndsWith(s: seq<byte>, tail: seq<byte>) {
    |tail| <= |s| && s[|s| - |tail|..] == tail
  }

  // ---------- taking a block apart ----------

  lemma BlockParts(work: WorkTemplate, header: BlockHeader, auxpow: seq<byte>, coinbase: seq<byte>)
    ensures var b := BlockBytes(work, header, auxpow, coinbase);
            var pos := Header.LEN + |auxpow|;
            var cb := pos + VarintLen(1 + |work.transactions|);
            && |b| >= Header.LEN && b[..Header.LEN] == HeaderBytes(header)
            && ReadHeader(b[..Header.LEN]) == header
            && At(b[Header.LEN..], 0, auxpow)
            && ReadVarint(b, pos) == Some((1 + |work.transactions|, VarintLen(1 + |work.transactions|)))
            && At(b, cb, coinbase)
            && cb + |coinbase| <= |b| && b[cb + |coinbase|..] == TxData(work.transactions) + work.extraPayload
  {
    hide HeaderBytes, ReadHeader, Varint, ReadVarint, TxData;
    var b := BlockBytes(work, header, auxpow, coinbase);
    var n := Varint(1 + |work.transactions|);
    var rest := TxData(work.transactions) + work.extraPayload;
    HeaderRoundTrip(header);
    FourParts(HeaderBytes(header), auxpow, n, coinbase, rest);
    VarintRoundTrip(b, Header.LEN + |auxpow|, 1 + |work.transactions|);
  }

  lemma FourParts(a: seq<byte>, b: seq<byte>, c: seq<byte>, d: seq<byte>, e: seq<byte>)
    ensures var s := a + (b + (c + (d + e)));
            && s[..|a|] == a && At(s[|a|..], 0, b) && At(s, |a| + |b|, c) && At(s, |a| + |b| + |c|, d)
            && s[|a| + |b| + |c| + |d|..] == e
  {
    var s := a + (b + (c + (d + e)));
    assert s[|a|..] == b + (c + (d + e));
    assert s == (a + b) + (c + (d + e)) == (a + b + c) + (d + e) == (a + b + c + d) + e;
  }

  // ---------- the parent block ----------

  /** The parent block candidate is consistent: its witness coinbase, stripped, is the txid
      preimage the header commits to, and it pays the payout script and the witness commitment. */
  lemma ParentBlockAgrees(
    h: Hashes, job: SessionJob, work: MergedWork, payouts: Payouts, en1: Extranonce1, submit: Submit)
    requires MadeFrom(h, job, work, payouts) && WorkSound(h, work)
    requires PartsFit(job) && |submit.extranonce2| == EXTRANONCE2_LEN
    ensures BodyAgrees(h, ParentBlock(h, job, en1 + submit.extranonce2, submit), Header.LEN, work.parent,
                       payouts.parent.script,
                       if work.parent.witnessCommitment.Some? then Some(Zeros(32)) else None)
    ensures ReadHeader(ParentBlock(h, job, en1 + submit.extranonce2, submit)[..Header.LEN])
         == ShareHeader(h, job, en1 + submit.extranonce2, submit)
    ensures var script := BodyScript(ParentBlock(h, job, en1 + submit.extranonce2, submit), Header.LEN, work.parent);
            script.Some? && EndsWith(script.value, en1 + submit.extranonce2)
  {
    CommitmentLength(h, work, payouts);
    hide BuildAux, BodyAgrees, BodyScript, CommitmentPush, Serialize, SerializeForBlock, Parts, BlockBytes;
    var extranonce := en1 + submit.extranonce2;
    ParentBodyAgrees(h, work.parent, payouts.parent.script, BuildAux(h, work, payouts).commitment, extranonce,
                     ShareHeader(h, job, extranonce, submit));
  }

  lemma ParentBodyAgrees(
    h: Hashes, work: WorkTemplate, script: Vec, commitment: seq<byte>, extranonce: seq<byte>, header: BlockHeader)
    requires ScriptLen(work, commitment, |extranonce|) <= MAX_COINBASE_SCRIPT_LEN && |commitment| < 0x4c
    requires work.HasBranch(h)
    requires header.merkleRoot
          == work.MerkleRoot(h, h.sha256d(Serialize(Parts(work, script, commitment, |extranonce|), extranonce)))
    ensures var block := BlockBytes(work, header, [],
        SerializeForBlock(Parts(work, script, commitment, |extranonce|), extranonce));
            && BodyAgrees(h, block, Header.LEN, work, script,
                          if work.witnessCommitment.Some? then Some(Zeros(32)) else None)
            && ReadHeader(block[..Header.LEN]) == header
            && BodyScript(block, Header.LEN, work) == Some(work.prefix + CommitmentPush(commitment) + extranonce)
  {
    hide *;
    var tx := CoinbaseTx(work, script, commitment, extranonce);
    SerializeIsPlain(work, script, commitment, extranonce);
    var form := SerializeForBlock(Parts(work, script, commitment, |extranonce|), extranonce);
    BlockParts(work, header, [], form);
    var block := BlockBytes(work, header, [], form);
    CoinbaseReadsBack(block, Header.LEN + VarintLen(1 + |work.transactions|), work, script, commitment, extranonce);
    RootCoversTransactions(h, work, h.sha256d(PlainBytes(tx)));
    CoinbaseOutputs(work, script, commitment, extranonce);
    ScriptFrom(block, Header.LEN, work, tx);
    BodyFrom(h, block, Header.LEN, work, script, if work.witnessCommitment.Some? then Some(Zeros(32)) else None, tx,
             Header.LEN + VarintLen(1 + |work.transactions|) + |form|);
  }

  lemma CoinbaseOutputs(work: WorkTemplate, script: Vec, commitment: seq<byte>, extranonce: seq<byte>)
    ensures PaysOnly(CoinbaseTx(work, script, commitment, extranonce).outs, work, script)
    ensures CoinbaseTx(work, script, commitment, extranonce).ins != []
    ensures CoinbaseTx(work, script, commitment, extranonce).ins[0].script
         == work.prefix + CommitmentPush(commitment) + extranonce
    ensures ScriptLen(work, commitment, |extranonce|) <= MAX_COINBASE_SCRIPT_LEN && |commitment| < 0x4c ==>
              IsCoinbaseOf(CoinbaseTx(work, script, commitment, extranonce), work)
  {
    CoinbaseNumbers();
    var tx := CoinbaseTx(work, script, commitment, extranonce);
    hide FromLE, ToLE, ToLE32, NULL_PREVOUT, SEQUENCE, CommitmentPush;
    CommitmentSize(commitment);
    assert tx.ins[0].script == work.prefix + (CommitmentPush(commitment) + extranonce);
  }

  lemma CommitmentSize(commitment: seq<byte>)
    ensures |commitment| < 0x4c ==> |CommitmentPush(commitment)| == if commitment == [] then 0 else 1 + |commitment|
  {
  }

  /** The fixed parts of a coinbase, as numbers. */
  lemma CoinbaseNumbers()
    ensures FromLE(ToLE32(1)) == 1 && FromLE(ToLE(0, 4)) == 0 && FromLE(SEQUENCE) == 0xffff_ffff
    ensures |NULL_PREVOUT| == 36 && FromLE(NULL_PREVOUT[32..]) == 0xffff_ffff
    ensures forall k :: 0 <= k < 32 ==> NULL_PREVOUT[k] == 0
  {
    LE32RoundTrip(1);
    LE32RoundTrip(0);
    AllOnes(SEQUENCE);
    AllOnes(NULL_PREVOUT[32..]);
  }

  lemma AllOnes(s: seq<byte>)
    requires s == [0xff, 0xff, 0xff, 0xff]
    ensures FromLE(s) == 0xffff_ffff
  {
    assert FromLE(s[3..]) == 0xff;
    assert FromLE(s[2..]) == 0xffff;
    assert FromLE(s[1..]) == 0xff_ffff;
  }

  lemma ScriptFrom(block: seq<byte>, pos: nat, work: WorkTemplate, tx: Tx)
    requires ReadTx(block, pos + VarintLen(1 + |work.transactions|)).Some?
    requires ReadTx(block, pos + VarintLen(1 + |work.transactions|)).value.0 == tx && tx.ins != []
    ensures BodyScript(block, pos, work) == Some(tx.ins[0].script)
  {
    hide ReadTx, VarintLen;
  }

  lemma BodyFrom(
    h: Hashes, block: seq<byte>, pos: nat, work: WorkTemplate, script: Vec, item: Option<seq<byte>>, tx: Tx, end: nat)
    requires |block| >= Header.LEN && Sized(tx) && end <= |block| && PaysOnly(tx.outs, work, script)
    requires IsCoinbaseOf(tx, work)
    requires ReadVarint(block, pos) == Some((1 + |work.transactions|, VarintLen(1 + |work.transactions|)))
    requires ReadTx(block, pos + VarintLen(1 + |work.transactions|)) == Some((tx, item, end))
    requires block[end..] == TxData(work.transactions) + work.extraPayload
    requires ReadHeader(block[..Header.LEN]).merkleRoot == Merkle.Root(h, [h.sha256d(PlainBytes(tx))] + work.Txids())
    ensures BodyAgrees(h, block, pos, work, script, item)
  {
    hide ReadTx, PlainBytes, ReadHeader, ReadVarint, VarintLen, TxData, PaysOnly, Merkle.Root, Sized, IsCoinbaseOf;
  }

  lemma CoinbaseReadsBack(
    block: seq<byte>, pos: nat, work: WorkTemplate, script: Vec, commitment: seq<byte>, extranonce: seq<byte>)
    requires ScriptLen(work, commitment, |extranonce|) <= MAX_COINBASE_SCRIPT_LEN && |commitment| < 0x4c
    requires At(block, pos, SerializeForBlock(Parts(work, script, commitment, |extranonce|), extranonce))
    ensures Sized(CoinbaseTx(work, script, commitment, extranonce))
    ensures ReadTx(block, pos)
         == Some((CoinbaseTx(work, script, commitment, extranonce),
                  if work.witnessCommitment.Some? then Some(Zeros(32)) else None,
                  pos + |SerializeForBlock(Parts(work, script, commitment, |extranonce|), extranonce)|))
  {
    hide *;
    var tx := CoinbaseTx(work, script, commitment, extranonce);
    BlockFormIsSegwit(work, script, commitment, extranonce);
    CoinbaseOutputs(work, script, commitment, extranonce);
    if work.witnessCommitment.Some? {
      SegwitRoundTrip(block, pos, tx, Zeros(32));
    } else {
      PlainRoundTrip(block, pos, tx);
    }
  }

  lemma CommitmentLength(h: Hashes, work: MergedWork, payouts: Payouts)
    ensures BuildAux(h, work, payouts).Built? ==> |BuildAux(h, work, payouts).commitment| in {0, COMMITMENT_LEN}
  {
    hide BuildTree, Drafts, Commitment;
  }

  // ---------- the aux block ----------

  /** The coinbase inside a proof carries the commitment behind the template's prefix. */
  lemma ParentCoinbaseScript(
    h: Hashes, job: SessionJob, work: MergedWork, payouts: Payouts, en1: Extranonce1, submit: Submit)
    returns (tx: Tx)
    requires MadeFrom(h, job, work, payouts) && |submit.extranonce2| == EXTRANONCE2_LEN && job.aux != []
    ensures Sized(tx) && tx.ins != [] && PlainBytes(tx) == Serialize(job.coinbase, en1 + submit.extranonce2)
    ensures tx.ins[0].script
         == work.parent.prefix + Push(BuildAux(h, work, payouts).commitment) + (en1 + submit.extranonce2)
  {
    CommitmentLength(h, work, payouts);
    BuiltAuxSound(h, work, payouts);
    hide BuildAux, PlainBytes, Serialize, Parts;
    var extranonce := en1 + submit.extranonce2;
    var script, commitment := payouts.parent.script, BuildAux(h, work, payouts).commitment;
    SerializeIsPlain(work.parent, script, commitment, extranonce);
    tx := CoinbaseTx(work.parent, script, commitment, extranonce);
  }

  /** The heart of merge mining: an aux node, reading only the bytes of the candidate, finds a valid
      proof for the block in front of it, with the commitment right behind the parent template's
      prefix and its push opcode. */
  lemma AuxBlockAccepted(
    h: Hashes, job: SessionJob, work: MergedWork, payouts: Payouts, en1: Extranonce1, submit: Submit, i: nat)
    requires MadeFrom(h, job, work, payouts) && |submit.extranonce2| == EXTRANONCE2_LEN
    requires i < |job.aux| && MeetsAux(h, job, job.aux[i], en1 + submit.extranonce2, submit)
    ensures Accepts(h, work.parent.algorithm, AuxBlock(h, job, job.aux[i], en1 + submit.extranonce2, submit),
                    |work.parent.prefix| + 1)
    ensures var proof := AuxPow.Decode(AuxBlock(h, job, job.aux[i], en1 + submit.extranonce2, submit)[Header.LEN..]);
            proof.Some? && proof.value.len == AuxPow.Len(AuxProof(h, job, job.aux[i], en1 + submit.extranonce2, submit))
    ensures MagicOf(AuxBlock(h, job, job.aux[i], en1 + submit.extranonce2, submit)) == Some(|work.parent.prefix| + 1)
       <==> FindMagic(work.parent.prefix, 0).None?
  {
    hide BuildAux, BlockBytes, AuxPow.ProofBytes, AuxPow.Decode, AuxPow.Len, PlainBytes, HeaderBytes, ReadHeader,
         Serialize, ScriptSig, FindMagic, Commitment, Push, CommitsAt, Merkle.Fold, Merkle.RootFromBranch,
         Target.IsMetBy, Target.FromCompact, BuildParts, AuxTree.ProvesChain, WorkWithin, Algorithm.PowHash;
    var extranonce := en1 + submit.extranonce2;
    var aux, proof := job.aux[i], AuxProof(h, job, job.aux[i], extranonce, submit);
    var tx := ParentCoinbaseScript(h, job, work, payouts, en1, submit);
    var bytes := AuxPow.ProofBytes(proof);
    BlockParts(aux.work, aux.header, bytes, aux.coinbase);
    AuxPow.ProofRoundTrip(AuxBlock(h, job, aux, extranonce, submit)[Header.LEN..], proof, tx);
    ScriptSigRoundTrip(tx);
    BuiltAuxSound(h, work, payouts);
    var b := BuildAux(h, work, payouts);
    assert aux.(stale := false) == b.aux[i] && AuxSound(h, b.aux[i], work, payouts);
    var tree, height :| ProvenBy(h, b.aux, tree, height) && b.commitment == Commitment(tree);
    PushedCommitmentCommits(h, work.parent.prefix, tree, extranonce, ChainProof(aux.chainIndex, aux.chainBranch),
                            (ChainIdOf(aux.work.version), aux.hash), height);
    CommitmentStartsWithMagic(tree);
    CommitmentIsFirstMagic(work.parent.prefix, b.commitment, extranonce);
    PowMeets(h, work.parent.algorithm, HeaderBytes(proof.parentHeader), aux.work.NetworkTarget());
  }

  /** The proof's parent header and coinbase are the share's own. */
  lemma ProofIsShares(
    h: Hashes, job: SessionJob, work: MergedWork, payouts: Payouts, en1: Extranonce1, submit: Submit, i: nat)
    requires MadeFrom(h, job, work, payouts) && |submit.extranonce2| == EXTRANONCE2_LEN && i < |job.aux|
    ensures var proof := AuxPow.Decode(AuxBlock(h, job, job.aux[i], en1 + submit.extranonce2, submit)[Header.LEN..]);
            && proof.Some? && proof.value.parentHeader == ShareHeader(h, job, en1 + submit.extranonce2, submit)
            && proof.value.parentHash == BlockHash(h, proof.value.parentHeader)
            && ScriptSig(proof.value.coinbase).Some?
            && EndsWith(ScriptSig(proof.value.coinbase).value, en1 + submit.extranonce2)
  {
    hide BuildAux, BlockBytes, AuxPow.ProofBytes, AuxPow.Decode, AuxPow.Len, PlainBytes, HeaderBytes, ReadHeader,
         Serialize, ScriptSig, Commitment, Push, BuildParts, AuxTree.ProvesChain, ShareHeader, MadeFrom;
    var extranonce := en1 + submit.extranonce2;
    var aux, proof := job.aux[i], AuxProof(h, job, job.aux[i], extranonce, submit);
    var tx := ParentCoinbaseScript(h, job, work, payouts, en1, submit);
    BlockParts(aux.work, aux.header, AuxPow.ProofBytes(proof), aux.coinbase);
    AuxPow.ProofRoundTrip(AuxBlock(h, job, aux, extranonce, submit)[Header.LEN..], proof, tx);
    ScriptSigRoundTrip(tx);
  }

  /** The script an aux node reads out of the block. */
  function ProofScript(block: seq<byte>): Option<seq<byte>> {
    if |block| < Header.LEN then None
    else
      match AuxPow.Decode(block[Header.LEN..])
      case None => None
      case Some(p) => ScriptSig(p.coinbase)
  }

  /** The root as the parent coinbase commits to it. */
  function CommittedRoot(commitment: seq<byte>): seq<byte>
    requires |commitment| == COMMITMENT_LEN
  {
    commitment[4..36]
  }

  /** An aux node that wants the magic to occur once accepts the script exactly if neither the parent
      template's prefix, nor the committed root, nor the extranonce holds one. The last half of the
      extranonce is the miner's choice. */
  lemma AuxBlockMagics(
    h: Hashes, job: SessionJob, work: MergedWork, payouts: Payouts, en1: Extranonce1, submit: Submit, i: nat)
    requires MadeFrom(h, job, work, payouts) && |submit.extranonce2| == EXTRANONCE2_LEN && i < |job.aux|
    ensures var script := ProofScript(AuxBlock(h, job, job.aux[i], en1 + submit.extranonce2, submit));
            var commitment := BuildAux(h, work, payouts).commitment;
            && script.Some? && |commitment| == COMMITMENT_LEN
            && (OnlyMagicAt(script.value, |work.parent.prefix| + 1)
                <==> && NoMagicIn(work.parent.prefix) && NoMagicIn(CommittedRoot(commitment))
                     && NoMagicIn(en1 + submit.extranonce2))
  {
    hide BuildAux, BlockBytes, AuxPow.ProofBytes, AuxPow.Decode, AuxPow.Len, PlainBytes, HeaderBytes, ReadHeader,
         Serialize, ScriptSig, FindMagic, Commitment, Push, NoMagicIn, OnlyMagicAt, BuildParts,
             AuxTree.ProvesChain, Reverse;
    var extranonce := en1 + submit.extranonce2;
    var aux, proof := job.aux[i], AuxProof(h, job, job.aux[i], extranonce, submit);
    var tx := ParentCoinbaseScript(h, job, work, payouts, en1, submit);
    BlockParts(aux.work, aux.header, AuxPow.ProofBytes(proof), aux.coinbase);
    AuxPow.ProofRoundTrip(AuxBlock(h, job, aux, extranonce, submit)[Header.LEN..], proof, tx);
    ScriptSigRoundTrip(tx);
    BuiltAuxSound(h, work, payouts);
    var b := BuildAux(h, work, payouts);
    var tree, height :| ProvenBy(h, b.aux, tree, height) && b.commitment == Commitment(tree);
    CommitmentHolds(tree);
    OnlyMagicIff(work.parent.prefix, tree, extranonce, height);
  }

  lemma CommitmentHolds(tree: Tree)
    ensures |Commitment(tree)| == COMMITMENT_LEN && CommittedRoot(Commitment(tree)) == Reverse(tree.root)
  {
    hide ToLE, Reverse;
  }

  /** A miner that chooses the magic as its extranonce breaks the proof of every aux block it finds. */
  lemma MinerCanBreakProof(
    h: Hashes, job: SessionJob, work: MergedWork, payouts: Payouts, en1: Extranonce1, submit: Submit, i: nat)
    requires MadeFrom(h, job, work, payouts) && i < |job.aux| && submit.extranonce2 == MERGED_MINING_MAGIC
    ensures var script := ProofScript(AuxBlock(h, job, job.aux[i], en1 + submit.extranonce2, submit));
            script.Some? && !OnlyMagicAt(script.value, |work.parent.prefix| + 1)
  {
    hide BuildAux, AuxBlock, ProofScript, OnlyMagicAt, FindMagic, MadeFrom;
    AuxBlockMagics(h, job, work, payouts, en1, submit, i);
    NoMagic(en1 + submit.extranonce2, 0);
    assert At(en1 + submit.extranonce2, 4, MERGED_MINING_MAGIC);
  }

  lemma CommitmentStartsWithMagic(tree: Tree)
    ensures At(Commitment(tree), 0, MERGED_MINING_MAGIC)
  {
    hide ToLE, Reverse;
  }

  /** The aux block itself: after the proof come its coinbase, paying the session's script for that
      coin, and the template's transactions, all under the header's merkle root. The coinbase is
      always the plain form, so an aux template with a witness commitment gets no witness. */
  lemma AuxBlockAgrees(
    h: Hashes, job: SessionJob, work: MergedWork, payouts: Payouts, en1: Extranonce1, submit: Submit, i: nat)
    requires MadeFrom(h, job, work, payouts) && WorkSound(h, work) && i < |job.aux|
    ensures FindPayout(payouts.aux, job.aux[i].work.coin).Some?
    ensures var proof := AuxProof(h, job, job.aux[i], en1 + submit.extranonce2, submit);
            BodyAgrees(h, AuxBlock(h, job, job.aux[i], en1 + submit.extranonce2, submit),
                       Header.LEN + AuxPow.Len(proof), job.aux[i].work,
                       FindPayout(payouts.aux, job.aux[i].work.coin).value.script, None)
    ensures var proof := AuxProof(h, job, job.aux[i], en1 + submit.extranonce2, submit);
            BodyScript(AuxBlock(h, job, job.aux[i], en1 + submit.extranonce2, submit),
                       Header.LEN + AuxPow.Len(proof), job.aux[i].work) == Some(job.aux[i].work.prefix)
  {
    hide *;
    JobAuxSound(h, job, work, payouts, i);
    var aux := job.aux[i];
    AuxPow.LenIsLength(AuxProof(h, job, aux, en1 + submit.extranonce2, submit));
    AuxBodyAgrees(h, aux, work, payouts, AuxPow.ProofBytes(AuxProof(h, job, aux, en1 + submit.extranonce2, submit)));
    AuxBlockIs(h, job, aux, en1 + submit.extranonce2, submit);
  }

  lemma JobAuxSound(h: Hashes, job: SessionJob, work: MergedWork, payouts: Payouts, i: nat)
    requires MadeFrom(h, job, work, payouts) && i < |job.aux|
    ensures AuxSound(h, job.aux[i], work, payouts) && FindPayout(payouts.aux, job.aux[i].work.coin).Some?
  {
    BuiltAuxSound(h, work, payouts);
    hide BuildAux, AuxSound;
    assert job.aux[i].(stale := false) == BuildAux(h, work, payouts).aux[i];
    AuxSoundWhateverStale(h, BuildAux(h, work, payouts).aux[i], job.aux[i].stale, work, payouts);
  }

  lemma AuxBlockIs(h: Hashes, job: SessionJob, aux: AuxJob, extranonce: seq<byte>, submit: Submit)
    ensures AuxBlock(h, job, aux, extranonce, submit)
         == BlockBytes(aux.work, aux.header, AuxPow.ProofBytes(AuxProof(h, job, aux, extranonce, submit)), aux.coinbase)
  {
  }

  lemma AuxSoundWhateverStale(h: Hashes, aux: AuxJob, stale: bool, work: MergedWork, payouts: Payouts)
    requires AuxSound(h, aux, work, payouts)
    ensures AuxSound(h, aux.(stale := stale), work, payouts)
    ensures FindPayout(payouts.aux, aux.work.coin).Some?
  {
  }

  lemma AuxBodyAgrees(h: Hashes, aux: AuxJob, work: MergedWork, payouts: Payouts, auxpow: seq<byte>)
    requires AuxSound(h, aux, work, payouts) && WorkSound(h, work)
    ensures FindPayout(payouts.aux, aux.work.coin).Some?
    ensures BodyAgrees(h, BlockBytes(aux.work, aux.header, auxpow, aux.coinbase), Header.LEN + |auxpow|, aux.work,
                       FindPayout(payouts.aux, aux.work.coin).value.script, None)
    ensures BodyScript(BlockBytes(aux.work, aux.header, auxpow, aux.coinbase), Header.LEN + |auxpow|, aux.work)
         == Some(aux.work.prefix)
  {
    hide *;
    AuxSoundFacts(h, aux, work, payouts);
    PlainBodyAgrees(h, aux.work, FindPayout(payouts.aux, aux.work.coin).value.script, aux.header, auxpow);
  }

  /** A block whose coinbase has neither extranonce nor commitment. */
  lemma PlainBodyAgrees(h: Hashes, work: WorkTemplate, script: Vec, header: BlockHeader, auxpow: seq<byte>)
    requires ScriptLen(work, [], 0) <= MAX_COINBASE_SCRIPT_LEN && work.HasBranch(h)
    requires header.merkleRoot == work.MerkleRoot(h, h.sha256d(Serialize(Parts(work, script, [], 0), [])))
    ensures var block := BlockBytes(work, header, auxpow, Serialize(Parts(work, script, [], 0), []));
            && BodyAgrees(h, block, Header.LEN + |auxpow|, work, script, None)
            && BodyScript(block, Header.LEN + |auxpow|, work) == Some(work.prefix)
  {
    hide *;
    var coinbase, pos := Serialize(Parts(work, script, [], 0), []), Header.LEN + |auxpow|;
    var block, tx := BlockBytes(work, header, auxpow, coinbase), CoinbaseTx(work, script, [], []);
    SerializeIsPlain(work, script, [], []);
    BlockParts(work, header, auxpow, coinbase);
    CoinbaseOutputs(work, script, [], []);
    var cb := pos + VarintLen(1 + |work.transactions|);
    PlainRoundTrip(block, cb, tx);
    RootCoversTransactions(h, work, h.sha256d(coinbase));
    ScriptFrom(block, pos, work, tx);
    NoPush(work.prefix);
    BodyFrom(h, block, pos, work, script, None, tx, cb + |coinbase|);
  }

  lemma NoPush(prefix: seq<byte>)
    ensures prefix + CommitmentPush([]) + [] == prefix
  {
  }

  lemma AuxSoundFacts(h: Hashes, aux: AuxJob, work: MergedWork, payouts: Payouts)
    requires AuxSound(h, aux, work, payouts) && WorkSound(h, work)
    ensures FindPayout(payouts.aux, aux.work.coin).Some? && aux.work.HasBranch(h)
    ensures ScriptLen(aux.work, [], 0) <= MAX_COINBASE_SCRIPT_LEN
    ensures aux.coinbase == Serialize(Parts(aux.work, FindPayout(payouts.aux, aux.work.coin).value.script, [], 0), [])
    ensures aux.header.merkleRoot == aux.work.MerkleRoot(h, h.sha256d(aux.coinbase))
  {
    hide Parts, Serialize, WorkTemplate.MerkleRoot, BlockHash;
  }
}
