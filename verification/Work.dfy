/** Block templates, and the block assembled from one. */
module Work {
  import opened Bytes
  import opened Wrappers
  import opened Encode
  import opened Header
  import Merkle
  import Target

  datatype Algorithm = Scrypt | Sha256d {
    function PowHash(h: Hashes, header: seq<byte>): Hash256 {
      match this case Scrypt => h.scrypt(header) case Sha256d => h.sha256d(header)
    }

    /** Stratum difficulty per unit of network difficulty. */
    function ShareMultiplier(): (m: real)
      ensures m >= 1.0
    {
      match this case Scrypt => 65536.0 case Sha256d => 1.0
    }

    function ShareTarget(difficulty: real): nat
      requires difficulty > 0.0
    {
      Target.FromDifficulty(difficulty / ShareMultiplier())
    }
  }

  /** What it means that a header has enough work for a target, algorithm by algorithm. */
  predicate WorkWithin(h: Hashes, algorithm: Algorithm, header: seq<byte>, target: nat) {
    match algorithm
    case Scrypt => FromLE(h.scrypt(header)) <= target
    case Sha256d => FromLE(h.sha256d(header)) <= target
  }

  lemma PowMeets(h: Hashes, algorithm: Algorithm, header: seq<byte>, target: nat)
    ensures Target.IsMetBy(target, algorithm.PowHash(h, header)) <==> WorkWithin(h, algorithm, header, target)
  {
    hide FromLE;
  }

  /** Stratum difficulties: a scrypt share of 65536 is one of SHA-256d of 1, which is one unit of network
      difficulty, and at difficulty 1 a scrypt target is 65536 times as large. */
  lemma ShareTargets(difficulty: real)
    requires difficulty > 0.0
    ensures Scrypt.ShareTarget(65536.0 * difficulty) == Sha256d.ShareTarget(difficulty)
         == Target.FromDifficulty(difficulty)
    ensures Sha256d.ShareTarget(1.0) == Target.DIFF1 && Scrypt.ShareTarget(1.0) == 65536 * Target.DIFF1
  {
    hide Target.FromDifficulty;
    Target.UnitDifficulty();
    Target.SixteenBits();
    assert 65536.0 * difficulty / 65536.0 == difficulty;
  }

  datatype TemplateTx = TemplateTx(data: Vec, txid: Hash256)

  type TxList = s: seq<TemplateTx> | |s| < 0x8000_0000_0000_0000

  datatype WorkTemplate = WorkTemplate(
    id: nat, coin: string, algorithm: Algorithm, height: u64, version: i32, prevHash: Hash256,
    bits: u32, curTime: u32, minTime: u32, coinbaseValue: u64, prefix: Vec,
    witnessCommitment: Option<Vec>, transactions: TxList, merkleBranch: HashVec,
    extraPayload: Vec, cleanJobs: bool)
  {
    function Txids(): (ids: seq<Hash256>)
      ensures |ids| == |transactions|
    {
      seq(|transactions|, i requires 0 <= i < |transactions| => transactions[i].txid)
    }

    /** The branch is the one `compute_merkle_branch` stores. */
    ghost predicate HasBranch(h: Hashes) {
      merkleBranch == Merkle.CoinbaseSteps(h, Txids())
    }

    function MerkleRoot(h: Hashes, coinbaseTxid: Hash256): Hash256 {
      Merkle.RootFromBranch(h, coinbaseTxid, merkleBranch)
    }

    function NetworkTarget(): nat {
      Target.FromCompact(bits)
    }
  }

  /** The parent template with the aux templates mined alongside it. */
  datatype MergedWork = MergedWork(parent: WorkTemplate, aux: seq<WorkTemplate>, cleanJobs: bool)

  method ComputeMerkleBranch(h: Hashes, work: WorkTemplate) returns (r: WorkTemplate)
    ensures r == work.(merkleBranch := r.merkleBranch) && r.HasBranch(h)
  {
    var branch := Merkle.CoinbaseBranch(h, work.Txids());
    r := work.(merkleBranch := branch);
    assert r.Txids() == work.Txids();
  }

  /** The root a header gets is the root over the coinbase and every template transaction. */
  lemma RootCoversTransactions(h: Hashes, work: WorkTemplate, coinbaseTxid: Hash256)
    requires work.HasBranch(h)
    ensures work.MerkleRoot(h, coinbaseTxid) == Merkle.Root(h, [coinbaseTxid] + work.Txids())
  {
    Merkle.CoinbaseFoldsToRoot(h, coinbaseTxid, work.Txids());
  }

  // ---------- blocks ----------

  function TxData(txs: seq<TemplateTx>): seq<byte> {
    if txs == [] then [] else txs[0].data + TxData(txs[1..])
  }

  /** What follows the header and the auxpow. */
  function BlockTail(work: WorkTemplate, coinbase: seq<byte>): seq<byte>
  {
    Varint(1 + |work.transactions|) + (coinbase + (TxData(work.transactions) + work.extraPayload))
  }

  function BlockBytes(work: WorkTemplate, header: BlockHeader, auxpow: seq<byte>, coinbase: seq<byte>): seq<byte>
  {
    HeaderBytes(header) + (auxpow + BlockTail(work, coinbase))
  }

  lemma {:induction false} TxDataAppend(txs: seq<TemplateTx>, i: nat)
    requires i < |txs|
    ensures TxData(txs[..i + 1]) == TxData(txs[..i]) + txs[i].data
  {
    if i == 0 {
      assert txs[..1] == [txs[0]] && txs[..1][1..] == [];
      assert TxData([]) == [];
    } else {
      TxDataAppend(txs[1..], i - 1);
      assert txs[..i + 1][1..] == txs[1..][..i] && txs[..i][1..] == txs[1..][..i - 1];
      assert txs[..i + 1][0] == txs[0] == txs[..i][0];
    }
  }

  lemma TxDataNone(txs: seq<TemplateTx>)
    ensures TxData(txs[..0]) == []
  {
  }

  method AssembleBlock(work: WorkTemplate, header: BlockHeader, auxpow: seq<byte>, coinbase: seq<byte>)
    returns (block: seq<byte>)
    ensures block == BlockBytes(work, header, auxpow, coinbase)
  {
    hide Varint, HeaderBytes, TxData;
    TxDataNone(work.transactions);
    var out := new ByteBuf();
    var head := WriteHeader(header);
    out.Extend(head[..]);
    out.Extend(auxpow);
    WriteVarint(out, 1 + |work.transactions|);
    out.Extend(coinbase);
    ghost var before := out.data;
    var i := 0;
    while i < |work.transactions|
      invariant 0 <= i <= |work.transactions|
      invariant out.data == before + TxData(work.transactions[..i])
    {
      out.Extend(work.transactions[i].data);
      TxDataAppend(work.transactions, i);
      i := i + 1;
    }
    assert work.transactions[..i] == work.transactions;
    out.Extend(work.extraPayload);
    block := out.data;
  }
}
