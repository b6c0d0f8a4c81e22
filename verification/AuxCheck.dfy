/** What an aux node checks before it accepts a merge-mined block, from the block's bytes alone. */
module AuxCheck {
  import opened Bytes
  import opened Wrappers
  import opened Encode
  import opened Header
  import opened Transaction
  import opened SlotAssignment
  import opened AuxTree
  import opened Work
  import AuxPow
  import Merkle
  import Target

  // ---------- finding the commitment ----------

  /** Position of the first magic at or after `from`. */
  function FindMagic(s: seq<byte>, from: nat): (r: Option<nat>)
    ensures r.Some? ==> r.value >= from && At(s, r.value, MERGED_MINING_MAGIC)
    decreases |s| - from
  {
    if from + 4 > |s| then None
    else if s[from..from + 4] == MERGED_MINING_MAGIC then Some(from)
    else FindMagic(s, from + 1)
  }

  lemma {:induction false} FirstMagic(s: seq<byte>, from: nat, at: nat)
    requires from <= at && At(s, at, MERGED_MINING_MAGIC)
    ensures FindMagic(s, from) == Some(at) <==> forall i :: from <= i < at ==> !At(s, i, MERGED_MINING_MAGIC)
    decreases at - from
  {
    if from < at {
      FirstMagic(s, from + 1, at);
      assert FindMagic(s, from) == Some(from) <==> At(s, from, MERGED_MINING_MAGIC);
    }
  }

  lemma {:induction false} NoMagic(s: seq<byte>, from: nat)
    ensures FindMagic(s, from).None? <==> forall i :: from <= i ==> !At(s, i, MERGED_MINING_MAGIC)
    decreases |s| - from
  {
    if from + 4 <= |s| {
      NoMagic(s, from + 1);
      assert At(s, from, MERGED_MINING_MAGIC) <==> s[from..from + 4] == MERGED_MINING_MAGIC;
    }
  }

  /** The first magic in the script is the commitment's exactly when the template's prefix holds
      none: the push opcode is not a byte of the magic, so no window runs over it. */
  lemma CommitmentIsFirstMagic(prefix: seq<byte>, commitment: seq<byte>, extranonce: seq<byte>)
    requires |commitment| == COMMITMENT_LEN && At(commitment, 0, MERGED_MINING_MAGIC)
    ensures FindMagic(prefix + Push(commitment) + extranonce, 0) == Some(|prefix| + 1)
       <==> FindMagic(prefix, 0).None?
  {
    var s := prefix + Push(commitment) + extranonce;
    var at := |prefix| + 1;
    assert s[at..at + 4] == commitment[..4] == MERGED_MINING_MAGIC;
    forall i | 0 <= i < at ensures At(s, i, MERGED_MINING_MAGIC) <==> At(prefix, i, MERGED_MINING_MAGIC) {
      if i + 4 <= |prefix| {
        assert s[i..i + 4] == prefix[i..i + 4];
      } else {
        assert s[i..i + 4][|prefix| - i] == s[|prefix|] == 44;
        assert MERGED_MINING_MAGIC[|prefix| - i] != 44;
      }
    }
    FirstMagic(s, 0, at);
    NoMagic(prefix, 0);
  }

  // ---------- only one commitment ----------

  predicate NoMagicIn(s: seq<byte>) {
    FindMagic(s, 0).None?
  }

  /** The one place in the script where the magic stands. */
  ghost predicate OnlyMagicAt(script: seq<byte>, at: nat) {
    forall i: nat :: At(script, i, MERGED_MINING_MAGIC) <==> i == at
  }

  lemma {:induction false} ZeroBytes(n: nat)
    ensures forall k :: 0 <= k < n ==> ToLE(0, n)[k] == 0
  {
    if n > 0 {
      ZeroBytes(n - 1);
      assert ToLE(0, n) == [0] + ToLE(0, n - 1);
    }
  }

  /** No byte of a power of two occurs in the magic. */
  lemma {:induction false} PowerBytes(height: nat, n: nat)
    ensures forall k :: 0 <= k < n ==> ToLE(Pow2(height), n)[k] !in MERGED_MINING_MAGIC
  {
    if n > 0 {
      if height < 8 {
        ZeroBytes(n - 1);
        SmallPowers(height);
        assert ToLE(Pow2(height), n) == [Pow2(height)] + ToLE(0, n - 1);
      } else {
        PowerBytes(height - 8, n - 1);
        WholeByte(height);
        assert ToLE(Pow2(height), n) == [0] + ToLE(Pow2(height - 8), n - 1);
      }
    }
  }

  lemma SmallPowers(height: nat)
    requires height < 8
    ensures Pow2(height) in {1, 2, 4, 8, 16, 32, 64, 128}
  {
    assert Pow2(1) == 2;
    assert Pow2(2) == 4;
    assert Pow2(3) == 8;
    assert Pow2(4) == 16;
    assert Pow2(5) == 32;
    assert Pow2(6) == 64;
    assert Pow2(7) == 128;
  }

  lemma WholeByte(height: nat)
    requires height >= 8
    ensures Pow2(height) % 256 == 0 && Pow2(height) / 256 == Pow2(height - 8)
  {
    Pow2Add(height - 8, 8);
    assert Pow2(8) == 256;
    ModUnique(Pow2(height), 256, Pow2(height - 8), 0);
  }

  /** A window of the script that lies in a piece of it, seen from the piece. */
  lemma InPiece(s: seq<byte>, start: nat, piece: seq<byte>, i: nat)
    requires At(s, start, piece) && start <= i && i + 4 <= start + |piece|
    ensures At(s, i, MERGED_MINING_MAGIC) <==> At(piece, i - start, MERGED_MINING_MAGIC)
  {
    var p, j := s[start..start + |piece|], i - start;
    assert p == piece && j + 4 <= |p|;
    assert s[i..i + 4] == [s[i], s[i + 1], s[i + 2], s[i + 3]];
    assert p[j..j + 4] == [p[j], p[j + 1], p[j + 2], p[j + 3]];
  }

  /** A byte that the magic does not have breaks every window over it. */
  lemma Broken(s: seq<byte>, i: nat, j: nat)
    requires i <= j < i + 4 && (j < |s| ==> s[j] !in MERGED_MINING_MAGIC)
    ensures !At(s, i, MERGED_MINING_MAGIC)
  {
    if i + 4 <= |s| {
      assert s[i..i + 4][j - i] == s[j];
      assert MERGED_MINING_MAGIC[j - i] in MERGED_MINING_MAGIC;
    }
  }

  /** The parts of a script with a commitment in it. */
  lemma CommitmentPieces(prefix: seq<byte>, tree: Tree, extranonce: seq<byte>, height: nat)
    requires tree.size == Pow2(height) && tree.nonce == 0
    ensures var s, at := prefix + Push(Commitment(tree)) + extranonce, |prefix| + 1;
            && |s| == at + COMMITMENT_LEN + |extranonce|
            && At(s, 0, prefix) && s[|prefix|] == 44 && At(s, at, MERGED_MINING_MAGIC)
            && At(s, at + 4, Reverse(tree.root)) && At(s, at + COMMITMENT_LEN, extranonce)
            && forall j :: at + 36 <= j < at + COMMITMENT_LEN ==> s[j] !in MERGED_MINING_MAGIC
  {
    hide Reverse, ToLE;
    var c := Commitment(tree);
    var s, at := prefix + Push(c) + extranonce, |prefix| + 1;
    assert s[at..at + COMMITMENT_LEN] == c;
    assert s[at..at + 4] == c[0..4];
    assert s[at + 4..at + 36] == c[4..36] == Reverse(tree.root);
    PowerBytes(height, 4);
    ZeroBytes(4);
    assert c[36..40] == ToLE(tree.size, 4) && c[40..44] == ToLE(0, 4);
    forall j | at + 36 <= j < at + COMMITMENT_LEN ensures s[j] !in MERGED_MINING_MAGIC {
      assert s[j] == c[j - at];
      assert j < at + 40 ==> s[j] == c[36..40][j - at - 36];
      assert j >= at + 40 ==> s[j] == c[40..44][j - at - 40];
    }
  }

  /** The commitment's magic is the only one in the script exactly if neither the template's prefix,
      nor the root as committed, nor the extranonce holds one. No window runs from one part into the
      next: not over the push opcode, nor over the tree size and the nonce, which is zero in every tree
      the pool builds. */
  lemma OnlyMagicIff(prefix: seq<byte>, tree: Tree, extranonce: seq<byte>, height: nat)
    requires tree.size == Pow2(height) && tree.nonce == 0
    ensures OnlyMagicAt(prefix + Push(Commitment(tree)) + extranonce, |prefix| + 1)
       <==> NoMagicIn(prefix) && NoMagicIn(Reverse(tree.root)) && NoMagicIn(extranonce)
  {
    hide Push, Commitment, Reverse, FindMagic;
    var s, at, root := prefix + Push(Commitment(tree)) + extranonce, |prefix| + 1, Reverse(tree.root);
    CommitmentPieces(prefix, tree, extranonce, height);
    NoMagic(prefix, 0);
    NoMagic(root, 0);
    NoMagic(extranonce, 0);
    forall i: nat
      ensures At(s, i, MERGED_MINING_MAGIC)
         <==> || i == at || At(prefix, i, MERGED_MINING_MAGIC)
              || (i >= at + 4 && At(root, i - at - 4, MERGED_MINING_MAGIC))
              || (i >= at + COMMITMENT_LEN && At(extranonce, i - at - COMMITMENT_LEN, MERGED_MINING_MAGIC))
    {
      Windows(s, prefix, root, extranonce, i);
    }
    if !NoMagicIn(prefix) {
      var i: nat :| At(prefix, i, MERGED_MINING_MAGIC);
      assert At(s, i, MERGED_MINING_MAGIC) && i < at;
    }
    if !NoMagicIn(root) {
      var i: nat :| At(root, i, MERGED_MINING_MAGIC);
      assert At(s, i + at + 4, MERGED_MINING_MAGIC);
    }
    if !NoMagicIn(extranonce) {
      var i: nat :| At(extranonce, i, MERGED_MINING_MAGIC);
      assert At(s, i + at + COMMITMENT_LEN, MERGED_MINING_MAGIC);
    }
  }

  lemma Windows(s: seq<byte>, prefix: seq<byte>, root: seq<byte>, extranonce: seq<byte>, i: nat)
    requires |root| == 32 && |s| == |prefix| + 1 + COMMITMENT_LEN + |extranonce|
    requires At(s, 0, prefix) && s[|prefix|] == 44 && At(s, |prefix| + 1, MERGED_MINING_MAGIC)
    requires At(s, |prefix| + 5, root) && At(s, |prefix| + 1 + COMMITMENT_LEN, extranonce)
    requires forall j :: |prefix| + 37 <= j < |prefix| + 1 + COMMITMENT_LEN ==> s[j] !in MERGED_MINING_MAGIC
    ensures At(s, i, MERGED_MINING_MAGIC)
       <==> || i == |prefix| + 1 || At(prefix, i, MERGED_MINING_MAGIC)
            || (i >= |prefix| + 5 && At(root, i - |prefix| - 5, MERGED_MINING_MAGIC))
            || (i >= |prefix| + 1 + COMMITMENT_LEN
                && At(extranonce, i - |prefix| - 1 - COMMITMENT_LEN, MERGED_MINING_MAGIC))
  {
    var at := |prefix| + 1;
    if i + 4 <= |prefix| {
      InPiece(s, 0, prefix, i);
    } else if i < at {
      Broken(s, i, |prefix|);
    } else if i < at + 4 {
      assert s[i] == s[at..at + 4][i - at];
      assert i > at && i + 4 <= |s| ==> s[i..i + 4][0] == s[i] != 0xfa;
    } else if i + 4 <= at + 36 {
      InPiece(s, at + 4, root, i);
    } else if i < at + COMMITMENT_LEN {
      Broken(s, i, if i < at + 36 then at + 36 else i);
    } else if i + 4 <= |s| {
      InPiece(s, at + COMMITMENT_LEN, extranonce, i);
    }
  }

  // ---------- the check ----------

  /** The script of the first input of a serialized transaction. */
  function ScriptSig(tx: seq<byte>): Option<seq<byte>> {
    match ReadVarint(tx, 4)
    case None => None
    case Some((_, used)) =>
      match ReadVarBytes(tx, 4 + used + 36)
      case None => None
      case Some((script, _)) => Some(script)
  }

  /** Right after the magic at `at`: the root in display order, the tree size for the height, and
      a nonce that puts the chain in its slot. */
  predicate CommitsAt(script: seq<byte>, at: nat, root: Hash256, height: nat, chainId: u32, index: u32) {
    && height <= MAX_CHAIN_BRANCH_LEN && at + COMMITMENT_LEN <= |script|
    && script[at..at + 4] == MERGED_MINING_MAGIC
    && script[at + 4..at + 36] == Reverse(root)
    && FromLE(script[at + 36..at + 40]) == Pow2(height)
    && var nonce := FromLE(script[at + 40..at + 44]);
    && nonce < WORD && index == ExpectedIndex(nonce, chainId, height)
  }

  /** The proof checks out for an aux block with this hash, chain id and target. */
  predicate ProofHolds(h: Hashes, algorithm: Algorithm, p: AuxPow.Decoded, auxHash: Hash256, chainId: u32,
                       target: nat, at: nat)
  {
    && Merkle.RootFromBranch(h, h.sha256d(p.coinbase), p.coinbaseBranch) == p.parentHeader.merkleRoot
    && ScriptSig(p.coinbase).Some?
    && CommitsAt(ScriptSig(p.coinbase).value, at, Merkle.Fold(h, auxHash, p.chainBranch, p.chainIndex),
                 |p.chainBranch|, chainId, p.chainIndex)
    && WorkWithin(h, algorithm, HeaderBytes(p.parentHeader), target)
  }

  /** The aux node's view of the block: header, auxpow, the rest. The header's own version names
      the chain and its own bits the target. */
  predicate Accepts(h: Hashes, algorithm: Algorithm, block: seq<byte>, at: nat) {
    && |block| >= Header.LEN
    && var header := ReadHeader(block[..Header.LEN]);
    && var proof := AuxPow.Decode(block[Header.LEN..]);
    && proof.Some?
    && ProofHolds(h, algorithm, proof.value, h.sha256d(block[..Header.LEN]), ChainIdOf(header.version),
                  Target.FromCompact(header.bits), at)
  }

  /** Position of the first magic in the parent coinbase script of an aux block's proof. */
  function MagicOf(block: seq<byte>): Option<nat> {
    if |block| < Header.LEN then None
    else
      match AuxPow.Decode(block[Header.LEN..])
      case None => None
      case Some(p) => match ScriptSig(p.coinbase) case None => None case Some(script) => FindMagic(script, 0)
  }

  lemma ScriptSigRoundTrip(tx: Tx)
    requires Sized(tx) && tx.ins != []
    ensures ScriptSig(PlainBytes(tx)) == Some(tx.ins[0].script)
  {
    var b := PlainBytes(tx);
    hide At, InVec, OutVec, VarBytes, ReadVarBytes;
    AtStart(b, []);
    assert b + [] == b;
    AtSplit(b, 0, tx.version, Body(tx) + tx.locktime);
    AtSplit(b, 4, Body(tx), tx.locktime);
    AtSplit(b, 4, InVec(tx.ins), OutVec(tx.outs));
    FirstInput(b, 4, tx.ins);
  }

  lemma FirstInput(b: seq<byte>, pos: nat, ins: seq<TxIn>)
    requires SizedIns(ins) && ins != [] && At(b, pos, InVec(ins))
    ensures ReadVarint(b, pos) == Some((|ins|, VarintLen(|ins|)))
    ensures ReadVarBytes(b, pos + VarintLen(|ins|) + 36)
         == Some((ins[0].script, pos + VarintLen(|ins|) + 36 + |VarBytes(ins[0].script)|))
  {
    hide At, Varint, ReadVarint, VarBytes, ReadVarBytes;
    var i, start := ins[0], pos + VarintLen(|ins|);
    AtSplit(b, pos, Varint(|ins|), InsBytes(ins));
    VarintRoundTrip(b, pos, |ins|);
    AtSplit(b, start, InBytes(i), InsBytes(ins[1..]));
    AtSplit(b, start, i.prevout, VarBytes(i.script) + i.sequence);
    AtSplit(b, start + 36, VarBytes(i.script), i.sequence);
    VarBytesRoundTrip(b, start + 36, i.script);
  }

  /** A pushed commitment commits at the position after its opcode. */
  lemma PushedCommitmentCommits(
    h: Hashes, prefix: seq<byte>, tree: Tree, extranonce: seq<byte>, proof: ChainProof, chain: Chain, height: nat)
    requires height <= MAX_CHAIN_BRANCH_LEN && tree.size == Pow2(height) && ProvesChain(h, tree, proof, chain, height)
    ensures CommitsAt(prefix + Push(Commitment(tree)) + extranonce, |prefix| + 1,
                      Merkle.Fold(h, chain.1, proof.branch, proof.index), |proof.branch|, chain.0, proof.index)
  {
    hide Merkle.Fold, ToLE, FromLE, ExpectedIndex;
    var c := Commitment(tree);
    var s, at := prefix + Push(c) + extranonce, |prefix| + 1;
    assert s[at..at + COMMITMENT_LEN] == c;
    assert s[at..at + 4] == c[0..4] == MERGED_MINING_MAGIC;
    assert s[at + 4..at + 36] == c[4..36] == Reverse(tree.root);
    assert s[at + 36..at + 40] == c[36..40] == ToLE(tree.size, 4);
    assert s[at + 40..at + 44] == c[40..44] == ToLE(tree.nonce, 4);
    LE32RoundTrip(tree.size);
    LE32RoundTrip(tree.nonce);
  }
}
