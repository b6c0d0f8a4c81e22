/** The coinbase transaction, split around the extranonce so that a miner can fill it in. */
module Coinbase {
  import opened Bytes
  import opened Wrappers
  import opened Encode
  import opened Transaction
  import opened Work

  const MAX_COINBASE_SCRIPT_LEN := 100

  datatype CoinbaseError = ScriptTooLong(len: nat) | EmptyPayout

  datatype CoinbaseParts = CoinbaseParts(coinb1: seq<byte>, coinb2: seq<byte>, extranonceLen: nat, segwit: bool)

  const NULL_PREVOUT: seq<byte> := Zeros(32) + [0xff, 0xff, 0xff, 0xff]
  const SEQUENCE: seq<byte> := [0xff, 0xff, 0xff, 0xff]

  /** The commitment as it stands in the script: pushed, or absent. */
  function CommitmentPush(commitment: seq<byte>): seq<byte> {
    if commitment == [] then [] else Push(commitment)
  }

  /** Bytes the code reserves for the script: it counts one byte for the push opcode. */
  function ScriptLen(work: WorkTemplate, commitment: seq<byte>, extranonceLen: nat): nat {
    |work.prefix| + (if commitment == [] then 0 else 1 + |commitment|) + extranonceLen
  }

  /** Everything between the version and the extranonce. */
  function Front(work: WorkTemplate, commitment: seq<byte>, scriptLen: u64): seq<byte> {
    [1] + NULL_PREVOUT + Varint(scriptLen) + work.prefix + CommitmentPush(commitment)
  }

  /** Everything between the extranonce and the locktime. */
  function Back(work: WorkTemplate, payout: Vec): seq<byte> {
    SEQUENCE + OutVec(Outputs(work, payout))
  }

  function Outputs(work: WorkTemplate, payout: Vec): (outs: seq<TxOut>)
    ensures |outs| in {1, 2}
  {
    [TxOut(work.coinbaseValue, payout)]
    + match work.witnessCommitment case None => [] case Some(script) => [TxOut(0, script)]
  }

  function Parts(work: WorkTemplate, payout: Vec, commitment: seq<byte>, extranonceLen: nat): (parts: CoinbaseParts)
    requires ScriptLen(work, commitment, extranonceLen) <= MAX_COINBASE_SCRIPT_LEN
    ensures |parts.coinb1| >= 4 && |parts.coinb2| >= 4 && parts.extranonceLen == extranonceLen
  {
    CoinbaseParts(
      ToLE32(1) + Front(work, commitment, ScriptLen(work, commitment, extranonceLen)),
      Back(work, payout) + ToLE(0, 4),
      extranonceLen, work.witnessCommitment.Some?)
  }

  function BuildParts(work: WorkTemplate, payout: Vec, commitment: seq<byte>, extranonceLen: nat)
    : Result<CoinbaseParts, CoinbaseError>
  {
    if payout == [] then Err(EmptyPayout)
    else if ScriptLen(work, commitment, extranonceLen) > MAX_COINBASE_SCRIPT_LEN then
      Err(ScriptTooLong(ScriptLen(work, commitment, extranonceLen)))
    else Ok(Parts(work, payout, commitment, extranonceLen))
  }

  method Build(work: WorkTemplate, payout: Vec, commitment: seq<byte>, extranonceLen: nat)
    returns (r: Result<CoinbaseParts, CoinbaseError>)
    ensures r == BuildParts(work, payout, commitment, extranonceLen)
  {
    if payout == [] {
      return Err(EmptyPayout);
    }
    var commitmentLen := if commitment == [] then 0 else 1 + |commitment|;
    var scriptLen := |work.prefix| + commitmentLen + extranonceLen;
    if scriptLen > MAX_COINBASE_SCRIPT_LEN {
      return Err(ScriptTooLong(scriptLen));
    }
    var coinb1 := BuildFront(work, commitment, scriptLen);
    var coinb2 := BuildBack(work, payout);
    return Ok(CoinbaseParts(coinb1, coinb2, extranonceLen, work.witnessCommitment.Some?));
  }

  method BuildFront(work: WorkTemplate, commitment: seq<byte>, scriptLen: u64) returns (coinb1: seq<byte>)
    ensures coinb1 == ToLE32(1) + Front(work, commitment, scriptLen)
  {
    hide Varint, PushOpcode, ToLE32;
    var out := new ByteBuf();
    out.Extend(ToLE32(1));
    out.Push(1);
    out.Extend(Zeros(32));
    out.Extend([0xff, 0xff, 0xff, 0xff]);
    assert out.data == ToLE32(1) + [1] + NULL_PREVOUT;
    WriteVarint(out, scriptLen);
    out.Extend(work.prefix);
    if commitment != [] {
      PushData(out, commitment);
    }
    coinb1 := out.data;
  }

  method BuildBack(work: WorkTemplate, payout: Vec) returns (coinb2: seq<byte>)
    ensures coinb2 == Back(work, payout) + ToLE(0, 4)
  {
    var out := new ByteBuf();
    out.Extend(SEQUENCE);
    WriteOutputs(out, work, payout);
    out.Extend(ToLE(0, 4));
    coinb2 := out.data;
  }

  method WriteOutputs(out: ByteBuf, work: WorkTemplate, payout: Vec)
    modifies out
    ensures out.data == old(out.data) + OutVec(Outputs(work, payout))
  {
    hide Varint, ToLE, VarBytes, OutVec;
    OutputsSpelledOut(work, payout);
    WriteVarint(out, if work.witnessCommitment.Some? then 2 else 1);
    WriteOutput(out, work.coinbaseValue, payout);
    if work.witnessCommitment.Some? {
      WriteOutput(out, 0, work.witnessCommitment.value);
    }
  }

  method WriteOutput(out: ByteBuf, value: u64, script: Vec)
    modifies out
    ensures out.data == old(out.data) + OutBytes(TxOut(value, script))
  {
    hide Varint, ToLE;
    out.Extend(ToLE(value, 8));
    WriteVarint(out, |script|);
    out.Extend(script);
  }

  lemma OutputsSpelledOut(work: WorkTemplate, payout: Vec)
    ensures OutVec(Outputs(work, payout))
         == match work.witnessCommitment
            case None => Varint(1) + OutBytes(TxOut(work.coinbaseValue, payout))
            case Some(script) => Varint(2) + OutBytes(TxOut(work.coinbaseValue, payout)) + OutBytes(TxOut(0, script))
  {
    hide Varint, OutBytes;
    var outs := Outputs(work, payout);
    assert outs[1..] == if work.witnessCommitment.Some? then [outs[1]] else [];
    if work.witnessCommitment.Some? {
      assert outs[1..][1..] == [];
      assert OutsBytes(outs[1..]) == OutBytes(outs[1]) + [];
      Joined(Varint(2), OutBytes(outs[0]), OutBytes(outs[1]));
    } else {
      assert OutsBytes(outs) == OutBytes(outs[0]) + [];
      Joined(Varint(1), OutBytes(outs[0]), []);
    }
  }

  lemma Joined(v: seq<byte>, a: seq<byte>, b: seq<byte>)
    ensures v + (a + (b + [])) == v + a + b
    ensures v + (a + []) == v + a
  {
  }

  // ---------- the transaction the parts stand for ----------

  /** The coinbase with a given extranonce, as a transaction. */
  function CoinbaseTx(work: WorkTemplate, payout: Vec, commitment: seq<byte>, extranonce: seq<byte>): Tx {
    Tx(ToLE32(1),
       [TxIn(NULL_PREVOUT, work.prefix + CommitmentPush(commitment) + extranonce, SEQUENCE)],
       Outputs(work, payout), ToLE(0, 4))
  }

  /** `serialize`: the txid preimage. */
  function Serialize(parts: CoinbaseParts, extranonce: seq<byte>): seq<byte> {
    parts.coinb1 + extranonce + parts.coinb2
  }

  function Txid(h: Hashes, parts: CoinbaseParts, extranonce: seq<byte>): Hash256 {
    h.sha256d(Serialize(parts, extranonce))
  }

  /** Segwit form with the all-zero witness reserved value, if there is a witness commitment. */
  function SerializeForBlock(parts: CoinbaseParts, extranonce: seq<byte>): seq<byte>
    requires |parts.coinb1| >= 4 && |parts.coinb2| >= 4
  {
    if !parts.segwit then Serialize(parts, extranonce)
    else
      var bodyEnd := |parts.coinb2| - 4;
      parts.coinb1[..4] + MARKER_AND_FLAG + parts.coinb1[4..] + extranonce + parts.coinb2[..bodyEnd]
      + ([1] + Push(Zeros(32))) + parts.coinb2[bodyEnd..]
  }

  method WriteForBlock(parts: CoinbaseParts, extranonce: seq<byte>) returns (out: seq<byte>)
    requires |parts.coinb1| >= 4 && |parts.coinb2| >= 4
    ensures out == SerializeForBlock(parts, extranonce)
  {
    if !parts.segwit {
      return Serialize(parts, extranonce);
    }
    hide PushOpcode;
    var bodyEnd := |parts.coinb2| - 4;
    var buf := new ByteBuf();
    buf.Extend(parts.coinb1[..4]);
    buf.Extend([0x00, 0x01]);
    buf.Extend(parts.coinb1[4..]);
    buf.Extend(extranonce);
    buf.Extend(parts.coinb2[..bodyEnd]);
    buf.Push(1);
    PushData(buf, Zeros(32));
    buf.Extend(parts.coinb2[bodyEnd..]);
    return buf.data;
  }

  /** A coinbase transaction fits the format. The opcode is one byte, as the length reserved for
      the script supposes, exactly for commitments shorter than 76 bytes. */
  lemma CoinbaseSized(work: WorkTemplate, payout: Vec, commitment: seq<byte>, extranonce: seq<byte>)
    requires ScriptLen(work, commitment, |extranonce|) <= MAX_COINBASE_SCRIPT_LEN
    ensures Sized(CoinbaseTx(work, payout, commitment, extranonce))
    ensures |CoinbaseTx(work, payout, commitment, extranonce).ins[0].script|
        == ScriptLen(work, commitment, |extranonce|)
       <==> |commitment| < 0x4c
  {
    assert |CoinbaseTx(work, payout, commitment, extranonce).outs| in {1, 2};
  }

  /** Filling in an extranonce of the length asked for gives exactly the plain form. */
  lemma SerializeIsPlain(work: WorkTemplate, payout: Vec, commitment: seq<byte>, extranonce: seq<byte>)
    requires ScriptLen(work, commitment, |extranonce|) <= MAX_COINBASE_SCRIPT_LEN && |commitment| < 0x4c
    ensures Sized(CoinbaseTx(work, payout, commitment, extranonce))
    ensures Serialize(Parts(work, payout, commitment, |extranonce|), extranonce)
         == PlainBytes(CoinbaseTx(work, payout, commitment, extranonce))
  {
    CoinbaseSized(work, payout, commitment, extranonce);
    BodySpelledOut(work, payout, commitment, extranonce);
    hide Front, Back, ToLE, ToLE32, Body;
    SplitAround(ToLE32(1), Front(work, commitment, ScriptLen(work, commitment, |extranonce|)), extranonce,
                Back(work, payout), ToLE(0, 4));
  }

  /** Sequence algebra for the two forms: `v` version, `f` front, `e` extranonce, `b` back, `l` locktime. */
  lemma SplitAround(v: seq<byte>, f: seq<byte>, e: seq<byte>, b: seq<byte>, l: seq<byte>)
    ensures (v + f) + e + (b + l) == v + ((f + e + b) + l)
    ensures (v + f)[..|v|] == v && (v + f)[|v|..] == f && (b + l)[..|b|] == b && (b + l)[|b|..] == l
  {
  }

  lemma WrapAround(v: seq<byte>, m: seq<byte>, f: seq<byte>, e: seq<byte>, b: seq<byte>, w: seq<byte>, l: seq<byte>)
    ensures v + m + f + e + b + w + l == v + (m + ((f + e + b) + (w + l)))
  {
  }

  /** The block form reads back to the same transaction. */
  lemma BlockFormIsSegwit(work: WorkTemplate, payout: Vec, commitment: seq<byte>, extranonce: seq<byte>)
    requires ScriptLen(work, commitment, |extranonce|) <= MAX_COINBASE_SCRIPT_LEN && |commitment| < 0x4c
    ensures Sized(CoinbaseTx(work, payout, commitment, extranonce))
    ensures SerializeForBlock(Parts(work, payout, commitment, |extranonce|), extranonce)
         == if work.witnessCommitment.Some?
            then SegwitBytes(CoinbaseTx(work, payout, commitment, extranonce), Zeros(32))
            else PlainBytes(CoinbaseTx(work, payout, commitment, extranonce))
  {
    SerializeIsPlain(work, payout, commitment, extranonce);
    BodySpelledOut(work, payout, commitment, extranonce);
    ReservedValue();
    hide Front, Back, ToLE, ToLE32, Body, WitnessBytes, Push;
    var front, back := Front(work, commitment, ScriptLen(work, commitment, |extranonce|)), Back(work, payout);
    SplitAround(ToLE32(1), front, extranonce, back, ToLE(0, 4));
    WrapAround(ToLE32(1), MARKER_AND_FLAG, front, extranonce, back, WitnessBytes(Zeros(32)), ToLE(0, 4));
  }

  lemma ReservedValue()
    ensures WitnessBytes(Zeros(32)) == [1] + Push(Zeros(32))
  {
    assert Varint(32) == [32] == PushOpcode(32);
  }

  lemma BodySpelledOut(work: WorkTemplate, payout: Vec, commitment: seq<byte>, extranonce: seq<byte>)
    requires ScriptLen(work, commitment, |extranonce|) <= MAX_COINBASE_SCRIPT_LEN && |commitment| < 0x4c
    ensures Sized(CoinbaseTx(work, payout, commitment, extranonce))
    ensures Body(CoinbaseTx(work, payout, commitment, extranonce))
         == Front(work, commitment, ScriptLen(work, commitment, |extranonce|)) + extranonce + Back(work, payout)
  {
    CoinbaseSized(work, payout, commitment, extranonce);
    var tx := CoinbaseTx(work, payout, commitment, extranonce);
    var script := tx.ins[0].script;
    assert Varint(1) == [1];
    hide Varint, OutVec, CommitmentPush;
    assert tx.ins[1..] == [];
    assert InsBytes(tx.ins) == (NULL_PREVOUT + ((Varint(|script|) + script) + SEQUENCE)) + [];
    OneInput(NULL_PREVOUT, Varint(|script|), work.prefix, CommitmentPush(commitment), extranonce, SEQUENCE,
             OutVec(tx.outs));
  }

  lemma OneInput(n: seq<byte>, v: seq<byte>, p: seq<byte>, c: seq<byte>, e: seq<byte>, s: seq<byte>, o: seq<byte>)
    ensures ([1] + ((n + ((v + (p + c + e)) + s)) + [])) + o == ([1] + n + v + p + c) + e + (s + o)
  {
  }
}
