/** The auxpow: proof that an aux block was mined as part of a parent block, on the wire. */
module AuxPow {
  import opened Bytes
  import opened Wrappers
  import opened Encode
  import opened Header
  import opened Transaction

  /** `coinbase` is the plain serialization of the parent coinbase. */
  datatype Proof = Proof(
    coinbase: seq<byte>, parentHash: Hash256, coinbaseBranch: HashVec, chainBranch: HashVec,
    chainIndex: u32, parentHeader: BlockHeader)

  function Concat(hashes: seq<Hash256>): (r: seq<byte>)
    ensures |r| == 32 * |hashes|
  {
    if hashes == [] then [] else hashes[0] + Concat(hashes[1..])
  }

  function HashVecBytes(hashes: HashVec): (r: seq<byte>)
    ensures |r| == VarintLen(|hashes|) + 32 * |hashes|
  {
    Varint(|hashes|) + Concat(hashes)
  }

  /** Chain branch, chain index and parent header. */
  function ChainPart(p: Proof): seq<byte> {
    HashVecBytes(p.chainBranch) + (ToLE(p.chainIndex, 4) + HeaderBytes(p.parentHeader))
  }

  /** Transaction, block hash, branch, index 0 (`CMerkleTx`), then the chain part. */
  function ProofBytes(p: Proof): seq<byte> {
    p.coinbase + (p.parentHash + (HashVecBytes(p.coinbaseBranch) + (ToLE(0, 4) + ChainPart(p))))
  }

  /** `len`: the wire length, computed without writing. */
  function Len(p: Proof): nat {
    |p.coinbase| + 32 + VarintLen(|p.coinbaseBranch|) + 32 * |p.coinbaseBranch| + 4
    + VarintLen(|p.chainBranch|) + 32 * |p.chainBranch| + 4 + Header.LEN
  }

  lemma LenIsLength(p: Proof)
    ensures |ProofBytes(p)| == Len(p)
  {
    hide HashVecBytes, HeaderBytes, ToLE;
  }

  method Write(out: ByteBuf, p: Proof)
    modifies out
    ensures out.data == old(out.data) + ProofBytes(p)
  {
    hide HashVecBytes, HeaderBytes, ToLE;
    out.Extend(p.coinbase);
    out.Extend(p.parentHash);
    WriteHashes(out, p.coinbaseBranch);
    out.Extend(ToLE(0, 4));
    WriteHashes(out, p.chainBranch);
    out.Extend(ToLE(p.chainIndex, 4));
    var header := WriteHeader(p.parentHeader);
    out.Extend(header[..]);
  }

  method WriteHashes(out: ByteBuf, hashes: HashVec)
    modifies out
    ensures out.data == old(out.data) + HashVecBytes(hashes)
  {
    hide Varint;
    WriteVarint(out, |hashes|);
    ghost var before := out.data;
    var i := 0;
    while i < |hashes|
      invariant 0 <= i <= |hashes|
      invariant out.data + Concat(hashes[i..]) == before + Concat(hashes)
    {
      out.Extend(hashes[i]);
      assert out.data + Concat(hashes[i + 1..]) == out.data[..|out.data| - 32] + (hashes[i] + Concat(hashes[i + 1..]));
      i := i + 1;
    }
    assert out.data + Concat(hashes[i..]) == out.data;
    assert before + Concat(hashes) == old(out.data) + HashVecBytes(hashes);
  }

  // ---------- decoding ----------

  function ReadHashes(b: seq<byte>, pos: nat, n: nat): Option<(seq<Hash256>, nat)>
    decreases n
  {
    if n == 0 then Some(([], pos))
    else match Read(b, pos, 32)
      case None => None
      case Some(hash) =>
        match ReadHashes(b, pos + 32, n - 1)
        case None => None
        case Some((rest, end)) => Some(([hash] + rest, end))
  }

  function ReadHashVec(b: seq<byte>, pos: nat): Option<(seq<Hash256>, nat)> {
    match ReadVarint(b, pos)
    case None => None
    case Some((n, used)) => ReadHashes(b, pos + used, n)
  }

  datatype Decoded = Decoded(
    coinbase: seq<byte>, parentHash: Hash256, coinbaseBranch: seq<Hash256>, chainBranch: seq<Hash256>,
    chainIndex: u32, parentHeader: BlockHeader, len: nat)

  function ReadChainPart(b: seq<byte>, pos: nat): Option<(seq<Hash256>, u32, BlockHeader, nat)> {
    match ReadHashVec(b, pos)
    case None => None
    case Some((branch, mid)) =>
      match (Read(b, mid, 4), Read(b, mid + 4, Header.LEN))
      case (Some(index), Some(header)) =>
        Pow256Values();
        Some((branch, FromLE(index), ReadHeader(header), mid + 4 + Header.LEN))
      case _ => None
  }

  /** `decode_for_test`; None where it panics: short input, or an index that is not 0. */
  function Decode(b: seq<byte>): Option<Decoded> {
    match TxLen(b)
    case None => None
    case Some(pos) =>
      if pos > |b| then None
      else
        match (Read(b, pos, 32), ReadHashVec(b, pos + 32))
        case (Some(parentHash), Some((coinbaseBranch, mid))) =>
          if Read(b, mid, 4) != Some([0, 0, 0, 0]) then None
          else (match ReadChainPart(b, mid + 4)
                case None => None
                case Some((chainBranch, chainIndex, header, end)) =>
                  Some(Decoded(b[..pos], parentHash, coinbaseBranch, chainBranch, chainIndex, header, end)))
        case _ => None
  }

  method DecodeForTest(b: seq<byte>) returns (r: Option<Decoded>)
    ensures r == Decode(b)
  {
    hide ReadVarint, HeaderBytes, TxLen;
    var len := MeasureTx(b);
    if len.None? || len.value > |b| || Read(b, len.value, 32).None? {
      return None;
    }
    var first := TakeHashes(b, len.value + 32);
    if first.None? || Read(b, first.value.1, 4) != Some([0, 0, 0, 0]) {
      return None;
    }
    var pos := first.value.1 + 4;
    var second := TakeHashes(b, pos);
    if second.None? || second.value.1 + 4 + Header.LEN > |b| {
      return None;
    }
    pos := second.value.1;
    Pow256Values();
    return Some(Decoded(b[..len.value], b[len.value..len.value + 32], first.value.0, second.value.0,
                        FromLE(b[pos..pos + 4]), ReadHeader(b[pos + 4..pos + 4 + Header.LEN]), pos + 4 + Header.LEN));
  }

  method TakeHashes(b: seq<byte>, start: nat) returns (r: Option<(seq<Hash256>, nat)>)
    ensures r == ReadHashVec(b, start)
  {
    hide ReadVarint;
    var count := ReadVarint(b, start);
    if count.None? {
      return None;
    }
    var n, first := count.value.0, start + count.value.1;
    var hashes, pos: nat, i := [], first, 0;
    PrependNothing(ReadHashes(b, first, n));
    while i < n
      invariant 0 <= i <= n
      invariant ReadHashes(b, first, n) == Prepended(hashes, ReadHashes(b, pos, n - i))
    {
      if pos + 32 > |b| {
        return None;
      }
      var hash: Hash256 := b[pos..pos + 32];
      PrependTwice(hashes, [hash], ReadHashes(b, pos + 32, n - i - 1));
      hashes := hashes + [hash];
      pos := pos + 32;
      i := i + 1;
    }
    assert hashes + [] == hashes;
    return Some((hashes, pos));
  }

  function Prepended(front: seq<Hash256>, r: Option<(seq<Hash256>, nat)>): Option<(seq<Hash256>, nat)> {
    match r case None => None case Some((rest, end)) => Some((front + rest, end))
  }

  lemma PrependNothing(r: Option<(seq<Hash256>, nat)>)
    ensures Prepended([], r) == r
  {
    if r.Some? {
      assert [] + r.value.0 == r.value.0;
    }
  }

  lemma PrependTwice(a: seq<Hash256>, b: seq<Hash256>, r: Option<(seq<Hash256>, nat)>)
    ensures Prepended(a, Prepended(b, r)) == Prepended(a + b, r)
  {
    if r.Some? {
      assert a + (b + r.value.0) == (a + b) + r.value.0;
    }
  }

  // ---------- the round trip ----------

  lemma {:induction false} HashesRoundTrip(b: seq<byte>, pos: nat, hashes: seq<Hash256>)
    requires At(b, pos, Concat(hashes))
    ensures ReadHashes(b, pos, |hashes|) == Some((hashes, pos + 32 * |hashes|))
    decreases |hashes|
  {
    hide At;
    if hashes != [] {
      AtSplit(b, pos, hashes[0], Concat(hashes[1..]));
      ReadAt(b, pos, hashes[0]);
      HashesRoundTrip(b, pos + 32, hashes[1..]);
      assert [hashes[0]] + hashes[1..] == hashes;
    }
  }

  lemma HashVecRoundTrip(b: seq<byte>, pos: nat, hashes: HashVec)
    requires At(b, pos, HashVecBytes(hashes))
    ensures ReadHashVec(b, pos) == Some((hashes, pos + |HashVecBytes(hashes)|))
  {
    hide At, Varint, ReadVarint, Concat, ReadHashes;
    AtSplit(b, pos, Varint(|hashes|), Concat(hashes));
    VarintRoundTrip(b, pos, |hashes|);
    HashesRoundTrip(b, pos + VarintLen(|hashes|), hashes);
  }

  lemma ChainPartRoundTrip(b: seq<byte>, pos: nat, p: Proof)
    requires At(b, pos, ChainPart(p))
    ensures ReadChainPart(b, pos) == Some((p.chainBranch, p.chainIndex, p.parentHeader, pos + |ChainPart(p)|))
  {
    hide At, HashVecBytes, ReadHashVec, HeaderBytes, ReadHeader, ToLE;
    var mid := pos + |HashVecBytes(p.chainBranch)|;
    AtSplit(b, pos, HashVecBytes(p.chainBranch), ToLE(p.chainIndex, 4) + HeaderBytes(p.parentHeader));
    AtSplit(b, mid, ToLE(p.chainIndex, 4), HeaderBytes(p.parentHeader));
    HashVecRoundTrip(b, pos, p.chainBranch);
    ReadAt(b, mid, ToLE(p.chainIndex, 4));
    ReadAt(b, mid + 4, HeaderBytes(p.parentHeader));
    LE32RoundTrip(p.chainIndex);
    HeaderRoundTrip(p.parentHeader);
  }

  /** Decoding the wire form of a proof returns its fields and consumes exactly `len` bytes,
      whatever follows. */
  lemma ProofRoundTrip(b: seq<byte>, p: Proof, tx: Tx)
    requires Sized(tx) && p.coinbase == PlainBytes(tx)
    requires At(b, 0, ProofBytes(p))
    ensures Decode(b) == Some(Decoded(p.coinbase, p.parentHash, p.coinbaseBranch, p.chainBranch, p.chainIndex,
                                      p.parentHeader, Len(p)))
  {
    LenIsLength(p);
    hide At, HashVecBytes, ReadHashVec, HeaderBytes, PlainBytes, TxLen, ChainPart, ReadChainPart;
    var n := |p.coinbase|;
    var mid := n + 32 + |HashVecBytes(p.coinbaseBranch)|;
    assert ToLE(0, 4) == [0, 0, 0, 0];
    AtSplit(b, 0, p.coinbase, p.parentHash + (HashVecBytes(p.coinbaseBranch) + (ToLE(0, 4) + ChainPart(p))));
    AtSplit(b, n, p.parentHash, HashVecBytes(p.coinbaseBranch) + (ToLE(0, 4) + ChainPart(p)));
    AtSplit(b, n + 32, HashVecBytes(p.coinbaseBranch), ToLE(0, 4) + ChainPart(p));
    AtSplit(b, mid, ToLE(0, 4), ChainPart(p));
    TxLenMeasures(b, tx);
    ReadAt(b, 0, p.coinbase);
    ReadAt(b, n, p.parentHash);
    HashVecRoundTrip(b, n + 32, p.coinbaseBranch);
    ReadAt(b, mid, ToLE(0, 4));
    ChainPartRoundTrip(b, mid + 4, p);
  }
}
