/** The 80-byte block header. */
module Header {
  import opened Bytes

  const LEN := 80

  datatype BlockHeader = BlockHeader(
    version: i32, prevHash: Hash256, merkleRoot: Hash256, time: u32, bits: u32, nonce: u32)

  function HeaderBytes(hd: BlockHeader): (r: seq<byte>)
    ensures |r| == LEN
  {
    ToLE32(hd.version) + hd.prevHash + hd.merkleRoot + ToLE(hd.time, 4) + ToLE(hd.bits, 4) + ToLE(hd.nonce, 4)
  }

  function ReadHeader(b: seq<byte>): BlockHeader
    requires |b| == LEN
  {
    Pow256Values();
    BlockHeader(Signed32(FromLE(b[0..4])), b[4..36], b[36..68],
                FromLE(b[68..72]), FromLE(b[72..76]), FromLE(b[76..80]))
  }

  function BlockHash(h: Hashes, hd: BlockHeader): Hash256 {
    h.sha256d(HeaderBytes(hd))
  }

  /** Reading undoes writing. */
  lemma HeaderRoundTrip(hd: BlockHeader)
    ensures ReadHeader(HeaderBytes(hd)) == hd
  {
    hide ToLE, ToLE32, FromLE;
    var b := HeaderBytes(hd);
    assert b[0..4] == ToLE32(hd.version) && b[4..36] == hd.prevHash && b[36..68] == hd.merkleRoot;
    assert b[68..72] == ToLE(hd.time, 4);
    assert b[72..76] == ToLE(hd.bits, 4);
    assert b[76..80] == b[76..] == ToLE(hd.nonce, 4);
    LESignedRoundTrip(hd.version);
    LE32RoundTrip(hd.time);
    LE32RoundTrip(hd.bits);
    LE32RoundTrip(hd.nonce);
  }

  lemma {:induction false} DigitsOfValue(s: seq<byte>)
    ensures ToLE(FromLE(s), |s|) == s
  {
    if s != [] {
      DigitsOfValue(s[1..]);
      ModUnique(FromLE(s), 256, FromLE(s[1..]), s[0]);
      assert s == [s[0]] + s[1..];
    }
  }

  lemma SignedDigits(s: seq<byte>)
    requires |s| == 4
    ensures FromLE(s) < 0x1_0000_0000 && ToLE32(Signed32(FromLE(s))) == s
  {
    Pow256Values();
    DigitsOfValue(s);
  }

  /** Every 80 bytes are the wire form of exactly one header. */
  lemma HeaderOnto(b: seq<byte>)
    requires |b| == LEN
    ensures HeaderBytes(ReadHeader(b)) == b
  {
    hide ToLE, ToLE32, FromLE;
    SignedDigits(b[0..4]);
    DigitsOfValue(b[68..72]);
    DigitsOfValue(b[72..76]);
    DigitsOfValue(b[76..80]);
    assert b == b[0..4] + b[4..36] + b[36..68] + b[68..72] + b[72..76] + b[76..80];
  }

  method WriteHeader(hd: BlockHeader) returns (out: array<byte>)
    ensures fresh(out) && out[..] == HeaderBytes(hd)
  {
    hide ToLE, ToLE32;
    out := new byte[LEN](_ => 0);
    assert out[..0] == [];
    CopyInto(out, 0, ToLE32(hd.version));
    CopyInto(out, 4, hd.prevHash);
    CopyInto(out, 36, hd.merkleRoot);
    CopyInto(out, 68, ToLE(hd.time, 4));
    CopyInto(out, 72, ToLE(hd.bits, 4));
    CopyInto(out, 76, ToLE(hd.nonce, 4));
    assert out[..] == out[..80];
  }
}
