/** Bytes, fixed-width integers and their little-endian form, and pieces of a byte string at a
    known position. */
module Bytes {

  type byte = b: int | 0 <= b < 256
  type u16 = n: int | 0 <= n < 0x1_0000
  type u32 = n: int | 0 <= n < 0x1_0000_0000
  type i32 = n: int | -0x8000_0000 <= n < 0x8000_0000
  type u64 = n: int | 0 <= n < 0x1_0000_0000_0000_0000

  /** A byte vector: Rust allows at most 2^63 - 1 elements. */
  type Vec = s: seq<byte> | |s| < 0x8000_0000_0000_0000

  /** A 32-byte hash in internal (wire) byte order. */
  type Hash256 = h: seq<byte> | |h| == 32 witness Zeros(32)

  type HashVec = s: seq<Hash256> | |s| < 0x8000_0000_0000_0000

  /** The two hash functions of the system. Nothing here depends on what they compute, so every
      theorem quantifies over them. */
  datatype Hashes = Hashes(sha256d: seq<byte> -> Hash256, scrypt: seq<byte> -> Hash256)

  function Zeros(n: nat): (r: seq<byte>)
    ensures |r| == n
    ensures forall i :: 0 <= i < n ==> r[i] == 0
  {
    seq(n, _ => 0)
  }

  function Pow2(n: nat): (p: nat)
    ensures p > 0
  {
    if n == 0 then 1 else 2 * Pow2(n - 1)
  }

  function Pow256(n: nat): (p: nat)
    ensures p > 0
  {
    if n == 0 then 1 else 256 * Pow256(n - 1)
  }

  lemma {:induction false} Pow2Add(a: nat, b: nat)
    ensures Pow2(a + b) == Pow2(a) * Pow2(b)
  {
    if a > 0 {
      Pow2Add(a - 1, b);
      assert Pow2(a) == 2 * Pow2(a - 1) && Pow2(a + b) == 2 * Pow2(a - 1 + b);
      hide Pow2;
      Reassociate(2, Pow2(a - 1), Pow2(b));
    }
  }

  lemma Reassociate(c: nat, x: nat, y: nat)
    ensures c * (x * y) == (c * x) * y
  {
  }

  lemma {:induction false} Pow2Monotone(a: nat, b: nat)
    requires a <= b
    ensures Pow2(a) <= Pow2(b)
    decreases b
  {
    if a < b {
      Pow2Monotone(a, b - 1);
    }
  }

  lemma {:induction false} Pow256Monotone(a: nat, b: nat)
    requires a <= b
    ensures Pow256(a) <= Pow256(b)
    decreases b
  {
    if a < b {
      Pow256Monotone(a, b - 1);
    }
  }

  lemma {:induction false} Pow256Add(a: nat, b: nat)
    ensures Pow256(a + b) == Pow256(a) * Pow256(b)
  {
    if a > 0 {
      Pow256Add(a - 1, b);
      assert Pow256(a) == 256 * Pow256(a - 1) && Pow256(a + b) == 256 * Pow256(a - 1 + b);
      hide Pow256;
      Reassociate(256, Pow256(a - 1), Pow256(b));
    }
  }

  /** `n` as `width` little-endian bytes; higher digits are dropped, as a truncating cast does. */
  function ToLE(n: nat, width: nat): (r: seq<byte>)
    ensures |r| == width
  {
    if width == 0 then [] else [n % 256] + ToLE(n / 256, width - 1)
  }

  function FromLE(s: seq<byte>): (n: nat)
    ensures n < Pow256(|s|)
  {
    if s == [] then 0 else s[0] + 256 * FromLE(s[1..])
  }

  /** Two's complement, as `i32::to_le_bytes` writes it. */
  function ToLE32(n: i32): (r: seq<byte>)
    ensures |r| == 4
  {
    ToLE(if n < 0 then n + 0x1_0000_0000 else n, 4)
  }

  function Signed32(n: u32): i32 {
    if n >= 0x8000_0000 then n - 0x1_0000_0000 else n
  }

  function Reverse(s: seq<byte>): (r: seq<byte>)
    ensures |r| == |s|
    ensures forall i :: 0 <= i < |s| ==> r[i] == s[|s| - 1 - i]
  {
    seq(|s|, i requires 0 <= i < |s| => s[|s| - 1 - i])
  }

  lemma ReverseTwice(s: seq<byte>)
    ensures Reverse(Reverse(s)) == s
  {
  }

  lemma MulStep(a: int, b: int, d: nat)
    ensures a < b ==> (a + 1) * d <= b * d
  {
    if a < b {
      assert b * d == (a + 1) * d + (b - a - 1) * d;
    }
  }

  /** Quotient and remainder are the only pair that fits. */
  lemma ModUnique(n: int, d: nat, q: int, r: nat)
    requires d > 0 && n == q * d + r && r < d
    ensures n / d == q && n % d == r
  {
    MulStep(n / d, q, d);
    MulStep(q, n / d, d);
  }

  /** Taking off the low digit commutes with cutting the number to `256 * p`. */
  lemma ModStep(n: nat, p: nat)
    requires p > 0
    ensures n % (256 * p) == n / 256 % p * 256 + n % 256
  {
    var q, m := n / 256 / p, n / 256 % p;
    assert n / 256 == q * p + m;
    assert q * p * 256 == q * (256 * p);
    ModUnique(n, 256 * p, q, m * 256 + n % 256);
  }

  lemma {:induction false} LERoundTrip(n: nat, width: nat)
    ensures FromLE(ToLE(n, width)) == n % Pow256(width)
  {
    if width > 0 {
      LERoundTrip(n / 256, width - 1);
      assert ToLE(n, width)[1..] == ToLE(n / 256, width - 1);
      ModStep(n, Pow256(width - 1));
    }
  }

  lemma LEExact(n: nat, width: nat)
    requires n < Pow256(width)
    ensures FromLE(ToLE(n, width)) == n
  {
    LERoundTrip(n, width);
    ModUnique(n, Pow256(width), 0, n);
  }

  lemma Pow256Values()
    ensures Pow256(1) == 0x100 && Pow256(2) == 0x1_0000 && Pow256(3) == 0x100_0000
    ensures Pow256(4) == 0x1_0000_0000
    ensures Pow256(8) == 0x1_0000_0000_0000_0000
  {
    assert Pow256(2) == 256 * Pow256(1);
    assert Pow256(3) == 256 * Pow256(2);
    assert Pow256(4) == 256 * Pow256(3);
    assert Pow256(5) == 256 * Pow256(4);
    assert Pow256(6) == 256 * Pow256(5);
    assert Pow256(7) == 256 * Pow256(6);
    assert Pow256(8) == 256 * Pow256(7);
  }

  lemma LE16RoundTrip(n: u16)
    ensures FromLE(ToLE(n, 2)) == n
  {
    Pow256Values();
    LEExact(n, 2);
  }

  lemma LE32RoundTrip(n: u32)
    ensures FromLE(ToLE(n, 4)) == n
  {
    Pow256Values();
    LEExact(n, 4);
  }

  lemma LE64RoundTrip(n: u64)
    ensures FromLE(ToLE(n, 8)) == n
  {
    Pow256Values();
    LEExact(n, 8);
  }

  lemma LESignedRoundTrip(n: i32)
    ensures FromLE(ToLE32(n)) < 0x1_0000_0000 && Signed32(FromLE(ToLE32(n))) == n
  {
    LE32RoundTrip(if n < 0 then n + 0x1_0000_0000 else n);
  }

  // ---------- pieces of a byte string ----------

  /** `piece` stands in `b` at position `pos`. */
  predicate At(b: seq<byte>, pos: nat, piece: seq<byte>) {
    pos + |piece| <= |b| && b[pos..pos + |piece|] == piece
  }

  lemma AtSplit(b: seq<byte>, pos: nat, x: seq<byte>, y: seq<byte>)
    ensures At(b, pos, x + y) <==> At(b, pos, x) && At(b, pos + |x|, y)
  {
    if At(b, pos, x + y) {
      var s := b[pos..pos + |x + y|];
      assert s[..|x|] == x && s[|x|..] == y;
      assert b[pos..pos + |x|] == s[..|x|];
      assert b[pos + |x|..pos + |x| + |y|] == s[|x|..];
    }
    if At(b, pos, x) && At(b, pos + |x|, y) {
      assert b[pos..pos + |x + y|] == b[pos..pos + |x|] + b[pos + |x|..pos + |x| + |y|];
    }
  }

  lemma AtStart(x: seq<byte>, rest: seq<byte>)
    ensures At(x + rest, 0, x)
  {
  }

  /** Copy a slice into a fixed buffer. */
  method CopyInto(out: array<byte>, pos: nat, data: seq<byte>)
    requires pos + |data| <= out.Length
    modifies out
    ensures out[..pos + |data|] == old(out[..pos]) + data
    ensures out[pos + |data|..] == old(out[pos + |data|..])
  {
    forall i | 0 <= i < |data| {
      out[pos + i] := data[i];
    }
  }

  /** A growable byte buffer that writers append to. */
  class ByteBuf {
    var data: seq<byte>

    constructor ()
      ensures data == []
    {
      data := [];
    }

    method Push(b: byte)
      modifies this
      ensures data == old(data) + [b]
    {
      data := data + [b];
    }

    method Extend(s: seq<byte>)
      modifies this
      ensures data == old(data) + s
    {
      data := data + s;
    }
  }
}
