/** Proof-of-work targets: the compact encoding with its rounding, and share difficulty. */
module Target {
  import opened Bytes

  /** A 256-bit number. */
  type U256 = n: int | 0 <= n < Pow256(32)

  /** Decode `bits`: a size byte and a 23-bit mantissa. Bits shifted past 2^256 are lost. */
  function FromCompact(bits: u32): U256 {
    var size, word := bits / 0x100_0000, bits % 0x80_0000;
    if size <= 3 then
      WordFits();
      DivLaws(word, Pow256(3 - size), 0);
      word / Pow256(3 - size)
    else
      word * Pow256(size - 3) % Pow256(32)
  }

  /** Number of bytes of `v`: `bits().div_ceil(8)`. */
  function ByteLen(v: nat): nat {
    if v == 0 then 0 else 1 + ByteLen(v / 256)
  }

  /** `v` scaled to three bytes when it has `size` of them: shifted left, or cut. */
  function Mantissa(v: nat, size: nat): nat {
    if size <= 3 then v * Pow256(3 - size)
    else
      DivLaws(v, Pow256(size - 3), 0);
      v / Pow256(size - 3)
  }

  method ToCompact(v: U256) returns (bits: u32)
    ensures bits == Compact(v)
  {
    if v == 0 {
      return 0;
    }
    var size := ByteLen(v);
    var compact: nat := Mantissa(v, size);
    SizeIsSignedLen(v);
    CompactFits(v);
    if compact >= 0x80_0000 {
      compact := compact / 256;
      size := size + 1;
    }
    bits := compact + size * 0x100_0000;
  }

  // ---------- the encoding in normal form ----------

  /** Bytes needed to hold `v` with the top bit of the first byte clear. */
  function SignedLen(v: nat): nat {
    if v == 0 then 0 else if v < 0x80 then 1 else if v < 0x100 then 2 else 1 + SignedLen(v / 256)
  }

  function Compact(v: U256): u32 {
    CompactFits(v);
    Mantissa(v, SignedLen(v)) + SignedLen(v) * 0x100_0000
  }

  /** The low bytes the encoding drops are those below this weight. */
  function Unit(v: nat): (u: nat)
    ensures u > 0
  {
    if SignedLen(v) <= 3 then 1 else Pow256(SignedLen(v) - 3)
  }

  // ---------- arithmetic ----------

  /** Division cuts at every threshold, and cutting twice is cutting once. */
  lemma DivLaws(n: nat, d: nat, c: int)
    requires d > 0
    ensures 0 <= n / d <= n && n / d * d <= n < n / d * d + d
    ensures n / d >= c <==> n >= c * d
    ensures n / d / 256 == n / (256 * d)
  {
    var q := n / d;
    MulStep(q, c, d);
    MulStep(-1, q, d);
    MulStep(q, 0, d);
    ScaleAtLeast(q, d);
    if q >= c { MulStep(c - 1, q, d); }
    ModStepDiv(n, d);
  }

  lemma ScaleAtLeast(q: int, d: nat)
    ensures d > 0 && q >= 0 ==> q * d >= q
  {
    if d > 0 && q >= 0 {
      assert q * d == q * (d - 1) + q;
      assert q * (d - 1) >= 0;
    }
  }

  lemma ModStepDiv(n: nat, d: nat)
    requires d > 0
    ensures n / d / 256 == n / (256 * d)
  {
    var q, r := n / d, n % d;
    var a, b := q / 256, q % 256;
    assert n == (a * 256 + b) * d + r == a * (256 * d) + (b * d + r);
    MulStep(b, 256, d);
    assert b * d >= 0;
    ModUnique(n, 256 * d, a, b * d + r);
  }

  lemma WordFits()
    ensures Pow256(32) > 0x1_0000_0000
  {
    Pow256Values();
    Pow256Add(4, 28);
    Pow256Monotone(1, 28);
  }

  /** Scaled numbers reach `c` full units of the third byte exactly when the number does. */
  lemma MantissaAtLeast(v: nat, size: nat, c: nat)
    requires size > 0
    ensures Mantissa(v, size) >= c * 0x1_0000 <==> v >= c * Pow256(size - 1)
  {
    Pow256Values();
    if size <= 3 {
      var p := Pow256(3 - size);
      Pow256Add(size - 1, 3 - size);
      assert c * 0x1_0000 == c * Pow256(size - 1) * p;
      MulStep(v, c * Pow256(size - 1), p);
      MulStep(c * Pow256(size - 1), v, p);
    } else {
      var p := Pow256(size - 3);
      Pow256Add(2, size - 3);
      assert c * Pow256(size - 1) == c * 0x1_0000 * p;
      DivLaws(v, p, c * 0x1_0000);
    }
  }

  lemma MantissaNext(v: nat, size: nat)
    requires size > 0
    ensures Mantissa(v, size) / 256 == Mantissa(v, size + 1)
  {
    if size < 3 {
      assert v * Pow256(3 - size) == v * Pow256(2 - size) * 256;
    } else {
      assert size == 3 ==> Pow256(0) == 1;
      DivLaws(v, Pow256(size - 3), 0);
    }
  }

  // ---------- lengths ----------

  lemma {:induction false} SignedLenBounds(v: nat)
    requires v > 0
    ensures SignedLen(v) > 0 && v < 0x80 * Pow256(SignedLen(v) - 1)
    ensures SignedLen(v) > 1 ==> 0x80 * Pow256(SignedLen(v) - 2) <= v
  {
    Pow256Values();
    if v >= 0x100 {
      SignedLenBounds(v / 256);
      var z := SignedLen(v / 256);
      assert Pow256(z) == 256 * Pow256(z - 1);
      if z > 1 {
        assert Pow256(z - 1) == 256 * Pow256(z - 2);
      }
    }
  }

  lemma {:induction false} ByteLenBounds(v: nat)
    requires v > 0
    ensures ByteLen(v) > 0 && Pow256(ByteLen(v) - 1) <= v < Pow256(ByteLen(v))
  {
    if v >= 0x100 {
      ByteLenBounds(v / 256);
      var s := ByteLen(v / 256);
      assert Pow256(s) == 256 * Pow256(s - 1) && Pow256(s + 1) == 256 * Pow256(s);
    } else {
      assert ByteLen(v) == 1 + ByteLen(0);
    }
  }

  lemma SignedLenIs(v: nat, z: nat)
    requires v > 0 && z > 0 && v < 0x80 * Pow256(z - 1)
    requires z > 1 ==> 0x80 * Pow256(z - 2) <= v
    ensures SignedLen(v) == z
  {
    SignedLenBounds(v);
    var s := SignedLen(v);
    if s < z {
      Pow256Monotone(s - 1, z - 2);
    } else if z < s {
      Pow256Monotone(z - 1, s - 2);
    }
  }

  lemma SignedLenAtMost(v: nat, z: nat)
    requires z > 0 && v < 0x80 * Pow256(z - 1)
    ensures SignedLen(v) <= z
  {
    if v > 0 && z < SignedLen(v) {
      SignedLenBounds(v);
      Pow256Monotone(z - 1, SignedLen(v) - 2);
    }
  }

  lemma SignedLenMonotone(v: nat, w: nat)
    requires v <= w
    ensures SignedLen(v) <= SignedLen(w)
  {
    if v > 0 {
      SignedLenBounds(w);
      SignedLenAtMost(v, SignedLen(w));
    }
  }

  /** The loop-free test of the code, `compact & 0x800000`, finds the signed length. */
  lemma SizeIsSignedLen(v: nat)
    requires v > 0
    ensures var s := ByteLen(v);
            if Mantissa(v, s) >= 0x80_0000
            then SignedLen(v) == s + 1 && Mantissa(v, s + 1) == Mantissa(v, s) / 256
            else SignedLen(v) == s
  {
    var s := ByteLen(v);
    ByteLenBounds(v);
    MantissaAtLeast(v, s, 0x80);
    MantissaNext(v, s);
    assert Pow256(s) == 256 * Pow256(s - 1);
    if Mantissa(v, s) >= 0x80_0000 {
      SignedLenIs(v, s + 1);
    } else {
      if s > 1 { assert Pow256(s - 1) == 256 * Pow256(s - 2); }
      SignedLenIs(v, s);
    }
  }

  /** A mantissa of the signed length has its sign bit clear, and 15 significant bits as soon as
      anything is cut off. */
  lemma MantissaRange(v: nat)
    ensures 0 <= Mantissa(v, SignedLen(v)) < 0x80_0000
    ensures SignedLen(v) > 3 ==> Mantissa(v, SignedLen(v)) >= 0x8000
  {
    if v > 0 {
      var z := SignedLen(v);
      SignedLenBounds(v);
      MantissaAtLeast(v, z, 0x80);
      if z > 3 {
        MantissaAtLeast(v, z - 1, 0x80);
        MantissaNext(v, z - 1);
      }
    }
  }

  lemma SignedLenMax(v: U256)
    ensures SignedLen(v) <= 33
  {
    SignedLenAtMost(v, 33);
  }

  lemma CompactFits(v: U256)
    ensures Mantissa(v, SignedLen(v)) + SignedLen(v) * 0x100_0000 < 0x1_0000_0000
  {
    MantissaRange(v);
    SignedLenMax(v);
  }

  // ---------- the theorems ----------

  /** Bit 23, the sign of the compact form, is never set. */
  lemma SignNeverSet(v: U256)
    ensures Compact(v) / 0x80_0000 % 2 == 0
  {
    hide Mantissa, SignedLen;
    MantissaRange(v);
  }

  /** A larger target never has a smaller compact form. */
  lemma CompactMonotone(v: U256, w: U256)
    requires v <= w
    ensures Compact(v) <= Compact(w)
  {
    MantissaRange(v);
    MantissaRange(w);
    SignedLenMonotone(v, w);
    var z := SignedLen(v);
    if z == SignedLen(w) {
      if z <= 3 {
        MulStep(w, v, Pow256(3 - z));
        assert v == w || v * Pow256(3 - z) <= w * Pow256(3 - z) by { MulStep(v, w, Pow256(3 - z)); }
      } else {
        DivLaws(v, Pow256(z - 3), 0);
        DivLaws(w, Pow256(z - 3), v / Pow256(z - 3));
      }
    }
  }

  lemma CompactParts(v: U256)
    ensures Compact(v) / 0x100_0000 == SignedLen(v)
    ensures Compact(v) % 0x80_0000 == Mantissa(v, SignedLen(v))
  {
    hide Mantissa, SignedLen;
    MantissaRange(v);
  }

  /** Re-decoding clears the bytes below the unit and changes nothing else. */
  lemma DecodeOfEncode(v: U256)
    ensures FromCompact(Compact(v)) == v / Unit(v) * Unit(v)
  {
    hide Pow256, SignedLen;
    var z, m := SignedLen(v), Mantissa(v, SignedLen(v));
    MantissaRange(v);
    CompactParts(v);
    if z <= 3 {
      ModUnique(m, Pow256(3 - z), v, 0);
    } else {
      DivLaws(v, Pow256(z - 3), 0);
      ModUnique(m * Pow256(z - 3), Pow256(32), 0, m * Pow256(z - 3));
    }
  }

  /** Re-decoding rounds down, with relative error below 2^-15. */
  lemma RoundsDown(v: U256)
    ensures var t := FromCompact(Compact(v)); t <= v && (v > 0 ==> (v - t) * 0x8000 < v)
  {
    DecodeOfEncode(v);
    MantissaRange(v);
    var u := Unit(v);
    DivLaws(v, u, 0x8000);
    if SignedLen(v) <= 3 {
      assert v / 1 * 1 == v;
    }
  }

  /** Targets that come from a compact form keep their value, whatever the 32 bits: also where
      the decoding shifted digits out at either end. */
  lemma CompactFixesDecoded(bits: u32)
    ensures FromCompact(Compact(FromCompact(bits))) == FromCompact(bits)
  {
    hide Pow256, SignedLen, Compact;
    var size, word := bits / 0x100_0000, bits % 0x80_0000;
    var v := FromCompact(bits);
    DecodeOfEncode(v);
    if size <= 3 {
      DivLaws(word, Pow256(3 - size), 0);
      SmallHasNoUnit(v);
    } else if size - 3 >= 32 {
      ShiftedOut(word, size - 3);
      SmallHasNoUnit(v);
    } else {
      PartlyShiftedOut(word, size - 3);
      UnitDivides(v, word % Pow256(35 - size), size - 3);
    }
  }

  /** A multiple of `a * b` is a multiple of `b`. */
  lemma Regroup(n: nat, a: nat, b: nat, p: nat)
    requires b > 0 && p == a * b
    ensures n * p % b == 0 && n * p / b * b == n * p
  {
    assert n * p == n * a * b;
    ModUnique(n * p, b, n * a, 0);
  }

  lemma ShiftedOut(word: nat, k: nat)
    requires k >= 32
    ensures word * Pow256(k) % Pow256(32) == 0
  {
    hide Pow256;
    Pow256Add(k - 32, 32);
    Regroup(word, Pow256(k - 32), Pow256(32), Pow256(k));
  }

  lemma PartlyShiftedOut(word: nat, k: nat)
    requires k < 32
    ensures word * Pow256(k) % Pow256(32) == word % Pow256(32 - k) * Pow256(k)
    ensures word % Pow256(32 - k) <= word
  {
    hide Pow256;
    var d := Pow256(32 - k);
    Pow256Add(32 - k, k);
    ModScale(word, d, Pow256(k));
    DivLaws(word, d, 0);
    ScaleAtLeast(word / d, d);
  }

  lemma SmallHasNoUnit(v: nat)
    requires v < 0x80_0000
    ensures v / Unit(v) * Unit(v) == v
  {
    Pow256Values();
    SignedLenAtMost(v, 3);
    DivLaws(v, 1, 0);
  }

  lemma ModScale(n: nat, d: nat, c: nat)
    requires d > 0 && c > 0
    ensures n * c % (d * c) == n % d * c
  {
    var q, r := n / d, n % d;
    DivideBack(n, d);
    Distribute(q, d, r, c);
    ScaledRest(r, d, c);
    ModUnique(n * c, d * c, q, r * c);
  }

  lemma DivideBack(n: nat, d: nat)
    requires d > 0
    ensures n == n / d * d + n % d && 0 <= n % d < d
  {
  }

  lemma Distribute(q: nat, d: nat, r: nat, c: nat)
    ensures (q * d + r) * c == q * (d * c) + r * c
  {
    assert (q * d) * c == q * (d * c);
  }

  lemma ScaledRest(r: nat, d: nat, c: nat)
    requires r < d && c > 0
    ensures 0 <= r * c < d * c
  {
    ScaleOrder(r + 1, d, c);
    ScaleOrder(0, r, c);
  }

  lemma UnitWithin(v: nat, u: nat, k: nat)
    requires u < 0x80_0000 && v == u * Pow256(k)
    ensures SignedLen(v) <= k + 3
  {
    hide Pow256, SignedLen;
    Pow256Values();
    Pow256Add(2, k);
    MulStep(u, 0x80_0000, Pow256(k));
    SignedLenAtMost(v, k + 3);
  }

  /** A 23-bit number times a power of 256 has nothing below its unit. */
  lemma UnitDivides(v: nat, u: nat, k: nat)
    requires u < 0x80_0000 && v == u * Pow256(k)
    ensures v / Unit(v) * Unit(v) == v
  {
    hide Pow256, SignedLen;
    UnitWithin(v, u, k);
    var z := SignedLen(v);
    if z <= 3 {
      DivLaws(v, 1, 0);
    } else {
      Pow256Add(k - (z - 3), z - 3);
      Regroup(u, Pow256(k - (z - 3)), Pow256(z - 3), Pow256(k));
    }
  }

  // ---------- difficulty ----------

  /** The difficulty-1 target. */
  const DIFF1: nat := 0xffff * Pow256(26)

  /** `hash` as a little-endian integer is at most the target. */
  predicate IsMetBy(target: nat, hash: Hash256) {
    FromLE(hash) <= target
  }

  /** Difficulty with 32 fractional bits, at least one of them, as a 128-bit integer. */
  function Scaled(difficulty: real): (s: nat)
    requires difficulty > 0.0
    ensures s > 0
  {
    var raw := difficulty * 4294967296.0;
    var floor := if raw < 1.0 then 1 else raw.Floor;
    if floor >= Pow2(128) then Pow2(128) - 1 else floor
  }

  function FromDifficulty(difficulty: real): nat
    requires difficulty > 0.0
  {
    DivLaws(DIFF1 * 0x1_0000_0000, Scaled(difficulty), 0);
    DIFF1 * 0x1_0000_0000 / Scaled(difficulty)
  }

  /** The difficulty the fixed-point form can express: at least its unit, below 2^96. */
  function Effective(difficulty: real): real {
    var top := (Pow2(128) - 1) as real / 4294967296.0;
    if difficulty * 4294967296.0 < 1.0 then 1.0 / 4294967296.0 else if difficulty > top then top else difficulty
  }

  /** A hash is accepted if it achieves the effective difficulty, and an accepted hash falls short of
      it by less than the unit. */
  lemma AcceptsByDifficulty(difficulty: real, hash: Hash256)
    requires difficulty > 0.0
    requires FromLE(hash) > 0
    ensures var achieved := DIFF1 as real / FromLE(hash) as real;
            && (IsMetBy(FromDifficulty(difficulty), hash) ==> achieved > Effective(difficulty) - 1.0 / 4294967296.0)
            && (achieved >= Effective(difficulty) ==> IsMetBy(FromDifficulty(difficulty), hash))
  {
    hide FromLE, Pow2;
    var v, s := FromLE(hash), Scaled(difficulty);
    DivLaws(DIFF1 * 0x1_0000_0000, s, v);
    var achieved := DIFF1 as real / v as real;
    QuotientOrder(DIFF1, v, s, achieved);
    ScaledIsFloor(difficulty);
  }

  lemma ScaledIsFloor(difficulty: real)
    requires difficulty > 0.0
    ensures var x := Effective(difficulty) * 4294967296.0;
            Scaled(difficulty) as real <= x < Scaled(difficulty) as real + 1.0
  {
    hide Pow2;
    assert Pow2(128) > 1 by { Pow2Large(); }
  }

  lemma Pow2Large()
    ensures Pow2(128) > 1
  {
    assert Pow2(128) == 2 * Pow2(127);
  }

  lemma QuotientOrder(d: nat, v: nat, s: nat, achieved: real)
    requires v > 0 && achieved == d as real / v as real
    ensures d * 0x1_0000_0000 >= v * s <==> achieved * 4294967296.0 >= s as real
  {
    var left, right := d * 0x1_0000_0000, v * s;
    assert left as real == d as real * 4294967296.0;
    assert right as real == v as real * s as real;
    assert achieved * v as real == d as real;
    RealOrder(achieved * 4294967296.0, s as real, v as real);
    assert achieved * 4294967296.0 * v as real == left as real;
    assert s as real * v as real == right as real;
  }

  lemma RealOrder(x: real, y: real, v: real)
    requires v > 0.0
    ensures x >= y <==> x * v >= y * v
  {
    assert x * v - y * v == (x - y) * v;
  }

  /** A harder share target is never easier to meet. */
  lemma FromDifficultyAntitone(d1: real, d2: real)
    requires 0.0 < d1 <= d2
    ensures FromDifficulty(d2) <= FromDifficulty(d1)
  {
    hide Pow2;
    var n, s1, s2 := DIFF1 * 0x1_0000_0000, Scaled(d1), Scaled(d2);
    DivLaws(n, s2, 0);
    MulStep(s2, s1, n / s2);
    ScaleOrder(s1, s2, n / s2);
    DivLaws(n, s1, n / s2);
  }

  lemma ScaleOrder(a: int, b: int, c: nat)
    requires a <= b
    ensures c * a <= c * b
  {
    assert c * b == c * a + c * (b - a);
    assert c * (b - a) >= 0;
  }

  /** No share target reaches the top of the hashes' range. */
  lemma BelowAll(difficulty: real)
    requires difficulty > 0.0
    ensures FromDifficulty(difficulty) + 1 < Pow256(32)
  {
    hide Pow256, Pow2;
    Pow256Values();
    Pow256Add(26, 4);
    Pow256Add(30, 2);
    DivLaws(DIFF1 * 0x1_0000_0000, Scaled(difficulty), 0);
  }

  // ---------- two targets ----------

  lemma LargePowers()
    ensures Pow256(16) == 0x1_0000_0000_0000_0000_0000_0000_0000_0000
    ensures Pow256(26) == 0x1_0000_0000_0000_0000_0000_0000_0000_0000_0000_0000_0000_0000_0000
  {
    hide Pow256;
    Pow256Values();
    Pow256Add(8, 8);
    Pow256Add(16, 8);
    Pow256Add(24, 2);
  }

  /** The difficulty-1 target is that of Bitcoin's first block. */
  lemma Diff1Is()
    ensures DIFF1 == 0xffff_0000_0000_0000_0000_0000_0000_0000_0000_0000_0000_0000_0000_0000
    ensures FromCompact(0x1d00_ffff) == DIFF1 && Compact(DIFF1) == 0x1d00_ffff
  {
    hide Pow256, Compact, SignedLen;
    LargePowers();
    WordFits();
    Pow256Add(28, 4);
    Pow256Add(26, 2);
    Pow256Values();
    assert 0x1d00_ffff / 0x100_0000 == 29 && 0x1d00_ffff % 0x80_0000 == 0xffff;
    SmallMod(0xffff * Pow256(26), Pow256(32));
    Pow256Add(26, 1);
    SignedLenIs(DIFF1, 29);
    CompactOfDiff1();
  }

  lemma CompactOfDiff1()
    requires DIFF1 < Pow256(32) && SignedLen(DIFF1) == 29
    ensures Compact(DIFF1) == 0x1d00_ffff
  {
    hide Pow256, SignedLen;
    ModUnique(DIFF1, Pow256(26), 0xffff, 0);
  }

  lemma UnitDifficulty()
    ensures FromDifficulty(1.0) == DIFF1
  {
    ThirtyThreeBits();
    hide Pow2, Pow256;
    assert Scaled(1.0) == 0x1_0000_0000;
    DivLaws(DIFF1 * 0x1_0000_0000, 0x1_0000_0000, DIFF1);
    ScaledBack(DIFF1);
  }

  lemma SixteenBits()
    ensures FromDifficulty(1.0 / 65536.0) == 65536 * DIFF1
  {
    ThirtyThreeBits();
    hide Pow2, Pow256;
    assert Scaled(1.0 / 65536.0) == 0x1_0000;
    ModUnique(DIFF1 * 0x1_0000_0000, 0x1_0000, DIFF1 * 0x1_0000, 0);
  }

  lemma ScaledBack(n: nat)
    ensures n * 0x1_0000_0000 / 0x1_0000_0000 == n
  {
  }

  lemma ThirtyThreeBits()
    ensures 0x1_0000_0000 < Pow2(128)
  {
    assert Pow2(8) == 256 && Pow2(1) == 2;
    hide Pow2;
    Pow2Add(8, 8);
    Pow2Add(16, 16);
    Pow2Add(32, 1);
    Pow2Monotone(33, 128);
  }

  /** The easiest target that compact bits are used for is above difficulty one. */
  lemma LowestDifficulty()
    ensures FromCompact(0x207f_ffff) > DIFF1
  {
    hide Pow256;
    Pow256Values();
    Pow256Add(26, 3);
    Pow256Add(29, 3);
    assert 0x207f_ffff / 0x100_0000 == 32 && 0x207f_ffff % 0x80_0000 == 0x7f_ffff;
    WordsApart(Pow256(26), Pow256(29), Pow256(32));
  }

  lemma WordsApart(low: nat, mid: nat, high: nat)
    requires low > 0 && mid == low * 0x100_0000 && high == mid * 0x100_0000
    ensures 0x7f_ffff * mid % high == 0x7f_ffff * mid && 0x7f_ffff * mid > 0xffff * low
  {
    SmallMod(0x7f_ffff * mid, high);
  }

  lemma SmallMod(x: nat, m: nat)
    requires x < m
    ensures x % m == x
  {
  }
}
