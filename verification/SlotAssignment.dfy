/** Which slot of the aux merkle tree a chain must take: a linear congruential step on the
    tree's nonce and the chain id, in wrapping 32-bit arithmetic. */
module SlotAssignment {
  import opened Bytes

  const MULTIPLIER: u32 := 1_103_515_245
  const INCREMENT: u32 := 12345
  /** The multiplier's inverse modulo 2^32. */
  const INVERSE: u32 := 0xEEB9_EB65
  const WORD := 0x1_0000_0000

  function Lcg(x: u32): u32 {
    (x * MULTIPLIER % WORD + INCREMENT) % WORD
  }

  function ExpectedIndex(nonce: u32, chainId: u32, height: nat): (slot: nat)
    requires height < 32
    ensures slot < Pow2(height)
  {
    Lcg((Lcg(nonce) + chainId) % WORD) % Pow2(height)
  }

  // ---------- modular arithmetic ----------

  lemma MultipleOf(k: int, m: nat)
    requires m > 0
    ensures k * m % m == 0
  {
    ModUnique(k * m, m, k, 0);
  }

  lemma MultipleScaled(x: int, k: int, m: nat)
    requires m > 0 && x % m == 0
    ensures k * x % m == 0
  {
    assert k * x == k * (x / m) * m;
    MultipleOf(k * (x / m), m);
  }

  lemma MultipleSum(x: int, y: int, m: nat)
    requires m > 0 && x % m == 0 && y % m == 0
    ensures (x + y) % m == 0
  {
    assert x + y == (x / m + y / m) * m;
    MultipleOf(x / m + y / m, m);
  }

  lemma CongruentIffMultiple(x: int, y: int, m: nat)
    requires m > 0
    ensures x % m == y % m <==> (x - y) % m == 0
  {
    if x % m == y % m {
      assert x - y == (x / m - y / m) * m;
      MultipleOf(x / m - y / m, m);
    }
    if (x - y) % m == 0 {
      var k := (x - y) / m;
      assert x == (k + y / m) * m + y % m;
      ModUnique(x, m, k + y / m, y % m);
    }
  }

  lemma ReduceFirst(p: int, i: int, w: nat)
    requires w > 0
    ensures (p % w + i) % w == (p + i) % w
  {
    var q, r := p / w, p % w;
    assert p + i - (r + i) == q * w;
    MultipleOf(q, w);
    CongruentIffMultiple(p + i, r + i, w);
  }

  lemma ResidueThrough(x: int, w: nat, k: nat, m: nat)
    requires w > 0 && m > 0 && w == k * m
    ensures w % m == 0 && x % w % m == x % m
  {
    MultipleOf(k, m);
    var q, r := x / w, x % w;
    assert x == q * w + r;
    MultipleScaled(w, q, m);
    CongruentIffMultiple(x, r, m);
  }

  /** Reducing modulo 2^32 first does not change the residue modulo a smaller power of two. */
  lemma WrapKeepsResidue(x: int, height: nat)
    requires height <= 32
    ensures WORD % Pow2(height) == 0
    ensures x % WORD % Pow2(height) == x % Pow2(height)
  {
    Pow2Word();
    Pow2Add(32 - height, height);
    ResidueThrough(x, WORD, Pow2(32 - height), Pow2(height));
  }

  lemma Pow2Word()
    ensures Pow2(16) == 0x1_0000 && Pow2(30) == 0x4000_0000 && Pow2(31) == 0x8000_0000 && Pow2(32) == WORD
  {
    assert Pow2(8) == 256;
    Pow2Add(8, 8);
    Pow2Add(16, 16);
    Pow2Add(16, 8);
    Pow2Add(24, 4);
    assert Pow2(30) == 4 * Pow2(28);
  }

  /** The multiplier is invertible, so multiplying by it neither makes nor hides a multiple. */
  lemma MultiplierCancels(d: int, height: nat)
    requires height <= 32
    ensures d * MULTIPLIER % Pow2(height) == 0 <==> d % Pow2(height) == 0
  {
    var m := Pow2(height);
    if d * MULTIPLIER % m == 0 {
      WrapKeepsResidue(0, height);
      MultipleScaled(d * MULTIPLIER, INVERSE, m);
      MultipleScaled(WORD, -1029054899 * d, m);
      MultipleSum(INVERSE * (d * MULTIPLIER), -1029054899 * d * WORD, m);
      assert INVERSE * (d * MULTIPLIER) + -1029054899 * d * WORD == d;
    }
    if d % m == 0 {
      MultipleScaled(d, MULTIPLIER, m);
    }
  }

  /** One step separates two inputs exactly when they differ modulo the tree size. */
  lemma LcgSeparates(x: u32, y: u32, height: nat)
    requires height <= 32
    ensures Lcg(x) % Pow2(height) == Lcg(y) % Pow2(height) <==> x % Pow2(height) == y % Pow2(height)
  {
    var m := Pow2(height);
    LcgResidue(x, height);
    LcgResidue(y, height);
    CongruentIffMultiple(x * MULTIPLIER + INCREMENT, y * MULTIPLIER + INCREMENT, m);
    assert (x * MULTIPLIER + INCREMENT) - (y * MULTIPLIER + INCREMENT) == (x - y) * MULTIPLIER;
    MultiplierCancels(x - y, height);
    CongruentIffMultiple(x, y, m);
  }

  lemma LcgResidue(x: u32, height: nat)
    requires height <= 32
    ensures Lcg(x) % Pow2(height) == (x * MULTIPLIER + INCREMENT) % Pow2(height)
  {
    ReduceFirst(x * MULTIPLIER, INCREMENT, WORD);
    WrapKeepsResidue(x * MULTIPLIER + INCREMENT, height);
  }

  /** Two chains collide exactly when their ids agree modulo the tree size. The nonce plays no
      part: trying another one never separates them. */
  lemma SlotsCollideIff(nonce: u32, a: u32, b: u32, height: nat)
    requires height < 32
    ensures ExpectedIndex(nonce, a, height) == ExpectedIndex(nonce, b, height)
       <==> a % Pow2(height) == b % Pow2(height)
  {
    var m, c := Pow2(height), Lcg(nonce);
    LcgSeparates((c + a) % WORD, (c + b) % WORD, height);
    WrapKeepsResidue(c + a, height);
    WrapKeepsResidue(c + b, height);
    CongruentIffMultiple(c + a, c + b, m);
    CongruentIffMultiple(a, b, m);
  }

  /** The slot without any wrapping: 2^32 is a multiple of every tree size, so the two steps can be taken
      on whole numbers. */
  lemma SlotClosedForm(nonce: u32, a: u32, height: nat)
    requires height < 32
    ensures ExpectedIndex(nonce, a, height)
         == ((nonce * 1_103_515_245 + 12345 + a) * 1_103_515_245 + 12345) % Pow2(height)
  {
    var m, c := Pow2(height), Lcg(nonce);
    var x, y := (c + a) % WORD, nonce * 1_103_515_245 + 12345 + a;
    LcgResidue(nonce, height);
    WrapKeepsResidue(c + a, height);
    CongruentIffMultiple(c, nonce * 1_103_515_245 + 12345, m);
    CongruentIffMultiple(x, c + a, m);
    MultipleSum(x - (c + a), c - (nonce * 1_103_515_245 + 12345), m);
    MultipleScaled(x - y, 1_103_515_245, m);
    LcgResidue(x, height);
    assert (x * 1_103_515_245 + 12345) - (y * 1_103_515_245 + 12345) == 1_103_515_245 * (x - y);
    CongruentIffMultiple(x * 1_103_515_245 + 12345, y * 1_103_515_245 + 12345, m);
  }
}
