/** Wire encoding helpers: CompactSize integers, script data pushes and script numbers. */
module Encode {
  import opened Bytes
  import opened Wrappers

  type i64 = n: int | -0x8000_0000_0000_0000 <= n < 0x8000_0000_0000_0000

  // ---------- CompactSize ----------

  function Varint(n: u64): (r: seq<byte>)
    ensures |r| == VarintLen(n)
  {
    if n <= 0xfc then [n]
    else if n <= 0xffff then [0xfd] + ToLE(n, 2)
    else if n <= 0xffff_ffff then [0xfe] + ToLE(n, 4)
    else [0xff] + ToLE(n, 8)
  }

  function VarintLen(n: u64): nat {
    if n <= 0xfc then 1 else if n <= 0xffff then 3 else if n <= 0xffff_ffff then 5 else 9
  }

  method WriteVarint(out: ByteBuf, n: u64)
    modifies out
    ensures out.data == old(out.data) + Varint(n)
  {
    hide ToLE;
    if n <= 0xfc {
      out.Push(n);
    } else if n <= 0xffff {
      out.Push(0xfd);
      out.Extend(ToLE(n, 2));
    } else if n <= 0xffff_ffff {
      out.Push(0xfe);
      out.Extend(ToLE(n, 4));
    } else {
      out.Push(0xff);
      out.Extend(ToLE(n, 8));
    }
  }

  /** `read_varint(&bytes[pos..])`: the value and the bytes it took, or None where the slicing
      panics. */
  function ReadVarint(b: seq<byte>, pos: nat): (r: Option<(u64, nat)>)
    ensures r.Some? ==> pos + r.value.1 <= |b| && r.value.1 in {1, 3, 5, 9}
  {
    if pos >= |b| then None
    else if b[pos] <= 0xfc then Some((b[pos], 1))
    else
      var width := if b[pos] == 0xfd then 2 else if b[pos] == 0xfe then 4 else 8;
      if pos + 1 + width > |b| then None
      else
        Pow256Values();
        Some((FromLE(b[pos + 1..pos + 1 + width]), 1 + width))
  }

  lemma VarintRoundTrip(b: seq<byte>, pos: nat, n: u64)
    requires At(b, pos, Varint(n))
    ensures ReadVarint(b, pos) == Some((n, VarintLen(n)))
  {
    assert b[pos..pos + VarintLen(n)][0] == b[pos];
    if n > 0xfc {
      var tail := Varint(n)[1..];
      assert Varint(n) == [b[pos]] + tail;
      AtSplit(b, pos, [b[pos]], tail);
      if n <= 0xffff { LE16RoundTrip(n); }
      else if n <= 0xffff_ffff { LE32RoundTrip(n); }
      else { LE64RoundTrip(n); }
    }
  }

  // ---------- script pushes ----------

  /** The minimal push of `data`: an opcode naming the length, then the data. */
  function Push(data: seq<byte>): seq<byte> {
    PushOpcode(|data|) + data
  }

  function PushOpcode(len: nat): seq<byte> {
    if len < 0x4c then [len]
    else if len <= 0xff then [0x4c, len]
    else if len <= 0xffff then [0x4d] + ToLE(len, 2)
    else [0x4e] + ToLE(len, 4)
  }

  method PushData(out: ByteBuf, data: seq<byte>)
    modifies out
    ensures out.data == old(out.data) + Push(data)
  {
    var len := |data|;
    if len < 0x4c {
      out.Push(len);
    } else if len <= 0xff {
      out.Push(0x4c);
      out.Push(len);
    } else if len <= 0xffff {
      out.Push(0x4d);
      out.Extend(ToLE(len, 2));
    } else {
      out.Push(0x4e);
      out.Extend(ToLE(len, 4));
    }
    out.Extend(data);
  }

  /** The length a push opcode announces and the bytes the opcode takes. */
  function ReadOpcode(b: seq<byte>, pos: nat): Option<(nat, nat)> {
    if pos >= |b| then None
    else if b[pos] < 0x4c then Some((b[pos], 1))
    else
      var width := if b[pos] == 0x4c then 1 else if b[pos] == 0x4d then 2 else 4;
      if b[pos] > 0x4e || pos + 1 + width > |b| then None
      else Some((FromLE(b[pos + 1..pos + 1 + width]), 1 + width))
  }

  /** Read back one data push: its data and the bytes it took. */
  function ReadPush(b: seq<byte>, pos: nat): Option<(seq<byte>, nat)> {
    match ReadOpcode(b, pos)
    case None => None
    case Some((len, used)) =>
      if pos + used + len > |b| then None else Some((b[pos + used..pos + used + len], used + len))
  }

  lemma OpcodeRoundTrip(b: seq<byte>, pos: nat, len: u32)
    requires At(b, pos, PushOpcode(len))
    ensures ReadOpcode(b, pos) == Some((len, |PushOpcode(len)|))
  {
    var op := PushOpcode(len);
    assert b[pos..pos + |op|][0] == b[pos] == op[0];
    assert b[pos + 1..pos + |op|] == b[pos..pos + |op|][1..] == op[1..];
    if len > 0xffff {
      LE32RoundTrip(len);
    } else if len > 0xff {
      LE16RoundTrip(len);
    } else if len >= 0x4c {
      assert op[1..] == [len] == ToLE(len, 1);
      Pow256Values();
      LEExact(len, 1);
    }
  }

  lemma PushRoundTrip(b: seq<byte>, pos: nat, data: seq<byte>)
    requires |data| < 0x1_0000_0000
    requires At(b, pos, Push(data))
    ensures ReadPush(b, pos) == Some((data, |Push(data)|))
  {
    AtSplit(b, pos, PushOpcode(|data|), data);
    OpcodeRoundTrip(b, pos, |data|);
  }

  // ---------- script numbers ----------

  function Abs(n: int): nat {
    if n < 0 then -n else n
  }

  /** Little-endian base-256 digits without leading zeros. */
  function Digits(n: nat): (r: seq<byte>)
    ensures n == 0 <==> r == []
  {
    if n == 0 then [] else [n % 256] + Digits(n / 256)
  }

  /** Minimal sign-magnitude form: the top bit of the last byte is the sign. */
  function ScriptNumBytes(n: i64): seq<byte> {
    if n == 0 then []
    else
      var d := Digits(Abs(n));
      var last := d[|d| - 1];
      if last >= 0x80 then d + [if n < 0 then 0x80 else 0]
      else if n < 0 then d[|d| - 1 := last + 0x80]
      else d
  }

  method ScriptNumBytesLoop(n: i64) returns (out: seq<byte>)
    ensures out == ScriptNumBytes(n)
  {
    if n == 0 {
      return [];
    }
    var negative := n < 0;
    var abs := Abs(n);
    out := DigitsLoop(abs);
    if out[|out| - 1] >= 0x80 {
      out := out + [if negative then 0x80 else 0];
    } else if negative {
      var last := |out| - 1;
      out := out[last := out[last] + 0x80];
    }
  }

  method DigitsLoop(n: nat) returns (out: seq<byte>)
    ensures out == Digits(n)
  {
    out := [];
    var abs := n;
    while abs > 0
      invariant out + Digits(abs) == Digits(n)
    {
      assert out + ([abs % 256] + Digits(abs / 256)) == (out + [abs % 256]) + Digits(abs / 256);
      out := out + [abs % 256];
      abs := abs / 256;
    }
  }

  /** The number a sign-magnitude byte string denotes. */
  function ScriptNumValue(s: seq<byte>): int {
    if s == [] then 0
    else
      var last := s[|s| - 1];
      if last >= 0x80 then 0 - FromLE(s[|s| - 1 := last - 0x80]) else FromLE(s)
  }

  lemma {:induction false} DigitsValue(n: nat)
    ensures FromLE(Digits(n)) == n
    ensures n > 0 ==> Digits(n)[|Digits(n)| - 1] > 0
  {
    if n > 0 {
      DigitsValue(n / 256);
      assert Digits(n)[1..] == Digits(n / 256);
    }
  }

  lemma {:induction false} LeadingZero(s: seq<byte>)
    ensures FromLE(s + [0]) == FromLE(s)
  {
    if s == [] {
      assert FromLE([0]) == 0 + 256 * FromLE([0][1..]);
    } else {
      assert (s + [0])[1..] == s[1..] + [0];
      LeadingZero(s[1..]);
    }
  }

  /** Script numbers read back to the number they were made from, and no shorter byte string
      could have been used: a last byte of 0 or 0x80 is there only to keep the sign bit free. */
  lemma ScriptNumRoundTrip(n: i64)
    ensures ScriptNumValue(ScriptNumBytes(n)) == n
    ensures var s := ScriptNumBytes(n);
            |s| > 0 && s[|s| - 1] in {0, 0x80} ==> |s| > 1 && s[|s| - 2] >= 0x80
  {
    if n != 0 {
      var abs := Abs(n);
      var d := Digits(abs);
      var s := ScriptNumBytes(n);
      DigitsValue(abs);
      LeadingZero(d);
      if d[|d| - 1] >= 0x80 {
        assert s[|s| - 1 := 0] == d + [0];
      } else if n < 0 {
        assert s[|s| - 1 := s[|s| - 1] - 0x80] == d;
      }
    }
  }

  lemma {:induction false} DigitsLen(n: nat, k: nat)
    requires n < Pow256(k)
    ensures |Digits(n)| <= k
    ensures k > 0 && n < Pow256(k - 1) * 0x80 && |Digits(n)| == k ==> Digits(n)[k - 1] < 0x80
  {
    if n > 0 {
      assert n / 256 < Pow256(k - 1);
      if k > 1 {
        assert Pow256(k - 1) == 256 * Pow256(k - 2);
        DigitsLen(n / 256, k - 1);
        assert n < Pow256(k - 1) * 0x80 ==> n / 256 < Pow256(k - 2) * 0x80;
      } else {
        assert Digits(n) == [n];
      }
    }
  }

  /** What `CScript << int64` appends: the one-byte opcodes for -1..16, a push otherwise. */
  function PushScriptNum(n: i64): seq<byte> {
    if n == 0 then [0x00]
    else if n == -1 then [0x4f]
    else if 1 <= n <= 16 then [0x50 + n]
    else Push(ScriptNumBytes(n))
  }

  method WriteScriptNum(out: ByteBuf, n: i64)
    modifies out
    ensures out.data == old(out.data) + PushScriptNum(n)
  {
    if n == 0 {
      out.Push(0x00);
    } else if n == -1 {
      out.Push(0x4f);
    } else if 1 <= n <= 16 {
      out.Push(0x50 + n);
    } else {
      var bytes := ScriptNumBytesLoop(n);
      PushData(out, bytes);
    }
  }

  /** Read the number at the front of a script, as BIP34 validation does for the height. */
  function ReadScriptNum(b: seq<byte>, pos: nat): Option<int> {
    if pos >= |b| then None
    else if b[pos] == 0x4f then Some(-1)
    else if 0x51 <= b[pos] <= 0x60 then Some(b[pos] - 0x50)
    else match ReadPush(b, pos)
         case None => None
         case Some((data, _)) => Some(ScriptNumValue(data))
  }

  /** Bytes of script a height push takes, by the size of the height. */
  lemma ScriptNumLen(n: i64)
    ensures n >= 0 ==> |ScriptNumBytes(n)| <= 8
    ensures |ScriptNumBytes(n)| <= 9
    ensures 0 <= n < 0x80_0000 ==> |ScriptNumBytes(n)| <= 3
    ensures 0x80_0000 <= n < 0x8000_0000 ==> |ScriptNumBytes(n)| == 4
  {
    Pow256Values();
    var abs := Abs(n);
    assert Pow256(7) * 256 == Pow256(8);
    DigitsLen(abs, 8);
    if 0 <= n < 0x80_0000 {
      DigitsLen(n, 3);
    } else if 0x80_0000 <= n < 0x8000_0000 {
      DigitsLen(n, 4);
      FourDigits(n);
    }
  }

  lemma FourDigits(n: nat)
    requires 0x80_0000 <= n < 0x8000_0000
    ensures |ScriptNumBytes(n)| == 4
  {
    Pow256Values();
    DigitsLen(n, 4);
    DigitsValue(n);
    var d := Digits(n);
    if |d| <= 2 {
      Pow256Monotone(|d|, 2);
    } else if |d| == 3 {
      assert FromLE(d) == d[0] + 256 * FromLE(d[1..]);
      assert FromLE(d[1..]) == d[1] + 256 * FromLE(d[2..]);
      assert FromLE(d[2..]) == d[2] + 256 * FromLE(d[3..]);
      assert d[2] >= 0x80;
    }
  }

  lemma ScriptNumPushRoundTrip(b: seq<byte>, pos: nat, n: i64)
    requires At(b, pos, PushScriptNum(n))
    ensures ReadScriptNum(b, pos) == Some(n)
  {
    var p := PushScriptNum(n);
    assert b[pos..pos + |p|][0] == b[pos] == p[0];
    if n == 0 {
      assert Push([]) == p;
      PushRoundTrip(b, pos, []);
    } else if n < -1 || n > 16 {
      ScriptNumLen(n);
      ScriptNumRoundTrip(n);
      PushRoundTrip(b, pos, ScriptNumBytes(n));
    }
  }
}
