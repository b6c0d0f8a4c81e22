/** The coinbase prefix a template gets, and the limit the settings put on the pool's tag so that
    a coinbase can always be built. */
module TagBudget {
  import opened Bytes
  import opened Wrappers
  import opened Encode
  import opened AuxTree
  import opened Work
  import opened Coinbase
  import opened Jobs
  import opened AuxCheck
  import Header

  /** `height as i64`. */
  function AsI64(n: u64): i64 {
    if n >= 0x8000_0000_0000_0000 then n - 0x1_0000_0000_0000_0000 else n
  }

  /** The scriptSig prefix: the BIP34 height, then the tag if there is one. */
  function Prefix(height: u64, tag: seq<byte>): seq<byte> {
    PushScriptNum(AsI64(height)) + (if tag == [] then [] else Push(tag))
  }

  method WritePrefix(height: u64, tag: seq<byte>) returns (prefix: seq<byte>)
    ensures prefix == Prefix(height, tag)
  {
    hide PushOpcode, PushScriptNum;
    var out := new ByteBuf();
    WriteScriptNum(out, AsI64(height));
    if tag != [] {
      PushData(out, tag);
    }
    prefix := out.data;
  }

  /** Longest tag the settings accept. */
  function Budget(mergeMining: bool): nat {
    MAX_COINBASE_SCRIPT_LEN - 5 - 1 - (EXTRANONCE1_LEN + EXTRANONCE2_LEN)
    - (if mergeMining then 1 + COMMITMENT_LEN else 0)
  }

  /** The longest tag is 86 bytes, or 41 beside a commitment. */
  lemma BudgetIs()
    ensures Budget(false) == 86 && Budget(true) == 41
  {
  }

  /** A height below 2^31 takes at most the five bytes the budget allows it, and one below 2^23 at
      most four. */
  lemma HeightPushLen(height: u64)
    requires height < 0x8000_0000
    ensures |PushScriptNum(height)| <= 5
    ensures |PushScriptNum(height)| == 5 <==> height >= 0x80_0000
  {
    ScriptNumLen(height);
  }

  /** The height reads back from the front of any coinbase script built on the prefix. */
  lemma HeightReadsBack(height: u64, tag: seq<byte>, rest: seq<byte>)
    requires height < 0x8000_0000_0000_0000
    ensures ReadScriptNum(Prefix(height, tag) + rest, 0) == Some(height)
  {
    hide PushScriptNum, ReadScriptNum, PushOpcode;
    var p := PushScriptNum(height);
    assert (Prefix(height, tag) + rest)[..|p|] == p;
    ScriptNumPushRoundTrip(Prefix(height, tag) + rest, 0, height);
  }

  /** Merge mining: with a tag the settings accept, the parent coinbase with its commitment and the
      aux coinbase can both be built at every height below 2^31. */
  lemma MergeBudgetSuffices(work: WorkTemplate, payout: Vec, commitment: seq<byte>, height: u64, tag: seq<byte>)
    requires |tag| <= Budget(true) && height < 0x8000_0000 && work.prefix == Prefix(height, tag)
    requires payout != [] && |commitment| in {0, COMMITMENT_LEN}
    ensures BuildParts(work, payout, commitment, EXTRANONCE1_LEN + EXTRANONCE2_LEN).Ok?
    ensures BuildParts(work, payout, [], 0).Ok?
  {
    hide Parts;
    HeightPushLen(height);
  }

  /** Solo mining: from a tag of 76 bytes on the push opcode takes a second byte that the budget
      does not count, so the longest tag accepted fails from height 2^23 on, and only it. */
  lemma SoloBudgetIff(work: WorkTemplate, payout: Vec, height: u64, tag: seq<byte>)
    requires |tag| <= Budget(false) && height < 0x8000_0000 && work.prefix == Prefix(height, tag)
    requires payout != []
    ensures BuildParts(work, payout, [], EXTRANONCE1_LEN + EXTRANONCE2_LEN).Ok?
       <==> !(height >= 0x80_0000 && |tag| == 86)
  {
    hide Parts;
    HeightPushLen(height);
    ScriptNumLen(height);
    if |tag| == Budget(false) && 17 <= height < 0x80_0000 {
      assert |PushScriptNum(height)| <= 4;
    }
  }

  /** Consensus wants two bytes in a coinbase script. An aux coinbase, whose script is the prefix alone,
      has them exactly if there is a tag or the height is above 16. */
  lemma PrefixLongEnoughIff(height: u64, tag: seq<byte>)
    requires height < 0x8000_0000_0000_0000
    ensures |Prefix(height, tag)| >= 2 <==> tag != [] || height > 16
  {
    hide Digits, ToLE;
    if height > 16 {
      assert PushScriptNum(height) == Push(ScriptNumBytes(height));
      assert ScriptNumBytes(height) != [];
    }
  }

  /** A script that opens with the prefix opens with the push of the height, and reads back as it. */
  lemma HeightStated(script: seq<byte>, height: u64, tag: seq<byte>)
    requires At(script, 0, Prefix(height, tag))
    ensures At(script, 0, PushScriptNum(AsI64(height)))
    ensures height < 0x8000_0000_0000_0000 ==> ReadScriptNum(script, 0) == Some(height)
  {
    hide PushScriptNum, Push, ReadScriptNum;
    var p, n := Prefix(height, tag), PushScriptNum(AsI64(height));
    assert script == p + script[|p|..];
    assert script[..|n|] == p[..|n|] == n;
    if height < 0x8000_0000_0000_0000 {
      HeightReadsBack(height, tag, script[|p|..]);
    }
  }

  // ---------- the magic in the prefix ----------

  const MAGIC_HEIGHT: u64 := 0x6d6d_befa

  /** A tag is UTF-8, in which the byte 0xfa never occurs. */
  predicate IsText(tag: seq<byte>) {
    0xfa !in tag
  }

  lemma MagicHeightBytes(height: u64)
    requires 17 <= height < 0x8000_0000
    ensures ScriptNumBytes(height) == MERGED_MINING_MAGIC <==> height == MAGIC_HEIGHT
  {
    var s := ScriptNumBytes(height);
    ScriptNumLen(height);
    DigitsValue(height);
    LeadingZero(Digits(height));
    assert FromLE(s) == height;
    Header.DigitsOfValue(s);
    if s == MERGED_MINING_MAGIC {
      MagicValue(height);
    }
    if height == MAGIC_HEIGHT {
      MagicDigits();
    }
  }

  lemma MagicValue(height: u64)
    requires FromLE(MERGED_MINING_MAGIC) == height
    ensures height == MAGIC_HEIGHT
  {
    MagicDigits();
    LE32RoundTrip(MAGIC_HEIGHT);
  }

  lemma MagicDigits()
    ensures ToLE(MAGIC_HEIGHT, 4) == MERGED_MINING_MAGIC
  {
    assert ToLE(0x6d, 1) == [0x6d] + ToLE(0, 0);
    assert ToLE(0x6d6d, 2) == [0x6d] + ToLE(0x6d, 1);
    assert ToLE(0x6d6dbe, 3) == [0xbe] + ToLE(0x6d6d, 2);
    assert ToLE(MAGIC_HEIGHT, 4) == [0xfa] + ToLE(0x6d6dbe, 3);
  }

  /** Below 2^31 there is exactly one height whose push is the merged-mining magic. At every other
      height no accepted tag can make the prefix hold it, so the commitment's magic is the first. */
  lemma PrefixHoldsMagicIff(height: u64, tag: seq<byte>)
    requires height < 0x8000_0000 && |tag| <= Budget(false) && IsText(tag)
    ensures FindMagic(Prefix(height, tag), 0).Some? <==> height == MAGIC_HEIGHT
  {
    var p, s := Prefix(height, tag), ScriptNumBytes(height);
    HeightPushLen(height);
    ScriptNumLen(height);
    NoMagic(p, 0);
    if height >= 17 {
      MagicHeightBytes(height);
      assert p[0] == |s| && p[1..1 + |s|] == s;
    }
    forall i | 0 <= i && At(p, i, MERGED_MINING_MAGIC) ensures height == MAGIC_HEIGHT {
      WindowInHeight(height, tag, i);
    }
    if height == MAGIC_HEIGHT {
      assert At(p, 1, MERGED_MINING_MAGIC);
    }
  }

  lemma WindowInHeight(height: u64, tag: seq<byte>, i: nat)
    requires height < 0x8000_0000 && |tag| <= Budget(false) && IsText(tag)
    requires At(Prefix(height, tag), i, MERGED_MINING_MAGIC)
    ensures height >= 17 && i == 1 && ScriptNumBytes(height) == MERGED_MINING_MAGIC
  {
    hide Digits, ToLE, FromLE, ScriptNumBytes;
    var p, n := Prefix(height, tag), PushScriptNum(height);
    HeightPushLen(height);
    ScriptNumLen(height);
    assert p[i] == p[i..i + 4][0] == 0xfa;
    assert p[i + 1] == p[i..i + 4][1] == 0xbe;
    assert p[i + 2] == p[i..i + 4][2] == 0x6d;
    assert p[i + 3] == p[i..i + 4][3] == 0x6d;
    AfterHeight(height, tag);
    assert i < |n|;
    assert i + 4 <= |n|;
    assert p[..|n|] == n;
    assert n == Push(ScriptNumBytes(height));
    assert n[1..] == ScriptNumBytes(height);
  }

  /** No window of the magic starts in the tag's push, and none runs into its opcode. */
  lemma AfterHeight(height: u64, tag: seq<byte>)
    requires height < 0x8000_0000 && |tag| <= Budget(false) && IsText(tag)
    ensures var p, n := Prefix(height, tag), |PushScriptNum(height)|;
            && n <= |p| && (forall j :: n <= j < |p| ==> p[j] != 0xfa)
            && (n < |p| ==> p[n] <= 0x4c)
  {
    hide PushScriptNum;
    var p, n, op := Prefix(height, tag), PushScriptNum(height), PushOpcode(|tag|);
    if tag != [] {
      assert p[|n|..] == op + tag;
      assert forall j :: |n| <= j < |p| ==> p[j] == (op + tag)[j - |n|];
    }
  }
}
