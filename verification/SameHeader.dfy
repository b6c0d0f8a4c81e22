/** When two accepted shares of a session are one and the same header. Within a job that cannot happen;
    between jobs it does exactly if they are made of the same work. */
module SameHeader {
  import opened Bytes
  import opened Wrappers
  import opened Encode
  import opened Header
  import opened Transaction
  import opened Work
  import opened Coinbase
  import opened Jobs
  import opened Validate
  import opened Session
  import opened SessionSteps
  import opened SessionRuns
  import opened SessionSafety
  import BlockTheorems
  import Merkle
  import Target

  // ---------- what a header determines ----------

  /** Two different strings with one double SHA-256. Some such pair exists for every hash function, so
      what matters is which strings clash. */
  predicate Collide(h: Hashes, x: seq<byte>, y: seq<byte>) {
    x != y && h.sha256d(x) == h.sha256d(y)
  }

  /** The strings hashed on the way from coinbase bytes up a branch to the root. */
  function Hashed(h: Hashes, x: seq<byte>, a: seq<Hash256>): set<seq<byte>>
    decreases |a|
  {
    if a == [] then {x} else {LastHashed(h, x, a)} + Hashed(h, x, a[..|a| - 1])
  }

  /** The string whose hash is the root. */
  function LastHashed(h: Hashes, x: seq<byte>, a: seq<Hash256>): seq<byte> {
    if a == [] then x else Merkle.RootFromBranch(h, h.sha256d(x), a[..|a| - 1]) + a[|a| - 1]
  }

  /** A string hashed for one root clashes with one hashed for the other. */
  ghost predicate Clash(h: Hashes, x: seq<byte>, a: seq<Hash256>, y: seq<byte>, b: seq<Hash256>) {
    exists p, q :: p in Hashed(h, x, a) && q in Hashed(h, y, b) && Collide(h, p, q)
  }

  lemma {:induction false} LastStep(h: Hashes, leaf: Hash256, branch: seq<Hash256>)
    requires branch != []
    ensures Merkle.RootFromBranch(h, leaf, branch)
         == h.sha256d(Merkle.RootFromBranch(h, leaf, branch[..|branch| - 1]) + branch[|branch| - 1])
    decreases |branch|
  {
    if |branch| > 1 {
      LastStep(h, Merkle.HashPair(h, leaf, branch[0]), branch[1..]);
      assert branch[..|branch| - 1][1..] == branch[1..][..|branch| - 2];
    }
  }

  lemma RootIsLastHashed(h: Hashes, x: seq<byte>, a: seq<Hash256>)
    ensures Merkle.RootFromBranch(h, h.sha256d(x), a) == h.sha256d(LastHashed(h, x, a))
    ensures LastHashed(h, x, a) in Hashed(h, x, a)
    ensures a != [] ==> |LastHashed(h, x, a)| == 64
  {
    if a != [] {
      LastStep(h, h.sha256d(x), a);
    }
  }

  /** A clash below is a clash. */
  lemma ClashBelow(h: Hashes, x: seq<byte>, a: seq<Hash256>, y: seq<byte>, b: seq<Hash256>)
    requires a != [] && b != [] && Clash(h, x, a[..|a| - 1], y, b[..|b| - 1])
    ensures Clash(h, x, a, y, b)
  {
    hide LastHashed;
  }

  lemma ClashAtRoot(h: Hashes, x: seq<byte>, a: seq<Hash256>, y: seq<byte>, b: seq<Hash256>)
    requires Merkle.RootFromBranch(h, h.sha256d(x), a) == Merkle.RootFromBranch(h, h.sha256d(y), b)
    ensures Clash(h, x, a, y, b) || LastHashed(h, x, a) == LastHashed(h, y, b)
  {
    RootIsLastHashed(h, x, a);
    RootIsLastHashed(h, y, b);
    hide LastHashed, Hashed;
    var p, q := LastHashed(h, x, a), LastHashed(h, y, b);
    assert p != q ==> Collide(h, p, q);
  }

  /** A root determines the coinbase bytes and the branch it was folded from, unless two of the strings
      hashed on the way clash: no coinbase is as short as a pair of hashes. */
  lemma {:induction false} RootDetermines(h: Hashes, x: seq<byte>, a: seq<Hash256>, y: seq<byte>, b: seq<Hash256>)
    requires |x| > 64 && |y| > 64
    requires Merkle.RootFromBranch(h, h.sha256d(x), a) == Merkle.RootFromBranch(h, h.sha256d(y), b)
    ensures Clash(h, x, a, y, b) || (x == y && a == b)
    decreases |a|
  {
    ClashAtRoot(h, x, a, y, b);
    RootIsLastHashed(h, x, a);
    RootIsLastHashed(h, y, b);
    hide Clash, Hashed;
    if LastHashed(h, x, a) == LastHashed(h, y, b) && a != [] && b != [] {
      var c, d := a[..|a| - 1], b[..|b| - 1];
      HalvesOfPair(Merkle.RootFromBranch(h, h.sha256d(x), c), a[|a| - 1],
          Merkle.RootFromBranch(h, h.sha256d(y), d), b[|b| - 1]);
      RootDetermines(h, x, c, y, d);
      if Clash(h, x, c, y, d) {
        ClashBelow(h, x, a, y, b);
      }
      assert a == c + [a[|a| - 1]] && b == d + [b[|b| - 1]];
    }
  }

  lemma HalvesOfPair(a: Hash256, b: Hash256, c: Hash256, d: Hash256)
    requires a + b == c + d
    ensures a == c && b == d
  {
    assert (a + b)[..32] == a && (c + d)[..32] == c && (a + b)[32..] == b && (c + d)[32..] == d;
  }

  // ---------- what a coinbase determines ----------

  /** The layout of a job's coinbase halves: the script's length stands at byte 41. */
  predicate Halves(parts: CoinbaseParts) {
    |parts.coinb1| >= 42 && |parts.coinb2| >= 18 && var n: int := parts.coinb1[41]; |parts.coinb1| == 34 + n
  }

  lemma HalvesBuilt(work: WorkTemplate, payout: Vec, commitment: seq<byte>)
    requires ScriptLen(work, commitment, 8) <= MAX_COINBASE_SCRIPT_LEN && |commitment| < 0x4c
    ensures Halves(Parts(work, payout, commitment, 8))
  {
    hide Halves, Varint, Back, Push, ToLE32;
    var parts, n := Parts(work, payout, commitment, 8), ScriptLen(work, commitment, 8);
    BackLength(work, payout);
    SmallVarint(n);
    var head, script := [1] + NULL_PREVOUT, work.prefix + CommitmentPush(commitment);
    assert Front(work, commitment, n) == head + [n] + script;
    FrontLayout(ToLE32(1), head, n, script);
    CommitmentPushLen(commitment);
    HalvesFrom(parts, n);
  }

  lemma HalvesFrom(parts: CoinbaseParts, n: nat)
    requires n < 256 && |parts.coinb1| == 34 + n && |parts.coinb1| >= 42 && parts.coinb1[41] == n
    requires |parts.coinb2| >= 18
    ensures Halves(parts)
  {
  }

  lemma SmallVarint(n: nat)
    requires n <= 100
    ensures Varint(n) == [n]
  {
  }

  lemma CommitmentPushLen(commitment: seq<byte>)
    requires |commitment| < 0x4c
    ensures |CommitmentPush(commitment)| == if commitment == [] then 0 else 1 + |commitment|
  {
  }

  lemma FrontLayout(version: seq<byte>, head: seq<byte>, n: byte, script: seq<byte>)
    requires |version| == 4 && |head| == 37
    ensures var s := version + (head + [n] + script); |s| == 42 + |script| && s[41] == n
  {
  }

  lemma BackLength(work: WorkTemplate, payout: Vec)
    ensures |Back(work, payout)| >= 14
  {
    var outs := Outputs(work, payout);
    OneOut(outs);
    assert |Back(work, payout)| == 4 + |OutVec(outs)|;
  }

  lemma OneOut(outs: seq<TxOut>)
    requires outs != [] && SizedOuts(outs)
    ensures |OutVec(outs)| >= 10
  {
    hide ToLE, Varint;
    assert |Varint(|outs[0].script|)| >= 1 && |Varint(|outs|)| >= 1;
    assert |OutBytes(outs[0])| >= 9;
    assert |OutsBytes(outs)| == |OutBytes(outs[0])| + |OutsBytes(outs[1..])|;
  }

  lemma HalvesMatch(p: CoinbaseParts, x: seq<byte>, q: CoinbaseParts, y: seq<byte>)
    requires Halves(p) && Halves(q) && |x| == |y| == 8 && Serialize(p, x) == Serialize(q, y)
    ensures p.coinb1 == q.coinb1 && x == y && p.coinb2 == q.coinb2
  {
    var s := Serialize(p, x);
    assert s[41] == p.coinb1[41] && Serialize(q, y)[41] == q.coinb1[41];
    var n := |p.coinb1|;
    assert s[..n] == p.coinb1 && s[n..n + 8] == x && s[n + 8..] == p.coinb2;
    assert Serialize(q, y)[..n] == q.coinb1 && Serialize(q, y)[n..n + 8] == y && Serialize(q, y)[n + 8..] == q.coinb2;
  }

  // ---------- two shares ----------

  /** Two jobs made of the same work: every part of a header comes out alike for the same share. */
  predicate SameWork(a: SessionJob, b: SessionJob) {
    && a.work.version == b.work.version && a.work.prevHash == b.work.prevHash && a.work.bits == b.work.bits
    && a.coinbase.coinb1 == b.coinbase.coinb1 && a.coinbase.coinb2 == b.coinbase.coinb2
    && a.work.merkleBranch == b.work.merkleBranch
  }

  predicate SameShare(x: Submit, y: Submit) {
    x.extranonce2 == y.extranonce2 && x.ntime == y.ntime && x.nonce == y.nonce
  }

  ghost predicate IsMade(h: Hashes, job: SessionJob) {
    exists work, payouts :: MadeFrom(h, job, work, payouts)
  }

  lemma MadeHasHalves(h: Hashes, job: SessionJob)
    requires IsMade(h, job)
    ensures Halves(job.coinbase)
  {
    hide BuildAux, Parts, Halves, Algorithm.ShareTarget;
    var work, payouts :| MadeFrom(h, job, work, payouts);
    BlockTheorems.CommitmentLength(h, work, payouts);
    HalvesBuilt(work.parent, payouts.parent.script, BuildAux(h, work, payouts).commitment);
  }

  /** Strings hashed for the Merkle roots of the two shares clash. */
  ghost predicate SharesClash(h: Hashes, a: SessionJob, x: seq<byte>, b: SessionJob, y: seq<byte>) {
    Clash(h, Serialize(a.coinbase, x), a.work.merkleBranch, Serialize(b.coinbase, y), b.work.merkleBranch)
  }

  /** Two shares on jobs a session sends have the same header exactly if they are the same share and the
      jobs are made of the same work, unless strings hashed for their Merkle roots clash. */
  lemma SameHeaderIff(h: Hashes, a: SessionJob, b: SessionJob, en1: Extranonce1, x: Submit, y: Submit)
    requires IsMade(h, a) && IsMade(h, b)
    requires |x.extranonce2| == EXTRANONCE2_LEN && |y.extranonce2| == EXTRANONCE2_LEN
    ensures SameWork(a, b) && SameShare(x, y) ==>
              ShareHeader(h, a, en1 + x.extranonce2, x) == ShareHeader(h, b, en1 + y.extranonce2, y)
    ensures ShareHeader(h, a, en1 + x.extranonce2, x) == ShareHeader(h, b, en1 + y.extranonce2, y) ==>
              || SharesClash(h, a, en1 + x.extranonce2, b, en1 + y.extranonce2)
              || (SameWork(a, b) && SameShare(x, y))
  {
    MadeHasHalves(h, a);
    MadeHasHalves(h, b);
    hide IsMade, Clash, Merkle.RootFromBranch;
    var p, q := Serialize(a.coinbase, en1 + x.extranonce2), Serialize(b.coinbase, en1 + y.extranonce2);
    if ShareHeader(h, a, en1 + x.extranonce2, x) == ShareHeader(h, b, en1 + y.extranonce2, y) {
      RootDetermines(h, p, a.work.merkleBranch, q, b.work.merkleBranch);
      if p == q {
        HalvesMatch(a.coinbase, en1 + x.extranonce2, b.coinbase, en1 + y.extranonce2);
        assert (en1 + x.extranonce2)[4..] == x.extranonce2 && (en1 + y.extranonce2)[4..] == y.extranonce2;
      }
    }
  }

  /** The header the share of step `i` was hashed from, on the held job `n`. */
  function HeaderAt(env: Env, ins: seq<Input>, i: nat, n: nat): BlockHeader
    requires env.cfg.Valid() && i < |ins| && ins[i].SubmitShare? && n < |Before(env, ins, i).jobs|
  {
    ShareHeader(env.h, Before(env, ins, i).jobs[n], env.extranonce1 + ins[i].submit.extranonce2, ins[i].submit)
  }

  /** Over any run: two accepted shares hash the same header exactly if they are the same share on two
      jobs made of the same work, which then have different ids, unless strings hashed for their Merkle
      roots clash. */
  lemma SameHeaderTwiceIff(env: Env, ins: seq<Input>, i: nat, j: nat) returns (m: nat, n: nat)
    requires env.cfg.Valid() && i < j < |ins|
    requires Effect(env, ins, i).accepted.Some? && Effect(env, ins, j).accepted.Some?
    ensures ins[i].SubmitShare? && ins[j].SubmitShare?
    ensures m < |Before(env, ins, i).jobs| && n < |Before(env, ins, j).jobs|
    ensures Before(env, ins, i).jobs[m].id == Effect(env, ins, i).accepted.value.0
    ensures Before(env, ins, j).jobs[n].id == Effect(env, ins, j).accepted.value.0
    ensures var same := && SameWork(Before(env, ins, i).jobs[m], Before(env, ins, j).jobs[n])
                        && SameShare(ins[i].submit, ins[j].submit);
            && (same ==> HeaderAt(env, ins, i, m) == HeaderAt(env, ins, j, n))
            && (HeaderAt(env, ins, i, m) == HeaderAt(env, ins, j, n) ==>
                  || SharesClash(env.h, Before(env, ins, i).jobs[m], env.extranonce1 + ins[i].submit.extranonce2,
                                 Before(env, ins, j).jobs[n], env.extranonce1 + ins[j].submit.extranonce2)
                  || same)
            && (same ==> Before(env, ins, i).jobs[m].id != Before(env, ins, j).jobs[n].id)
  {
    var k, l;
    k, m := AcceptedJob(env, ins, i);
    l, n := AcceptedJob(env, ins, j);
    hide Before, Effect, Sane, SameWork, SameShare, ShareHeader, SharesClash, IsMade, Lives, GotClean;
    var a, b := Before(env, ins, i).jobs[m], Before(env, ins, j).jobs[n];
    LivesMade(env, ins, k, i, a);
    LivesMade(env, ins, l, j, b);
    AcceptedFacts(env, Before(env, ins, i), ins[i], Before(env, ins, i + 1), Effect(env, ins, i), m);
    AcceptedFacts(env, Before(env, ins, j), ins[j], Before(env, ins, j + 1), Effect(env, ins, j), n);
    hide AcceptedBy;
    SameHeaderIff(env.h, a, b, env.extranonce1, ins[i].submit, ins[j].submit);
    NoDoubleAccept(env, ins, i, j);
    SameShareSameKey(ins[i].submit, ins[j].submit);
  }

  lemma LivesMade(env: Env, ins: seq<Input>, k: nat, j: nat, job: SessionJob)
    requires env.cfg.Valid() && Lives(env, ins, k, j, job)
    ensures IsMade(env.h, job)
  {
    hide MadeFrom, Lives, Before;
    var work, payouts := JobMade(env, ins, k, j, job);
  }

  lemma AcceptedFacts(env: Env, s: State, input: Input, t: State, fx: Effects, m: nat)
    requires AcceptedBy(env, s, input, t, fx, m)
    ensures input.SubmitShare? && m < |s.jobs| && |input.submit.extranonce2| == EXTRANONCE2_LEN
    ensures fx.accepted == Some((s.jobs[m].id, ShareKey(input.submit)))
  {
    hide Assess, ShareHash, ShareKey, Target.IsMetBy;
  }

  lemma SameShareSameKey(x: Submit, y: Submit)
    requires |x.extranonce2| == EXTRANONCE2_LEN && |y.extranonce2| == EXTRANONCE2_LEN
    ensures SameShare(x, y) ==> ShareKey(x) == ShareKey(y)
  {
    hide FromBE;
  }
}
