/** Merkle trees in which an odd level repeats its last node. */
module Merkle {
  import opened Bytes
  import opened Wrappers

  function HashPair(h: Hashes, a: Hash256, b: Hash256): Hash256 {
    h.sha256d(a + b)
  }

  /** A level made even by repeating its last node. */
  function Even(level: seq<Hash256>): (r: seq<Hash256>)
    ensures level != [] || |level| % 2 == 0
    ensures |r| % 2 == 0 && |level| <= |r| <= |level| + 1 && r[..|level|] == level
  {
    if |level| % 2 == 1 then level + [level[|level| - 1]] else level
  }

  /** Hash an even level pairwise. */
  function Pairs(h: Hashes, level: seq<Hash256>): (r: seq<Hash256>)
    requires |level| % 2 == 0
    ensures |r| == |level| / 2
    ensures forall i :: 0 <= i < |r| ==> r[i] == HashPair(h, level[2 * i], level[2 * i + 1])
  {
    seq(|level| / 2, i requires 0 <= i < |level| / 2 => HashPair(h, level[2 * i], level[2 * i + 1]))
  }

  function Root(h: Hashes, level: seq<Hash256>): Hash256
    requires level != []
    decreases |level|
  {
    if |level| == 1 then level[0] else Root(h, Pairs(h, Even(level)))
  }

  /** Small trees in full: left before right, and a last node without a partner beside itself. */
  lemma SmallRoots(h: Hashes, a: Hash256, b: Hash256, c: Hash256)
    ensures Root(h, [a]) == a && Root(h, [a, b]) == h.sha256d(a + b)
    ensures Root(h, [a, b, c]) == h.sha256d(h.sha256d(a + b) + h.sha256d(c + c))
  {
    assert Pairs(h, [a, b]) == [h.sha256d(a + b)];
    assert Even([a, b, c]) == [a, b, c, c];
    var up: seq<Hash256> := [h.sha256d(a + b), h.sha256d(c + c)];
    assert Pairs(h, [a, b, c, c]) == up;
    assert Pairs(h, up) == [HashPair(h, up[0], up[1])];
    RootUp(h, [a, b]);
    RootUp(h, [a, b, c]);
    RootUp(h, up);
  }

  lemma RootUp(h: Hashes, level: seq<Hash256>)
    requires |level| > 1
    ensures Root(h, level) == Root(h, Pairs(h, Even(level)))
    ensures |level| % 2 == 0 ==> Even(level) == level
    ensures forall x: Hash256 :: Root(h, [x]) == x
  {
  }

  /** The other node of the pair `index` is in: `index ^ 1`. */
  function Sibling(index: nat): nat {
    if index % 2 == 0 then index + 1 else index - 1
  }

  function Branch(h: Hashes, level: seq<Hash256>, index: nat): seq<Hash256>
    requires index < |level|
    decreases |level|
  {
    if |level| == 1 then []
    else [Even(level)[Sibling(index)]] + Branch(h, Pairs(h, Even(level)), index / 2)
  }

  /** Hash a leaf up through a branch; an odd index is the right half of its pair. */
  function Fold(h: Hashes, leaf: Hash256, branch: seq<Hash256>, index: nat): Hash256
    decreases |branch|
  {
    if branch == [] then leaf
    else
      var up := if index % 2 == 1 then HashPair(h, branch[0], leaf) else HashPair(h, leaf, branch[0]);
      Fold(h, up, branch[1..], index / 2)
  }

  /** `root_from_branch`: the coinbase is always the left half. */
  function RootFromBranch(h: Hashes, coinbase: Hash256, branch: seq<Hash256>): Hash256
    decreases |branch|
  {
    if branch == [] then coinbase else RootFromBranch(h, HashPair(h, coinbase, branch[0]), branch[1..])
  }

  /** The branch of leaf 0 computed from the other leaves alone. */
  function CoinbaseSteps(h: Hashes, others: seq<Hash256>): (steps: seq<Hash256>)
    ensures |steps| <= |others|
    decreases |others|
  {
    if others == [] then [] else [others[0]] + CoinbaseSteps(h, NextOthers(h, others))
  }

  /** The next level without its node 0: the hashes of every pair but the first. */
  function NextOthers(h: Hashes, others: seq<Hash256>): (r: seq<Hash256>)
    requires others != []
    ensures |r| == |others| / 2
  {
    Pairs(h, Even([others[0]] + others)[2..])
  }

  lemma FoldStep(h: Hashes, leaf: Hash256, step: Hash256, rest: seq<Hash256>, index: nat)
    ensures Fold(h, leaf, [step] + rest, index)
         == Fold(h, if index % 2 == 1 then HashPair(h, step, leaf) else HashPair(h, leaf, step), rest, index / 2)
  {
    assert ([step] + rest)[1..] == rest;
  }

  /** Folding any leaf up through its own branch gives the root. */
  lemma {:induction false} BranchFoldsToRoot(h: Hashes, level: seq<Hash256>, index: nat)
    requires index < |level|
    ensures Fold(h, level[index], Branch(h, level, index), index) == Root(h, level)
    decreases |level|
  {
    if |level| > 1 {
      var full := Even(level);
      ParentNode(h, level, index);
      hide Fold, Even, Pairs, Sibling;
      var next, sibling := Pairs(h, full), full[Sibling(index)];
      BranchFoldsToRoot(h, next, index / 2);
      FoldStep(h, level[index], sibling, Branch(h, next, index / 2), index);
    }
  }

  /** A node and its sibling hash to their parent on the next level. */
  lemma ParentNode(h: Hashes, level: seq<Hash256>, index: nat)
    requires index < |level| && |level| > 1
    ensures var full := Even(level); var next := Pairs(h, full);
            && Sibling(index) < |full| && index / 2 < |next| < |level|
            && next[index / 2] == if index % 2 == 1 then HashPair(h, full[Sibling(index)], level[index])
                                  else HashPair(h, level[index], full[Sibling(index)])
  {
    assert Even(level)[index] == level[index];
  }

  /** The nodes of the next level but the first do not depend on the coinbase. */
  lemma NextLevel(h: Hashes, coinbase: Hash256, others: seq<Hash256>)
    requires others != []
    ensures var even := Even([coinbase] + others); var next := Pairs(h, even);
            next != [] && next == [next[0]] + NextOthers(h, others) && even[1] == others[0]
  {
    hide *;
    EvenAfterFirst(coinbase, others);
    NextOthersAre(h, others);
    PairsDrop(h, Even([coinbase] + others));
    FirstAndRest(Pairs(h, Even([coinbase] + others)));
  }

  lemma NextOthersAre(h: Hashes, others: seq<Hash256>)
    requires others != []
    ensures NextOthers(h, others) == Pairs(h, Even([others[0]] + others)[2..])
  {
    hide Pairs;
  }

  lemma FirstAndRest(s: seq<Hash256>)
    ensures s != [] ==> s == [s[0]] + s[1..]
  {
  }

  lemma EvenAfterFirst(coinbase: Hash256, others: seq<Hash256>)
    requires others != []
    ensures var even := Even([coinbase] + others);
            |even| >= 2 && even[1] == others[0] && even[2..] == Even([others[0]] + others)[2..]
  {
  }

  /** Without its first pair a level gives the next level without its first node. */
  lemma PairsDrop(h: Hashes, a: seq<Hash256>)
    requires |a| % 2 == 0 && |a| > 0
    ensures Pairs(h, a) != [] && Pairs(h, a)[1..] == Pairs(h, a[2..])
  {
    assert forall i :: 0 <= i < |a| - 2 ==> a[2..][i] == a[i + 2];
  }

  /** The coinbase's branch does not depend on the coinbase: it is the branch of leaf 0 whatever
      hash stands there. */
  lemma {:induction false} CoinbaseStepsIsBranchZero(h: Hashes, coinbase: Hash256, others: seq<Hash256>)
    ensures CoinbaseSteps(h, others) == Branch(h, [coinbase] + others, 0)
    decreases |others|
  {
    if others != [] {
      var level := [coinbase] + others;
      var next := Pairs(h, Even(level));
      NextLevel(h, coinbase, others);
      hide Pairs, Even;
      CoinbaseStepsIsBranchZero(h, next[0], NextOthers(h, others));
    }
  }

  lemma {:induction false} RootIsFoldAtZero(h: Hashes, coinbase: Hash256, branch: seq<Hash256>)
    ensures RootFromBranch(h, coinbase, branch) == Fold(h, coinbase, branch, 0)
    decreases |branch|
  {
    if branch != [] {
      RootIsFoldAtZero(h, HashPair(h, coinbase, branch[0]), branch[1..]);
    }
  }

  /** What a miner computes from the branch it is sent is the root of the whole transaction list. */
  lemma CoinbaseFoldsToRoot(h: Hashes, coinbase: Hash256, others: seq<Hash256>)
    ensures RootFromBranch(h, coinbase, CoinbaseSteps(h, others)) == Root(h, [coinbase] + others)
  {
    RootIsFoldAtZero(h, coinbase, CoinbaseSteps(h, others));
    CoinbaseStepsIsBranchZero(h, coinbase, others);
    BranchFoldsToRoot(h, [coinbase] + others, 0);
  }

  /** A tree of 2^height leaves has branches of length height. */
  lemma {:induction false} BranchLength(h: Hashes, level: seq<Hash256>, index: nat, height: nat)
    requires index < |level| == Pow2(height)
    ensures |Branch(h, level, index)| == height
    decreases height
  {
    if height > 0 {
      BranchLength(h, Pairs(h, Even(level)), index / 2, height - 1);
    }
  }

  // ---------- the loops ----------

  method MerkleRoot(h: Hashes, hashes: seq<Hash256>) returns (root: Hash256)
    requires hashes != []
    ensures root == Root(h, hashes)
  {
    var level := hashes;
    while |level| > 1
      invariant level != []
      invariant Root(h, level) == Root(h, hashes)
      decreases |level|
    {
      if |level| % 2 == 1 {
        level := level + [level[|level| - 1]];
      }
      level := HashLevel(h, level);
    }
    root := level[0];
  }

  /** `level.chunks(2).map(hash_pair).collect()` */
  method HashLevel(h: Hashes, level: seq<Hash256>) returns (next: seq<Hash256>)
    requires |level| % 2 == 0
    ensures next == Pairs(h, level)
  {
    next := [];
    var i := 0;
    while 2 * i < |level|
      invariant 0 <= i <= |level| / 2
      invariant next == Pairs(h, level)[..i]
    {
      next := next + [HashPair(h, level[2 * i], level[2 * i + 1])];
      i := i + 1;
    }
  }

  method BranchAt(h: Hashes, hashes: seq<Hash256>, leaf: nat) returns (steps: seq<Hash256>)
    requires leaf < |hashes|
    ensures steps == Branch(h, hashes, leaf)
  {
    hide Branch, Even, Pairs, Sibling;
    steps := [];
    var index: nat := leaf;
    var level := hashes;
    while |level| > 1
      invariant index < |level|
      invariant steps + Branch(h, level, index) == Branch(h, hashes, leaf)
      decreases |level|
    {
      BranchStep(h, level, index, steps);
      level := MadeEven(level);
      steps := steps + [level[Sibling(index)]];
      level := HashLevel(h, level);
      index := index / 2;
    }
    BranchEnds(h, level, index, steps);
  }

  method MadeEven(level: seq<Hash256>) returns (even: seq<Hash256>)
    requires level != []
    ensures even == Even(level)
  {
    even := level;
    if |level| % 2 == 1 {
      even := even + [even[|even| - 1]];
    }
  }

  lemma BranchStep(h: Hashes, level: seq<Hash256>, index: nat, steps: seq<Hash256>)
    requires index < |level| && |level| > 1
    ensures var even := Even(level);
            && |even| % 2 == 0 && Sibling(index) < |even| && index / 2 < |Pairs(h, even)| < |level|
            && (steps + [even[Sibling(index)]]) + Branch(h, Pairs(h, even), index / 2)
               == steps + Branch(h, level, index)
  {
    var even := Even(level);
    var rest := Branch(h, Pairs(h, even), index / 2);
    assert steps + ([even[Sibling(index)]] + rest) == (steps + [even[Sibling(index)]]) + rest;
  }

  lemma BranchEnds(h: Hashes, level: seq<Hash256>, index: nat, steps: seq<Hash256>)
    requires |level| == 1 && index == 0
    ensures steps + Branch(h, level, index) == steps
  {
  }

  method CoinbaseBranch(h: Hashes, txHashes: seq<Hash256>) returns (steps: seq<Hash256>)
    ensures steps == CoinbaseSteps(h, txHashes)
  {
    steps := [];
    var level := [None] + seq(|txHashes|, i requires 0 <= i < |txHashes| => Some(txHashes[i]));
    ghost var others := txHashes;
    while |level| > 1
      invariant Known(level, others)
      invariant steps + CoinbaseSteps(h, others) == CoinbaseSteps(h, txHashes)
      decreases |level|
    {
      ghost var rest := CoinbaseSteps(h, NextOthers(h, others));
      assert steps + ([others[0]] + rest) == (steps + [others[0]]) + rest;
      var step;
      step, level := ClimbLevel(h, level, others);
      steps := steps + [step];
      others := NextOthers(h, others);
    }
  }

  /** A level whose node 0 is a placeholder and whose other nodes are `others`. */
  predicate Known(level: seq<Option<Hash256>>, others: seq<Hash256>) {
    |level| == |others| + 1 && forall i :: 0 < i < |level| ==> level[i] == Some(others[i - 1])
  }

  /** One pass of the loop: the coinbase's sibling, and the next level. */
  method ClimbLevel(h: Hashes, level: seq<Option<Hash256>>, ghost others: seq<Hash256>)
    returns (step: Hash256, next: seq<Option<Hash256>>)
    requires |level| > 1 && Known(level, others)
    ensures step == others[0] && Known(next, NextOthers(h, others))
  {
    var even := level;
    if |even| % 2 == 1 {
      even := even + [even[|even| - 1]];
    }
    step := even[1].value;
    ghost var full := Even([others[0]] + others);
    ghost var tail := full[2..];
    forall i | 2 <= i < |even|
      ensures even[i] == Some(tail[i - 2])
    {
      assert full[i] == tail[i - 2];
    }
    next := HashTail(h, even, tail);
  }

  /** The next level from every pair but the first, which holds the placeholder. */
  method HashTail(h: Hashes, level: seq<Option<Hash256>>, ghost tail: seq<Hash256>)
    returns (next: seq<Option<Hash256>>)
    requires |level| % 2 == 0 && |level| == |tail| + 2
    requires forall i :: 2 <= i < |level| ==> level[i] == Some(tail[i - 2])
    ensures Known(next, Pairs(h, tail))
  {
    next := [None];
    var i := 2;
    while i < |level|
      invariant i % 2 == 0 && 2 <= i <= |level| && |next| == i / 2
      invariant forall j :: 0 < j < |next| ==> next[j] == Some(Pairs(h, tail)[j - 1])
    {
      next := next + [Some(HashPair(h, level[i].value, level[i + 1].value))];
      i := i + 2;
    }
  }

  method RootFromBranchAt(h: Hashes, leaf: Hash256, branch: seq<Hash256>, leafIndex: nat) returns (hash: Hash256)
    ensures hash == Fold(h, leaf, branch, leafIndex)
  {
    hash := leaf;
    var index := leafIndex;
    var i := 0;
    while i < |branch|
      invariant 0 <= i <= |branch|
      invariant Fold(h, hash, branch[i..], index) == Fold(h, leaf, branch, leafIndex)
    {
      hash := if index % 2 == 1 then HashPair(h, branch[i], hash) else HashPair(h, hash, branch[i]);
      index := index / 2;
      i := i + 1;
    }
  }
}
