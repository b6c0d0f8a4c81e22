/** The aux chain merkle tree: which slot every chain takes, and the commitment to the tree that
    goes into the parent coinbase. */
module AuxTree {
  import opened Bytes
  import opened Wrappers
  import opened SlotAssignment
  import Merkle

  const MERGED_MINING_MAGIC: seq<byte> := [0xfa, 0xbe, 0x6d, 0x6d]
  const VERSION_AUXPOW_FLAG := 0x100
  const COMMITMENT_LEN := 44
  const MAX_CHAIN_BRANCH_LEN := 30
  const NONCES_TRIED := 64

  type Chain = (u32, Hash256)

  datatype ChainProof = ChainProof(index: u32, branch: seq<Hash256>)

  datatype Tree = Tree(root: Hash256, size: u32, nonce: u32, proofs: seq<ChainProof>)

  datatype TreeError = Empty | TooMany | DuplicateChain(id: u32)

  // ---------- chain ids and block versions ----------

  /** `(version >> 16) as u32`: an arithmetic shift, so a negative version gives an id near 2^32. */
  function ChainIdOf(version: i32): u32 {
    if version < 0 then version / 0x1_0000 + WORD else version / 0x1_0000
  }

  /** The low 8 bits of `version`, the auxpow flag, and the id shifted into the upper 16 bits. */
  function AuxBlockVersion(version: i32, chainId: u32): i32 {
    var high := chainId % 0x1_0000;
    version % 256 + VERSION_AUXPOW_FLAG + (if high >= 0x8000 then high - 0x1_0000 else high) * 0x1_0000
  }

  /** The id survives the version exactly when it is a sign-extended 16-bit number. */
  lemma VersionKeepsChainId(version: i32, chainId: u32)
    ensures ChainIdOf(AuxBlockVersion(version, chainId)) == chainId
       <==> chainId < 0x8000 || chainId >= WORD - 0x8000
    ensures AuxBlockVersion(AuxBlockVersion(version, chainId), chainId) == AuxBlockVersion(version, chainId)
  {
    var high := chainId % 0x1_0000;
    HighBits(version % 256 + VERSION_AUXPOW_FLAG, if high >= 0x8000 then high - 0x1_0000 else high);
  }

  /** The bytes of a stamped version: the low byte is kept, the flag is bit 8 and alone in its byte, and
      above them stands the id's low half, as a signed number. */
  lemma VersionBits(version: i32, chainId: u32)
    ensures var v := AuxBlockVersion(version, chainId);
            && v % 0x100 == version % 0x100 && v % 0x1_0000 == 0x100 + version % 0x100
            && (v / 0x1_0000) % 0x1_0000 == chainId % 0x1_0000
  {
    var high := chainId % 0x1_0000;
    HighBits(version % 256 + 0x100, if high >= 0x8000 then high - 0x1_0000 else high);
  }

  lemma HighBits(low: nat, high: int)
    requires low < 0x1_0000
    ensures (low + high * 0x1_0000) / 0x1_0000 == high && (low + high * 0x1_0000) % 256 == low % 256
    ensures (low + high * 0x1_0000) % 0x1_0000 == low
  {
    ModUnique(low + high * 0x1_0000, 0x1_0000, high, low);
    ModUnique(low + high * 0x1_0000, 256, high * 256 + low / 256, low % 256);
  }

  /** Ids read from block versions that differ at all differ modulo 2^16. */
  lemma VersionIdsApart(v: i32, w: i32)
    requires ChainIdOf(v) != ChainIdOf(w)
    ensures ChainIdOf(v) % 0x1_0000 != ChainIdOf(w) % 0x1_0000
  {
  }

  // ---------- slots ----------

  function Ids(chains: seq<Chain>): (ids: seq<u32>)
    ensures |ids| == |chains|
  {
    seq(|chains|, i requires 0 <= i < |chains| => chains[i].0)
  }

  function Slots(chains: seq<Chain>, nonce: u32, height: nat): (slots: seq<nat>)
    requires height < 32
    ensures |slots| == |chains|
    ensures forall i :: 0 <= i < |slots| ==> slots[i] == ExpectedIndex(nonce, chains[i].0, height)
  {
    seq(|chains|, i requires 0 <= i < |chains| => ExpectedIndex(nonce, chains[i].0, height))
  }

  predicate Distinct<T(==)>(s: seq<T>) {
    forall i, j :: 0 <= i < j < |s| ==> s[i] != s[j]
  }

  /** No two ids agree modulo 2^height. */
  predicate Apart(ids: seq<u32>, height: nat) {
    forall i, j :: 0 <= i < j < |ids| ==> ids[i] % Pow2(height) != ids[j] % Pow2(height)
  }

  lemma DistinctSlotsIffApart(chains: seq<Chain>, nonce: u32, height: nat)
    requires height < 32
    ensures Distinct(Slots(chains, nonce, height)) <==> Apart(Ids(chains), height)
  {
    forall i, j | 0 <= i < j < |chains|
      ensures Slots(chains, nonce, height)[i] == Slots(chains, nonce, height)[j]
         <==> Ids(chains)[i] % Pow2(height) == Ids(chains)[j] % Pow2(height)
    {
      SlotsCollideIff(nonce, chains[i].0, chains[j].0, height);
    }
  }

  /** Pigeonhole: ids that are apart modulo 2^height number at most 2^height. */
  lemma ApartFits(ids: seq<u32>, height: nat)
    requires Apart(ids, height)
    ensures |ids| <= Pow2(height)
  {
    var m := Pow2(height);
    var residues := set i | 0 <= i < |ids| :: ids[i] % m;
    ResidueCount(ids, height, |ids|);
    assert residues <= Below(m);
    assert Below(m) == residues + (Below(m) - residues);
  }

  lemma {:induction false} ResidueCount(ids: seq<u32>, height: nat, n: nat)
    requires Apart(ids, height) && n <= |ids|
    ensures |set i | 0 <= i < n :: ids[i] % Pow2(height)| == n
  {
    hide Pow2;
    if n > 0 {
      ResidueCount(ids, height, n - 1);
      var front := set i | 0 <= i < n - 1 :: ids[i] % Pow2(height);
      assert ids[n - 1] % Pow2(height) !in front;
      assert (set i | 0 <= i < n :: ids[i] % Pow2(height)) == front + {ids[n - 1] % Pow2(height)};
    }
  }

  function Below(n: nat): (s: set<int>)
    ensures |s| == n
    ensures forall r :: r in s <==> 0 <= r < n
  {
    if n == 0 then {} else Below(n - 1) + {n - 1}
  }

  lemma {:induction false} ApartInWider(ids: seq<u32>, narrow: nat, wide: nat)
    requires narrow <= wide && Apart(ids, narrow)
    ensures Apart(ids, wide)
  {
    forall i, j | 0 <= i < j < |ids|
      ensures ids[i] % Pow2(wide) != ids[j] % Pow2(wide)
    {
      Pow2Add(wide - narrow, narrow);
      ResidueThrough(ids[i], Pow2(wide), Pow2(wide - narrow), Pow2(narrow));
      ResidueThrough(ids[j], Pow2(wide), Pow2(wide - narrow), Pow2(narrow));
    }
  }

  /** The least height from `height` up at which the ids are apart, if an aux node accepts one. */
  function LeastApart(ids: seq<u32>, height: nat): (r: Option<nat>)
    ensures r.Some? ==> r.value <= MAX_CHAIN_BRANCH_LEN
    decreases MAX_CHAIN_BRANCH_LEN + 1 - height
  {
    if height > MAX_CHAIN_BRANCH_LEN then None
    else if Apart(ids, height) then Some(height)
    else LeastApart(ids, height + 1)
  }

  lemma {:induction false} LeastApartIsLeast(ids: seq<u32>, height: nat)
    ensures var r := LeastApart(ids, height);
            && (r.Some? ==> Apart(ids, r.value) && forall g :: height <= g < r.value ==> !Apart(ids, g))
            && (r.None? ==> forall g :: height <= g <= MAX_CHAIN_BRANCH_LEN ==> !Apart(ids, g))
    decreases MAX_CHAIN_BRANCH_LEN + 1 - height
  {
    hide Apart;
    if height <= MAX_CHAIN_BRANCH_LEN && !Apart(ids, height) {
      LeastApartIsLeast(ids, height + 1);
    }
  }

  // ---------- the tree ----------

  /** What stands in slot `k` after the chains have been written in order. */
  function LeafAt(chains: seq<Chain>, slots: seq<nat>, k: nat): Hash256
    requires |slots| == |chains|
    decreases |chains|
  {
    if chains == [] then Zeros(32)
    else
      var n := |chains| - 1;
      if slots[n] == k then chains[n].1 else LeafAt(chains[..n], slots[..n], k)
  }

  function Leaves(chains: seq<Chain>, slots: seq<nat>, height: nat): (r: seq<Hash256>)
    requires |slots| == |chains|
    ensures |r| == Pow2(height)
    ensures forall k :: 0 <= k < |r| ==> r[k] == LeafAt(chains, slots, k)
  {
    seq(Pow2(height), k requires 0 <= k => LeafAt(chains, slots, k))
  }

  function TreeWith(h: Hashes, chains: seq<Chain>, nonce: u32, height: nat): Tree
    requires height <= MAX_CHAIN_BRANCH_LEN
  {
    SizeFits(height);
    var slots := Slots(chains, nonce, height);
    var leaves := Leaves(chains, slots, height);
    Tree(Merkle.Root(h, leaves), Pow2(height), nonce,
         seq(|chains|, i requires 0 <= i < |chains| => ChainProof(slots[i], Merkle.Branch(h, leaves, slots[i]))))
  }

  lemma SizeFits(height: nat)
    requires height <= MAX_CHAIN_BRANCH_LEN
    ensures Pow2(height) <= 0x4000_0000
  {
    Pow2Word();
    Pow2Monotone(height, 30);
  }

  function FirstDuplicate(ids: seq<u32>, from: nat): Option<u32>
    decreases |ids| - from
  {
    if from >= |ids| then None
    else if ids[from] in ids[..from] then Some(ids[from])
    else FirstDuplicate(ids, from + 1)
  }

  /** What building returns, with nothing left of the search: nonce 0 at the least height. */
  function BuildTree(h: Hashes, chains: seq<Chain>): Result<Tree, TreeError> {
    if chains == [] then Err(Empty)
    else match FirstDuplicate(Ids(chains), 0)
      case Some(id) => Err(DuplicateChain(id))
      case None =>
        match LeastApart(Ids(chains), 0)
        case None => Err(TooMany)
        case Some(height) => Ok(TreeWith(h, chains, 0, height))
  }

  lemma {:induction false} NoDuplicateIffDistinct(ids: seq<u32>, from: nat)
    requires from <= |ids| && Distinct(ids[..from])
    ensures FirstDuplicate(ids, from).None? <==> Distinct(ids)
    decreases |ids| - from
  {
    if from < |ids| {
      if ids[from] in ids[..from] {
        var k :| 0 <= k < from && ids[..from][k] == ids[from];
        assert ids[k] == ids[from];
      } else {
        assert ids[..from + 1] == ids[..from] + [ids[from]];
        NoDuplicateIffDistinct(ids, from + 1);
      }
    } else {
      assert ids[..from] == ids;
    }
  }

  /** Building succeeds exactly when there is a chain and some accepted height keeps the ids
      apart; the tree then has that height and nonce 0. */
  lemma BuildSucceedsIff(h: Hashes, chains: seq<Chain>)
    ensures BuildTree(h, chains).Ok? <==> chains != [] && Apart(Ids(chains), 30)
    ensures BuildTree(h, chains).Ok? ==>
      exists height :: IsLeastHeight(chains, height) && BuildTree(h, chains) == Ok(TreeWith(h, chains, 0, height))
  {
    var ids := Ids(chains);
    NoDuplicateIffDistinct(ids, 0);
    var least := LeastApart(ids, 0);
    LeastApartIsLeast(ids, 0);
    if least.Some? {
      ApartInWider(ids, least.value, MAX_CHAIN_BRANCH_LEN);
      assert Distinct(ids);
      assert IsLeastHeight(chains, least.value);
    }
  }

  /** The first id that stood before in the list. */
  ghost predicate FirstRepeated(ids: seq<u32>, id: u32) {
    exists i :: 0 <= i < |ids| && ids[i] == id && id in ids[..i] && Distinct(ids[..i])
  }

  /** And the error otherwise: no chain, the first repeated id, or no height. */
  lemma BuildFailsWith(h: Hashes, chains: seq<Chain>)
    ensures BuildTree(h, chains) == Err(Empty) <==> chains == []
    ensures forall id: u32 :: BuildTree(h, chains) == Err(DuplicateChain(id)) <==> FirstRepeated(Ids(chains), id)
    ensures BuildTree(h, chains) == Err(TooMany) <==>
              chains != [] && Distinct(Ids(chains)) && !Apart(Ids(chains), 30)
  {
    var ids := Ids(chains);
    BuildSucceedsIff(h, chains);
    NoDuplicateIffDistinct(ids, 0);
    RepeatedFound(ids);
    hide TreeWith, Apart, LeastApart, FirstRepeated, Distinct, FirstDuplicate;
  }

  lemma RepeatedFound(ids: seq<u32>)
    ensures forall id: u32 :: FirstDuplicate(ids, 0) == Some(id) <==> FirstRepeated(ids, id)
    ensures FirstDuplicate([], 0).None?
  {
    FirstTwice(ids, 0);
    hide FirstDuplicate;
  }

  /** Where the first duplicate stands: everything before it is distinct, and only there. */
  lemma {:induction false} FirstTwice(ids: seq<u32>, from: nat)
    requires from <= |ids| && Distinct(ids[..from])
    ensures forall id: u32 :: FirstDuplicate(ids, from) == Some(id) <==>
              exists i :: from <= i < |ids| && ids[i] == id && id in ids[..i] && Distinct(ids[..i])
    decreases |ids| - from
  {
    if from < |ids| {
      assert ids[..from + 1] == ids[..from] + [ids[from]];
      if ids[from] in ids[..from] {
        var k :| 0 <= k < from && ids[..from][k] == ids[from];
        forall i | from < i < |ids| ensures !Distinct(ids[..i]) {
          assert ids[..i][k] == ids[..i][from];
        }
      } else {
        FirstTwice(ids, from + 1);
      }
    }
  }

  predicate IsLeastHeight(chains: seq<Chain>, height: nat) {
    height <= MAX_CHAIN_BRANCH_LEN && Apart(Ids(chains), height)
    && forall g :: 0 <= g < height ==> !Apart(Ids(chains), g)
  }

  /** For chain ids read from block versions the search cannot fail unless two ids are equal, and
      the tree is at most 16 levels high. */
  lemma VersionIdsBuild(h: Hashes, chains: seq<Chain>, versions: seq<i32>)
    requires |versions| == |chains| > 0
    requires forall i :: 0 <= i < |chains| ==> chains[i].0 == ChainIdOf(versions[i])
    ensures BuildTree(h, chains).Ok? <==> Distinct(Ids(chains))
    ensures BuildTree(h, chains).Ok? ==> BuildTree(h, chains).value.size <= 0x1_0000
  {
    var ids := Ids(chains);
    NoDuplicateIffDistinct(ids, 0);
    if Distinct(ids) {
      Pow2Word();
      forall i, j | 0 <= i < j < |ids| ensures ids[i] % Pow2(16) != ids[j] % Pow2(16) {
        assert ids[i] == chains[i].0 && ids[j] == chains[j].0;
        VersionIdsApart(versions[i], versions[j]);
      }
      assert Apart(ids, 16);
      LeastApartIsLeast(ids, 0);
      var height := LeastApart(ids, 0).value;
      Pow2Monotone(height, 16);
    }
  }

  // ---------- what a built tree proves ----------

  lemma {:induction false} LeafInSlot(chains: seq<Chain>, slots: seq<nat>, i: nat)
    requires |slots| == |chains| && i < |chains| && Distinct(slots)
    ensures LeafAt(chains, slots, slots[i]) == chains[i].1
    decreases |chains|
  {
    var n := |chains| - 1;
    if i < n {
      LeafInSlot(chains[..n], slots[..n], i);
    }
  }

  /** Every chain sits in its expected slot and its block hash folds up to the committed root. */
  ghost predicate Proves(h: Hashes, tree: Tree, chains: seq<Chain>, height: nat) {
    && height <= MAX_CHAIN_BRANCH_LEN && tree.size == Pow2(height) && |tree.proofs| == |chains|
    && (forall i :: 0 <= i < |chains| ==> ProvesChain(h, tree, tree.proofs[i], chains[i], height))
    && (forall i, j :: 0 <= i < j < |chains| ==> tree.proofs[i].index != tree.proofs[j].index)
  }

  ghost predicate ProvesChain(h: Hashes, tree: Tree, proof: ChainProof, chain: Chain, height: nat)
    requires height <= MAX_CHAIN_BRANCH_LEN
  {
    && proof.index == ExpectedIndex(tree.nonce, chain.0, height)
    && |proof.branch| == height
    && Merkle.Fold(h, chain.1, proof.branch, proof.index) == tree.root
  }

  lemma TreeProves(h: Hashes, chains: seq<Chain>, nonce: u32, height: nat)
    requires height <= MAX_CHAIN_BRANCH_LEN && Apart(Ids(chains), height)
    ensures Proves(h, TreeWith(h, chains, nonce, height), chains, height)
  {
    SizeFits(height);
    DistinctSlotsIffApart(chains, nonce, height);
    var slots := Slots(chains, nonce, height);
    var leaves := Leaves(chains, slots, height);
    var tree := TreeWith(h, chains, nonce, height);
    forall i | 0 <= i < |chains| ensures ProvesChain(h, tree, tree.proofs[i], chains[i], height) {
      LeafInSlot(chains, slots, i);
      Merkle.BranchFoldsToRoot(h, leaves, slots[i]);
      Merkle.BranchLength(h, leaves, slots[i], height);
    }
  }

  lemma BuiltTreeProves(h: Hashes, chains: seq<Chain>)
    requires BuildTree(h, chains).Ok?
    ensures exists height :: Proves(h, BuildTree(h, chains).value, chains, height)
    ensures BuildTree(h, chains).value.nonce == 0
  {
    var height := LeastApart(Ids(chains), 0).value;
    LeastApartIsLeast(Ids(chains), 0);
    TreeProves(h, chains, 0, height);
  }

  /** The tree of a single chain, whatever its id: the block hash is the root. */
  lemma SingleChainTree(h: Hashes, chain: Chain)
    ensures BuildTree(h, [chain]) == Ok(Tree(chain.1, 1, 0, [ChainProof(0, [])]))
  {
    BuiltSingle(h, chain);
    hide TreeWith;
    BuildSucceedsIff(h, [chain]);
    assert Apart(Ids([chain]), 0) && Apart(Ids([chain]), MAX_CHAIN_BRANCH_LEN);
    var height :| IsLeastHeight([chain], height) && BuildTree(h, [chain]) == Ok(TreeWith(h, [chain], 0, height));
    assert height == 0;
  }

  lemma BuiltSingle(h: Hashes, chain: Chain)
    ensures TreeWith(h, [chain], 0, 0) == Tree(chain.1, 1, 0, [ChainProof(0, [])])
  {
    var slots := Slots([chain], 0, 0);
    assert slots == [0];
    var leaves := Leaves([chain], slots, 0);
    assert leaves[0] == LeafAt([chain], slots, 0) == chain.1;
    assert leaves == [chain.1];
  }

  // ---------- the loops ----------

  /** `(len as u32).next_power_of_two().trailing_zeros()`; past 2^31 the power wraps to 0. */
  function StartHeight(len: nat): nat {
    if len % WORD > 0x8000_0000 then 32 else CeilLog2(len % WORD)
  }

  function CeilLog2(n: nat): (k: nat)
    ensures forall g :: 0 <= g < k ==> Pow2(g) < n
    decreases n
  {
    if n <= 1 then 0
    else
      var k := 1 + CeilLog2((n + 1) / 2);
      assert forall g :: 0 <= g < k ==> Pow2(g) < n by {
        forall g | 0 <= g < k ensures Pow2(g) < n {
          if g > 0 { assert Pow2(g - 1) < (n + 1) / 2; }
        }
      }
      k
  }

  /** Starting above 0 skips only heights with too few slots for the chains. */
  lemma StartSkipsNothing(ids: seq<u32>, g: nat)
    requires g < StartHeight(|ids|) && g <= MAX_CHAIN_BRANCH_LEN
    ensures !Apart(ids, g)
  {
    if Apart(ids, g) {
      ApartFits(ids, g);
      SizeFits(g);
    }
  }

  lemma LeastFromStart(ids: seq<u32>)
    ensures LeastApart(ids, StartHeight(|ids|)) == LeastApart(ids, 0)
  {
    SkipTo(ids, 0);
  }

  lemma {:induction false} SkipTo(ids: seq<u32>, from: nat)
    requires from <= StartHeight(|ids|)
    ensures LeastApart(ids, StartHeight(|ids|)) == LeastApart(ids, from)
    decreases StartHeight(|ids|) - from
  {
    if from < StartHeight(|ids|) {
      SkipTo(ids, from + 1);
      if from <= MAX_CHAIN_BRANCH_LEN {
        StartSkipsNothing(ids, from);
      }
    }
  }

  method Build(h: Hashes, chains: seq<Chain>) returns (r: Result<Tree, TreeError>)
    ensures r == BuildTree(h, chains)
  {
    if chains == [] {
      return Err(Empty);
    }
    var dup := FindDuplicate(chains);
    if dup.Some? {
      return Err(DuplicateChain(dup.value));
    }
    LeastFromStart(Ids(chains));
    var tree := Search(h, chains, StartHeight(|chains|));
    return match tree case Some(t) => Ok(t) case None => Err(TooMany);
  }

  /** Widen the tree until some nonce separates the chains. */
  method Search(h: Hashes, chains: seq<Chain>, start: nat) returns (r: Option<Tree>)
    ensures r == match LeastApart(Ids(chains), start)
                 case None => None
                 case Some(height) => Some(TreeWith(h, chains, 0, height))
  {
    var height := start;
    while height <= MAX_CHAIN_BRANCH_LEN
      invariant LeastApart(Ids(chains), height) == LeastApart(Ids(chains), start)
    {
      r := TryNonces(h, chains, height);
      if r.Some? {
        return;
      }
      height := height + 1;
    }
    return None;
  }

  /** Try the nonces at one height: if the first does not separate the chains, none does. */
  method TryNonces(h: Hashes, chains: seq<Chain>, height: nat) returns (r: Option<Tree>)
    requires height <= MAX_CHAIN_BRANCH_LEN
    ensures r == if Apart(Ids(chains), height) then Some(TreeWith(h, chains, 0, height)) else None
  {
    var nonce := 0;
    while nonce < NONCES_TRIED
      invariant 0 <= nonce <= NONCES_TRIED
      invariant nonce > 0 ==> !Apart(Ids(chains), height)
    {
      DistinctSlotsIffApart(chains, nonce, height);
      var slots := Slots(chains, nonce, height);
      if Distinct(slots) {
        var tree := Assemble(h, chains, nonce, height);
        return Some(tree);
      }
      nonce := nonce + 1;
    }
    return None;
  }

  method FindDuplicate(chains: seq<Chain>) returns (dup: Option<u32>)
    ensures dup == FirstDuplicate(Ids(chains), 0)
  {
    var i := 0;
    while i < |chains|
      invariant 0 <= i <= |chains|
      invariant FirstDuplicate(Ids(chains), i) == FirstDuplicate(Ids(chains), 0)
    {
      if chains[i].0 in Ids(chains)[..i] {
        return Some(chains[i].0);
      }
      i := i + 1;
    }
    return None;
  }

  /** The root over the filled slots and every chain's branch. */
  method Assemble(h: Hashes, chains: seq<Chain>, nonce: u32, height: nat) returns (tree: Tree)
    requires height <= MAX_CHAIN_BRANCH_LEN
    ensures tree == TreeWith(h, chains, nonce, height)
  {
    hide Merkle.Branch, Merkle.Root, ExpectedIndex, LeafAt, Pow2;
    SizeFits(height);
    var slots := Slots(chains, nonce, height);
    var leaves := Fill(chains, slots, height);
    var proofs := ProveSlots(h, leaves, slots);
    var root := Merkle.MerkleRoot(h, leaves);
    tree := Tree(root, |leaves|, nonce, proofs);
    assert proofs == TreeWith(h, chains, nonce, height).proofs;
  }

  method ProveSlots(h: Hashes, leaves: seq<Hash256>, slots: seq<nat>) returns (proofs: seq<ChainProof>)
    requires |leaves| < WORD && forall i :: 0 <= i < |slots| ==> slots[i] < |leaves|
    ensures |proofs| == |slots|
    ensures forall i :: 0 <= i < |slots| ==> proofs[i] == ChainProof(slots[i], Merkle.Branch(h, leaves, slots[i]))
  {
    hide Merkle.Branch;
    proofs := [];
    var j := 0;
    while j < |slots|
      invariant 0 <= j <= |slots| && |proofs| == j
      invariant forall i :: 0 <= i < j ==> proofs[i] == ChainProof(slots[i], Merkle.Branch(h, leaves, slots[i]))
    {
      var branch := Merkle.BranchAt(h, leaves, slots[j]);
      proofs := proofs + [ChainProof(slots[j], branch)];
      j := j + 1;
    }
  }

  method Fill(chains: seq<Chain>, slots: seq<nat>, height: nat) returns (filled: seq<Hash256>)
    requires |slots| == |chains| && forall i :: 0 <= i < |slots| ==> slots[i] < Pow2(height)
    ensures filled == Leaves(chains, slots, height)
  {
    var leaves := new Hash256[Pow2(height)](_ => Zeros(32));
    var i := 0;
    while i < |chains|
      invariant 0 <= i <= |chains|
      invariant forall k :: 0 <= k < leaves.Length ==> leaves[k] == LeafAt(chains[..i], slots[..i], k)
    {
      assert chains[..i + 1][..i] == chains[..i] && slots[..i + 1][..i] == slots[..i];
      leaves[slots[i]] := chains[i].1;
      i := i + 1;
    }
    assert chains[..i] == chains && slots[..i] == slots;
    filled := leaves[..];
  }

  // ---------- the commitment ----------

  /** magic, root in display order, size, nonce. */
  function Commitment(tree: Tree): (r: seq<byte>)
    ensures |r| == COMMITMENT_LEN
  {
    MERGED_MINING_MAGIC + Reverse(tree.root) + ToLE(tree.size, 4) + ToLE(tree.nonce, 4)
  }

  method WriteCommitment(tree: Tree) returns (out: array<byte>)
    ensures fresh(out) && out[..] == Commitment(tree)
  {
    hide ToLE, Reverse;
    out := new byte[COMMITMENT_LEN](_ => 0);
    assert out[..0] == [];
    CopyInto(out, 0, MERGED_MINING_MAGIC);
    CopyInto(out, 4, Reverse(tree.root));
    CopyInto(out, 36, ToLE(tree.size, 4));
    CopyInto(out, 40, ToLE(tree.nonce, 4));
    assert out[..] == out[..COMMITMENT_LEN];
  }

  /** Two trees with the same commitment agree on root, size and nonce. */
  lemma CommitmentInjective(s: Tree, t: Tree)
    requires Commitment(s) == Commitment(t)
    ensures s.root == t.root && s.size == t.size && s.nonce == t.nonce
  {
    var c, d := Commitment(s), Commitment(t);
    assert Reverse(s.root) == c[4..36] && Reverse(t.root) == d[4..36];
    assert ToLE(s.size, 4) == c[36..40] && ToLE(t.size, 4) == d[36..40];
    assert ToLE(s.nonce, 4) == c[40..44] && ToLE(t.nonce, 4) == d[40..44];
    ReverseTwice(s.root);
    ReverseTwice(t.root);
    LE32RoundTrip(s.size);
    LE32RoundTrip(t.size);
    LE32RoundTrip(s.nonce);
    LE32RoundTrip(t.nonce);
  }
}
