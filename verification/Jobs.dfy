/** Per-session jobs: the aux blocks a session's parent coinbase commits to. */
module Jobs {
  import opened Bytes
  import opened Wrappers
  import opened Header
  import opened AuxTree
  import opened Work
  import opened Coinbase

  const EXTRANONCE1_LEN := 4
  const EXTRANONCE2_LEN := 4

  datatype Payout = Payout(address: string, script: Vec, fallback: bool)

  datatype AuxPayout = AuxPayout(coin: string, payout: Payout)

  datatype Payouts = Payouts(parent: Payout, aux: seq<AuxPayout>)

  datatype AuxJob = AuxJob(
    work: WorkTemplate, address: string, coinbase: seq<byte>, header: BlockHeader, hash: Hash256,
    chainIndex: u32, chainBranch: HashVec, stale: bool)

  /** `seen` holds (extranonce2, ntime, nonce). */
  datatype SessionJob = SessionJob(
    id: nat, work: WorkTemplate, coinbase: CoinbaseParts, aux: seq<AuxJob>, difficulty: real,
    target: nat, stale: bool, seen: set<(u32, u32, u32)>)

  // ---------- aux blocks ----------

  function FindPayout(payouts: seq<AuxPayout>, coin: string): Option<Payout> {
    if payouts == [] then None
    else if payouts[0].coin == coin then Some(payouts[0].payout)
    else FindPayout(payouts[1..], coin)
  }

  /** The aux block before it has a slot. */
  function Draft(h: Hashes, template: WorkTemplate, p: Payout): Result<AuxJob, CoinbaseError> {
    match BuildParts(template, p.script, [], 0)
    case Err(e) => Err(e)
    case Ok(parts) =>
      var coinbase := Serialize(parts, []);
      var header := BlockHeader(template.version, template.prevHash, template.MerkleRoot(h, h.sha256d(coinbase)),
                                template.curTime, template.bits, 0);
      Ok(AuxJob(template, p.address, coinbase, header, BlockHash(h, header), 0, [], false))
  }

  /** A draft for every template the session has a payout for; the first failure ends it. */
  function Drafts(h: Hashes, templates: seq<WorkTemplate>, payouts: seq<AuxPayout>)
    : Result<seq<AuxJob>, CoinbaseError>
  {
    if templates == [] then Ok([])
    else match FindPayout(payouts, templates[0].coin)
      case None => Drafts(h, templates[1..], payouts)
      case Some(p) =>
        match Draft(h, templates[0], p)
        case Err(e) => Err(e)
        case Ok(job) =>
          match Drafts(h, templates[1..], payouts)
          case Err(e) => Err(e)
          case Ok(rest) => Ok([job] + rest)
  }

  function ChainsOf(aux: seq<AuxJob>): (chains: seq<Chain>)
    ensures |chains| == |aux|
    ensures forall i :: 0 <= i < |aux| ==> chains[i] == (ChainIdOf(aux[i].work.version), aux[i].hash)
  {
    seq(|aux|, i requires 0 <= i < |aux| => (ChainIdOf(aux[i].work.version), aux[i].hash))
  }

  /** The drafts with their slots and branches filled in. */
  function Placed(aux: seq<AuxJob>, proofs: seq<ChainProof>): (r: seq<AuxJob>)
    requires |proofs| == |aux| && forall i :: 0 <= i < |proofs| ==> |proofs[i].branch| <= MAX_CHAIN_BRANCH_LEN
    ensures |r| == |aux|
    ensures forall i :: 0 <= i < |aux| ==>
        r[i] == aux[i].(chainIndex := proofs[i].index, chainBranch := proofs[i].branch)
  {
    seq(|aux|, i requires 0 <= i < |aux| => aux[i].(chainIndex := proofs[i].index, chainBranch := proofs[i].branch))
  }

  /** Panicked is the `expect` on the aux tree. */
  datatype AuxBuild = Built(aux: seq<AuxJob>, commitment: seq<byte>) | Failed(error: CoinbaseError) | Panicked

  function BuildAux(h: Hashes, work: MergedWork, payouts: Payouts): AuxBuild {
    match Drafts(h, work.aux, payouts.aux)
    case Err(e) => Failed(e)
    case Ok(drafts) =>
      if drafts == [] then Built([], [])
      else
        match BuildTree(h, ChainsOf(drafts))
        case Err(_) => Panicked
        case Ok(tree) =>
          TreeShape(h, ChainsOf(drafts));
          Built(Placed(drafts, tree.proofs), Commitment(tree))
  }

  lemma TreeShape(h: Hashes, chains: seq<Chain>)
    requires BuildTree(h, chains).Ok?
    ensures var proofs := BuildTree(h, chains).value.proofs;
            |proofs| == |chains| && forall i :: 0 <= i < |proofs| ==> |proofs[i].branch| <= MAX_CHAIN_BRANCH_LEN
  {
    hide BuildTree;
    BuiltTreeProves(h, chains);
  }

  // ---------- when building panics ----------

  predicate Paid(t: WorkTemplate, payouts: seq<AuxPayout>) {
    FindPayout(payouts, t.coin).Some?
  }

  /** The template's coinbase can be built, if the session has a payout for it at all. */
  predicate Fits(t: WorkTemplate, payouts: seq<AuxPayout>) {
    Paid(t, payouts) ==>
      FindPayout(payouts, t.coin).value.script != [] && ScriptLen(t, [], 0) <= MAX_COINBASE_SCRIPT_LEN
  }

  predicate AllFit(templates: seq<WorkTemplate>, payouts: seq<AuxPayout>) {
    forall i :: 0 <= i < |templates| ==> Fits(templates[i], payouts)
  }

  /** Chain ids of the templates a session has a payout for. */
  function PaidIds(templates: seq<WorkTemplate>, payouts: seq<AuxPayout>): seq<u32> {
    if templates == [] then []
    else
      var rest := PaidIds(templates[1..], payouts);
      if Paid(templates[0], payouts) then [ChainIdOf(templates[0].version)] + rest else [] + rest
  }

  lemma {:induction false} DraftsPaid(h: Hashes, templates: seq<WorkTemplate>, payouts: seq<AuxPayout>)
    ensures Drafts(h, templates, payouts).Ok? <==> AllFit(templates, payouts)
    ensures Drafts(h, templates, payouts).Ok? ==>
              Ids(ChainsOf(Drafts(h, templates, payouts).value)) == PaidIds(templates, payouts)
  {
    hide Parts, Serialize, WorkTemplate.MerkleRoot;
    if templates == [] {
      assert Ids(ChainsOf([])) == [];
    } else {
      DraftsPaid(h, templates[1..], payouts);
      assert AllFit(templates, payouts) <==> Fits(templates[0], payouts) && AllFit(templates[1..], payouts) by {
        assert forall i :: 0 < i < |templates| ==> templates[i] == templates[1..][i - 1];
      }
      if AllFit(templates, payouts) {
        DraftedIds(h, templates, payouts);
      }
    }
  }

  lemma DraftedIds(h: Hashes, templates: seq<WorkTemplate>, payouts: seq<AuxPayout>)
    requires templates != [] && Fits(templates[0], payouts) && Drafts(h, templates[1..], payouts).Ok?
    requires Ids(ChainsOf(Drafts(h, templates[1..], payouts).value)) == PaidIds(templates[1..], payouts)
    ensures Drafts(h, templates, payouts).Ok?
    ensures Ids(ChainsOf(Drafts(h, templates, payouts).value)) == PaidIds(templates, payouts)
  {
    hide Parts, Serialize, WorkTemplate.MerkleRoot;
    var rest := Drafts(h, templates[1..], payouts).value;
    if Paid(templates[0], payouts) {
      var job := Draft(h, templates[0], FindPayout(payouts, templates[0].coin).value).value;
      assert Ids(ChainsOf([job] + rest)) == [ChainIdOf(job.work.version)] + Ids(ChainsOf(rest));
    }
  }

  /** Two templates of the work, both paid, carry one chain id. */
  predicate Twins(templates: seq<WorkTemplate>, payouts: seq<AuxPayout>) {
    exists i, j :: 0 <= i < j < |templates| && AreTwins(templates[i], templates[j], payouts)
  }

  predicate AreTwins(t: WorkTemplate, u: WorkTemplate, payouts: seq<AuxPayout>) {
    Paid(t, payouts) && Paid(u, payouts) && ChainIdOf(t.version) == ChainIdOf(u.version)
  }

  lemma {:induction false} PaidIdsAre(templates: seq<WorkTemplate>, payouts: seq<AuxPayout>, id: u32)
    ensures id in PaidIds(templates, payouts)
       <==> exists i :: 0 <= i < |templates| && Paid(templates[i], payouts) && ChainIdOf(templates[i].version) == id
  {
    if templates != [] {
      PaidIdsAre(templates[1..], payouts, id);
      assert forall i :: 0 < i < |templates| ==> templates[i] == templates[1..][i - 1];
      assert forall i :: 0 <= i < |templates| - 1 ==> templates[1..][i] == templates[i + 1];
    }
  }

  lemma {:induction false} TwinsIff(templates: seq<WorkTemplate>, payouts: seq<AuxPayout>)
    ensures Distinct(PaidIds(templates, payouts)) <==> !Twins(templates, payouts)
  {
    if templates != [] {
      var t, rest := templates[0], templates[1..];
      TwinsIff(rest, payouts);
      TwinsFront(templates, payouts);
      PaidIdsAre(rest, payouts, ChainIdOf(t.version));
      DistinctFront(ChainIdOf(t.version), PaidIds(rest, payouts));
      assert [] + PaidIds(rest, payouts) == PaidIds(rest, payouts);
    }
  }

  lemma TwinsFront(templates: seq<WorkTemplate>, payouts: seq<AuxPayout>)
    requires templates != []
    ensures Twins(templates, payouts)
       <==> Twins(templates[1..], payouts)
            || exists j :: 0 <= j < |templates| - 1 && AreTwins(templates[0], templates[1..][j], payouts)
  {
    hide AreTwins;
    var rest := templates[1..];
    assert forall i :: 0 <= i < |rest| ==> rest[i] == templates[i + 1];
    if Twins(templates, payouts) {
      var i, j :| 0 <= i < j < |templates| && AreTwins(templates[i], templates[j], payouts);
      assert rest[j - 1] == templates[j];
      assert i > 0 ==> rest[i - 1] == templates[i];
    }
  }

  lemma DistinctFront(x: u32, rest: seq<u32>)
    ensures Distinct([x] + rest) <==> x !in rest && Distinct(rest)
  {
    var all := [x] + rest;
    assert forall i :: 0 <= i < |rest| ==> all[i + 1] == rest[i];
    if Distinct(all) {
      forall i, j | 0 <= i < j < |rest| ensures rest[i] != rest[j] {
        assert all[i + 1] != all[j + 1];
      }
      forall i | 0 <= i < |rest| ensures rest[i] != x {
        assert all[0] != all[i + 1];
      }
    }
  }

  /** Building the aux blocks panics exactly when every coinbase can be built and two templates the
      session has a payout for carry the same chain id. */
  lemma BuildPanicsIff(h: Hashes, work: MergedWork, payouts: Payouts)
    ensures BuildAux(h, work, payouts).Panicked? <==> AllFit(work.aux, payouts.aux) && Twins(work.aux, payouts.aux)
  {
    hide BuildTree, Commitment, Drafts, AllFit, Twins, PaidIds;
    DraftsPaid(h, work.aux, payouts.aux);
    TwinsIff(work.aux, payouts.aux);
    var drafts := Drafts(h, work.aux, payouts.aux);
    if drafts.Ok? && drafts.value != [] {
      var aux := drafts.value;
      VersionIdsBuild(h, ChainsOf(aux), seq(|aux|, i requires 0 <= i < |aux| => aux[i].work.version));
    }
  }

  // ---------- the loops ----------

  method BuildAuxJobs(h: Hashes, work: MergedWork, payouts: Payouts) returns (r: AuxBuild)
    ensures r == BuildAux(h, work, payouts)
  {
    hide BuildTree, Commitment;
    var drafts := DraftAll(h, work.aux, payouts.aux);
    if drafts.Err? {
      return Failed(drafts.error);
    }
    var aux := drafts.value;
    if aux == [] {
      return Built([], []);
    }
    var tree := AuxTree.Build(h, ChainsOf(aux));
    if tree.Err? {
      return Panicked;
    }
    TreeShape(h, ChainsOf(aux));
    var commitment := WriteCommitment(tree.value);
    var placed := PlaceAll(aux, tree.value.proofs);
    return Built(placed, commitment[..]);
  }

  method DraftAll(h: Hashes, templates: seq<WorkTemplate>, payouts: seq<AuxPayout>)
    returns (r: Result<seq<AuxJob>, CoinbaseError>)
    ensures r == Drafts(h, templates, payouts)
  {
    hide Draft, FindPayout;
    var aux := [];
    var i := 0;
    Joining([], Drafts(h, templates, payouts));
    while i < |templates|
      invariant 0 <= i <= |templates|
      invariant Drafts(h, templates, payouts) == Joined(aux, Drafts(h, templates[i..], payouts))
    {
      var template := templates[i];
      var rest := Drafts(h, templates[i + 1..], payouts);
      assert templates[i..][1..] == templates[i + 1..];
      var p := FindPayout(payouts, template.coin);
      if p.Some? {
        var job := Draft(h, template, p.value);
        if job.Err? {
          return Err(job.error);
        }
        Joining(aux + [job.value], rest);
        assert rest.Ok? ==> aux + ([job.value] + rest.value) == (aux + [job.value]) + rest.value;
        aux := aux + [job.value];
      }
      i := i + 1;
    }
    assert aux + [] == aux;
    return Ok(aux);
  }

  function Joined(front: seq<AuxJob>, r: Result<seq<AuxJob>, CoinbaseError>): Result<seq<AuxJob>, CoinbaseError> {
    match r case Err(e) => Err(e) case Ok(rest) => Ok(front + rest)
  }

  lemma Joining(front: seq<AuxJob>, r: Result<seq<AuxJob>, CoinbaseError>)
    ensures front == [] ==> Joined(front, r) == r
  {
    if r.Ok? {
      assert [] + r.value == r.value;
    }
  }

  method PlaceAll(aux: seq<AuxJob>, proofs: seq<ChainProof>) returns (r: seq<AuxJob>)
    requires |proofs| == |aux| && forall i :: 0 <= i < |proofs| ==> |proofs[i].branch| <= MAX_CHAIN_BRANCH_LEN
    ensures r == Placed(aux, proofs)
  {
    r := aux;
    var i := 0;
    while i < |r|
      invariant 0 <= i <= |r| == |aux|
      invariant forall j :: 0 <= j < i ==> r[j] == Placed(aux, proofs)[j]
      invariant forall j :: i <= j < |r| ==> r[j] == aux[j]
    {
      r := r[i := r[i].(chainIndex := proofs[i].index, chainBranch := proofs[i].branch)];
      i := i + 1;
    }
  }

  // ---------- what a placed aux job is ----------

  /** Built from a template of the work and the first payout for its coin. */
  ghost predicate AuxSound(h: Hashes, aux: AuxJob, work: MergedWork, payouts: Payouts) {
    && aux.work in work.aux
    && FindPayout(payouts.aux, aux.work.coin).Some?
    && var p := FindPayout(payouts.aux, aux.work.coin).value;
    && aux.address == p.address
    && p.script != [] && ScriptLen(aux.work, [], 0) <= MAX_COINBASE_SCRIPT_LEN
    && aux.coinbase == Serialize(Parts(aux.work, p.script, [], 0), [])
    && aux.header == BlockHeader(aux.work.version, aux.work.prevHash, aux.work.MerkleRoot(h, h.sha256d(aux.coinbase)),
                                 aux.work.curTime, aux.work.bits, 0)
    && aux.hash == BlockHash(h, aux.header)
  }

  lemma {:induction false} DraftsSound(h: Hashes, templates: seq<WorkTemplate>, work: MergedWork, payouts: Payouts)
    requires forall t :: t in templates ==> t in work.aux
    requires Drafts(h, templates, payouts.aux).Ok?
    ensures var drafts := Drafts(h, templates, payouts.aux).value;
            forall i :: 0 <= i < |drafts| ==> AuxSound(h, drafts[i], work, payouts) && !drafts[i].stale
  {
    hide Serialize, Parts;
    if templates != [] {
      DraftsSound(h, templates[1..], work, payouts);
    }
  }

  /** One tree stands behind the commitment, and every aux job proves itself against it. */
  lemma BuiltAuxSound(h: Hashes, work: MergedWork, payouts: Payouts)
    requires BuildAux(h, work, payouts).Built? && BuildAux(h, work, payouts).aux != []
    ensures var b := BuildAux(h, work, payouts);
            && (forall i :: 0 <= i < |b.aux| ==> AuxSound(h, b.aux[i], work, payouts) && !b.aux[i].stale)
            && exists tree, height :: ProvenBy(h, b.aux, tree, height) && b.commitment == Commitment(tree)
  {
    hide BuildTree, Commitment, AuxSound;
    DraftsSound(h, work.aux, work, payouts);
    var drafts := Drafts(h, work.aux, payouts.aux).value;
    var chains := ChainsOf(drafts);
    BuiltTreeProves(h, chains);
    var tree := BuildTree(h, chains).value;
    var height :| Proves(h, tree, chains, height);
    TreeShape(h, chains);
    var placed := Placed(drafts, tree.proofs);
    forall i | 0 <= i < |placed| ensures AuxSound(h, placed[i], work, payouts) {
      PlacingKeepsSound(h, drafts[i], tree.proofs[i].index, tree.proofs[i].branch, work, payouts);
    }
    assert ProvenBy(h, placed, tree, height);
  }

  lemma PlacingKeepsSound(h: Hashes, aux: AuxJob, index: u32, branch: HashVec, work: MergedWork, payouts: Payouts)
    requires AuxSound(h, aux, work, payouts)
    ensures AuxSound(h, aux.(chainIndex := index, chainBranch := branch), work, payouts)
  {
  }

  ghost predicate ProvenBy(h: Hashes, aux: seq<AuxJob>, tree: Tree, height: nat) {
    && height <= MAX_CHAIN_BRANCH_LEN && tree.size == Pow2(height) && tree.nonce == 0
    && forall i :: 0 <= i < |aux| ==>
         ProvesChain(h, tree, ChainProof(aux[i].chainIndex, aux[i].chainBranch),
                     (ChainIdOf(aux[i].work.version), aux[i].hash), height)
  }

  /** A job as `send_job` makes it from some work and payouts; only stale flags and seen shares
      change afterwards. */
  ghost predicate MadeFrom(h: Hashes, job: SessionJob, work: MergedWork, payouts: Payouts) {
    && job.work == work.parent
    && BuildAux(h, work, payouts).Built?
    && var b := BuildAux(h, work, payouts);
    && |job.aux| == |b.aux|
    && (forall i :: 0 <= i < |b.aux| ==> job.aux[i].(stale := false) == b.aux[i])
    && BuildParts(work.parent, payouts.parent.script, b.commitment, EXTRANONCE1_LEN + EXTRANONCE2_LEN)
       == Ok(job.coinbase)
  }

  /** Every template's branch belongs to its transactions. */
  ghost predicate WorkSound(h: Hashes, work: MergedWork) {
    work.parent.HasBranch(h) && forall t :: t in work.aux ==> t.HasBranch(h)
  }
}
