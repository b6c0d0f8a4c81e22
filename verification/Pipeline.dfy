/** The pool end to end: nodes' templates, merged work, sessions, blocks, and the books. */
module Pipeline {
  import opened Bytes
  import opened Wrappers
  import opened Work
  import opened Jobs
  import opened Validate
  import opened Candidates
  import opened Session
  import opened SessionRuns
  import opened SessionSafety
  import opened TagBudget
  import opened AuxCheck
  import AuxPow
  import BlockTheorems
  import Coinbase
  import Encode
  import Header
  import Merkle
  import Target
  import Transaction
  import Events
  import TemplateStream
  import MergedStream
  import Rounds
  import Publisher

  /** A template some run of a source published, for a height and a tag. */
  ghost predicate Streamed(h: Hashes, w: WorkTemplate, height: u64, tag: TemplateStream.Tag) {
    exists t, polls: seq<TemplateStream.Poll>, i: nat ::
      && i < |polls| && polls[i].template.Some? && TemplateStream.FetchedAt(h, t, polls, i) == TemplateStream.New(w)
      && polls[i].template.value.height == height && polls[i].tag == tag
  }

  ghost predicate Published(h: Hashes, w: WorkTemplate) {
    exists height, tag :: Streamed(h, w, height, tag)
  }

  ghost predicate RoundPublished(h: Hashes, r: MergedStream.Round) {
    && (r.parent.Some? ==> Published(h, r.parent.value))
    && forall k :: 0 <= k < |r.aux| && r.aux[k].Some? ==> Published(h, r.aux[k].value)
  }

  /** Work the merger published from what sources published. */
  ghost predicate MergedWorkOf(h: Hashes, work: MergedWork) {
    exists rounds: seq<MergedStream.Round> ::
      && (forall m :: 0 <= m < |rounds| ==> RoundPublished(h, rounds[m]))
      && MergedStream.AfterRounds(rounds).published == Some(work)
  }

  lemma StreamedHasBranch(h: Hashes, w: WorkTemplate, height: u64, tag: TemplateStream.Tag)
    requires Streamed(h, w, height, tag)
    ensures w.HasBranch(h) && w.prefix == Prefix(height, tag) && w.height == height
  {
    hide TemplateStream.FetchedAt, Prefix;
    var t, polls: seq<TemplateStream.Poll>, i: nat :|
      && i < |polls| && polls[i].template.Some? && TemplateStream.FetchedAt(h, t, polls, i) == TemplateStream.New(w)
      && polls[i].template.value.height == height && polls[i].tag == tag;
    TemplateStream.PublishedIsConverted(h, t, polls, i);
  }

  lemma PublishedHasBranch(h: Hashes, w: WorkTemplate)
    requires Published(h, w)
    ensures w.HasBranch(h)
  {
    hide Streamed;
    var height, tag :| Streamed(h, w, height, tag);
    StreamedHasBranch(h, w, height, tag);
  }

  /** Every template of merged work was published by a source. */
  lemma MergedPublished(h: Hashes, work: MergedWork)
    requires MergedWorkOf(h, work)
    ensures Published(h, work.parent) && forall t :: t in work.aux ==> Published(h, t)
  {
    hide Published, MergedStream.AfterRounds;
    var rounds: seq<MergedStream.Round> :|
      && (forall m :: 0 <= m < |rounds| ==> RoundPublished(h, rounds[m]))
      && MergedStream.AfterRounds(rounds).published == Some(work);
    assert rounds[..|rounds|] == rounds;
    var m := MergedStream.MergedFrom(rounds, |rounds|);
    assert RoundPublished(h, rounds[m]);
    forall t | t in work.aux ensures Published(h, t) {
      assert Some(t) in rounds[m].aux;
    }
  }

  lemma MergedSound(h: Hashes, work: MergedWork)
    requires MergedWorkOf(h, work)
    ensures WorkSound(h, work)
  {
    hide Published;
    MergedPublished(h, work);
    PublishedHasBranch(h, work.parent);
    forall t | t in work.aux ensures t.HasBranch(h) {
      PublishedHasBranch(h, t);
    }
  }

  /** The coinbase in the block's body opens with the push of the height, as BIP34 demands. */
  ghost predicate StatesHeight(block: seq<byte>, pos: nat, work: WorkTemplate, height: u64) {
    var script := BlockTheorems.BodyScript(block, pos, work);
    && script.Some? && At(script.value, 0, Encode.PushScriptNum(AsI64(height)))
    && (height < 0x8000_0000_0000_0000 ==> Encode.ReadScriptNum(script.value, 0) == Some(height))
  }

  /** Where an aux block's body begins: behind header and proof. */
  function AuxBodyAt(block: seq<byte>): nat {
    if |block| < Header.LEN then 0
    else match AuxPow.Decode(block[Header.LEN..]) case None => 0 case Some(p) => Header.LEN + p.len
  }

  lemma BodyStatesHeight(h: Hashes, block: seq<byte>, pos: nat, work: WorkTemplate, script: Vec,
      item: Option<seq<byte>>)
    requires BlockTheorems.BodyAgrees(h, block, pos, work, script, item) && Published(h, work)
    ensures StatesHeight(block, pos, work, work.height)
  {
    hide Streamed, Prefix, Transaction.ReadTx, Encode.ReadVarint, TxData,
         Merkle.Root, Header.ReadHeader, Transaction.PlainBytes, Coinbase.Outputs, AsI64;
    var height: u64, tag: TemplateStream.Tag :| Streamed(h, work, height, tag);
    StreamedHasBranch(h, work, height, tag);
    HeightStated(BlockTheorems.BodyScript(block, pos, work).value, height, tag);
  }

  /** A good block's coinbase states the block's height. */
  lemma ParentStatesHeight(h: Hashes, c: BlockCandidate, work: MergedWork, script: Vec, address: string,
      share: Solved)
    requires GoodParent(h, c, work, script, address, share) && MergedWorkOf(h, work)
    ensures StatesHeight(c.block, Header.LEN, work.parent, c.height)
  {
    MergedPublished(h, work);
    hide StatesHeight, Published, BlockTheorems.BodyAgrees, BlockTheorems.BodyScript, Heads, HeaderOf, MergedWorkOf,
         WorkWithin, Target.FromCompact, BlockTheorems.EndsWith;
    BodyStatesHeight(h, c.block, Header.LEN, work.parent, script,
                     if work.parent.witnessCommitment.Some? then Some(Zeros(32)) else None);
  }

  lemma AuxStatesHeight(h: Hashes, c: BlockCandidate, work: MergedWork, script: Vec, address: string,
      aux: AuxJob, share: Solved)
    requires GoodAux(h, c, work, script, address, aux, share) && MergedWorkOf(h, work)
    ensures StatesHeight(c.block, AuxBodyAt(c.block), aux.work, c.height)
  {
    hide *;
    MergedPublished(h, work);
    AuxHasBody(h, c, work, script, address, aux, share);
    BodyStatesHeight(h, c.block, AuxBodyAt(c.block), aux.work, script, None);
  }

  lemma AuxHasBody(h: Hashes, c: BlockCandidate, work: MergedWork, script: Vec, address: string, aux: AuxJob,
      share: Solved)
    requires GoodAux(h, c, work, script, address, aux, share)
    ensures aux.work in work.aux && c.height == aux.work.height
    ensures BlockTheorems.BodyAgrees(h, c.block, AuxBodyAt(c.block), aux.work, script, None)
  {
    hide BlockTheorems.BodyAgrees, BlockTheorems.BodyScript, HeaderOf, Reverse, AuxPow.Decode, Accepts, MagicOf,
         FindMagic, ProofOfShare, Target.FromCompact, FromLE, Target.DIFF1;
  }

  /** A session fed by the merger. */
  ghost predicate Fed(env: Env, ins: seq<Input>) {
    forall i :: 0 <= i < |ins| && ins[i].OnWork? ==> MergedWorkOf(env.h, ins[i].work)
  }

  /** End to end: whatever the nodes answer, whatever miners send and whenever, every block candidate
      is good for its chain and states its height as BIP34 demands. A parent block pays the script of the
      username of the session's first successful authorize, an aux block that of its password, read from
      the block's own bytes. It was made from templates of the sources, namely the work in force at step
      `k`, which sent the very job the share was accepted for; and its tip was current in all work the
      session has had since that step. */
  lemma EveryBlockGood(env: Env, ins: seq<Input>, j: nat, c: BlockCandidate) returns (a: nat, k: nat, work: MergedWork)
    requires env.cfg.Valid() && Fed(env, ins) && j < |ins| && c in Effect(env, ins, j).blocks
    ensures a < j && FirstAuthorize(env, ins, a) && k < j
    ensures Effect(env, ins, k).notified.Some? && Effect(env, ins, j).accepted.Some?
            && Effect(env, ins, k).notified.value.0 == Effect(env, ins, j).accepted.value.0
    ensures Got(ins, 0, j, work) && Before(env, ins, k + 1).work == Some(work) && MergedWorkOf(env.h, work)
    ensures ins[j].SubmitShare? && Before(env, ins, j).payout.Some? && Before(env, ins, k + 1).payout.Some?
    ensures var share := Solved(env.extranonce1, ins[j].submit, ins[j].nowUnix);
            var p := Before(env, ins, k + 1).payout.value;
            || (&& GoodParent(env.h, c, work, env.payouts.parent(ins[a].username).script,
                              Before(env, ins, j).payout.value.parent.address, share)
                && StatesHeight(c.block, Header.LEN, work.parent, c.height))
            || exists aux, t ::
                 && PaysPassword(env, c, work, ins[a].password, p, aux, t, share)
                 && !TipGone(ins, k + 1, j, aux)
                 && StatesHeight(c.block, AuxBodyAt(c.block), aux.work, c.height)
    ensures !GotClean(ins, k + 1, j)
  {
    hide *;
    FedSound(env, ins, j);
    a, k, work := BlocksPayFirstAuthorize(env, ins, j, c);
    GotMerged(env, ins, j, work);
    var share := Solved(env.extranonce1, ins[j].submit, ins[j].nowUnix);
    var script, address := env.payouts.parent(ins[a].username).script, Before(env, ins, j).payout.value.parent.address;
    if GoodParent(env.h, c, work, script, address, share) {
      ParentStatesHeight(env.h, c, work, script, address, share);
    } else {
      var p := Before(env, ins, k + 1).payout.value;
      var aux, t :| PaysPassword(env, c, work, ins[a].password, p, aux, t, share) && !TipGone(ins, k + 1, j, aux);
      PaidAuxHeight(env, c, work, ins[a].password, p, aux, t, share);
    }
  }

  lemma PaidAuxHeight(
    env: Env, c: BlockCandidate, work: MergedWork, password: string, p: Payouts, aux: AuxJob, t: nat, share: Solved)
    requires PaysPassword(env, c, work, password, p, aux, t, share) && MergedWorkOf(env.h, work)
    ensures StatesHeight(c.block, AuxBodyAt(c.block), aux.work, c.height)
  {
    hide GoodAux, MergedWorkOf, StatesHeight;
    AuxStatesHeight(env.h, c, work, env.payouts.aux[t].resolve(password).script, p.aux[t].payout.address, aux, share);
  }

  lemma GotMerged(env: Env, ins: seq<Input>, j: nat, work: MergedWork)
    requires Fed(env, ins) && Got(ins, 0, j, work)
    ensures MergedWorkOf(env.h, work)
  {
    hide MergedWorkOf;
  }

  lemma FedSound(env: Env, ins: seq<Input>, j: nat)
    requires Fed(env, ins) && j <= |ins|
    ensures forall m :: 0 <= m < j && ins[m].OnWork? ==> WorkSound(env.h, ins[m].work)
  {
    hide WorkSound, MergedWorkOf;
    forall m | 0 <= m < j && ins[m].OnWork? ensures WorkSound(env.h, ins[m].work) {
      MergedSound(env.h, ins[m].work);
    }
  }

  /** The commitment's magic is the first in the coinbase of every aux block, so that a node that
      searches finds it, at every height below 2^31 but one. */
  lemma MagicIsFirstIff(
    h: Hashes, c: BlockCandidate, work: MergedWork, script: Vec, address: string, aux: AuxJob, share: Solved,
    height: u64, tag: TemplateStream.Tag)
    requires GoodAux(h, c, work, script, address, aux, share) && Streamed(h, work.parent, height, tag)
    requires height < 0x8000_0000 && IsText(tag)
    ensures MagicOf(c.block) == Some(|work.parent.prefix| + 1) <==> height != MAGIC_HEIGHT
  {
    hide Prefix, FindMagic, MagicOf, Accepts, Streamed, BlockTheorems.BodyAgrees, Heads, Reported, HeaderOf,
         AuxPow.Decode, ProofOfShare;
    StreamedHasBranch(h, work.parent, height, tag);
    PrefixHoldsMagicIff(height, tag);
  }


  /** What a session reports weighs nothing negative, as the books rely on. */
  lemma SessionSharesWeigh(env: Env, ins: seq<Input>, j: nat, e: Events.PoolEvent, ts: nat, flushOk: bool)
    requires env.cfg.Valid() && j < |ins| && e in Effect(env, ins, j).events
    ensures Rounds.Weighs(Publisher.Happens(e, ts, flushOk))
  {
    hide Effect;
    if e.Share? {
      ShareEventsBounded(env, ins, j, e);
    }
  }
}
