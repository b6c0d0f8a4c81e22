/** Accepted work is conserved, and exactly when a round is in debt. */
module Rounds {
  import opened Wrappers
  import opened Events
  import opened Ledger
  import opened LiveStats
  import opened Publisher
  import opened Accounting
  import MapSum

  // ---------- conservation ----------

  /** The live figures show all work in the tables and the queue, but for what the last start missed. */
  ghost predicate Balanced(p: Pool, missed: real, mult: Multiplier) {
    TotalNet(p.live) == Net(TotalWork(p.tables) + Pending(p.shares) - missed, mult)
  }

  /** What the live figures miss after a step: a restart that cannot read the tables starts from zero. */
  ghost function MissedAfter(missed: real, op: Op, tables: Tables): real {
    if !op.Restart? then missed else if op.loadOk then 0.0 else TotalWork(tables)
  }

  ghost function Missed(ops: seq<Op>, mult: Multiplier): real
    decreases |ops|
  {
    if ops == [] then 0.0
    else MissedAfter(Missed(ops[..|ops| - 1], mult), ops[|ops| - 1], After(ops, mult).tables)
  }

  lemma MissedNext(ops: seq<Op>, i: nat, mult: Multiplier)
    requires i < |ops|
    ensures Missed(ops[..i + 1], mult) == MissedAfter(Missed(ops[..i], mult), ops[i], After(ops[..i + 1], mult).tables)
  {
    hide After, TotalWork;
    assert ops[..i + 1][..i] == ops[..i] && ops[..i + 1][i] == ops[i];
  }

  /** Over every run no block has two rows. */
  lemma {:induction false} BlocksOnce(ops: seq<Op>, mult: Multiplier)
    ensures RecordedOnce(After(ops, mult).tables.blocks)
    decreases |ops|
  {
    if ops != [] {
      BlocksOnce(ops[..|ops| - 1], mult);
      StepKeepsOnce(After(ops[..|ops| - 1], mult), ops[|ops| - 1], mult);
      hide Stepped, RecordedOnce;
    }
  }

  lemma StepKeepsOnce(p: Pool, op: Op, mult: Multiplier)
    requires RecordedOnce(p.tables.blocks)
    ensures RecordedOnce(Stepped(p, op, mult).tables.blocks)
  {
    if op.FoundBlock? {
      BlockRecorded(p.tables, op.coin, op.hash, op.foundAt, op.status);
    }
    hide Ledger.Recorded, Persisted, Applied, Restored, Cleared, Forgotten, TotalWork;
  }

  /** Nothing is missed while every restart reads the tables. */
  lemma {:induction false} NothingMissed(ops: seq<Op>, mult: Multiplier)
    requires forall i :: 0 <= i < |ops| && ops[i].Restart? ==> ops[i].loadOk
    ensures Missed(ops, mult) == 0.0
    decreases |ops|
  {
    hide After, TotalWork;
    if ops != [] {
      NothingMissed(ops[..|ops| - 1], mult);
    }
  }

  /** Work is weighed by difficulties that are not negative, as session events are. */
  predicate Weighs(op: Op) {
    op.Happens? && op.e.Share? ==> op.e.jobDifficulty >= 0.0
  }

  predicate AllWeigh(ss: seq<NewShare>) {
    forall i :: 0 <= i < |ss| ==> ss[i].difficulty >= 0.0
  }

  lemma {:induction false} PendingNonNegative(ss: seq<NewShare>)
    requires AllWeigh(ss)
    ensures Pending(ss) >= 0.0
    decreases |ss|
  {
    if ss != [] {
      PendingNonNegative(ss[..|ss| - 1]);
    }
  }

  function Gain(e: PoolEvent): real {
    if e.Share? && e.rejected.None? then e.jobDifficulty else 0.0
  }

  lemma ObservedPending(p: Pool, e: PoolEvent, ts: nat)
    ensures Pending(Observed(p, e, ts).shares) == Pending(p.shares) + Gain(e)
    ensures Observed(p, e, ts).tables == p.tables && Observed(p, e, ts).live == p.live
  {
    if e.Share? {
      assert (p.shares + [AsShare(e, ts)])[..|p.shares|] == p.shares;
    }
  }

  lemma FlushMoves(p: Pool, ok: bool)
    ensures var q := Flushed(p, ok);
            && TotalWork(q.tables) == TotalWork(p.tables) + (if ok then Pending(p.shares) else 0.0)
            && Pending(q.shares) == (if ok then 0.0 else Pending(p.shares))
            && q.live == p.live && q.tables == p.tables.(rows := q.tables.rows)
  {
    hide TotalWork, Persisted;
    WorkConserved(p.tables, p.authorized, p.shares, "");
  }

  lemma {:induction false} SumScales(a: map<string, real>, b: map<string, real>, mult: Multiplier)
    requires a.Keys == b.Keys && forall k :: k in a ==> b[k] == Net(a[k], mult)
    ensures MapSum.Sum(b) == Net(MapSum.Sum(a), mult)
    decreases |a|
  {
    hide Net;
    if a == map[] {
      assert b == map[];
      NetLaws(0.0, 0.0, mult);
    } else {
      var k :| k in a;
      MapSum.TakeOut(a, k);
      MapSum.TakeOut(b, k);
      SumScales(a - {k}, b - {k}, mult);
      NetLaws(a[k], MapSum.Sum(a - {k}), mult);
    }
  }

  lemma RestoredTotal(t: Tables, mult: Multiplier)
    ensures TotalNet(Restored(t.rows, t.retired, mult)) == Net(TotalWork(t), mult)
  {
    SumScales(WorkOf(t.rows), NetWorkOf(FromRows(t.rows, mult)), mult);
    NetLaws(MapSum.Sum(WorkOf(t.rows)), t.retired, mult);
    hide Net;
  }

  /** How a step moves the three places work can be in. */
  lemma StepMoves(p: Pool, op: Op, mult: Multiplier)
    ensures var q := Stepped(p, op, mult);
            var gain := if op.Happens? then Gain(op.e) else 0.0;
            && (!op.Restart? ==> TotalNet(q.live) == TotalNet(p.live) + Net(gain, mult))
            && (!op.Restart? ==>
                  TotalWork(q.tables) + Pending(q.shares) == TotalWork(p.tables) + Pending(p.shares) + gain)
            && (op.Restart? ==>
                  TotalWork(q.tables) == TotalWork(p.tables) + (if op.flushOk then Pending(p.shares) else 0.0))
            && (op.Restart? ==> q.shares == [])
            && (op.Restart? && op.loadOk ==> TotalNet(q.live) == Net(TotalWork(q.tables), mult))
            && TotalWork(q.tables) in {TotalWork(p.tables), TotalWork(p.tables) + Pending(p.shares) + gain}
  {
    NetLaws(0.0, 0.0, mult);
    hide Net, TotalNet, TotalWork, Restored, Recorded, Applied, Cleared, Forgotten, Observed, Flushed, Pending,
         ZeroAll, Removed;
    match op {
      case Happens(e, ts, flushOk) =>
        ObservedPending(p, e, ts);
        TotalMoves(p.live, e, ts, mult, "");
        FlushMoves(Observed(p, e, ts).(live := Applied(p.live, e, ts, mult)), flushOk);
      case ResetStats(flushOk, resetOk) =>
        FlushMoves(p, flushOk);
        TotalMoves(p.live, DifficultyChanged(0, 0.0), 0, mult, "");
        WorkConserved(Flushed(p, flushOk).tables, [], [], "");
      case RemoveWorker(name, flushOk, removeOk) =>
        FlushMoves(p, flushOk);
        TotalMoves(p.live, DifficultyChanged(0, 0.0), 0, mult, name);
        WorkConserved(Flushed(p, flushOk).tables, [], [], name);
      case Tick(flushOk) =>
        FlushMoves(p, flushOk);
      case FoundBlock(coin, hash, foundAt, status) =>
        RecordedFrame(p.tables, coin, hash, foundAt, status);
        BlocksWeighNothing(p.tables, Recorded(p.tables, coin, hash, foundAt, status).blocks);
      case Settle(i, status) =>
        BlocksWeighNothing(p.tables, Stepped(p, op, mult).tables.blocks);
      case Restart(flushOk, loadOk) =>
        FlushMoves(p, flushOk);
        RestoredTotal(Flushed(p, flushOk).tables, mult);
    }
  }

  lemma BlocksWeighNothing(t: Tables, blocks: seq<BlockRow>)
    ensures TotalWork(t.(blocks := blocks)) == TotalWork(t)
  {
  }

  // ---------- rounds ----------

  /** No block banks more work than the tables hold. */
  ghost predicate Banked(p: Pool) {
    forall i :: 0 <= i < |p.tables.blocks| ==> p.tables.blocks[i].workAtFound <= TotalWork(p.tables)
  }

  ghost predicate Sound(p: Pool, missed: real, mult: Multiplier) {
    Balanced(p, missed, mult) && Banked(p) && AllWeigh(p.shares) && 0.0 <= missed <= TotalWork(p.tables)
  }

  /** Every step keeps the books balanced, whichever writes and reads fail; and it never lowers the
      tables' total. */
  lemma StepSound(p: Pool, missed: real, op: Op, mult: Multiplier)
    requires Sound(p, missed, mult) && Weighs(op)
    ensures var q := Stepped(p, op, mult);
            Sound(q, MissedAfter(missed, op, q.tables), mult) && TotalWork(q.tables) >= TotalWork(p.tables)
  {
    hide Net, TotalNet, TotalWork, Stepped, AllWeigh;
    StepMoves(p, op, mult);
    var gain := if op.Happens? then Gain(op.e) else 0.0;
    NetLaws(TotalWork(p.tables) + Pending(p.shares) - missed, gain, mult);
    PendingNonNegative(p.shares);
    StepQueue(p, op, mult);
    StepBlocks(p, op, mult);
    if op.Restart? && !op.loadOk {
      FailedLoad(p, op, mult);
      EmptyTotals(mult);
    }
  }

  lemma FailedLoad(p: Pool, op: Op, mult: Multiplier)
    requires op.Restart? && !op.loadOk
    ensures Stepped(p, op, mult).live == NO_LIVE && Stepped(p, op, mult).shares == []
  {
    hide Persisted;
  }

  lemma StepQueue(p: Pool, op: Op, mult: Multiplier)
    requires AllWeigh(p.shares) && Weighs(op)
    ensures AllWeigh(Stepped(p, op, mult).shares)
  {
    hide TotalWork, Persisted, Restored, Recorded, Applied, Cleared, Forgotten, ZeroAll, Removed;
  }

  /** Steps only add blocks, banking the present total, or change a status. */
  lemma StepBlocks(p: Pool, op: Op, mult: Multiplier)
    ensures var before, later := p.tables.blocks, Stepped(p, op, mult).tables.blocks;
            && |before| <= |later|
            && (forall i :: 0 <= i < |before| ==> later[i] == before[i].(status := later[i].status))
            && forall i :: |before| <= i < |later| ==> later[i].workAtFound == TotalWork(p.tables)
  {
    hide TotalWork, Persisted, Restored, Applied, Cleared, Forgotten, ZeroAll, TotalNet;
  }

  lemma {:induction false} RunSound(ops: seq<Op>, n: nat, mult: Multiplier)
    requires n <= |ops| && forall i :: 0 <= i < n ==> Weighs(ops[i])
    ensures Sound(After(ops[..n], mult), Missed(ops[..n], mult), mult)
  {
    hide Stepped, Net, TotalNet, TotalWork;
    assert ops[..0] == [];
    if n == 0 {
      EmptyTotals(mult);
    } else {
      RunSound(ops, n - 1, mult);
      AfterNext(ops, n - 1, mult);
      MissedNext(ops, n - 1, mult);
      hide After, Missed, Sound;
      StepSound(After(ops[..n - 1], mult), Missed(ops[..n - 1], mult), ops[n - 1], mult);
    }
  }

  lemma EmptyTotals(mult: Multiplier)
    ensures TotalNet(NO_LIVE) == 0.0 && TotalWork(EMPTY.tables) == 0.0 && Net(0.0, mult) == 0.0
  {
    assert NetWorkOf(map[]) == map[] && WorkOf(map[]) == map[];
    NetLaws(0.0, 0.0, mult);
  }

  /** Over every run: live total work is exactly the tables' and the queue's, less what the last start
      could not read, whatever else fails. */
  lemma WorkIsConserved(ops: seq<Op>, mult: Multiplier)
    requires forall i :: 0 <= i < |ops| ==> Weighs(ops[i])
    ensures var p := After(ops, mult);
            && TotalNet(p.live) == Net(TotalWork(p.tables) + Pending(p.shares) - Missed(ops, mult), mult)
            && 0.0 <= Missed(ops, mult) <= TotalWork(p.tables)
  {
    hide Stepped, Net, TotalNet, TotalWork, Pending, Missed;
    assert ops[..|ops|] == ops;
    RunSound(ops, |ops|, mult);
  }

  /** No step lowers the tables' total, and none but a restart the live total. A restart that reads the
      tables brings back what was missed and loses what it could not flush; one that cannot starts
      from zero. */
  lemma LiveTotalMoves(ops: seq<Op>, i: nat, mult: Multiplier)
    requires i < |ops| && forall j :: 0 <= j <= i ==> Weighs(ops[j])
    ensures var p, q := After(ops[..i], mult), After(ops[..i + 1], mult);
            && TotalWork(p.tables) <= TotalWork(q.tables)
            && (match ops[i]
                case Restart(flushOk, loadOk) =>
                  TotalNet(q.live) == (if !loadOk then 0.0
                                       else TotalNet(p.live) + Net(Missed(ops[..i], mult), mult)
                                            - (if flushOk then 0.0 else Net(Pending(p.shares), mult)))
                case _ => TotalNet(q.live) >= TotalNet(p.live))
  {
    hide Net, TotalNet, TotalWork, Stepped, AllWeigh, Banked, Pending, Missed;
    RunSound(ops, i, mult);
    AfterNext(ops, i, mult);
    hide After;
    var p, op, missed := After(ops[..i], mult), ops[i], Missed(ops[..i], mult);
    StepSound(p, missed, op, mult);
    StepMoves(p, op, mult);
    if op.Restart? && !op.loadOk {
      FailedLoad(p, op, mult);
      EmptyTotals(mult);
    }
    var all := TotalWork(p.tables) + Pending(p.shares);
    NetLaws(all - missed, missed, mult);
    NetLaws(TotalWork(p.tables), Pending(p.shares), mult);
    NetLaws(0.0, if op.Happens? then Gain(op.e) else 0.0, mult);
  }

  // ---------- the books against the history ----------

  /** Work of all shares accepted in a run. */
  function AcceptedWork(ops: seq<Op>): real
    decreases |ops|
  {
    if ops == [] then 0.0
    else AcceptedWork(ops[..|ops| - 1]) + (if ops[|ops| - 1].Happens? then Gain(ops[|ops| - 1].e) else 0.0)
  }

  /** Work that was queued at restarts which could not flush. */
  ghost function LostWork(ops: seq<Op>, mult: Multiplier): real
    decreases |ops|
  {
    if ops == [] then 0.0
    else
      var front, op := ops[..|ops| - 1], ops[|ops| - 1];
      LostWork(front, mult) + (if op.Restart? && !op.flushOk then Pending(After(front, mult).shares) else 0.0)
  }

  /** Over every run the tables and the queue hold exactly the work of all shares accepted, less what
      was lost at restarts: resets, removals and failures of any kind change nothing. */
  lemma {:induction false} BooksAreHistory(ops: seq<Op>, mult: Multiplier)
    ensures var p := After(ops, mult);
            TotalWork(p.tables) + Pending(p.shares) == AcceptedWork(ops) - LostWork(ops, mult)
    decreases |ops|
  {
    hide Stepped, TotalWork;
    if ops == [] {
      EmptyTotals(1.0);
    } else {
      var front, op := ops[..|ops| - 1], ops[|ops| - 1];
      BooksAreHistory(front, mult);
      StepMoves(After(front, mult), op, mult);
    }
  }

  // ---------- the current round ----------

  /** The work of a coin's current round: what is over what the last block banked. */
  function RoundWork(total: real, banked: Option<real>, mult: Multiplier): real {
    var work := total - (if banked.Some? then Net(banked.value, mult) else 0.0);
    if work > 0.0 then work else 0.0
  }

  /** The latest block of a coin that was not rejected: by time, then by row. */
  function LastBanked(blocks: seq<BlockRow>, coin: string): Option<BlockRow>
    decreases |blocks|
  {
    if blocks == [] then None
    else
      var b, front := blocks[|blocks| - 1], LastBanked(blocks[..|blocks| - 1], coin);
      if Counts(b, coin) && (front.None? || front.value.foundAt <= b.foundAt) then Some(b) else front
  }

  lemma {:induction false} LastBankedIsBlock(blocks: seq<BlockRow>, coin: string)
    ensures LastBanked(blocks, coin).Some? ==> LastBanked(blocks, coin).value in blocks
    ensures LastBanked(blocks, coin).None? <==> forall b :: b in blocks ==> b.coin != coin || b.status == Rejected
    ensures LastBanked(blocks, coin).Some? ==>
        exists i :: IsLast(blocks, coin, i) && LastBanked(blocks, coin) == Some(blocks[i])
    decreases |blocks|
  {
    if blocks != [] {
      var n := |blocks| - 1;
      var front := blocks[..n];
      LastBankedIsBlock(front, coin);
      assert blocks == front + [blocks[n]];
      assert forall j :: 0 <= j < n ==> front[j] == blocks[j];
      if LastBanked(blocks, coin) == LastBanked(front, coin) && LastBanked(front, coin).Some? {
        var i :| IsLast(front, coin, i) && LastBanked(front, coin) == Some(front[i]);
        if Counts(blocks[n], coin) && front[i].foundAt <= blocks[n].foundAt {
          assert IsLast(blocks, coin, n);
        } else {
          assert IsLast(blocks, coin, i);
        }
      } else if LastBanked(blocks, coin).Some? {
        assert IsLast(blocks, coin, n);
      }
    }
  }

  predicate Counts(b: BlockRow, coin: string) {
    b.coin == coin && b.status != Rejected
  }

  /** Row `i` is the coin's latest block that counts; of blocks found at one time the later row. */
  predicate IsLast(blocks: seq<BlockRow>, coin: string, i: int) {
    && 0 <= i < |blocks| && Counts(blocks[i], coin)
    && forall j :: 0 <= j < |blocks| && Counts(blocks[j], coin) ==>
         blocks[j].foundAt < blocks[i].foundAt || (blocks[j].foundAt == blocks[i].foundAt && j <= i)
  }

  function BankedWork(blocks: seq<BlockRow>, coin: string): Option<real> {
    var last := LastBanked(blocks, coin);
    if last.Some? then Some(last.value.workAtFound) else None
  }

  /** The part of the tables and the queue, as far as live, that no block of the coin has banked. */
  ghost function Owed(ops: seq<Op>, coin: string, mult: Multiplier): real {
    var p := After(ops, mult);
    var banked := BankedWork(p.tables.blocks, coin);
    TotalWork(p.tables) + Pending(p.shares) - Missed(ops, mult) - (if banked.Some? then banked.value else 0.0)
  }

  /** Over every run a round's work is the unbanked part of the live work, and the clamp at zero acts
      exactly if that is negative. It never is while the last start read the tables: no block banks
      more than they hold. */
  lemma RoundNeverNegative(ops: seq<Op>, coin: string, mult: Multiplier)
    requires forall i :: 0 <= i < |ops| ==> Weighs(ops[i])
    ensures var p := After(ops, mult);
            var banked := BankedWork(p.tables.blocks, coin);
            var owed := Owed(ops, coin, mult);
            && RoundWork(TotalNet(p.live), banked, mult) == Net(if owed > 0.0 then owed else 0.0, mult)
            && (TotalNet(p.live) - (if banked.Some? then Net(banked.value, mult) else 0.0) < 0.0 <==> owed < 0.0)
            && (owed < 0.0 ==> banked.Some? && Missed(ops, mult) > 0.0)
            && (banked.Some? ==> banked.value <= TotalWork(p.tables))
  {
    hide Net, TotalNet, TotalWork, Stepped, LastBanked, Missed;
    assert ops[..|ops|] == ops;
    RunSound(ops, |ops|, mult);
    hide After;
    var p := After(ops, mult);
    LastBankedIsBlock(p.tables.blocks, coin);
    PendingNonNegative(p.shares);
    var banked := BankedWork(p.tables.blocks, coin);
    hide Pending, BankedWork, AllWeigh;
    Clamp(TotalWork(p.tables) + Pending(p.shares) - Missed(ops, mult), banked, mult);
  }

  lemma Clamp(all: real, banked: Option<real>, mult: Multiplier)
    ensures var owed := all - (if banked.Some? then banked.value else 0.0);
            && RoundWork(Net(all, mult), banked, mult) == Net(if owed > 0.0 then owed else 0.0, mult)
            && (Net(all, mult) - (if banked.Some? then Net(banked.value, mult) else 0.0) < 0.0 <==> owed < 0.0)
  {
    var bank := if banked.Some? then banked.value else 0.0;
    NetLaws(all - bank, bank, mult);
    NetLaws(all - bank, 0.0, mult);
    NetLaws(0.0, all - bank, mult);
    hide Net;
  }

  /** The clamp does act: a share, a flush, a block, and a restart that cannot read the tables. */
  lemma FailedLoadIndebts(e: PoolEvent, ts: nat, coin: string, hash: seq<int>, foundAt: nat, mult: Multiplier)
    requires e.Share? && e.rejected.None? && e.jobDifficulty > 0.0
    ensures var ops := [Happens(e, ts, true), Tick(true), FoundBlock(coin, hash, foundAt, Status.Accepted),
        Restart(true, false)];
            var p := After(ops, mult);
            TotalNet(p.live) - (if BankedWork(p.tables.blocks, coin).Some?
                                then Net(BankedWork(p.tables.blocks, coin).value, mult) else 0.0) < 0.0
  {
    hide Net, TotalNet, Stepped, BankedWork, TotalWork;
    var ops := [Happens(e, ts, true), Tick(true), FoundBlock(coin, hash, foundAt, Status.Accepted),
        Restart(true, false)];
    assert ops[..3][..2] == ops[..2] && ops[..4] == ops;
    FourSteps(ops, e, mult);
    hide After;
    BlockBanks(After(ops[..2], mult), coin, hash, foundAt, mult);
    RoundNeverNegative(ops, coin, mult);
  }

  lemma BlockBanks(p: Pool, coin: string, hash: seq<int>, foundAt: nat, mult: Multiplier)
    requires p.tables.blocks == []
    ensures var q := Stepped(Stepped(p, FoundBlock(coin, hash, foundAt, Status.Accepted), mult),
        Restart(true, false), mult);
            q.shares == [] && (p.shares == [] ==> TotalWork(q.tables) == TotalWork(p.tables))
            && BankedWork(q.tables.blocks, coin) == Some(TotalWork(p.tables))
  {
    var q := Stepped(p, FoundBlock(coin, hash, foundAt, Status.Accepted), mult);
    hide TotalWork, Persisted;
    NewBlock(p.tables, coin, hash, foundAt);
    BlocksWeighNothing(p.tables, q.tables.blocks);
    FlushMoves(q, true);
  }

  lemma FourSteps(ops: seq<Op>, e: PoolEvent, mult: Multiplier)
    requires |ops| == 4 && ops[0].Happens? && ops[0].e == e && ops[1] == Tick(true) && ops[3].Restart? && !ops[3].loadOk
    requires e.Share? && e.rejected.None?
    ensures var p := After(ops[..2], mult);
            && p.tables.blocks == [] && p.shares == [] && TotalWork(p.tables) == e.jobDifficulty
            && After(ops, mult) == Stepped(Stepped(p, ops[2], mult), ops[3], mult)
            && Missed(ops, mult) == TotalWork(After(ops, mult).tables)
  {
    hide TotalWork, Net, Stepped, After, Missed, AcceptedWork, LostWork;
    assert ops[..4] == ops;
    AfterNext(ops, 1, mult);
    AfterNext(ops, 2, mult);
    AfterNext(ops, 3, mult);
    MissedNext(ops, 3, mult);
    BooksAreHistory(ops[..2], mult);
    ShareThenFlush(ops[..2], e, mult);
  }

  lemma ShareThenFlush(ops: seq<Op>, e: PoolEvent, mult: Multiplier)
    requires |ops| == 2 && ops[0].Happens? && ops[0].e == e && ops[1] == Tick(true)
    requires e.Share? && e.rejected.None?
    ensures var p := After(ops, mult); p.tables.blocks == [] && p.shares == []
    ensures AcceptedWork(ops) == e.jobDifficulty && LostWork(ops, mult) == 0.0
  {
    hide TotalWork, Net, Applied, Persisted;
    assert ops[..0] == [] && ops[..2] == ops && ops[..1] == [ops[0]] && [ops[0]][..0] == [];
    assert AcceptedWork([ops[0]]) == e.jobDifficulty && LostWork([ops[0]], mult) == 0.0;
    AfterNext(ops, 0, mult);
    AfterNext(ops, 1, mult);
  }

  /** A block not recorded yet, found no earlier than any that is. */
  predicate IsNew(blocks: seq<BlockRow>, coin: string, hash: seq<int>, foundAt: nat) {
    forall i :: 0 <= i < |blocks| ==> !SameBlock(blocks[i], coin, hash) && blocks[i].foundAt <= foundAt
  }

  /** A round opens with the work still queued when its block is recorded, less what the last start
      missed: the winning share, not yet written, counts towards the next round. */
  lemma RoundOpensWithQueue(ops: seq<Op>, coin: string, hash: seq<int>, foundAt: nat, mult: Multiplier)
    requires forall i :: 0 <= i < |ops| ==> Weighs(ops[i])
    requires IsNew(After(ops, mult).tables.blocks, coin, hash, foundAt)
    ensures var p := Stepped(After(ops, mult), FoundBlock(coin, hash, foundAt, Status.Accepted), mult);
            var queued := Pending(p.shares) - Missed(ops, mult);
            RoundWork(TotalNet(p.live), BankedWork(p.tables.blocks, coin), mult)
            == Net(if queued > 0.0 then queued else 0.0, mult)
  {
    hide Net, TotalNet, TotalWork, Pending, BankedWork, IsNew, Recorded, RoundWork;
    var op := FoundBlock(coin, hash, foundAt, Status.Accepted);
    var run, t := ops + [op], After(ops, mult).tables;
    assert run[..|ops|] == ops && run[|ops|] == op && run[..|run|] == run;
    NewBlock(t, coin, hash, foundAt);
    AfterNext(run, |ops|, mult);
    MissedNext(run, |ops|, mult);
    hide After, Missed;
    RoundNeverNegative(run, coin, mult);
    BlocksWeighNothing(t, Recorded(t, coin, hash, foundAt, Status.Accepted).blocks);
  }

  lemma NewBlock(t: Tables, coin: string, hash: seq<int>, foundAt: nat)
    requires IsNew(t.blocks, coin, hash, foundAt)
    ensures var u := Recorded(t, coin, hash, foundAt, Status.Accepted);
            u == t.(blocks := u.blocks) && BankedWork(u.blocks, coin) == Some(TotalWork(t))
  {
    hide TotalWork;
    var b := BlockRow(coin, hash, foundAt, Status.Accepted, TotalWork(t));
    assert (t.blocks + [b])[..|t.blocks|] == t.blocks;
    LastBankedIsBlock(t.blocks, coin);
  }

  // ---------- the work of a round ----------

  /** The block in row `r` was recorded at step `i`. */
  ghost predicate BankedAt(ops: seq<Op>, i: nat, b: BlockRow, mult: Multiplier) {
    && i < |ops| && ops[i].FoundBlock? && ops[i].coin == b.coin && ops[i].hash == b.hash
    && b.workAtFound == TotalWork(After(ops[..i], mult).tables)
  }

  /** Every block banked the tables' total of the step that recorded it. */
  lemma {:induction false} BlockIsBanked(ops: seq<Op>, n: nat, r: nat, mult: Multiplier) returns (i: nat)
    requires n <= |ops| && r < |After(ops[..n], mult).tables.blocks|
    ensures i < n && BankedAt(ops, i, After(ops[..n], mult).tables.blocks[r], mult)
  {
    hide TotalWork, Stepped;
    assert ops[..0] == [];
    i := 0;
    if n > 0 {
      AfterNext(ops, n - 1, mult);
      hide After;
      var p := After(ops[..n - 1], mult);
      StepBlocks(p, ops[n - 1], mult);
      if r < |p.tables.blocks| {
        i := BlockIsBanked(ops, n - 1, r, mult);
      } else {
        i := n - 1;
        NewRow(p, ops[i], r, mult);
      }
    }
  }

  lemma NewRow(p: Pool, op: Op, r: nat, mult: Multiplier)
    requires |p.tables.blocks| <= r < |Stepped(p, op, mult).tables.blocks|
    ensures op.FoundBlock? && Stepped(p, op, mult).tables.blocks[r].coin == op.coin
            && Stepped(p, op, mult).tables.blocks[r].hash == op.hash
  {
    hide TotalWork, Persisted, Restored, Applied, Cleared, Forgotten, ZeroAll, TotalNet;
  }

  /** Over every run: a round's work is what was queued when its opening block was recorded, plus all
      work accepted since, less what restarts have lost since and what the last start missed. */
  lemma RoundIsWorkSince(ops: seq<Op>, coin: string, mult: Multiplier) returns (i: nat)
    requires forall j :: 0 <= j < |ops| ==> Weighs(ops[j])
    requires LastBanked(After(ops, mult).tables.blocks, coin).Some?
    ensures BankedAt(ops, i, LastBanked(After(ops, mult).tables.blocks, coin).value, mult)
    ensures var p := After(ops, mult);
            var work := Pending(After(ops[..i], mult).shares) + (AcceptedWork(ops) - AcceptedWork(ops[..i]))
                        - (LostWork(ops, mult) - LostWork(ops[..i], mult)) - Missed(ops, mult);
            RoundWork(TotalNet(p.live), BankedWork(p.tables.blocks, coin), mult)
            == Net(if work > 0.0 then work else 0.0, mult)
  {
    hide Net, TotalNet, TotalWork, Stepped, LastBanked, After, Missed, Pending, AcceptedWork, LostWork, RoundWork;
    var blocks := After(ops, mult).tables.blocks;
    LastBankedIsBlock(blocks, coin);
    var r: nat :| IsLast(blocks, coin, r) && LastBanked(blocks, coin) == Some(blocks[r]);
    assert ops[..|ops|] == ops;
    i := BlockIsBanked(ops, |ops|, r, mult);
    BooksAreHistory(ops, mult);
    BooksAreHistory(ops[..i], mult);
    RoundNeverNegative(ops, coin, mult);
  }
}
