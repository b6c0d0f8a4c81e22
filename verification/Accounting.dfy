/** The live statistics against the tables, over every run of the publisher. */
module Accounting {
  import opened Wrappers
  import opened Events
  import opened Ledger
  import opened LiveStats
  import opened Publisher
  import MapSum

  // ---------- units ----------

  lemma NetLaws(a: real, b: real, mult: Multiplier)
    ensures Net(a + b, mult) == Net(a, mult) + Net(b, mult)
    ensures Net(a, mult) < Net(b, mult) <==> a < b
    ensures Net(0.0, mult) == 0.0
  {
    if a < b {
      NetGrows(a, b, mult);
    } else if b < a {
      NetGrows(b, a, mult);
    }
  }

  lemma NetGrows(a: real, b: real, mult: Multiplier)
    requires a < b
    ensures Net(a, mult) < Net(b, mult)
  {
    var x, y := a / mult, b / mult;
    assert x * mult == a && y * mult == b;
    Scales(y, x, mult);
  }

  lemma Scales(y: real, x: real, mult: Multiplier)
    ensures y <= x ==> y * mult <= x * mult
  {
    if y <= x {
      assert (x - y) * mult >= 0.0;
    }
  }

  // ---------- refinement ----------

  /** Without the sessions, which a restart ends. */
  function Plain(workers: map<string, Worker>): map<string, Worker> {
    map n | n in workers :: workers[n].(sessions := {})
  }

  /** The live statistics are what restoring would show once the queue is written. */
  ghost predicate Refines(p: Pool, mult: Multiplier) {
    RestoredFrom(p.live.(workers := Plain(p.live.workers)), Persisted(p.tables.rows, p.authorized, p.shares),
        p.tables.retired, mult)
  }

  function AuthWorkers(ws: map<string, Worker>, w: WorkerWrite): map<string, Worker> {
    ws[w.name := WorkerFor(ws, w.name).(address := w.address, fallback := w.fallback, aux := w.aux)]
  }

  function ShareWorkers(ws: map<string, Worker>, s: NewShare, mult: Multiplier): map<string, Worker> {
    ws[s.worker := Credited(WorkerFor(ws, s.worker), s, mult)]
  }

  function ClearWorkers(ws: map<string, Worker>): map<string, Worker> {
    map n | n in ws :: ws[n].(accepted := 0, rejected := 0, best := 0.0, bestAt := None)
  }

  /** Counting a share on a row and crediting it to the worker restored from that row agree. */
  lemma CountedIsCredited(r: Row, s: NewShare, mult: Multiplier)
    ensures FromRow(Counted(r, s), mult) == Credited(FromRow(r, mult), s, mult)
  {
    NetLaws(r.best, s.shareDiff, mult);
    NetLaws(r.work, s.difficulty, mult);
    hide Net;
  }

  lemma AuthorizeCommutes(rows: map<string, Row>, w: WorkerWrite, mult: Multiplier)
    ensures FromRows(AuthorizeRow(rows, w), mult) == AuthWorkers(FromRows(rows, mult), w)
  {
    NetLaws(0.0, 0.0, mult);
    hide Net;
  }

  lemma ShareCommutes(rows: map<string, Row>, s: NewShare, mult: Multiplier)
    ensures FromRows(CountShare(rows, s), mult) == ShareWorkers(FromRows(rows, mult), s, mult)
  {
    NetLaws(0.0, 0.0, mult);
    CountedIsCredited(RowFor(rows, s), s, mult);
    hide Net, Counted, Credited;
    UnseenAnyTime(rows, s, mult);
  }

  lemma UnseenAnyTime(rows: map<string, Row>, s: NewShare, mult: Multiplier)
    ensures FromRow(RowFor(rows, s), mult) == WorkerFor(FromRows(rows, mult), s.worker)
  {
    NetLaws(0.0, 0.0, mult);
    hide Net;
  }

  /** An authorization may go before a share that came earlier. */
  lemma AuthBeforeShare(ws: map<string, Worker>, s: NewShare, w: WorkerWrite, mult: Multiplier)
    ensures AuthWorkers(ShareWorkers(ws, s, mult), w) == ShareWorkers(AuthWorkers(ws, w), s, mult)
  {
    hide Net;
  }

  lemma {:induction false} QueueAuthorization(
    rows: map<string, Row>, ws: seq<WorkerWrite>, ss: seq<NewShare>, w: WorkerWrite, mult: Multiplier)
    ensures FromRows(Persisted(rows, ws + [w], ss), mult) == AuthWorkers(FromRows(Persisted(rows, ws, ss), mult), w)
    decreases |ss|
  {
    hide FromRows, AuthWorkers, ShareWorkers, AuthorizeRow, CountShare;
    assert (ws + [w])[..|ws|] == ws;
    if ss == [] {
      AuthorizeCommutes(Authorizations(rows, ws), w, mult);
    } else {
      var front, s := ss[..|ss| - 1], ss[|ss| - 1];
      QueueAuthorization(rows, ws, front, w, mult);
      ShareCommutes(Persisted(rows, ws + [w], front), s, mult);
      ShareCommutes(Persisted(rows, ws, front), s, mult);
      AuthBeforeShare(FromRows(Persisted(rows, ws, front), mult), s, w, mult);
    }
  }

  lemma QueueShare(rows: map<string, Row>, ws: seq<WorkerWrite>, ss: seq<NewShare>, s: NewShare, mult: Multiplier)
    ensures FromRows(Persisted(rows, ws, ss + [s]), mult)
        == ShareWorkers(FromRows(Persisted(rows, ws, ss), mult), s, mult)
  {
    assert (ss + [s])[..|ss|] == ss;
    ShareCommutes(Persisted(rows, ws, ss), s, mult);
  }

  lemma PlainApplied(l: Live, e: PoolEvent, ts: nat, mult: Multiplier)
    ensures Plain(Applied(l, e, ts, mult).workers)
         == match e
            case Authorized(_, _, _, _, _) => AuthWorkers(Plain(l.workers), Write(e, ts))
            case Share(_, _, _, _, _, _) => ShareWorkers(Plain(l.workers), AsShare(e, ts), mult)
            case Disconnected(_, _) => Plain(l.workers)
            case DifficultyChanged(_, _) => Plain(l.workers)
  {
    hide Net;
  }

  lemma PlainTallied(l: Live)
    ensures Tallied(l.(workers := Plain(l.workers))) <==> Tallied(l)
  {
    assert AcceptedOf(Plain(l.workers)) == AcceptedOf(l.workers);
    assert RejectedOf(Plain(l.workers)) == RejectedOf(l.workers);
  }

  lemma EventRefines(p: Pool, e: PoolEvent, ts: nat, mult: Multiplier)
    requires Refines(p, mult)
    ensures Refines(Observed(p, e, ts).(live := Applied(p.live, e, ts, mult)), mult)
  {
    PlainApplied(p.live, e, ts, mult);
    PlainTallied(p.live);
    StaysTallied(p.live, e, ts, mult, "");
    PlainTallied(Applied(p.live, e, ts, mult));
    AppliedRetired(p.live, e, ts, mult);
    hide Persisted, FromRows, Plain, Net, Tallied, AuthWorkers, ShareWorkers, Applied;
    match e {
      case Authorized(_, _, _, _, _) =>
        QueueAuthorization(p.tables.rows, p.authorized, p.shares, Write(e, ts), mult);
      case Share(_, _, _, _, _, _) =>
        QueueShare(p.tables.rows, p.authorized, p.shares, AsShare(e, ts), mult);
      case Disconnected(_, _) =>
      case DifficultyChanged(_, _) =>
    }
  }

  lemma AppliedRetired(l: Live, e: PoolEvent, ts: nat, mult: Multiplier)
    ensures Applied(l, e, ts, mult).retired == l.retired
  {
    hide Net;
  }

  lemma FlushRefines(p: Pool, ok: bool, mult: Multiplier)
    ensures Refines(Flushed(p, ok), mult) <==> Refines(p, mult)
  {
    hide FromRows, Plain, Net, Tallied;
  }

  // ---------- the operator's commands ----------

  predicate Mentions(p: Pool, name: string) {
    (exists i :: 0 <= i < |p.authorized| && p.authorized[i].name == name)
    || exists i :: 0 <= i < |p.shares| && p.shares[i].worker == name
  }

  lemma {:induction false} AuthorizationsCleared(rows: map<string, Row>, ws: seq<WorkerWrite>, mult: Multiplier)
    ensures FromRows(Authorizations(ZeroAll(rows), ws), mult) == ClearWorkers(FromRows(Authorizations(rows, ws), mult))
    decreases |ws|
  {
    NetLaws(0.0, 0.0, mult);
    hide Net;
    if ws != [] {
      var front, w := ws[..|ws| - 1], ws[|ws| - 1];
      AuthorizationsCleared(rows, front, mult);
      hide FromRows, AuthorizeRow;
      AuthorizeCommutes(Authorizations(ZeroAll(rows), front), w, mult);
      AuthorizeCommutes(Authorizations(rows, front), w, mult);
      AuthClears(FromRows(Authorizations(rows, front), mult), w);
    }
  }

  lemma AuthClears(ws: map<string, Worker>, w: WorkerWrite)
    ensures AuthWorkers(ClearWorkers(ws), w) == ClearWorkers(AuthWorkers(ws, w))
  {
  }

  /** A counted share shows. */
  lemma ShareShows(rows: map<string, Row>, ws: seq<WorkerWrite>, ss: seq<NewShare>, mult: Multiplier)
    requires ss != []
    ensures var w := FromRows(Persisted(rows, ws, ss), mult); var n := ss[|ss| - 1].worker;
            n in w && w[n].accepted + w[n].rejected > 0
  {
    hide Net;
  }

  lemma PlainCleared(l: Live)
    ensures Plain(Cleared(l).workers) == ClearWorkers(Plain(l.workers)) && Cleared(l).retired == l.retired
  {
  }

  /** Zeroing on both sides keeps them together exactly if no share is still queued. */
  lemma ResetRefinesIff(p: Pool, mult: Multiplier)
    requires Refines(p, mult)
    ensures Refines(p.(live := Cleared(p.live), tables := p.tables.(rows := ZeroAll(p.tables.rows))), mult)
       <==> p.shares == []
  {
    PlainCleared(p.live);
    PlainTallied(p.live);
    StaysTallied(p.live, DifficultyChanged(0, 0.0), 0, mult, "");
    PlainTallied(Cleared(p.live));
    if p.shares == [] {
      AuthorizationsCleared(p.tables.rows, p.authorized, mult);
    } else {
      ShareShows(ZeroAll(p.tables.rows), p.authorized, p.shares, mult);
    }
    hide FromRows, Plain, Net, Tallied, Cleared, ZeroAll, CountShare, Authorizations, Applied, Forgotten;
  }

  lemma {:induction false} UnmentionedAuthorizations(rows: map<string, Row>, ws: seq<WorkerWrite>, name: string)
    requires forall i :: 0 <= i < |ws| ==> ws[i].name != name
    ensures Authorizations(rows - {name}, ws) == Authorizations(rows, ws) - {name}
    ensures name in Authorizations(rows, ws) <==> name in rows
    ensures name in rows ==> Authorizations(rows, ws)[name] == rows[name]
    decreases |ws|
  {
    hide AuthorizeRow;
    if ws != [] {
      UnmentionedAuthorizations(rows, ws[..|ws| - 1], name);
      OtherAuthorized(Authorizations(rows, ws[..|ws| - 1]), ws[|ws| - 1], name);
    }
  }

  lemma OtherAuthorized(rows: map<string, Row>, w: WorkerWrite, name: string)
    requires w.name != name
    ensures AuthorizeRow(rows - {name}, w) == AuthorizeRow(rows, w) - {name}
    ensures name in AuthorizeRow(rows, w) <==> name in rows
    ensures name in rows ==> AuthorizeRow(rows, w)[name] == rows[name]
  {
  }

  lemma {:induction false} UnmentionedShares(rows: map<string, Row>, ss: seq<NewShare>, name: string)
    requires forall i :: 0 <= i < |ss| ==> ss[i].worker != name
    ensures Shares(rows - {name}, ss) == Shares(rows, ss) - {name}
    ensures name in Shares(rows, ss) <==> name in rows
    ensures name in rows ==> Shares(rows, ss)[name] == rows[name]
    decreases |ss|
  {
    hide Counted;
    if ss != [] {
      UnmentionedShares(rows, ss[..|ss| - 1], name);
    }
  }

  lemma {:induction false} MentionedAuthorizations(rows: map<string, Row>, ws: seq<WorkerWrite>, i: nat)
    requires i < |ws|
    ensures ws[i].name in Authorizations(rows, ws)
    decreases |ws|
  {
    if i < |ws| - 1 {
      assert ws[..|ws| - 1][i] == ws[i];
      MentionedAuthorizations(rows, ws[..|ws| - 1], i);
    }
  }

  lemma {:induction false} SharesKeepRows(rows: map<string, Row>, ss: seq<NewShare>)
    ensures rows.Keys <= Shares(rows, ss).Keys
    ensures forall i :: 0 <= i < |ss| ==> ss[i].worker in Shares(rows, ss)
    decreases |ss|
  {
    hide Counted;
    if ss != [] {
      SharesKeepRows(rows, ss[..|ss| - 1]);
      assert forall i :: 0 <= i < |ss| - 1 ==> ss[i] == ss[..|ss| - 1][i];
    }
  }

  lemma MentionedStays(p: Pool, rows: map<string, Row>, name: string)
    requires Mentions(p, name)
    ensures name in Persisted(rows, p.authorized, p.shares)
  {
    SharesKeepRows(Authorizations(rows, p.authorized), p.shares);
    if i :| 0 <= i < |p.authorized| && p.authorized[i].name == name {
      MentionedAuthorizations(rows, p.authorized, i);
    }
  }

  /** Removing on both sides keeps them together exactly if the queue does not name the worker. */
  lemma RemoveRefinesIff(p: Pool, name: string, mult: Multiplier)
    requires Refines(p, mult) && !Connected(p.live, name)
    ensures Refines(p.(live := Forgotten(p.live, name), tables := Removed(p.tables, name)), mult)
       <==> !Mentions(p, name)
  {
    var rows := Persisted(p.tables.rows, p.authorized, p.shares);
    assert Plain(p.live.workers).Keys == p.live.workers.Keys && FromRows(rows, mult).Keys == rows.Keys;
    if Mentions(p, name) {
      MentionedStays(p, p.tables.rows, name);
      MentionedStays(p, Removed(p.tables, name).rows, name);
      MentionedBreaks(p, name, mult);
    } else {
      UnmentionedAuthorizations(p.tables.rows, p.authorized, name);
      UnmentionedShares(Authorizations(p.tables.rows, p.authorized), p.shares, name);
      RemoveTogether(p, rows, name, mult);
    }
  }

  lemma MentionedBreaks(p: Pool, name: string, mult: Multiplier)
    requires !Connected(p.live, name) && name in Persisted(Removed(p.tables, name).rows, p.authorized, p.shares)
    ensures !Refines(p.(live := Forgotten(p.live, name), tables := Removed(p.tables, name)), mult)
  {
    hide Persisted, Net, FromRow, Tallied, Removed;
    var q := p.(live := Forgotten(p.live, name), tables := Removed(p.tables, name));
    assert name !in Plain(q.live.workers);
    assert name in FromRows(Persisted(q.tables.rows, p.authorized, p.shares), mult);
  }

  lemma RemoveTogether(p: Pool, rows: map<string, Row>, name: string, mult: Multiplier)
    requires Refines(p, mult) && !Connected(p.live, name) && rows == Persisted(p.tables.rows, p.authorized, p.shares)
    requires Persisted(p.tables.rows - {name}, p.authorized, p.shares) == rows - {name}
    requires name in rows <==> name in p.tables.rows
    requires name in rows ==> rows[name] == p.tables.rows[name]
    ensures Refines(p.(live := Forgotten(p.live, name), tables := Removed(p.tables, name)), mult)
  {
    hide Persisted, Tallied;
    var l := p.live;
    PlainTallied(l);
    StaysTallied(l, DifficultyChanged(0, 0.0), 0, mult, name);
    PlainTallied(Forgotten(l, name));
    hide Applied, Cleared;
    assert Plain(l.workers) == FromRows(rows, mult);
    if name in rows {
      assert Plain(l.workers)[name] == FromRow(rows[name], mult);
      NetLaws(p.tables.retired, rows[name].work, mult);
      hide Net;
      assert Plain(l.workers - {name}) == Plain(l.workers) - {name};
      assert FromRows(rows - {name}, mult) == FromRows(rows, mult) - {name};
    } else {
      assert name !in l.workers;
    }
  }

  // ---------- every step, every run ----------

  /** What a step needs in order to keep the live figures and the tables together. */
  predicate Safe(p: Pool, op: Op) {
    match op
    case ResetStats(flushOk, resetOk) => flushOk || !resetOk || p.shares == []
    case RemoveWorker(name, flushOk, removeOk) => flushOk || !removeOk || Connected(p.live, name) || !Mentions(p, name)
    case Restart(flushOk, loadOk) =>
      loadOk || (Flushed(p, flushOk).tables.rows == map[] && p.tables.retired == 0.0)
    case Happens(_, _, _) => true
    case Tick(_) => true
    case FoundBlock(_, _, _, _) => true
    case Settle(_, _) => true
  }

  /** One step keeps the refinement exactly if it is safe: an operator command must find the queue
      flushed, or holding nothing it concerns, and a restart must read the tables. */
  lemma StepRefinesIff(p: Pool, op: Op, mult: Multiplier)
    requires Refines(p, mult)
    ensures Refines(Stepped(p, op, mult), mult) <==> Safe(p, op)
  {
    hide Refines, Flushed, Cleared, ZeroAll, Forgotten, Removed, Recorded, Restored, Applied, Observed;
    match op {
      case Happens(e, ts, flushOk) =>
        EventRefines(p, e, ts, mult);
        FlushRefines(Observed(p, e, ts).(live := Applied(p.live, e, ts, mult)), flushOk, mult);
      case ResetStats(flushOk, resetOk) =>
        FlushRefines(p, flushOk, mult);
        FlushQueue(p, flushOk);
        ResetRefinesIff(Flushed(p, flushOk), mult);
      case RemoveWorker(name, flushOk, removeOk) =>
        FlushRefines(p, flushOk, mult);
        FlushQueue(p, flushOk);
        if !Connected(p.live, name) {
          RemoveRefinesIff(Flushed(p, flushOk), name, mult);
        }
      case Restart(flushOk, loadOk) =>
        FlushQueue(p, flushOk);
        RestartRefinesIff(Flushed(p, flushOk).tables, loadOk, mult);
      case Tick(flushOk) =>
        FlushRefines(p, flushOk, mult);
      case FoundBlock(coin, hash, foundAt, status) =>
        BlocksApart(p, Recorded(p.tables, coin, hash, foundAt, status).blocks, mult);
        RecordedFrame(p.tables, coin, hash, foundAt, status);
      case Settle(i, status) =>
        BlocksApart(p, Stepped(p, op, mult).tables.blocks, mult);
    }
  }

  lemma FlushQueue(p: Pool, ok: bool)
    ensures var q := Flushed(p, ok);
            && q.live == p.live && q.tables.retired == p.tables.retired
            && (ok ==> q.shares == [] && q.authorized == []) && (!ok ==> q == p)
  {
  }

  lemma BlocksApart(p: Pool, blocks: seq<BlockRow>, mult: Multiplier)
    requires Refines(p, mult)
    ensures Refines(p.(tables := p.tables.(blocks := blocks)), mult)
  {
  }

  lemma RecordedFrame(t: Tables, coin: string, hash: seq<int>, foundAt: nat, status: Status)
    ensures Recorded(t, coin, hash, foundAt, status) == t.(blocks := Recorded(t, coin, hash, foundAt, status).blocks)
  {
    hide TotalWork;
  }

  lemma RestartRefinesIff(t: Tables, loadOk: bool, mult: Multiplier)
    ensures Refines(Pool(if loadOk then Restored(t.rows, t.retired, mult) else NO_LIVE, [], [], t), mult)
       <==> loadOk || (t.rows == map[] && t.retired == 0.0)
  {
    hide FromRow;
    var l := Restored(t.rows, t.retired, mult);
    RestoredIs(l, t.rows, t.retired, mult);
    NetLaws(t.retired, 0.0, mult);
    NetLaws(0.0, t.retired, mult);
    hide Net;
    assert Persisted(t.rows, [], []) == t.rows;
    assert Plain(FromRows(t.rows, mult)) == FromRows(t.rows, mult) by {
      PlainRestored(t.rows, mult);
    }
    assert Plain(map[]) == map[];
    assert FromRows(t.rows, mult).Keys == t.rows.Keys;
    MapSum.AllZero(map[]);
    assert AcceptedOf(map[]) == map[] && RejectedOf(map[]) == map[];
  }

  lemma PlainRestored(rows: map<string, Row>, mult: Multiplier)
    ensures Plain(FromRows(rows, mult)) == FromRows(rows, mult)
  {
    hide Net;
  }

  const EMPTY := Pool(NO_LIVE, [], [], Tables(map[], 0.0, []))

  ghost function After(ops: seq<Op>, mult: Multiplier): Pool
    decreases |ops|
  {
    if ops == [] then EMPTY else Stepped(After(ops[..|ops| - 1], mult), ops[|ops| - 1], mult)
  }

  lemma AfterNext(ops: seq<Op>, i: nat, mult: Multiplier)
    requires i < |ops|
    ensures After(ops[..i + 1], mult) == Stepped(After(ops[..i], mult), ops[i], mult)
  {
    assert ops[..i + 1][..i] == ops[..i] && ops[..i + 1][i] == ops[i];
  }

  /** Over every run whose steps are safe, the live figures are what a restart would show once the
      queue is written: counts, best share and its time, work, payout fields and pool totals. */
  lemma {:induction false} LiveRefinesTables(ops: seq<Op>, n: nat, mult: Multiplier)
    requires n <= |ops|
    requires forall i :: 0 <= i < n ==> Safe(After(ops[..i], mult), ops[i])
    ensures Refines(After(ops[..n], mult), mult)
  {
    assert ops[..0] == [];
    if n == 0 {
      RestartRefinesIff(EMPTY.tables, false, mult);
    } else {
      LiveRefinesTables(ops, n - 1, mult);
      AfterNext(ops, n - 1, mult);
      StepRefinesIff(After(ops[..n - 1], mult), ops[n - 1], mult);
    }
  }

  predicate Succeeds(op: Op) {
    match op
    case ResetStats(flushOk, _) => flushOk
    case RemoveWorker(_, flushOk, _) => flushOk
    case Restart(_, loadOk) => loadOk
    case Happens(_, _, _) => true
    case Tick(_) => true
    case FoundBlock(_, _, _, _) => true
    case Settle(_, _) => true
  }

  /** In particular whenever the flush before each command succeeds, however many others fail. */
  lemma LiveRefinesIfCommandsFlush(ops: seq<Op>, mult: Multiplier)
    requires forall i :: 0 <= i < |ops| ==> Succeeds(ops[i])
    ensures Refines(After(ops, mult), mult)
  {
    assert ops[..|ops|] == ops;
    forall i | 0 <= i < |ops| ensures Safe(After(ops[..i], mult), ops[i]) {
      assert Succeeds(ops[i]);
    }
    LiveRefinesTables(ops, |ops|, mult);
  }

  /** A worker that authorizes, submits a share and leaves. */
  function ShareOf(session: nat, name: string, address: string, share: PoolEvent, ts: nat): seq<Op> {
    [Happens(Authorized(session, name, address, false, []), ts, true), Happens(share, ts, true),
     Happens(Disconnected(session, [name]), ts, true)]
  }

  lemma AfterShareOf(session: nat, name: string, address: string, share: PoolEvent, ts: nat, mult: Multiplier)
    requires share.Share? && share.session == session && share.worker == name
    ensures var p := After(ShareOf(session, name, address, share, ts), mult);
            p.shares == [AsShare(share, ts)] && !Connected(p.live, name)
  {
    hide Net, Credited;
    var ops := ShareOf(session, name, address, share, ts);
    assert ops[..3] == ops && ops[..0] == [];
    AfterNext(ops, 0, mult);
    AfterNext(ops, 1, mult);
    AfterNext(ops, 2, mult);
    assert After(ops[..0], mult) == EMPTY;
    var live := After(ops[..2], mult).live;
    CreditKeepsSessions(WorkerFor(After(ops[..1], mult).live.workers, name), AsShare(share, ts), mult);
    assert live.workers[name].sessions <= {session};
  }

  lemma CreditKeepsSessions(w: Worker, s: NewShare, mult: Multiplier)
    ensures Credited(w, s, mult).sessions == w.sessions
  {
  }

  /** A worker's share, then a reset whose flush fails: the figures part. */
  lemma FailedFlushThenReset(session: nat, name: string, address: string, share: PoolEvent, ts: nat, mult: Multiplier)
    requires share.Share? && share.session == session && share.worker == name
    ensures !Refines(After(ShareOf(session, name, address, share, ts) + [ResetStats(false, true)], mult), mult)
  {
    hide After;
    AfterShareOf(session, name, address, share, ts, mult);
    Parted(ShareOf(session, name, address, share, ts), ResetStats(false, true), mult);
  }

  /** The same for removing the worker once it is gone. */
  lemma FailedFlushThenRemove(session: nat, name: string, address: string, share: PoolEvent, ts: nat, mult: Multiplier)
    requires share.Share? && share.session == session && share.worker == name
    ensures !Refines(After(ShareOf(session, name, address, share, ts) + [RemoveWorker(name, false, true)], mult), mult)
  {
    hide After;
    AfterShareOf(session, name, address, share, ts, mult);
    assert After(ShareOf(session, name, address, share, ts), mult).shares[0].worker == name;
    Parted(ShareOf(session, name, address, share, ts), RemoveWorker(name, false, true), mult);
  }

  /** An unsafe step after events parts the figures. */
  lemma Parted(ops: seq<Op>, op: Op, mult: Multiplier)
    requires (forall i :: 0 <= i < |ops| ==> ops[i].Happens?) && !Safe(After(ops, mult), op)
    ensures !Refines(After(ops + [op], mult), mult)
  {
    hide Stepped, Refines;
    var run := ops + [op];
    assert ops[..|ops|] == ops && run[..|ops|] == ops && run[|ops|] == op && run[..|run|] == run;
    forall i | 0 <= i < |ops| ensures Safe(After(ops[..i], mult), ops[i]) {
      assert ops[i].Happens?;
    }
    LiveRefinesTables(ops, |ops|, mult);
    AfterNext(run, |ops|, mult);
    StepRefinesIff(After(ops, mult), op, mult);
  }
}
