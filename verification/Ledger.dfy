/** The accounting tables: worker rows, retired work and blocks. Work and best shares are in
    stratum share units. A transaction either commits or leaves the tables alone. */
module Ledger {
  import opened Wrappers
  import opened Events
  import MapSum

  type NonNeg = r: real | r >= 0.0

  datatype Row = Row(
    address: string, fallback: bool, aux: seq<AuxPayoutInfo>, firstSeen: nat, lastSeen: nat,
    accepted: nat, rejected: nat, best: NonNeg, bestAt: Option<nat>, work: real)

  datatype WorkerWrite = WorkerWrite(name: string, address: string, fallback: bool, aux: seq<AuxPayoutInfo>, ts: nat)

  datatype NewShare = NewShare(ts: nat, worker: string, difficulty: real, shareDiff: real, accepted: bool)

  datatype Status = Accepted | Rejected | Confirmed | Orphaned

  datatype BlockRow = BlockRow(coin: string, hash: seq<int>, foundAt: nat, status: Status, workAtFound: real)

  datatype Tables = Tables(rows: map<string, Row>, retired: real, blocks: seq<BlockRow>)

  // ---------- writes as functions ----------

  function AuthorizeRow(rows: map<string, Row>, w: WorkerWrite): map<string, Row> {
    if w.name in rows then
      var r := rows[w.name];
      rows[w.name := r.(address := w.address, fallback := w.fallback, aux := w.aux,
                        lastSeen := if r.lastSeen < w.ts then w.ts else r.lastSeen)]
    else
      rows[w.name := Row(w.address, w.fallback, w.aux, w.ts, w.ts, 0, 0, 0.0, None, 0.0)]
  }

  /** The row a share is counted on, inserted if the worker has none. */
  function RowFor(rows: map<string, Row>, s: NewShare): Row {
    if s.worker in rows then rows[s.worker] else Row("", false, [], s.ts, s.ts, 0, 0, 0.0, None, 0.0)
  }

  function Counted(r: Row, s: NewShare): Row {
    var best := if s.accepted then s.shareDiff else 0.0;
    r.(lastSeen := if r.lastSeen < s.ts then s.ts else r.lastSeen,
       accepted := r.accepted + (if s.accepted then 1 else 0),
       rejected := r.rejected + (if s.accepted then 0 else 1),
       bestAt := if best > r.best then Some(s.ts) else r.bestAt,
       best := if r.best < best then best else r.best,
       work := r.work + (if s.accepted then s.difficulty else 0.0))
  }

  function CountShare(rows: map<string, Row>, s: NewShare): map<string, Row> {
    rows[s.worker := Counted(RowFor(rows, s), s)]
  }

  function Authorizations(rows: map<string, Row>, ws: seq<WorkerWrite>): map<string, Row>
    decreases |ws|
  {
    if ws == [] then rows else AuthorizeRow(Authorizations(rows, ws[..|ws| - 1]), ws[|ws| - 1])
  }

  function Shares(rows: map<string, Row>, ss: seq<NewShare>): map<string, Row>
    decreases |ss|
  {
    if ss == [] then rows else CountShare(Shares(rows, ss[..|ss| - 1]), ss[|ss| - 1])
  }

  /** Authorizations go first, so that a share of the same batch finds its worker. */
  function Persisted(rows: map<string, Row>, ws: seq<WorkerWrite>, ss: seq<NewShare>): map<string, Row> {
    Shares(Authorizations(rows, ws), ss)
  }

  function Zeroed(r: Row): Row {
    r.(accepted := 0, rejected := 0, best := 0.0, bestAt := None)
  }

  function ZeroAll(rows: map<string, Row>): map<string, Row> {
    map n | n in rows :: Zeroed(rows[n])
  }

  function Removed(t: Tables, name: string): Tables {
    if name in t.rows then t.(retired := t.retired + t.rows[name].work, rows := t.rows - {name}) else t
  }

  // ---------- when a worker was seen ----------

  /** Times of the batch's writes for a worker: authorizations, then shares. */
  function WriteTimes(ws: seq<WorkerWrite>, ss: seq<NewShare>, name: string): seq<nat>
    decreases |ws|, |ss|
  {
    if ss != [] then
      WriteTimes(ws, ss[..|ss| - 1], name) + (if ss[|ss| - 1].worker == name then [ss[|ss| - 1].ts] else [])
    else if ws != [] then
      WriteTimes(ws[..|ws| - 1], [], name) + (if ws[|ws| - 1].name == name then [ws[|ws| - 1].ts] else [])
    else []
  }

  function Latest(was: nat, times: seq<nat>): (t: nat)
    ensures was <= t && (forall i :: 0 <= i < |times| ==> times[i] <= t) && (t == was || t in times)
    decreases |times|
  {
    if times == [] then was
    else
      var t, x := Latest(was, times[..|times| - 1]), times[|times| - 1];
      if t < x then x else t
  }

  /** The worker has a row if it had one or was written; a new row was first seen at the first write, and
      any row was last seen at the latest. */
  predicate SeenAs(rows: map<string, Row>, after: map<string, Row>, times: seq<nat>, name: string) {
    && (name in after <==> name in rows || times != [])
    && (name in rows ==> && after[name].firstSeen == rows[name].firstSeen
                         && after[name].lastSeen == Latest(rows[name].lastSeen, times))
    && (name !in rows && times != [] ==>
          && after[name].firstSeen == times[0] && after[name].lastSeen == Latest(times[0], times))
  }

  /** A batch makes rows for exactly the workers it names, and keeps their times of being seen. */
  lemma {:induction false} SeenTimes(rows: map<string, Row>, ws: seq<WorkerWrite>, ss: seq<NewShare>, name: string)
    ensures SeenAs(rows, Persisted(rows, ws, ss), WriteTimes(ws, ss, name), name)
    decreases |ws|, |ss|
  {
    hide SeenAs, AuthorizeRow, CountShare;
    if ss != [] {
      SeenTimes(rows, ws, ss[..|ss| - 1], name);
      var before := Persisted(rows, ws, ss[..|ss| - 1]);
      ShareSeen(before, ss[|ss| - 1]);
      SeenNext(rows, before, Persisted(rows, ws, ss), WriteTimes(ws, ss[..|ss| - 1], name), name, ss[|ss| - 1].worker,
               ss[|ss| - 1].ts);
    } else if ws != [] {
      SeenTimes(rows, ws[..|ws| - 1], [], name);
      var before := Persisted(rows, ws[..|ws| - 1], []);
      AuthorizeSeen(before, ws[|ws| - 1]);
      SeenNext(rows, before, Persisted(rows, ws, []), WriteTimes(ws[..|ws| - 1], [], name), name, ws[|ws| - 1].name,
               ws[|ws| - 1].ts);
    } else {
      NotSeen(rows, name);
    }
  }

  lemma NotSeen(rows: map<string, Row>, name: string)
    ensures SeenAs(rows, rows, [], name)
  {
  }

  /** One write: only the writer's row changes, is made at the write's time or brought up to it. */
  predicate Touched(before: map<string, Row>, after: map<string, Row>, writer: string, ts: nat) {
    && after.Keys == before.Keys + {writer}
    && (forall n :: n in before && n != writer ==> after[n] == before[n])
    && (writer !in before ==> after[writer].firstSeen == ts && after[writer].lastSeen == ts)
    && (writer in before ==>
          && after[writer].firstSeen == before[writer].firstSeen
          && after[writer].lastSeen == if before[writer].lastSeen < ts then ts else before[writer].lastSeen)
  }

  lemma ShareSeen(rows: map<string, Row>, s: NewShare)
    ensures Touched(rows, CountShare(rows, s), s.worker, s.ts)
  {
  }

  lemma AuthorizeSeen(rows: map<string, Row>, w: WorkerWrite)
    ensures Touched(rows, AuthorizeRow(rows, w), w.name, w.ts)
  {
  }

  lemma SeenNext(
    rows: map<string, Row>, before: map<string, Row>, after: map<string, Row>, times: seq<nat>, name: string,
    writer: string, ts: nat)
    requires SeenAs(rows, before, times, name) && Touched(before, after, writer, ts)
    ensures SeenAs(rows, after, times + (if writer == name then [ts] else []), name)
  {
    assert times + [] == times && (times + [ts])[0] == if times == [] then ts else times[0];
    LatestNext(if name in rows then rows[name].lastSeen else (times + [ts])[0], times, ts);
    if times == [] {
      LatestNext(ts, [], ts);
    }
    hide Latest;
  }

  lemma LatestNext(was: nat, times: seq<nat>, t: nat)
    ensures Latest(was, times + [t]) == if Latest(was, times) < t then t else Latest(was, times)
    ensures Latest(was, []) == was
  {
    assert (times + [t])[..|times + [t]| - 1] == times;
  }

  // ---------- total work ----------

  function WorkOf(rows: map<string, Row>): map<string, real> {
    map n | n in rows :: rows[n].work
  }

  ghost function TotalWork(t: Tables): real {
    MapSum.Sum(WorkOf(t.rows)) + t.retired
  }

  /** Work the queued shares will add. */
  function Pending(ss: seq<NewShare>): real
    decreases |ss|
  {
    if ss == [] then 0.0
    else Pending(ss[..|ss| - 1]) + (if ss[|ss| - 1].accepted then ss[|ss| - 1].difficulty else 0.0)
  }

  lemma AuthorizeKeepsWork(rows: map<string, Row>, w: WorkerWrite)
    ensures MapSum.Sum(WorkOf(AuthorizeRow(rows, w))) == MapSum.Sum(WorkOf(rows))
  {
    var v := if w.name in rows then rows[w.name].work else 0.0;
    MapSum.Update(WorkOf(rows), w.name, v);
    assert WorkOf(AuthorizeRow(rows, w)) == WorkOf(rows)[w.name := v];
  }

  lemma CountAddsWork(rows: map<string, Row>, s: NewShare)
    ensures MapSum.Sum(WorkOf(CountShare(rows, s)))
         == MapSum.Sum(WorkOf(rows)) + if s.accepted then s.difficulty else 0.0
  {
    var v := Counted(RowFor(rows, s), s).work;
    MapSum.Update(WorkOf(rows), s.worker, v);
    assert WorkOf(CountShare(rows, s)) == WorkOf(rows)[s.worker := v];
  }

  lemma {:induction false} AuthorizationsKeepWork(rows: map<string, Row>, ws: seq<WorkerWrite>)
    ensures MapSum.Sum(WorkOf(Authorizations(rows, ws))) == MapSum.Sum(WorkOf(rows))
    decreases |ws|
  {
    if ws != [] {
      AuthorizationsKeepWork(rows, ws[..|ws| - 1]);
      AuthorizeKeepsWork(Authorizations(rows, ws[..|ws| - 1]), ws[|ws| - 1]);
    }
  }

  lemma {:induction false} SharesAddWork(rows: map<string, Row>, ss: seq<NewShare>)
    ensures MapSum.Sum(WorkOf(Shares(rows, ss))) == MapSum.Sum(WorkOf(rows)) + Pending(ss)
    decreases |ss|
  {
    if ss != [] {
      SharesAddWork(rows, ss[..|ss| - 1]);
      CountAddsWork(Shares(rows, ss[..|ss| - 1]), ss[|ss| - 1]);
    }
  }

  /** A batch adds the work of its accepted shares; zeroing and removing change no total. */
  lemma WorkConserved(t: Tables, ws: seq<WorkerWrite>, ss: seq<NewShare>, name: string)
    ensures TotalWork(t.(rows := Persisted(t.rows, ws, ss))) == TotalWork(t) + Pending(ss)
    ensures TotalWork(t.(rows := ZeroAll(t.rows))) == TotalWork(t)
    ensures TotalWork(Removed(t, name)) == TotalWork(t)
  {
    AuthorizationsKeepWork(t.rows, ws);
    SharesAddWork(Authorizations(t.rows, ws), ss);
    assert WorkOf(ZeroAll(t.rows)) == WorkOf(t.rows);
    if name in t.rows {
      MapSum.TakeOut(WorkOf(t.rows), name);
      assert WorkOf(t.rows - {name}) == WorkOf(t.rows) - {name};
    }
  }

  // ---------- the store ----------

  predicate SameBlock(b: BlockRow, coin: string, hash: seq<int>) {
    b.coin == coin && b.hash == hash
  }

  /** Recording a block again only updates its status. */
  ghost function Recorded(t: Tables, coin: string, hash: seq<int>, foundAt: nat, status: Status): Tables {
    if exists i :: 0 <= i < |t.blocks| && SameBlock(t.blocks[i], coin, hash) then
      t.(blocks := seq(|t.blocks|, i requires 0 <= i < |t.blocks| =>
           if SameBlock(t.blocks[i], coin, hash) then t.blocks[i].(status := status) else t.blocks[i]))
    else
      t.(blocks := t.blocks + [BlockRow(coin, hash, foundAt, status, TotalWork(t))])
  }

  /** No block has two rows. */
  predicate RecordedOnce(blocks: seq<BlockRow>) {
    forall i, j :: 0 <= i < j < |blocks| ==> blocks[i].coin != blocks[j].coin || blocks[i].hash != blocks[j].hash
  }

  /** A block that has a row keeps it, under the new status, and all other rows stay; any other gets one at
      the end, with the total work at that moment. */
  lemma BlockRecorded(t: Tables, coin: string, hash: seq<int>, foundAt: nat, status: Status)
    requires RecordedOnce(t.blocks)
    ensures var u := Recorded(t, coin, hash, foundAt, status);
            && u == t.(blocks := u.blocks) && RecordedOnce(u.blocks)
            && (forall i :: 0 <= i < |t.blocks| ==>
                  i < |u.blocks|
                  && u.blocks[i] == if t.blocks[i].coin == coin && t.blocks[i].hash == hash
                                    then t.blocks[i].(status := status) else t.blocks[i])
            && (if exists i :: 0 <= i < |t.blocks| && t.blocks[i].coin == coin && t.blocks[i].hash == hash
                then |u.blocks| == |t.blocks|
                else && |u.blocks| == |t.blocks| + 1
                     && u.blocks[|t.blocks|] == BlockRow(coin, hash, foundAt, status, TotalWork(t)))
  {
    assert forall b :: SameBlock(b, coin, hash) <==> b.coin == coin && b.hash == hash;
    hide TotalWork, SameBlock;
  }

  class Store {
    var rows: map<string, Row>
    var retired: real
    var blocks: seq<BlockRow>

    function View(): Tables
      reads this
    {
      Tables(rows, retired, blocks)
    }

    constructor ()
      ensures View() == Tables(map[], 0.0, [])
    {
      rows, retired, blocks := map[], 0.0, [];
    }

    method PersistBatch(ws: seq<WorkerWrite>, ss: seq<NewShare>, commits: bool)
      modifies this`rows
      ensures rows == if commits then Persisted(old(rows), ws, ss) else old(rows)
    {
      if !commits {
        return;
      }
      var i := 0;
      while i < |ws|
        invariant 0 <= i <= |ws| && rows == Authorizations(old(rows), ws[..i])
      {
        assert ws[..i + 1][..i] == ws[..i];
        rows := AuthorizeRow(rows, ws[i]);
        i := i + 1;
      }
      assert ws[..i] == ws;
      i := 0;
      while i < |ss|
        invariant 0 <= i <= |ss| && rows == Shares(Authorizations(old(rows), ws), ss[..i])
      {
        assert ss[..i + 1][..i] == ss[..i];
        UpsertShare(ss[i]);
        i := i + 1;
      }
      assert ss[..i] == ss;
    }

    /** Insert the worker's row if it is missing, then update it. */
    method UpsertShare(s: NewShare)
      modifies this`rows
      ensures rows == CountShare(old(rows), s)
    {
      if s.worker !in rows {
        rows := rows[s.worker := Row("", false, [], s.ts, s.ts, 0, 0, 0.0, None, 0.0)];
      }
      var r := rows[s.worker];
      var best := if s.accepted then s.shareDiff else 0.0;
      var bestAt := if best > r.best then Some(s.ts) else r.bestAt;
      var work := if s.accepted then s.difficulty else 0.0;
      rows := rows[s.worker :=
        Row(r.address, r.fallback, r.aux, r.firstSeen, if r.lastSeen < s.ts then s.ts else r.lastSeen,
            if s.accepted then r.accepted + 1 else r.accepted, if s.accepted then r.rejected else r.rejected + 1,
            if r.best < best then best else r.best, bestAt, r.work + work)];
    }

    method ResetShareCounters(commits: bool)
      modifies this`rows
      ensures rows == if commits then ZeroAll(old(rows)) else old(rows)
    {
      if commits {
        rows := map n | n in rows :: rows[n].(accepted := 0, rejected := 0, best := 0.0, bestAt := None);
      }
    }

    /** Bank the worker's work and forget its row. */
    method RemoveWorker(name: string, commits: bool) returns (work: Option<real>)
      modifies this
      ensures View() == if commits then Removed(old(View()), name) else old(View())
      ensures work == if commits && name in old(rows) then Some(old(rows)[name].work) else None
    {
      if !commits || name !in rows {
        return None;
      }
      work := Some(rows[name].work);
      retired := retired + rows[name].work;
      rows := rows - {name};
    }

    method SumWork() returns (total: real)
      ensures total == TotalWork(View())
    {
      var names := rows.Keys;
      total := retired;
      assert (WorkOf(rows) - (rows.Keys - names)) == WorkOf(rows);
      while names != {}
        invariant names <= rows.Keys
        invariant total + MapSum.Sum(WorkOf(rows) - (rows.Keys - names)) == TotalWork(View())
        decreases names
      {
        var n :| n in names;
        ghost var left := WorkOf(rows) - (rows.Keys - names);
        MapSum.TakeOut(left, n);
        assert left - {n} == WorkOf(rows) - (rows.Keys - (names - {n}));
        total := total + rows[n].work;
        names := names - {n};
      }
      assert WorkOf(rows) - rows.Keys == map[];
    }

    method InsertBlock(coin: string, hash: seq<int>, foundAt: nat, status: Status)
      modifies this`blocks
      ensures View() == Recorded(old(View()), coin, hash, foundAt, status)
    {
      var i := 0;
      while i < |blocks| && !SameBlock(blocks[i], coin, hash)
        invariant 0 <= i <= |blocks|
        invariant forall j :: 0 <= j < i ==> !SameBlock(blocks[j], coin, hash)
      {
        i := i + 1;
      }
      if i < |blocks| {
        blocks := seq(|blocks|, j requires 0 <= j < |blocks| reads this =>
          if SameBlock(blocks[j], coin, hash) then blocks[j].(status := status) else blocks[j]);
      } else {
        var total := SumWork();
        blocks := blocks + [BlockRow(coin, hash, foundAt, status, total)];
      }
    }
  }
}
