/** The publisher: it queues writes, keeps the live statistics and runs the operator's
    commands. */
module Publisher {
  import opened Wrappers
  import opened Events
  import opened Ledger
  import opened LiveStats
  import MapSum

  const FLUSH_THRESHOLD := 256

  /** Everything the accounting side holds. */
  datatype Pool = Pool(live: Live, authorized: seq<WorkerWrite>, shares: seq<NewShare>, tables: Tables)

  const NO_LIVE := Live(map[], 0, 0, 0.0)

  /** The flags say whether a database write or read succeeds. */
  datatype Op =
    | Happens(e: PoolEvent, ts: nat, flushOk: bool)
    | ResetStats(flushOk: bool, resetOk: bool)
    | RemoveWorker(name: string, flushOk: bool, removeOk: bool)
    | Tick(flushOk: bool)
    | FoundBlock(coin: string, hash: seq<int>, foundAt: nat, status: Status)
    | Settle(index: nat, status: Status)
    | Restart(flushOk: bool, loadOk: bool)

  // ---------- the steps as functions ----------

  function Observed(p: Pool, e: PoolEvent, ts: nat): Pool {
    match e
    case Authorized(_, _, _, _, _) => p.(authorized := p.authorized + [Write(e, ts)])
    case Share(_, _, _, _, _, _) => p.(shares := p.shares + [AsShare(e, ts)])
    case Disconnected(_, _) => p
    case DifficultyChanged(_, _) => p
  }

  /** A failed flush keeps the queue. */
  function Flushed(p: Pool, ok: bool): Pool {
    if ok
    then p.(authorized := [], shares := [],
        tables := p.tables.(rows := Persisted(p.tables.rows, p.authorized, p.shares)))
    else p
  }

  ghost function Restored(rows: map<string, Row>, retired: real, mult: Multiplier): Live {
    var workers := FromRows(rows, mult);
    Live(workers, MapSum.Sum(AcceptedOf(workers)).Floor, MapSum.Sum(RejectedOf(workers)).Floor, Net(retired, mult))
  }

  ghost function Stepped(p: Pool, op: Op, mult: Multiplier): Pool {
    match op
    case Happens(e, ts, flushOk) =>
      var q := Observed(p, e, ts).(live := Applied(p.live, e, ts, mult));
      if |q.shares| >= FLUSH_THRESHOLD then Flushed(q, flushOk) else q
    case ResetStats(flushOk, resetOk) =>
      var q := Flushed(p, flushOk);
      if resetOk then q.(live := Cleared(q.live), tables := q.tables.(rows := ZeroAll(q.tables.rows))) else q
    case RemoveWorker(name, flushOk, removeOk) =>
      if Connected(p.live, name) then p
      else
        var q := Flushed(p, flushOk);
        if removeOk then q.(live := Forgotten(q.live, name), tables := Removed(q.tables, name)) else q
    case Tick(flushOk) => Flushed(p, flushOk)
    case FoundBlock(coin, hash, foundAt, status) => p.(tables := Recorded(p.tables, coin, hash, foundAt, status))
    case Settle(i, status) =>
      if i < |p.tables.blocks|
      then p.(tables := p.tables.(blocks := p.tables.blocks[i := p.tables.blocks[i].(status := status)]))
      else p
    case Restart(flushOk, loadOk) =>
      var q := Flushed(p, flushOk);
      Pool(if loadOk then Restored(q.tables.rows, q.tables.retired, mult) else NO_LIVE, [], [], q.tables)
  }

  /** An event waits in the queue, in order, until 256 shares are queued; then the queue is written if the
      database lets it be, and else kept. Only shares and authorizations are written. */
  lemma EventQueues(p: Pool, e: PoolEvent, ts: nat, flushOk: bool, mult: Multiplier)
    ensures var q := Stepped(p, Happens(e, ts, flushOk), mult);
            var names := p.authorized
                + (if e.Authorized? then [WorkerWrite(e.worker, e.address, e.fallback, e.aux, ts)] else []);
            var shares := p.shares
                + (if e.Share? then [NewShare(ts, e.worker, e.jobDifficulty, e.shareDifficulty, e.rejected.None?)]
                   else []);
            if |shares| < 256 || !flushOk
            then q.authorized == names && q.shares == shares && q.tables == p.tables
            else && q.authorized == [] && q.shares == []
                 && q.tables == p.tables.(rows := Persisted(p.tables.rows, names, shares))
  {
    hide Applied, Persisted;
    assert p.authorized + [] == p.authorized && p.shares + [] == p.shares;
  }

  /** Settling a block sets its status and touches nothing else. */
  lemma SettleSets(p: Pool, index: nat, status: Status, mult: Multiplier)
    ensures var q := Stepped(p, Settle(index, status), mult);
            && q == p.(tables := p.tables.(blocks := q.tables.blocks)) && |q.tables.blocks| == |p.tables.blocks|
            && (forall i :: 0 <= i < |p.tables.blocks| && i != index ==> q.tables.blocks[i] == p.tables.blocks[i])
            && (index < |p.tables.blocks| ==>
                  q.tables.blocks[index] == p.tables.blocks[index].(status := status))
  {
  }

  // ---------- the objects ----------

  /** Queued accounting writes. */
  class Persistence {
    const store: Store
    var authorized: seq<WorkerWrite>
    var shares: seq<NewShare>

    constructor (store: Store)
      ensures this.store == store && authorized == [] && shares == []
    {
      this.store := store;
      authorized, shares := [], [];
    }

    method Observe(e: PoolEvent, ts: nat)
      modifies this
      ensures forall p: Pool :: p.authorized == old(authorized) && p.shares == old(shares) ==>
                Observed(p, e, ts) == p.(authorized := authorized, shares := shares)
    {
      match e {
        case Authorized(_, name, address, fallback, aux) =>
          authorized := authorized + [WorkerWrite(name, address, fallback, aux, ts)];
        case Share(_, worker, _, jobDifficulty, shareDifficulty, rejected) =>
          shares := shares + [NewShare(ts, worker, jobDifficulty, shareDifficulty, rejected.None?)];
        case Disconnected(_, _) =>
        case DifficultyChanged(_, _) =>
      }
    }

    method Flush(ok: bool)
      modifies this, store`rows
      ensures store.rows == if ok then Persisted(old(store.rows), old(authorized), old(shares)) else old(store.rows)
      ensures authorized == (if ok then [] else old(authorized)) && shares == (if ok then [] else old(shares))
    {
      if authorized == [] && shares == [] {
        return;
      }
      store.PersistBatch(authorized, shares, ok);
      if ok {
        authorized, shares := [], [];
      }
    }
  }

  class Books {
    const store: Store
    const stats: Stats
    const persist: Persistence

    ghost predicate Valid()
      reads this
    {
      persist.store == store
    }

    function View(): Pool
      reads this, stats, persist, store
    {
      Pool(stats.View(), persist.authorized, persist.shares, store.View())
    }

    /** Start on a store: restore the statistics, or start empty if they cannot be read. */
    constructor (store: Store, mult: Multiplier, loadOk: bool)
      ensures Valid() && this.store == store && stats.mult == mult && fresh(stats) && fresh(persist)
      ensures View() == Pool(if loadOk then Restored(store.rows, store.retired, mult) else NO_LIVE,
                             [], [], store.View())
    {
      this.store := store;
      stats := new Stats(mult);
      persist := new Persistence(store);
      new;
      if loadOk {
        stats.Restore(store.rows, store.retired);
        RestoredIs(stats.View(), store.rows, store.retired, mult);
      }
    }

    method HandleEvent(e: PoolEvent, ts: nat, flushOk: bool)
      requires Valid()
      modifies stats, persist, store`rows
      ensures View() == Stepped(old(View()), Happens(e, ts, flushOk), stats.mult)
    {
      hide Applied, Persisted, Observed;
      persist.Observe(e, ts);
      stats.Apply(e, ts);
      assert View() == Observed(old(View()), e, ts).(live := Applied(old(stats.View()), e, ts, stats.mult));
      if |persist.shares| >= FLUSH_THRESHOLD {
        persist.Flush(flushOk);
      }
    }

    method HandleReset(flushOk: bool, resetOk: bool)
      requires Valid()
      modifies stats, persist, store`rows
      ensures View() == Stepped(old(View()), ResetStats(flushOk, resetOk), stats.mult)
    {
      hide Persisted, ZeroAll, Cleared;
      persist.Flush(flushOk);
      store.ResetShareCounters(resetOk);
      if resetOk {
        stats.ResetCounters();
      }
    }

    method HandleRemove(name: string, flushOk: bool, removeOk: bool)
      requires Valid()
      modifies stats, persist, store
      ensures View() == Stepped(old(View()), RemoveWorker(name, flushOk, removeOk), stats.mult)
    {
      hide Persisted, Removed, Forgotten;
      if Connected(stats.View(), name) {
        return;
      }
      persist.Flush(flushOk);
      var banked := store.RemoveWorker(name, removeOk);
      if removeOk {
        var gone := stats.RemoveWorker(name);
      }
    }

    method HandleTick(flushOk: bool)
      requires Valid()
      modifies persist, store`rows
      ensures View() == Stepped(old(View()), Tick(flushOk), stats.mult)
    {
      persist.Flush(flushOk);
    }
  }

  /** A restart builds exactly one state from the tables. */
  lemma RestoredIs(l: Live, rows: map<string, Row>, retired: real, mult: Multiplier)
    ensures RestoredFrom(l, rows, retired, mult) <==> l == Restored(rows, retired, mult)
  {
    hide Net, FromRow;
    var workers := FromRows(rows, mult);
    var a := Integral(AcceptedOf(workers));
    var r := Integral(RejectedOf(workers));
  }

  lemma {:induction false} Integral(m: map<string, real>) returns (n: int)
    requires forall k :: k in m ==> m[k].Floor as real == m[k]
    ensures MapSum.Sum(m) == n as real
    decreases |m|
  {
    n := 0;
    if m != map[] {
      var k :| k in m;
      MapSum.TakeOut(m, k);
      n := Integral(m - {k});
      n := m[k].Floor + n;
    }
  }
}
