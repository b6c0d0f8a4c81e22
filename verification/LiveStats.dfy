/** The live statistics kept beside the tables, in network difficulty units. */
module LiveStats {
  import opened Wrappers
  import opened Events
  import opened Ledger
  import MapSum

  /** Stratum share difficulty per unit of network difficulty. */
  type Multiplier = m: real | m > 0.0 witness 1.0

  function Net(x: real, mult: Multiplier): real {
    x / mult
  }

  datatype Worker = Worker(
    address: string, fallback: bool, aux: seq<AuxPayoutInfo>, sessions: set<nat>,
    accepted: nat, rejected: nat, best: real, bestAt: Option<nat>, work: real)

  const UNSEEN := Worker("", false, [], {}, 0, 0, 0.0, None, 0.0)

  datatype Live = Live(workers: map<string, Worker>, accepted: int, rejected: int, retired: real)

  // ---------- events as functions ----------

  function WorkerFor(workers: map<string, Worker>, name: string): Worker {
    if name in workers then workers[name] else UNSEEN
  }

  function SeenAuthorized(l: Live, w: WorkerWrite, session: nat): Live {
    var was := WorkerFor(l.workers, w.name);
    l.(workers := l.workers[w.name := was.(address := w.address, fallback := w.fallback, aux := w.aux,
                                           sessions := was.sessions + {session})])
  }

  function Credited(w: Worker, s: NewShare, mult: Multiplier): Worker {
    if !s.accepted then w.(rejected := w.rejected + 1)
    else
      var share := Net(s.shareDiff, mult);
      var better := share > w.best;
      w.(accepted := w.accepted + 1, best := if better then share else w.best,
         bestAt := if better then Some(s.ts) else w.bestAt, work := w.work + Net(s.difficulty, mult))
  }

  function SeenShare(l: Live, s: NewShare, mult: Multiplier): Live {
    Live(l.workers[s.worker := Credited(WorkerFor(l.workers, s.worker), s, mult)],
         l.accepted + (if s.accepted then 1 else 0), l.rejected + (if s.accepted then 0 else 1), l.retired)
  }

  function SeenGone(l: Live, session: nat, names: seq<string>): Live {
    l.(workers := map n | n in l.workers ::
         if n in names then l.workers[n].(sessions := l.workers[n].sessions - {session}) else l.workers[n])
  }

  function Write(e: PoolEvent, ts: nat): WorkerWrite
    requires e.Authorized?
  {
    WorkerWrite(e.worker, e.address, e.fallback, e.aux, ts)
  }

  function AsShare(e: PoolEvent, ts: nat): NewShare
    requires e.Share?
  {
    NewShare(ts, e.worker, e.jobDifficulty, e.shareDifficulty, e.rejected.None?)
  }

  function Applied(l: Live, e: PoolEvent, ts: nat, mult: Multiplier): Live {
    match e
    case Authorized(session, _, _, _, _) => SeenAuthorized(l, Write(e, ts), session)
    case Share(_, _, _, _, _, _) => SeenShare(l, AsShare(e, ts), mult)
    case Disconnected(session, names) => SeenGone(l, session, names)
    case DifficultyChanged(_, _) => l
  }

  function Cleared(l: Live): Live {
    Live(map n | n in l.workers :: l.workers[n].(accepted := 0, rejected := 0, best := 0.0, bestAt := None), 0, 0,
        l.retired)
  }

  predicate Connected(l: Live, name: string) {
    name in l.workers && l.workers[name].sessions != {}
  }

  function Forgotten(l: Live, name: string): Live {
    if name !in l.workers || Connected(l, name) then l
    else
      var w := l.workers[name];
      Live(l.workers - {name}, l.accepted - w.accepted, l.rejected - w.rejected, l.retired + w.work)
  }

  // ---------- restoring from the tables ----------

  function FromRow(r: Row, mult: Multiplier): Worker {
    Worker(r.address, r.fallback, r.aux, {}, r.accepted, r.rejected, Net(r.best, mult), r.bestAt, Net(r.work, mult))
  }

  function FromRows(rows: map<string, Row>, mult: Multiplier): map<string, Worker> {
    map n | n in rows :: FromRow(rows[n], mult)
  }

  function AcceptedOf(workers: map<string, Worker>): map<string, real> {
    map n | n in workers :: workers[n].accepted as real
  }

  function RejectedOf(workers: map<string, Worker>): map<string, real> {
    map n | n in workers :: workers[n].rejected as real
  }

  function NetWorkOf(workers: map<string, Worker>): map<string, real> {
    map n | n in workers :: workers[n].work
  }

  /** The pool counters are the workers' sums. */
  ghost predicate Tallied(l: Live) {
    && l.accepted as real == MapSum.Sum(AcceptedOf(l.workers))
    && l.rejected as real == MapSum.Sum(RejectedOf(l.workers))
  }

  /** `l` is what `restore` builds from the tables. */
  ghost predicate RestoredFrom(l: Live, rows: map<string, Row>, retired: real, mult: Multiplier) {
    l.workers == FromRows(rows, mult) && l.retired == Net(retired, mult) && Tallied(l)
  }

  ghost function TotalNet(l: Live): real {
    MapSum.Sum(NetWorkOf(l.workers)) + l.retired
  }

  // ---------- the live statistics ----------

  class Stats {
    const mult: Multiplier
    var workers: map<string, Worker>
    var accepted: int
    var rejected: int
    var retired: real

    function View(): Live
      reads this
    {
      Live(workers, accepted, rejected, retired)
    }

    constructor (mult: Multiplier)
      ensures this.mult == mult && View() == Live(map[], 0, 0, 0.0)
    {
      this.mult := mult;
      workers, accepted, rejected, retired := map[], 0, 0, 0.0;
    }

    method Restore(rows: map<string, Row>, retiredWork: real)
      modifies this
      ensures RestoredFrom(View(), rows, retiredWork, mult)
    {
      hide Net, MapSum.Sum, FromRow;
      workers, accepted, rejected, retired := map[], 0, 0, Net(retiredWork, mult);
      MapSum.AllZero(map[]);
      assert AcceptedOf(workers) == map[] && RejectedOf(workers) == map[];
      hide AcceptedOf, RejectedOf;
      var names := rows.Keys;
      while names != {}
        invariant names <= rows.Keys && workers.Keys == rows.Keys - names
        invariant forall n :: n in workers ==> workers[n] == FromRow(rows[n], mult)
        invariant Tallied(View()) && retired == Net(retiredWork, mult)
        decreases names
      {
        var n :| n in names;
        AddWorker(n, FromRow(rows[n], mult));
        names := names - {n};
      }
    }

    method AddWorker(name: string, w: Worker)
      requires name !in workers && Tallied(View())
      modifies this`workers, this`accepted, this`rejected
      ensures workers == old(workers)[name := w] && Tallied(View())
    {
      hide MapSum.Sum, AcceptedOf, RejectedOf, NetWorkOf;
      TallyWorker(View(), name, w);
      workers := workers[name := w];
      accepted := accepted + w.accepted;
      rejected := rejected + w.rejected;
    }

    method Apply(e: PoolEvent, ts: nat)
      modifies this
      ensures View() == Applied(old(View()), e, ts, mult)
    {
      hide Net;
      match e {
        case Authorized(session, name, address, fallback, aux) =>
          var w := WorkerFor(workers, name);
          workers := workers[name := w.(address := address, fallback := fallback, aux := aux,
              sessions := w.sessions + {session})];
        case Disconnected(session, names) =>
          EndSession(session, names);
        case Share(_, name, _, jobDifficulty, shareDifficulty, reason) =>
          ApplyShare(AsShare(e, ts));
        case DifficultyChanged(_, _) =>
      }
    }

    method ApplyShare(s: NewShare)
      modifies this
      ensures View() == SeenShare(old(View()), s, mult)
    {
      hide Net;
      var w := WorkerFor(workers, s.worker);
      if !s.accepted {
        w := w.(rejected := w.rejected + 1);
        rejected := rejected + 1;
      } else {
        w := w.(accepted := w.accepted + 1);
        accepted := accepted + 1;
        var share := Net(s.shareDiff, mult);
        if share > w.best {
          w := w.(best := share, bestAt := Some(s.ts));
        }
        w := w.(work := w.work + Net(s.difficulty, mult));
      }
      workers := workers[s.worker := w];
    }

    method EndSession(session: nat, names: seq<string>)
      modifies this`workers
      ensures View() == SeenGone(old(View()), session, names)
    {
      var i := 0;
      while i < |names|
        invariant 0 <= i <= |names|
        invariant workers.Keys == old(workers).Keys
        invariant forall n :: n in workers ==> workers[n] == SeenGone(old(View()), session, names[..i]).workers[n]
      {
        assert forall n :: n in names[..i + 1] <==> n in names[..i] || n == names[i];
        if names[i] in workers {
          var w := workers[names[i]];
          assert w.sessions - {session} - {session} == w.sessions - {session};
          workers := workers[names[i] := w.(sessions := w.sessions - {session})];
        }
        i := i + 1;
      }
      assert names[..i] == names;
      assert workers == SeenGone(old(View()), session, names).workers;
    }

    method ResetCounters()
      modifies this
      ensures View() == Cleared(old(View()))
    {
      workers := map n | n in workers :: workers[n].(accepted := 0, rejected := 0, best := 0.0, bestAt := None);
      accepted, rejected := 0, 0;
    }

    method RemoveWorker(name: string) returns (removed: bool)
      modifies this
      ensures View() == Forgotten(old(View()), name)
      ensures removed <==> name in old(workers) && old(workers)[name].sessions == {}
    {
      if name !in workers || workers[name].sessions != {} {
        return false;
      }
      var w := workers[name];
      workers := workers - {name};
      accepted := accepted - w.accepted;
      rejected := rejected - w.rejected;
      retired := retired + w.work;
      return true;
    }

    method TotalWork() returns (total: real)
      ensures total == TotalNet(View())
    {
      var names := workers.Keys;
      total := 0.0;
      assert NetWorkOf(workers) - (workers.Keys - names) == NetWorkOf(workers);
      while names != {}
        invariant names <= workers.Keys
        invariant total + MapSum.Sum(NetWorkOf(workers) - (workers.Keys - names)) + retired == TotalNet(View())
        decreases names
      {
        var n :| n in names;
        ghost var left := NetWorkOf(workers) - (workers.Keys - names);
        MapSum.TakeOut(left, n);
        assert left - {n} == NetWorkOf(workers) - (workers.Keys - (names - {n}));
        total := total + workers[n].work;
        names := names - {n};
      }
      assert NetWorkOf(workers) - workers.Keys == map[];
      total := total + retired;
    }

    /** The best share of all, found in whatever order the workers come. */
    method BestShare() returns (best: Option<string>)
      ensures best.None? <==> forall n :: n in workers ==> workers[n].best <= 0.0
      ensures best.Some? ==> best.value in workers && workers[best.value].best > 0.0
      ensures best.Some? ==> forall n :: n in workers && workers[n].best > 0.0 && n != best.value ==>
                Beats(workers[best.value], best.value, workers[n], n)
      ensures best.Some? ==> forall n :: n in workers ==> workers[n].best <= workers[best.value].best
    {
      best := None;
      var names := workers.Keys;
      while names != {}
        invariant names <= workers.Keys
        invariant best.None? <==> forall n :: n in workers.Keys - names ==> workers[n].best <= 0.0
        invariant best.Some? ==> best.value in workers.Keys - names && workers[best.value].best > 0.0
        invariant best.Some? ==> forall n :: n in workers.Keys - names && workers[n].best > 0.0 && n != best.value ==>
                    Beats(workers[best.value], best.value, workers[n], n)
        decreases names
      {
        var n :| n in names;
        names := names - {n};
        if workers[n].best > 0.0 {
          if best.None? {
            best := Some(n);
          } else {
            BeatsTotal(workers[n], n, workers[best.value], best.value);
            if Beats(workers[n], n, workers[best.value], best.value) {
              forall m | m in workers.Keys - names && workers[m].best > 0.0 && m != n
                ensures Beats(workers[n], n, workers[m], m)
              {
                if m != best.value {
                  BeatsTransitive(workers[n], n, workers[best.value], best.value, workers[m], m);
                }
              }
              best := Some(n);
            }
          }
        }
      }
    }
  }

  // ---------- which share is best ----------

  predicate Earlier(a: Option<nat>, b: Option<nat>) {
    a.Some? && (b.None? || a.value < b.value)
  }

  /** Lexicographic order of names. */
  predicate NameBefore(a: string, b: string)
    decreases |a|
  {
    b != [] && (a == [] || a[0] < b[0] || (a[0] == b[0] && NameBefore(a[1..], b[1..])))
  }

  /** A higher share wins; then the earlier one, an unknown time losing; then the first name. */
  predicate Beats(a: Worker, aName: string, b: Worker, bName: string) {
    || a.best > b.best
    || (a.best == b.best && (Earlier(a.bestAt, b.bestAt) || (a.bestAt == b.bestAt && NameBefore(aName, bName))))
  }

  /** What beating means: more, or as much and at a known earlier time, or at the same time, known or not,
      under a name that is a proper prefix or has the smaller letter where they first differ. */
  lemma BeatsSpelledOut(a: Worker, aName: string, b: Worker, bName: string)
    ensures Beats(a, aName, b, bName) <==>
              var first := exists n :: 0 <= n <= |aName| && n < |bName| && aName[..n] == bName[..n]
                                       && (n == |aName| || aName[n] < bName[n]);
              || a.best > b.best
              || (a.best == b.best && a.bestAt.Some? && (b.bestAt.None? || a.bestAt.value < b.bestAt.value))
              || (a.best == b.best && a.bestAt == b.bestAt && first)
  {
    NameOrder(aName, bName);
    hide NameBefore;
  }

  lemma {:induction false} NameOrder(a: string, b: string)
    ensures NameBefore(a, b) <==> exists n :: 0 <= n <= |a| && n < |b| && a[..n] == b[..n] && (n == |a| || a[n] < b[n])
    decreases |a|
  {
    if a == [] || b == [] {
      assert b != [] ==> a[..0] == b[..0];
    } else if a[0] != b[0] {
      assert a[..0] == b[..0];
    } else {
      NameOrder(a[1..], b[1..]);
      if n :| 0 <= n <= |a| && n < |b| && a[..n] == b[..n] && (n == |a| || a[n] < b[n]) {
        assert a[1..][..n - 1] == a[..n][1..] && b[1..][..n - 1] == b[..n][1..];
      }
      if n :| 0 <= n <= |a[1..]| && n < |b[1..]| && a[1..][..n] == b[1..][..n]
              && (n == |a[1..]| || a[1..][n] < b[1..][n]) {
        assert a[..n + 1] == [a[0]] + a[1..][..n] && b[..n + 1] == [b[0]] + b[1..][..n];
      }
    }
  }

  lemma {:induction false} NameTotal(a: string, b: string)
    ensures a == b || NameBefore(a, b) || NameBefore(b, a)
    ensures !(NameBefore(a, b) && NameBefore(b, a)) && !NameBefore(a, a)
    decreases |a|
  {
    if a != [] && b != [] && a[0] == b[0] {
      NameTotal(a[1..], b[1..]);
      assert a == [a[0]] + a[1..] && b == [b[0]] + b[1..];
    }
    if a != [] {
      NameTotal(a[1..], a[1..]);
    }
  }

  lemma {:induction false} NameTransitive(a: string, b: string, c: string)
    requires NameBefore(a, b) && NameBefore(b, c)
    ensures NameBefore(a, c)
    decreases |a|
  {
    if a != [] && a[0] == b[0] == c[0] {
      NameTransitive(a[1..], b[1..], c[1..]);
    }
  }

  /** Of two workers exactly one has the better share, so the best does not depend on the order in
      which workers are met. */
  lemma BeatsTotal(a: Worker, aName: string, b: Worker, bName: string)
    requires aName != bName
    ensures Beats(a, aName, b, bName) <==> !Beats(b, bName, a, aName)
  {
    NameTotal(aName, bName);
  }

  lemma BeatsTransitive(a: Worker, aName: string, b: Worker, bName: string, c: Worker, cName: string)
    requires Beats(a, aName, b, bName) && Beats(b, bName, c, cName)
    ensures Beats(a, aName, c, cName)
  {
    if NameBefore(aName, bName) && NameBefore(bName, cName) {
      NameTransitive(aName, bName, cName);
    }
  }

  // ---------- the counters are the workers' sums ----------

  /** Replacing one worker moves the sums by the difference. */
  lemma TallyWorker(l: Live, name: string, w: Worker)
    ensures MapSum.Sum(AcceptedOf(l.workers[name := w]))
         == MapSum.Sum(AcceptedOf(l.workers)) - WorkerFor(l.workers, name).accepted as real + w.accepted as real
    ensures MapSum.Sum(RejectedOf(l.workers[name := w]))
         == MapSum.Sum(RejectedOf(l.workers)) - WorkerFor(l.workers, name).rejected as real + w.rejected as real
    ensures MapSum.Sum(NetWorkOf(l.workers[name := w]))
         == MapSum.Sum(NetWorkOf(l.workers)) - WorkerFor(l.workers, name).work + w.work
  {
    hide MapSum.Sum;
    var m := l.workers[name := w];
    MapSum.Update(AcceptedOf(l.workers), name, w.accepted as real);
    MapSum.Update(RejectedOf(l.workers), name, w.rejected as real);
    MapSum.Update(NetWorkOf(l.workers), name, w.work);
    assert AcceptedOf(m) == AcceptedOf(l.workers)[name := w.accepted as real];
    assert RejectedOf(m) == RejectedOf(l.workers)[name := w.rejected as real];
    assert NetWorkOf(m) == NetWorkOf(l.workers)[name := w.work];
  }

  /** Every operation keeps the pool counters equal to the workers' sums. */
  lemma StaysTallied(l: Live, e: PoolEvent, ts: nat, mult: Multiplier, name: string)
    requires Tallied(l)
    ensures Tallied(Applied(l, e, ts, mult)) && Tallied(Cleared(l)) && Tallied(Forgotten(l, name))
  {
    hide Net, MapSum.Sum;
    match e {
      case Authorized(session, n, _, _, _) =>
        TallyWorker(l, n, SeenAuthorized(l, Write(e, ts), session).workers[n]);
      case Share(_, n, _, _, _, _) =>
        TallyWorker(l, n, SeenShare(l, AsShare(e, ts), mult).workers[n]);
      case Disconnected(session, names) =>
        GoneKeepsSums(l, session, names);
      case DifficultyChanged(_, _) =>
    }
    MapSum.AllZero(AcceptedOf(Cleared(l).workers));
    MapSum.AllZero(RejectedOf(Cleared(l).workers));
    ForgettingTakesOut(l, name);
  }

  lemma GoneKeepsSums(l: Live, session: nat, names: seq<string>)
    ensures var m := SeenGone(l, session, names);
            && AcceptedOf(m.workers) == AcceptedOf(l.workers) && RejectedOf(m.workers) == RejectedOf(l.workers)
            && NetWorkOf(m.workers) == NetWorkOf(l.workers)
  {
  }

  lemma ForgettingTakesOut(l: Live, name: string)
    ensures var m := Forgotten(l, name);
            && MapSum.Sum(AcceptedOf(m.workers)) - m.accepted as real
               == MapSum.Sum(AcceptedOf(l.workers)) - l.accepted as real
            && MapSum.Sum(RejectedOf(m.workers)) - m.rejected as real
               == MapSum.Sum(RejectedOf(l.workers)) - l.rejected as real
            && TotalNet(m) == TotalNet(l)
  {
    if name in l.workers && !Connected(l, name) {
      var m := l.workers - {name};
      MapSum.TakeOut(AcceptedOf(l.workers), name);
      MapSum.TakeOut(RejectedOf(l.workers), name);
      MapSum.TakeOut(NetWorkOf(l.workers), name);
      assert AcceptedOf(m) == AcceptedOf(l.workers) - {name};
      assert RejectedOf(m) == RejectedOf(l.workers) - {name};
      assert NetWorkOf(m) == NetWorkOf(l.workers) - {name};
    }
  }

  /** Total work grows by a share's work and by nothing else. */
  lemma TotalMoves(l: Live, e: PoolEvent, ts: nat, mult: Multiplier, name: string)
    ensures TotalNet(Applied(l, e, ts, mult))
         == TotalNet(l) + if e.Share? && e.rejected.None? then Net(e.jobDifficulty, mult) else 0.0
    ensures TotalNet(Cleared(l)) == TotalNet(l) && TotalNet(Forgotten(l, name)) == TotalNet(l)
  {
    hide Net, MapSum.Sum;
    match e {
      case Authorized(session, n, _, _, _) =>
        TallyWorker(l, n, SeenAuthorized(l, Write(e, ts), session).workers[n]);
      case Share(_, n, _, _, _, _) =>
        TallyWorker(l, n, SeenShare(l, AsShare(e, ts), mult).workers[n]);
      case Disconnected(session, names) =>
        GoneKeepsSums(l, session, names);
      case DifficultyChanged(_, _) =>
    }
    assert NetWorkOf(Cleared(l).workers) == NetWorkOf(l.workers);
    ForgettingTakesOut(l, name);
  }

  // ---------- what the counters mean ----------

  function CreditedAll(w: Worker, ss: seq<NewShare>, mult: Multiplier): Worker
    decreases |ss|
  {
    if ss == [] then w else Credited(CreditedAll(w, ss[..|ss| - 1], mult), ss[|ss| - 1], mult)
  }

  /** Share `i` is the first of the highest accepted shares, and higher than `floor`. */
  predicate FirstBest(ss: seq<NewShare>, i: nat, mult: Multiplier, floor: real) {
    && i < |ss| && ss[i].accepted && Net(ss[i].shareDiff, mult) > floor
    && (forall j :: 0 <= j < |ss| && ss[j].accepted ==> Net(ss[j].shareDiff, mult) <= Net(ss[i].shareDiff, mult))
    && forall j :: 0 <= j < i && ss[j].accepted ==> Net(ss[j].shareDiff, mult) < Net(ss[i].shareDiff, mult)
  }

  /** After any shares the best is the highest accepted one and its time is the first such share's;
      if none was higher than the best before, that stands. Accepted and rejected count them all. */
  lemma {:induction false} BestIsFirstHighest(w: Worker, ss: seq<NewShare>, mult: Multiplier)
    returns (first: Option<nat>)
    ensures var v := CreditedAll(w, ss, mult);
            && v.accepted + v.rejected == w.accepted + w.rejected + |ss|
            && match first
               case None =>
                 && v.best == w.best && v.bestAt == w.bestAt
                 && forall j :: 0 <= j < |ss| && ss[j].accepted ==> Net(ss[j].shareDiff, mult) <= w.best
               case Some(i) =>
                 FirstBest(ss, i, mult, w.best) && v.best == Net(ss[i].shareDiff, mult) && v.bestAt == Some(ss[i].ts)
    decreases |ss|
  {
    hide Net;
    first := None;
    if ss != [] {
      var front, s := ss[..|ss| - 1], ss[|ss| - 1];
      first := BestIsFirstHighest(w, front, mult);
      assert forall j :: 0 <= j < |front| ==> front[j] == ss[j];
      if s.accepted && Net(s.shareDiff, mult) > CreditedAll(w, front, mult).best {
        first := Some(|ss| - 1);
      }
    }
  }
}
