/** Which sessions a worker has, over every run of the books: what decides whether an operator may
    remove it. */
module LiveSessions {
  import opened Events
  import opened LiveStats
  import opened Publisher
  import opened Accounting

  /** The session authorizes the worker's name. */
  predicate Attends(op: Op, name: string, session: nat) {
    op.Happens? && op.e.Authorized? && op.e.session == session && op.e.worker == name
  }

  /** That session disconnects and the name is one of its workers, or the pool restarts. */
  predicate Leaves(op: Op, name: string, session: nat) {
    op.Restart? || (op.Happens? && op.e.Disconnected? && op.e.session == session && name in op.e.workers)
  }

  /** The session authorized the name and nothing since has ended that. */
  ghost predicate InSession(ops: seq<Op>, name: string, session: nat) {
    exists i :: 0 <= i < |ops| && Attends(ops[i], name, session)
                && forall j :: i < j < |ops| ==> !Leaves(ops[j], name, session)
  }

  predicate HasSession(l: Live, name: string, session: nat) {
    name in l.workers && session in l.workers[name].sessions
  }

  lemma StepSessions(p: Pool, op: Op, mult: Multiplier, name: string, session: nat)
    ensures HasSession(Stepped(p, op, mult).live, name, session)
       <==> Attends(op, name, session) || (HasSession(p.live, name, session) && !Leaves(op, name, session))
  {
  }

  lemma InSessionNext(ops: seq<Op>, op: Op, name: string, session: nat)
    ensures InSession(ops + [op], name, session)
       <==> Attends(op, name, session) || (InSession(ops, name, session) && !Leaves(op, name, session))
  {
    hide Attends, Leaves;
    var all := ops + [op];
    assert forall i :: 0 <= i < |ops| ==> all[i] == ops[i];
    if InSession(all, name, session) && !Attends(op, name, session) {
      var i :| 0 <= i < |all| && Attends(all[i], name, session)
               && forall j :: i < j < |all| ==> !Leaves(all[j], name, session);
      assert !Leaves(all[|ops|], name, session);
    }
    if Attends(op, name, session) {
      assert Attends(all[|ops|], name, session);
    }
    if InSession(ops, name, session) && !Leaves(op, name, session) {
      var i :| 0 <= i < |ops| && Attends(ops[i], name, session)
               && forall j :: i < j < |ops| ==> !Leaves(ops[j], name, session);
      assert Attends(all[i], name, session);
    }
  }

  /** Over every run a worker's live sessions are those that authorized its name and have not
      disconnected since. */
  lemma {:induction false} SessionsAre(ops: seq<Op>, mult: Multiplier, name: string, session: nat)
    ensures HasSession(After(ops, mult).live, name, session) <==> InSession(ops, name, session)
    decreases |ops|
  {
    hide Stepped, HasSession, Attends, Leaves;
    if ops == [] {
      NoneAtFirst(name, session);
    } else {
      var front, op := ops[..|ops| - 1], ops[|ops| - 1];
      SessionsAre(front, mult, name, session);
      StepSessions(After(front, mult), op, mult, name, session);
      InSessionNext(front, op, name, session);
      assert ops == front + [op];
    }
  }

  lemma NoneAtFirst(name: string, session: nat)
    ensures !HasSession(EMPTY.live, name, session)
  {
  }

  /** A worker counts as connected exactly if some session of it is live: one that leaves does not take
      the others with it. */
  lemma ConnectedIff(ops: seq<Op>, mult: Multiplier, name: string)
    ensures Connected(After(ops, mult).live, name) <==> exists session: nat :: InSession(ops, name, session)
  {
    hide After, InSession;
    forall session: nat
      ensures HasSession(After(ops, mult).live, name, session) <==> InSession(ops, name, session)
    {
      SessionsAre(ops, mult, name, session);
    }
    var l := After(ops, mult).live;
    if Connected(l, name) {
      var session :| session in l.workers[name].sessions;
      assert HasSession(l, name, session);
    }
    if session: nat :| InSession(ops, name, session) {
      assert HasSession(l, name, session);
    }
  }

  /** Removing a worker that has a live session changes nothing; any other is removed on both sides if
      the table can be written. */
  lemma RemoveRefusedIff(ops: seq<Op>, mult: Multiplier, name: string, flushOk: bool, removeOk: bool)
    ensures var p := After(ops, mult);
            var q := After(ops + [RemoveWorker(name, flushOk, removeOk)], mult);
            if exists session: nat :: InSession(ops, name, session) then q == p
            else removeOk ==> name !in q.live.workers && name !in q.tables.rows
  {
    var all := ops + [RemoveWorker(name, flushOk, removeOk)];
    assert all[..|all| - 1] == ops;
    ConnectedIff(ops, mult, name);
    hide InSession;
  }

  /** A worker with two sessions of which one leaves cannot be removed; once both have left it can. */
  lemma OneOfTwoLeaves(mult: Multiplier, name: string, address: string, ts: nat)
    ensures var first, second := Authorized(1, name, address, false, []), Authorized(2, name, address, false, []);
            var left := [Happens(first, ts, true), Happens(second, ts, true),
                         Happens(Disconnected(1, [name]), ts, true)];
            var gone := left + [Happens(Disconnected(2, [name]), ts, true)];
            && After(left + [RemoveWorker(name, true, true)], mult) == After(left, mult)
            && name !in After(gone + [RemoveWorker(name, true, true)], mult).live.workers
  {
    hide After, Stepped;
    var first, second := Authorized(1, name, address, false, []), Authorized(2, name, address, false, []);
    var left := [Happens(first, ts, true), Happens(second, ts, true), Happens(Disconnected(1, [name]), ts, true)];
    var gone := left + [Happens(Disconnected(2, [name]), ts, true)];
    assert Attends(left[1], name, 2) && !Leaves(left[2], name, 2);
    assert InSession(left, name, 2);
    RemoveRefusedIff(left, mult, name, true, true);
    forall session: nat ensures !InSession(gone, name, session) {
      assert Leaves(gone[2], name, 1) && Leaves(gone[3], name, 2);
    }
    RemoveRefusedIff(gone, mult, name, true, true);
  }
}
