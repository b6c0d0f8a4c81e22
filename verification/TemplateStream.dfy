/** One coin's template source: polls its node and publishes work, and withdraws it when the node
    stays away too long. */
module TemplateStream {
  import opened Bytes
  import opened Wrappers
  import opened Encode
  import opened Work
  import opened TagBudget
  import Merkle

  /** Times are in one monotonic clock's ticks. */
  datatype Timing = Timing(refresh: nat, staleAfter: nat, start: int)

  /** A coinbase tag the settings accept. */
  type Tag = s: seq<byte> | |s| <= Budget(false)

  /** What one poll meets: the node's tip, if it answers; the tag in force; the template, if asked
      for, obtained and decoded; the times at which the tip and the outcome are known. */
  datatype Poll = Poll(tip: Option<Hash256>, tag: Tag, template: Option<WorkTemplate>, asked: int, done: int)

  datatype Fetched = Failed | Unchanged | New(work: WorkTemplate)

  datatype Health = Health(connected: bool, failures: nat, withdrawn: bool)

  datatype State = State(
    nextId: nat, lastTip: Option<Hash256>, lastTag: Option<Tag>, lastRefresh: int, lastOk: Option<int>,
    health: Health, published: Option<WorkTemplate>)

  function Initial(t: Timing): State {
    State(1, None, None, t.start - t.refresh, None, Health(false, 0, false), None)
  }

  // ---------- one poll ----------

  /** A node's template as the pool's work. */
  function Converted(h: Hashes, raw: WorkTemplate, tag: Tag, id: nat, clean: bool): WorkTemplate {
    PrefixShort(raw.height, tag);
    raw.(id := id, prefix := Prefix(raw.height, tag), merkleBranch := Merkle.CoinbaseSteps(h, raw.Txids()),
        cleanJobs := clean)
  }

  lemma PrefixShort(height: u64, tag: Tag)
    ensures |Prefix(height, tag)| <= 200
  {
    var n := AsI64(height);
    Pow256Values();
    hide Digits, ToLE;
    DigitsLen(Abs(n), 8);
  }

  /** The tip moved, the tag changed or the refresh interval is over. */
  predicate Due(t: Timing, s: State, p: Poll) {
    s.lastTip != p.tip || s.lastTag != Some(p.tag) || p.asked - s.lastRefresh >= t.refresh
  }

  function Fetch(h: Hashes, t: Timing, s: State, p: Poll): Fetched {
    if p.tip.None? then Failed
    else if !Due(t, s, p) then Unchanged
    else if p.template.None? then Failed
    else New(Converted(h, p.template.value, p.tag, s.nextId, s.lastTip != p.tip))
  }

  predicate Withdraws(t: Timing, s: State, p: Poll) {
    !s.health.withdrawn && s.lastTip.Some? && (s.lastOk.None? || p.done - s.lastOk.value >= t.staleAfter)
  }

  function Polled(h: Hashes, t: Timing, s: State, p: Poll): State {
    match Fetch(h, t, s, p)
    case Unchanged => s.(lastOk := Some(p.done), health := s.health.(connected := true, failures := 0))
    case New(work) =>
      State(s.nextId + 1, p.tip, Some(p.tag), p.done, Some(p.done), Health(true, 0, false), Some(work))
    case Failed =>
      var health := s.health.(connected := false, failures := s.health.failures + 1);
      if Withdraws(t, s, p)
      then s.(health := health.(withdrawn := true), lastRefresh := p.done - t.refresh, published := None)
      else s.(health := health)
  }

  /** The source as the polling loop keeps it. */
  class Source {
    const h: Hashes
    const t: Timing
    var nextId: nat
    var lastTip: Option<Hash256>
    var lastTag: Option<Tag>
    var lastRefresh: int
    var lastOk: Option<int>
    var health: Health
    var published: Option<WorkTemplate>

    function View(): State
      reads this
    {
      State(nextId, lastTip, lastTag, lastRefresh, lastOk, health, published)
    }

    constructor (h: Hashes, t: Timing)
      ensures this.h == h && this.t == t && View() == Initial(t)
    {
      this.h, this.t := h, t;
      nextId, lastTip, lastTag, lastRefresh, lastOk := 1, None, None, t.start - t.refresh, None;
      health, published := Health(false, 0, false), None;
    }

    method FetchWork(p: Poll) returns (r: Fetched)
      ensures r == Fetch(h, t, View(), p)
    {
      hide Prefix, Merkle.CoinbaseSteps;
      if p.tip.None? {
        return Failed;
      }
      var tipChanged := lastTip != p.tip;
      var tagChanged := lastTag != Some(p.tag);
      if !tipChanged && !tagChanged && p.asked - lastRefresh < t.refresh {
        return Unchanged;
      }
      if p.template.None? {
        return Failed;
      }
      var work := Convert(h, p.template.value, p.tag, nextId, tipChanged);
      return New(work);
    }

    method PollOnce(p: Poll)
      modifies this
      ensures View() == Polled(h, t, old(View()), p)
    {
      hide Fetch;
      var fetched := FetchWork(p);
      match fetched {
        case Failed =>
          health := health.(connected := false, failures := health.failures + 1);
          if !health.withdrawn && lastTip.Some? && (lastOk.None? || p.done - lastOk.value >= t.staleAfter) {
            health := health.(withdrawn := true);
            lastRefresh := p.done - t.refresh;
            published := None;
          }
        case Unchanged =>
          lastOk := Some(p.done);
          health := health.(connected := true, failures := 0);
        case New(work) =>
          lastOk := Some(p.done);
          health := health.(connected := true, failures := 0);
          nextId := nextId + 1;
          lastRefresh := p.done;
          lastTag := Some(p.tag);
          lastTip := p.tip;
          health := health.(withdrawn := false);
          published := Some(work);
      }
    }
  }

  method Convert(h: Hashes, raw: WorkTemplate, tag: Tag, id: nat, clean: bool) returns (work: WorkTemplate)
    ensures work == Converted(h, raw, tag, id, clean)
  {
    hide Prefix, Merkle.CoinbaseSteps;
    PrefixShort(raw.height, tag);
    var prefix := WritePrefix(raw.height, tag);
    work := raw.(id := id, prefix := prefix, merkleBranch := [], cleanJobs := clean);
    work := ComputeMerkleBranch(h, work);
    assert work.Txids() == raw.Txids();
  }

  // ---------- runs ----------

  function After(h: Hashes, t: Timing, polls: seq<Poll>): State
    decreases |polls|
  {
    if polls == [] then Initial(t)
    else Polled(h, t, After(h, t, polls[..|polls| - 1]), polls[|polls| - 1])
  }

  /** What poll `i` of a run fetched. */
  function FetchedAt(h: Hashes, t: Timing, polls: seq<Poll>, i: nat): Fetched
    requires i < |polls|
  {
    Fetch(h, t, After(h, t, polls[..i]), polls[i])
  }

  lemma AfterNext(h: Hashes, t: Timing, polls: seq<Poll>, i: nat)
    requires i < |polls|
    ensures After(h, t, polls[..i + 1]) == Polled(h, t, After(h, t, polls[..i]), polls[i])
  {
    assert polls[..i + 1][..i] == polls[..i] && polls[..i + 1][i] == polls[i];
  }

  /** The clock does not run backwards. */
  ghost predicate InOrder(t: Timing, polls: seq<Poll>) {
    && (forall i :: 0 <= i < |polls| ==> t.start <= polls[i].asked <= polls[i].done)
    && forall i, j :: 0 <= i < j < |polls| ==> polls[i].done <= polls[j].asked
  }

  /** Poll `i` is the last before `n` to have published. */
  ghost predicate LastPublish(h: Hashes, t: Timing, polls: seq<Poll>, i: nat, n: nat)
  {
    && i < n <= |polls| && FetchedAt(h, t, polls, i).New?
    && forall j :: i < j < n ==> !FetchedAt(h, t, polls, j).New?
  }

  /** Poll `k` is the last before `n` to have reached the node. */
  ghost predicate LastReached(h: Hashes, t: Timing, polls: seq<Poll>, k: nat, n: nat)
  {
    && k < n <= |polls| && !FetchedAt(h, t, polls, k).Failed?
    && forall j :: k < j < n ==> FetchedAt(h, t, polls, j).Failed?
  }

  /** The state after `n` polls, in terms of the polls alone: `i` published last and `k` reached the
      node last. */
  ghost predicate Stands(h: Hashes, t: Timing, polls: seq<Poll>, n: nat, i: nat, k: nat)
    requires n <= |polls|
  {
    var s := After(h, t, polls[..n]);
    && LastPublish(h, t, polls, i, n) && LastReached(h, t, polls, k, n) && i <= k
    && s.lastTip == polls[i].tip && s.lastTag == Some(polls[i].tag) && s.lastOk == Some(polls[k].done)
    && s.nextId == FetchedAt(h, t, polls, i).work.id + 1
    && (s.health.withdrawn <==> k < n - 1 && polls[n - 1].done - polls[k].done >= t.staleAfter)
    && s.published == (if s.health.withdrawn then None else Some(FetchedAt(h, t, polls, i).work))
    && (if s.health.withdrawn then s.lastRefresh + t.refresh <= polls[n - 1].done else s.lastRefresh == polls[i].done)
    && (polls[k].asked - polls[i].done < t.refresh || k == i)
    && polls[k].tip == polls[i].tip && polls[k].tag == polls[i].tag
  }

  ghost predicate NothingYet(h: Hashes, t: Timing, polls: seq<Poll>, n: nat)
    requires n <= |polls|
  {
    var s := After(h, t, polls[..n]);
    && (forall j :: 0 <= j < n ==> FetchedAt(h, t, polls, j).Failed?)
    && s.nextId == 1 && s.lastTip.None? && s.lastTag.None? && s.lastOk.None? && s.published.None? && !s.health.withdrawn
  }

  /** One poll, in terms of what it fetched. */
  lemma PollStep(h: Hashes, t: Timing, polls: seq<Poll>, n: nat)
    requires n < |polls|
    ensures var s, u, p := After(h, t, polls[..n]), After(h, t, polls[..n + 1]), polls[n];
            match FetchedAt(h, t, polls, n)
            case Unchanged =>
              !Due(t, s, p) && u == s.(lastOk := Some(p.done), health := s.health.(connected := true, failures := 0))
            case New(work) =>
              && work.id == s.nextId && (work.cleanJobs <==> s.lastTip != p.tip)
              && p.tip.Some?
              && u == State(s.nextId + 1, p.tip, Some(p.tag), p.done, Some(p.done), Health(true, 0, false), Some(work))
            case Failed =>
              && u.health.withdrawn == (s.health.withdrawn || Withdraws(t, s, p))
              && u.published == (if Withdraws(t, s, p) then None else s.published)
              && u.lastRefresh == (if Withdraws(t, s, p) then p.done - t.refresh else s.lastRefresh)
              && u == s.(health := u.health, published := u.published, lastRefresh := u.lastRefresh)
  {
    hide Prefix, Merkle.CoinbaseSteps, Due, Withdraws;
    AfterNext(h, t, polls, n);
    hide After;
  }

  /** Every run either has only failures behind it or stands as its polls say. */
  lemma {:induction false} RunStands(h: Hashes, t: Timing, polls: seq<Poll>, n: nat) returns (last: Option<(nat, nat)>)
    requires InOrder(t, polls) && n <= |polls|
    ensures match last
            case None => NothingYet(h, t, polls, n)
            case Some((i, k)) => Stands(h, t, polls, n, i, k)
  {
    hide *;
    if n == 0 {
      last := None;
      NothingAtFirst(h, t, polls);
    } else {
      last := RunStands(h, t, polls, n - 1);
      match last {
        case None => last := FirstPolls(h, t, polls, n - 1);
        case Some((i, k)) => last := StandsOn(h, t, polls, n - 1, i, k);
      }
    }
  }

  lemma NothingAtFirst(h: Hashes, t: Timing, polls: seq<Poll>)
    ensures NothingYet(h, t, polls, 0)
  {
    assert polls[..0] == [];
  }

  lemma FirstPolls(h: Hashes, t: Timing, polls: seq<Poll>, n: nat) returns (last: Option<(nat, nat)>)
    requires InOrder(t, polls) && n < |polls| && NothingYet(h, t, polls, n)
    ensures match last
            case None => NothingYet(h, t, polls, n + 1)
            case Some((i, k)) => Stands(h, t, polls, n + 1, i, k)
  {
    PollStep(h, t, polls, n);
    hide After, FetchedAt;
    last := if FetchedAt(h, t, polls, n).New? then Some((n, n)) else None;
  }

  lemma StandsOn(h: Hashes, t: Timing, polls: seq<Poll>, n: nat, i: nat, k: nat) returns (last: Option<(nat, nat)>)
    requires InOrder(t, polls) && n < |polls| && Stands(h, t, polls, n, i, k)
    ensures match last
            case None => NothingYet(h, t, polls, n + 1)
            case Some((i, k)) => Stands(h, t, polls, n + 1, i, k)
  {
    PollStep(h, t, polls, n);
    LastsNext(h, t, polls, n, i, k);
    Clock(t, polls, k, n);
    hide After, FetchedAt, NothingYet, LastPublish, LastReached, InOrder;
    match FetchedAt(h, t, polls, n) {
      case Failed => last := Some((i, k));
      case New(_) => last := Some((n, n));
      case Unchanged => last := Some((i, n));
    }
  }

  lemma Clock(t: Timing, polls: seq<Poll>, k: nat, n: nat)
    requires InOrder(t, polls) && k < n < |polls|
    ensures polls[k].done <= polls[n - 1].done <= polls[n].asked <= polls[n].done
  {
  }

  lemma LastsNext(h: Hashes, t: Timing, polls: seq<Poll>, n: nat, i: nat, k: nat)
    requires n < |polls| && LastPublish(h, t, polls, i, n) && LastReached(h, t, polls, k, n)
    ensures LastPublish(h, t, polls, if FetchedAt(h, t, polls, n).New? then n else i, n + 1)
    ensures LastReached(h, t, polls, if FetchedAt(h, t, polls, n).Failed? then k else n, n + 1)
  {
    hide FetchedAt;
  }

  // ---------- what the stream promises ----------

  /** Template ids strictly increase. */
  lemma {:induction false} IdsIncrease(h: Hashes, t: Timing, polls: seq<Poll>, i: nat, j: nat)
    requires InOrder(t, polls) && i < j < |polls|
    requires FetchedAt(h, t, polls, i).New? && FetchedAt(h, t, polls, j).New?
    ensures FetchedAt(h, t, polls, i).work.id < FetchedAt(h, t, polls, j).work.id
  {
    PollStep(h, t, polls, j);
    hide After, FetchedAt;
    var last := RunStands(h, t, polls, j);
    if last.Some? && last.value.0 != i {
      IdsIncrease(h, t, polls, i, last.value.0);
    }
  }

  /** A template is clean exactly if no earlier one was for its tip directly before it: the first
      one is, and any other is exactly if its tip is not the previously published one's. */
  lemma CleanIffTipMoved(h: Hashes, t: Timing, polls: seq<Poll>, j: nat)
    requires InOrder(t, polls) && j < |polls| && FetchedAt(h, t, polls, j).New?
    ensures FetchedAt(h, t, polls, j).work.cleanJobs
       <==> forall i: nat :: LastPublish(h, t, polls, i, j) ==> polls[i].tip != polls[j].tip
  {
    PollStep(h, t, polls, j);
    hide After, FetchedAt;
    var last := RunStands(h, t, polls, j);
    if last.Some? {
      assert LastPublish(h, t, polls, last.value.0, j);
    }
  }

  /** While the node answers, what is published was built for the very tip and tag it just saw, less
      than a refresh interval ago; also right after a withdrawal. */
  lemma AnsweringNodeIsCurrent(h: Hashes, t: Timing, polls: seq<Poll>, n: nat) returns (i: nat)
    requires InOrder(t, polls) && n < |polls| && !FetchedAt(h, t, polls, n).Failed?
    ensures i <= n && LastPublish(h, t, polls, i, n + 1)
    ensures After(h, t, polls[..n + 1]).published == Some(FetchedAt(h, t, polls, i).work)
    ensures polls[i].tip == polls[n].tip && polls[i].tag == polls[n].tag
    ensures i == n || polls[n].asked - polls[i].done < t.refresh
    ensures !After(h, t, polls[..n + 1]).health.withdrawn
    ensures After(h, t, polls[..n]).health.withdrawn ==> i == n
  {
    hide After, Converted;
    var before := RunStands(h, t, polls, n);
    var last := RunStands(h, t, polls, n + 1);
    assert last.Some? && last.value.1 == n;
    i := last.value.0;
  }

  /** While the node is away, the last template stays published until the node has been away for
      `staleAfter`, and no longer. */
  lemma AwayNodeIsWithdrawn(h: Hashes, t: Timing, polls: seq<Poll>, n: nat, k: nat, i: nat)
    requires InOrder(t, polls) && n < |polls| && FetchedAt(h, t, polls, n).Failed?
    requires LastReached(h, t, polls, k, n + 1) && LastPublish(h, t, polls, i, n + 1)
    ensures After(h, t, polls[..n + 1]).published
         == if polls[n].done - polls[k].done >= t.staleAfter then None else Some(FetchedAt(h, t, polls, i).work)
    ensures After(h, t, polls[..n + 1]).health.withdrawn <==> polls[n].done - polls[k].done >= t.staleAfter
  {
    hide After, Converted;
    var last := RunStands(h, t, polls, n + 1);
    assert last.Some? && last.value.0 == i && last.value.1 == k;
  }

  /** A template is asked for and published exactly if the node gives its tip and a template, and nothing
      is published, or what was last published is for another tip or tag, or as old as the refresh
      interval. */
  lemma PublishesIff(h: Hashes, t: Timing, polls: seq<Poll>, n: nat)
    requires InOrder(t, polls) && n < |polls|
    ensures FetchedAt(h, t, polls, n).New?
       <==> && polls[n].tip.Some? && polls[n].template.Some?
            && (|| After(h, t, polls[..n]).published.None?
                || exists i: nat ::
                     && LastPublish(h, t, polls, i, n)
                     && (polls[i].tip != polls[n].tip || polls[i].tag != polls[n].tag
                         || polls[n].asked - polls[i].done >= t.refresh))
    ensures FetchedAt(h, t, polls, n).Unchanged?
       <==> && polls[n].tip.Some? && After(h, t, polls[..n]).published.Some?
            && forall i: nat :: LastPublish(h, t, polls, i, n) ==>
                 && polls[i].tip == polls[n].tip && polls[i].tag == polls[n].tag
                 && polls[n].asked - polls[i].done < t.refresh
  {
    var last := RunStands(h, t, polls, n);
    FetchedIs(h, t, polls, n);
    if last.Some? {
      var (i, k) := last.value;
      Clock(t, polls, k, n);
      OneLast(h, t, polls, i, n);
    }
    hide After, FetchedAt, LastReached;
  }

  lemma OneLast(h: Hashes, t: Timing, polls: seq<Poll>, i: nat, n: nat)
    requires LastPublish(h, t, polls, i, n)
    ensures forall j: nat :: LastPublish(h, t, polls, j, n) ==> j == i
  {
    hide FetchedAt;
  }

  lemma FetchedIs(h: Hashes, t: Timing, polls: seq<Poll>, n: nat)
    requires n < |polls|
    ensures var s, p, f := After(h, t, polls[..n]), polls[n], FetchedAt(h, t, polls, n);
            var due := s.lastTip != p.tip || s.lastTag != Some(p.tag) || p.asked - s.lastRefresh >= t.refresh;
            && (f.New? <==> p.tip.Some? && due && p.template.Some?)
            && (f.Unchanged? <==> p.tip.Some? && !due)
  {
    hide After, Converted;
  }

  /** How many polls in a row have failed. */
  function FailuresInRow(h: Hashes, t: Timing, polls: seq<Poll>, n: nat): nat
    requires n <= |polls|
  {
    if n == 0 || !FetchedAt(h, t, polls, n - 1).Failed? then 0 else 1 + FailuresInRow(h, t, polls, n - 1)
  }

  /** The health reported: connected exactly if the last poll did not fail, and the failures since one
      that did not. */
  lemma {:induction false} HealthIs(h: Hashes, t: Timing, polls: seq<Poll>, n: nat)
    requires n <= |polls|
    ensures var health := After(h, t, polls[..n]).health;
            && (health.connected <==> n > 0 && !FetchedAt(h, t, polls, n - 1).Failed?)
            && health.failures == FailuresInRow(h, t, polls, n)
  {
    if n == 0 {
      assert polls[..0] == [];
    } else {
      HealthIs(h, t, polls, n - 1);
      HealthMoves(h, t, polls, n - 1);
      hide After, FetchedAt;
    }
  }

  lemma HealthMoves(h: Hashes, t: Timing, polls: seq<Poll>, n: nat)
    requires n < |polls|
    ensures var s, u := After(h, t, polls[..n]).health, After(h, t, polls[..n + 1]).health;
            if FetchedAt(h, t, polls, n).Failed? then !u.connected && u.failures == s.failures + 1
            else u.connected && u.failures == 0
  {
    hide Prefix, Merkle.CoinbaseSteps, Due, Withdraws;
    AfterNext(h, t, polls, n);
    hide After;
  }

  /** How many templates the first `n` polls published. */
  function Publications(h: Hashes, t: Timing, polls: seq<Poll>, n: nat): nat
    requires n <= |polls|
  {
    if n == 0 then 0
    else Publications(h, t, polls, n - 1) + (if FetchedAt(h, t, polls, n - 1).New? then 1 else 0)
  }

  /** Templates are numbered from 1 in the order they are published. */
  lemma {:induction false} IdsCount(h: Hashes, t: Timing, polls: seq<Poll>, n: nat)
    requires n <= |polls|
    ensures After(h, t, polls[..n]).nextId == 1 + Publications(h, t, polls, n)
    ensures n < |polls| && FetchedAt(h, t, polls, n).New? ==>
              FetchedAt(h, t, polls, n).work.id == 1 + Publications(h, t, polls, n)
  {
    if n < |polls| {
      PollStep(h, t, polls, n);
    }
    if n == 0 {
      assert polls[..0] == [];
    } else {
      IdsCount(h, t, polls, n - 1);
      PollStep(h, t, polls, n - 1);
    }
    hide After, FetchedAt;
  }

  /** The channel is empty exactly if nothing was ever published or the template is withdrawn. */
  lemma EmptyIff(h: Hashes, t: Timing, polls: seq<Poll>)
    requires InOrder(t, polls)
    ensures After(h, t, polls).published.None?
       <==> (forall j :: 0 <= j < |polls| ==> !FetchedAt(h, t, polls, j).New?) || After(h, t, polls).health.withdrawn
  {
    hide After, Converted;
    var last := RunStands(h, t, polls, |polls|);
    assert polls[..|polls|] == polls;
  }

  /** Everything published has the branch of its transactions, and a prefix naming height and tag. */
  lemma PublishedIsConverted(h: Hashes, t: Timing, polls: seq<Poll>, i: nat)
    requires i < |polls| && FetchedAt(h, t, polls, i).New?
    ensures FetchedAt(h, t, polls, i).work.HasBranch(h)
    ensures FetchedAt(h, t, polls, i).work.prefix == Prefix(polls[i].template.value.height, polls[i].tag)
    ensures var work := FetchedAt(h, t, polls, i).work;
            work == polls[i].template.value.(id := work.id, prefix := work.prefix, merkleBranch := work.merkleBranch,
                                             cleanJobs := work.cleanJobs)
  {
    hide Prefix, Merkle.CoinbaseSteps, After;
    var work := FetchedAt(h, t, polls, i).work;
    assert work.Txids() == polls[i].template.value.Txids();
  }
}
