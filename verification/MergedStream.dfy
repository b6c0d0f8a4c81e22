/** The parent's templates combined with the aux chains', and when miners are told to drop their
    jobs. */
module MergedStream {
  import opened Bytes
  import opened Wrappers
  import opened Work
  import opened Jobs
  import opened TemplateStream

  /** What one round of the loop finds in its channels. */
  datatype Round = Round(parent: Option<WorkTemplate>, aux: seq<Option<WorkTemplate>>)

  datatype Merge = Merge(lastParent: Option<nat>, published: Option<MergedWork>)

  function Present(aux: seq<Option<WorkTemplate>>): seq<WorkTemplate> {
    if aux == [] then []
    else (if aux[0].Some? then [aux[0].value] else []) + Present(aux[1..])
  }

  /** A round without a parent template waits for one; nothing it published is taken back. */
  function Merged(m: Merge, r: Round): Merge {
    match r.parent
    case None => m
    case Some(current) =>
      Merge(Some(current.id),
            Some(MergedWork(current, Present(r.aux), m.lastParent != Some(current.id) && current.cleanJobs)))
  }

  class Merger {
    var lastParent: Option<nat>
    var published: Option<MergedWork>

    function View(): Merge
      reads this
    {
      Merge(lastParent, published)
    }

    constructor ()
      ensures View() == Merge(None, None)
    {
      lastParent, published := None, None;
    }

    method RunRound(r: Round)
      modifies this
      ensures View() == Merged(old(View()), r)
    {
      if r.parent.None? {
        return;
      }
      var current := r.parent.value;
      var templates := ReadPresent(r.aux);
      var parentChanged := lastParent != Some(current.id);
      lastParent := Some(current.id);
      published := Some(MergedWork(current, templates, parentChanged && current.cleanJobs));
    }
  }

  method ReadPresent(aux: seq<Option<WorkTemplate>>) returns (templates: seq<WorkTemplate>)
    ensures templates == Present(aux)
  {
    templates := [];
    var i := 0;
    while i < |aux|
      invariant 0 <= i <= |aux|
      invariant templates + Present(aux[i..]) == Present(aux)
    {
      ghost var rest := Present(aux[i + 1..]);
      PresentFront(aux, i);
      if aux[i].Some? {
        assert templates + ([aux[i].value] + rest) == (templates + [aux[i].value]) + rest;
        templates := templates + [aux[i].value];
      }
      i := i + 1;
    }
    assert templates + Present([]) == templates;
  }

  lemma PresentFront(aux: seq<Option<WorkTemplate>>, i: nat)
    requires i < |aux|
    ensures Present(aux[i..]) == (if aux[i].Some? then [aux[i].value] + Present(aux[i + 1..])
        else Present(aux[i + 1..]))
  {
    assert aux[i..][1..] == aux[i + 1..];
  }

  // ---------- runs ----------

  function AfterRounds(rounds: seq<Round>): Merge
    decreases |rounds|
  {
    if rounds == [] then Merge(None, None)
    else Merged(AfterRounds(rounds[..|rounds| - 1]), rounds[|rounds| - 1])
  }

  lemma RoundNext(rounds: seq<Round>, n: nat)
    requires n < |rounds|
    ensures AfterRounds(rounds[..n + 1]) == Merged(AfterRounds(rounds[..n]), rounds[n])
  {
    assert rounds[..n + 1][..n] == rounds[..n] && rounds[..n + 1][n] == rounds[n];
  }

  /** Round `m` is the last before `n` to have found a parent template. */
  predicate LastRead(rounds: seq<Round>, m: nat, n: nat) {
    m < n <= |rounds| && rounds[m].parent.Some? && forall j :: m < j < n ==> rounds[j].parent.None?
  }

  lemma {:induction false} MergeHolds(rounds: seq<Round>, n: nat, m: nat)
    requires LastRead(rounds, m, n)
    ensures var s := AfterRounds(rounds[..n]);
            && s.lastParent == Some(rounds[m].parent.value.id)
            && s.published.Some? && s.published.value.parent == rounds[m].parent.value
            && s.published.value.aux == Present(rounds[m].aux)
  {
    RoundNext(rounds, n - 1);
    if m < n - 1 {
      MergeHolds(rounds, n - 1, m);
    }
  }

  /** The rounds read the parent source's channel, the n-th after `at[n]` of its polls. */
  ghost predicate Reads(h: Hashes, t: Timing, polls: seq<Poll>, rounds: seq<Round>, at: seq<nat>) {
    && |at| == |rounds|
    && (forall n :: 0 <= n < |at| ==> at[n] <= |polls| && rounds[n].parent == After(h, t, polls[..at[n]]).published)
    && forall m, n :: 0 <= m < n < |at| ==> at[m] <= at[n]
  }

  /** Poll `i` published what round `n` read. */
  ghost predicate ReadFrom(h: Hashes, t: Timing, polls: seq<Poll>, at: seq<nat>, i: nat, n: nat) {
    n < |at| && LastPublish(h, t, polls, i, at[n])
  }

  lemma ReadSource(h: Hashes, t: Timing, polls: seq<Poll>, rounds: seq<Round>, at: seq<nat>, n: nat) returns (i: nat)
    requires InOrder(t, polls) && Reads(h, t, polls, rounds, at) && n < |rounds| && rounds[n].parent.Some?
    ensures ReadFrom(h, t, polls, at, i, n) && i < |polls| && FetchedAt(h, t, polls, i) == New(rounds[n].parent.value)
  {
    hide After, FetchedAt;
    var last := RunStands(h, t, polls, at[n]);
    i := if last.Some? then last.value.0 else 0;
  }

  lemma OneSource(h: Hashes, t: Timing, polls: seq<Poll>, i: nat, j: nat, n: nat)
    requires LastPublish(h, t, polls, i, n) && LastPublish(h, t, polls, j, n)
    ensures i == j
  {
  }

  /** Merged work is clean exactly if its parent template was not read in the round before that and
      its tip is not the one published right before it. */
  lemma MergedCleanIff(
    h: Hashes, t: Timing, polls: seq<Poll>, rounds: seq<Round>, at: seq<nat>, m: nat, n: nat, i: nat, j: nat)
    requires InOrder(t, polls) && Reads(h, t, polls, rounds, at)
    requires LastRead(rounds, m, n) && n < |rounds| && rounds[n].parent.Some?
    requires ReadFrom(h, t, polls, at, i, m) && ReadFrom(h, t, polls, at, j, n)
    ensures i <= j && AfterRounds(rounds[..n + 1]).published.Some?
    ensures AfterRounds(rounds[..n + 1]).published.value.cleanJobs
       <==> i < j && forall p: nat :: LastPublish(h, t, polls, p, j) ==> polls[p].tip != polls[j].tip
  {
    hide After, FetchedAt, Present;
    MergeHolds(rounds, n, m);
    RoundNext(rounds, n);
    hide AfterRounds;
    var a := ReadSource(h, t, polls, rounds, at, m);
    var b := ReadSource(h, t, polls, rounds, at, n);
    OneSource(h, t, polls, a, i, at[m]);
    OneSource(h, t, polls, b, j, at[n]);
    CleanIffTipMoved(h, t, polls, j);
    if i < j {
      IdsIncrease(h, t, polls, i, j);
    }
  }

  /** The clean flag tells rightly whether the parent's tip moved since the work before it exactly if
      the publication right before (`p`) and the one read before (`i`) compare alike with the tip:
      skipping publications does harm only where they do not. */
  lemma FlagRightIff(
    h: Hashes, t: Timing, polls: seq<Poll>, rounds: seq<Round>, at: seq<nat>, m: nat, n: nat, i: nat, j: nat, p: nat)
    requires InOrder(t, polls) && Reads(h, t, polls, rounds, at)
    requires LastRead(rounds, m, n) && n < |rounds| && rounds[n].parent.Some?
    requires ReadFrom(h, t, polls, at, i, m) && ReadFrom(h, t, polls, at, j, n)
    requires i < j && LastPublish(h, t, polls, p, j)
    ensures AfterRounds(rounds[..n + 1]).published.Some?
    ensures (AfterRounds(rounds[..n + 1]).published.value.cleanJobs <==> polls[i].tip != polls[j].tip)
       <==> ((polls[p].tip != polls[j].tip) <==> (polls[i].tip != polls[j].tip))
  {
    hide After, FetchedAt, AfterRounds, InOrder;
    MergedCleanIff(h, t, polls, rounds, at, m, n, i, j);
    forall q: nat | LastPublish(h, t, polls, q, j) ensures q == p {
      OneSource(h, t, polls, p, q, j);
    }
  }

  /** As long as no publication is skipped, merged work is clean exactly when the parent's tip has
      moved since the work before it. */
  lemma CleanIffTipMovedSinceRead(
    h: Hashes, t: Timing, polls: seq<Poll>, rounds: seq<Round>, at: seq<nat>, m: nat, n: nat, i: nat, j: nat)
    requires InOrder(t, polls) && Reads(h, t, polls, rounds, at)
    requires LastRead(rounds, m, n) && n < |rounds| && rounds[n].parent.Some?
    requires ReadFrom(h, t, polls, at, i, m) && ReadFrom(h, t, polls, at, j, n)
    requires i == j || LastPublish(h, t, polls, i, j)
    ensures AfterRounds(rounds[..n + 1]).published.Some?
    ensures AfterRounds(rounds[..n + 1]).published.value.cleanJobs <==> polls[i].tip != polls[j].tip
  {
    hide After, FetchedAt, AfterRounds, InOrder;
    MergedCleanIff(h, t, polls, rounds, at, m, n, i, j);
    if i < j {
      forall p: nat | LastPublish(h, t, polls, p, j) ensures p == i {
        OneSource(h, t, polls, p, i, j);
      }
    }
  }

  /** Three polls: tip a, tip b, and tip b again with another tag. */
  function LostFlush(raw: WorkTemplate, a: Hash256, b: Hash256): seq<Poll> {
    [Poll(Some(a), [], Some(raw.(prevHash := a)), 0, 0), Poll(Some(b), [], Some(raw.(prevHash := b)), 1, 1),
     Poll(Some(b), [1], Some(raw.(prevHash := b)), 2, 2)]
  }

  const LOST_TIMING := Timing(1000, 1000, 0)

  /** The merger reads after the first and after the third. */
  function LostRounds(h: Hashes, raw: WorkTemplate, a: Hash256, b: Hash256): seq<Round> {
    var polls := LostFlush(raw, a, b);
    [Round(After(h, LOST_TIMING, polls[..1]).published, []), Round(After(h, LOST_TIMING, polls[..3]).published, [])]
  }

  /** Without that a flush can be lost: a clean template skipped by the reader, then a tag change. */
  lemma SkippedFlush(h: Hashes, raw: WorkTemplate, a: Hash256, b: Hash256)
    requires a != b
    ensures var t, polls, rounds := LOST_TIMING, LostFlush(raw, a, b), LostRounds(h, raw, a, b);
            && InOrder(t, polls) && Reads(h, t, polls, rounds, [1, 3])
            && ReadFrom(h, t, polls, [1, 3], 0, 0) && ReadFrom(h, t, polls, [1, 3], 2, 1)
            && polls[0].tip != polls[2].tip
            && AfterRounds(rounds[..2]).published.Some? && !AfterRounds(rounds[..2]).published.value.cleanJobs
  {
    hide Fetch, Polled, AfterRounds, Converted;
    var t, polls, rounds := LOST_TIMING, LostFlush(raw, a, b), LostRounds(h, raw, a, b);
    ThreePublish(h, raw, a, b);
    hide After, FetchedAt;
    MergedCleanIff(h, t, polls, rounds, [1, 3], 0, 1, 0, 2);
    assert LastPublish(h, t, polls, 1, 2);
  }

  lemma ThreePublish(h: Hashes, raw: WorkTemplate, a: Hash256, b: Hash256)
    requires a != b
    ensures var t, polls := LOST_TIMING, LostFlush(raw, a, b);
            && (forall i :: 0 <= i < 3 ==> FetchedAt(h, t, polls, i).New?)
            && After(h, t, polls[..1]).published == Some(FetchedAt(h, t, polls, 0).work)
            && After(h, t, polls[..3]).published == Some(FetchedAt(h, t, polls, 2).work)
  {
    hide Converted;
    var t, polls := LOST_TIMING, LostFlush(raw, a, b);
    assert polls[..0] == [];
    PollStep(h, t, polls, 0);
    PollStep(h, t, polls, 1);
    PollStep(h, t, polls, 2);
  }

  /** What the merger makes of it: work on tip a, then work on tip b that is not clean. */
  lemma LostWorks(h: Hashes, raw: WorkTemplate, a: Hash256, b: Hash256)
    requires a != b
    ensures var t, polls, rounds := LOST_TIMING, LostFlush(raw, a, b), LostRounds(h, raw, a, b);
            && FetchedAt(h, t, polls, 0).New? && FetchedAt(h, t, polls, 2).New?
            && (exists clean :: AfterRounds(rounds[..1]).published
                                == Some(MergedWork(FetchedAt(h, t, polls, 0).work, [], clean)))
            && AfterRounds(rounds[..2]).published == Some(MergedWork(FetchedAt(h, t, polls, 2).work, [], false))
  {
    hide Fetch, Polled, Converted;
    var rounds := LostRounds(h, raw, a, b);
    SkippedFlush(h, raw, a, b);
    ThreePublish(h, raw, a, b);
    hide After, FetchedAt;
    assert rounds[..0] == [];
    RoundNext(rounds, 0);
    RoundNext(rounds, 1);
    hide AfterRounds;
    assert Present([]) == [];
    assert AfterRounds(rounds[..1]).published.value
        == MergedWork(rounds[0].parent.value, [], AfterRounds(rounds[..1]).published.value.cleanJobs);
  }

  /** Work merged from templates that have their branches is sound; so is all that sources publish. */
  lemma {:induction false} MergedIsSound(h: Hashes, rounds: seq<Round>, n: nat)
    requires n <= |rounds|
    requires forall m :: 0 <= m < n ==> rounds[m].parent.Some? ==> rounds[m].parent.value.HasBranch(h)
    requires forall m, k :: 0 <= m < n && 0 <= k < |rounds[m].aux| && rounds[m].aux[k].Some? ==>
        rounds[m].aux[k].value.HasBranch(h)
    ensures AfterRounds(rounds[..n]).published.Some? ==> WorkSound(h, AfterRounds(rounds[..n]).published.value)
  {
    assert rounds[..0] == [];
    if n > 0 {
      RoundNext(rounds, n - 1);
      MergedIsSound(h, rounds, n - 1);
      PresentAreRead(rounds[n - 1].aux);
    }
  }

  /** Merged work is what one of the rounds read. */
  lemma {:induction false} MergedFrom(rounds: seq<Round>, n: nat) returns (m: nat)
    requires n <= |rounds| && AfterRounds(rounds[..n]).published.Some?
    ensures var work := AfterRounds(rounds[..n]).published.value;
            m < n && rounds[m].parent == Some(work.parent) && forall t :: t in work.aux ==> Some(t) in rounds[m].aux
  {
    assert rounds[..0] == [];
    m := 0;
    if n > 0 {
      RoundNext(rounds, n - 1);
      if rounds[n - 1].parent.Some? {
        m := n - 1;
        PresentAreRead(rounds[m].aux);
      } else {
        m := MergedFrom(rounds, n - 1);
      }
    }
  }

  lemma {:induction false} PresentAreRead(aux: seq<Option<WorkTemplate>>)
    ensures forall w :: w in Present(aux) <==> Some(w) in aux
  {
    if aux != [] {
      PresentAreRead(aux[1..]);
    }
  }
}
