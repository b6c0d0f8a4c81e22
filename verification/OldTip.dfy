/** What a lost flush does to a session: a share on the old tip's job goes on being accepted. */
module OldTip {
  import opened Bytes
  import opened Wrappers
  import opened Encode
  import opened Work
  import opened Coinbase
  import opened Jobs
  import opened Validate
  import opened Session
  import opened SessionRuns
  import opened Pipeline
  import opened TwoJobRuns
  import MergedStream
  import TagBudget
  import TemplateStream

  /** The two works of the lost flush. */
  function LostWork(h: Hashes, raw: WorkTemplate, a: Hash256, b: Hash256, n: nat): Option<MergedWork> {
    MergedStream.AfterRounds(MergedStream.LostRounds(h, raw, a, b)[..if n == 0 then 1 else 2]).published
  }

  predicate OnTip(work: MergedWork, raw: WorkTemplate, tip: Hash256) {
    && work.aux == [] && work.parent.prevHash == tip && work.parent.minTime == raw.minTime
    && ScriptLen(work.parent, [], 8) <= MAX_COINBASE_SCRIPT_LEN
  }

  lemma PrefixFits(height: u64, tag: TemplateStream.Tag)
    requires height < 0x8000_0000 && |tag| <= 1
    ensures |TagBudget.Prefix(height, tag)| <= 7
  {
    TagBudget.HeightPushLen(height);
    hide PushScriptNum;
  }

  lemma StreamedAt(h: Hashes, raw: WorkTemplate, a: Hash256, b: Hash256, i: nat)
    requires a != b && raw.height < 0x8000_0000 && i < 3
    ensures TemplateStream.FetchedAt(h, MergedStream.LOST_TIMING, MergedStream.LostFlush(raw, a, b), i).New?
    ensures var w := TemplateStream.FetchedAt(h, MergedStream.LOST_TIMING, MergedStream.LostFlush(raw, a, b), i).work;
            && Published(h, w) && w.prevHash == (if i == 0 then a else b) && w.minTime == raw.minTime
            && |w.prefix| <= 7
  {
    var t, polls := MergedStream.LOST_TIMING, MergedStream.LostFlush(raw, a, b);
    MergedStream.ThreePublish(h, raw, a, b);
    TemplateStream.PublishedIsConverted(h, t, polls, i);
    hide TemplateStream.FetchedAt, TagBudget.Prefix;
    PrefixFits(raw.height, polls[i].tag);
    var w := TemplateStream.FetchedAt(h, t, polls, i).work;
    assert Streamed(h, w, raw.height, polls[i].tag);
  }

  lemma LostWorkIs(h: Hashes, raw: WorkTemplate, a: Hash256, b: Hash256)
    ensures |MergedStream.LostRounds(h, raw, a, b)| == 2
    ensures LostWork(h, raw, a, b, 0)
         == MergedStream.AfterRounds(MergedStream.LostRounds(h, raw, a, b)[..1]).published
    ensures LostWork(h, raw, a, b, 1)
         == MergedStream.AfterRounds(MergedStream.LostRounds(h, raw, a, b)[..2]).published
  {
    hide MergedStream.AfterRounds, TemplateStream.After;
  }

  lemma LostWorksTip(h: Hashes, raw: WorkTemplate, a: Hash256, b: Hash256)
    requires a != b && raw.height < 0x8000_0000
    ensures LostWork(h, raw, a, b, 0).Some? && OnTip(LostWork(h, raw, a, b, 0).value, raw, a)
    ensures LostWork(h, raw, a, b, 1).Some? && OnTip(LostWork(h, raw, a, b, 1).value, raw, b)
    ensures !LostWork(h, raw, a, b, 1).value.cleanJobs
  {
    StreamedAt(h, raw, a, b, 0);
    StreamedAt(h, raw, a, b, 2);
    MergedStream.LostWorks(h, raw, a, b);
    LostWorkIs(h, raw, a, b);
    hide LostWork, MergedStream.LostRounds, MergedStream.AfterRounds, TemplateStream.FetchedAt, TemplateStream.After,
         Published;
  }

  lemma RoundsPublished(h: Hashes, raw: WorkTemplate, a: Hash256, b: Hash256)
    requires a != b && raw.height < 0x8000_0000
    ensures var rounds := MergedStream.LostRounds(h, raw, a, b);
            |rounds| == 2 && RoundPublished(h, rounds[0]) && RoundPublished(h, rounds[1])
  {
    StreamedAt(h, raw, a, b, 0);
    StreamedAt(h, raw, a, b, 2);
    MergedStream.ThreePublish(h, raw, a, b);
    hide TemplateStream.FetchedAt, TemplateStream.After, Published;
  }

  lemma LostWorksAre(h: Hashes, raw: WorkTemplate, a: Hash256, b: Hash256)
    requires a != b && raw.height < 0x8000_0000
    ensures LostWork(h, raw, a, b, 0).Some? && OnTip(LostWork(h, raw, a, b, 0).value, raw, a)
    ensures LostWork(h, raw, a, b, 1).Some? && OnTip(LostWork(h, raw, a, b, 1).value, raw, b)
    ensures !LostWork(h, raw, a, b, 1).value.cleanJobs
    ensures MergedWorkOf(h, LostWork(h, raw, a, b, 0).value) && MergedWorkOf(h, LostWork(h, raw, a, b, 1).value)
  {
    hide *;
    LostWorksTip(h, raw, a, b);
    RoundsPublished(h, raw, a, b);
    LostWorkIs(h, raw, a, b);
    var rounds := MergedStream.LostRounds(h, raw, a, b);
    FromRounds(h, rounds[..1], LostWork(h, raw, a, b, 0).value);
    FromRounds(h, rounds[..2], LostWork(h, raw, a, b, 1).value);
  }

  lemma FromRounds(h: Hashes, rounds: seq<MergedStream.Round>, work: MergedWork)
    requires forall m :: 0 <= m < |rounds| ==> RoundPublished(h, rounds[m])
    requires MergedStream.AfterRounds(rounds).published == Some(work)
    ensures MergedWorkOf(h, work)
  {
    hide RoundPublished, MergedStream.AfterRounds;
  }

  /** The session that gets these works. */
  function LostStory(
    h: Hashes, raw: WorkTemplate, a: Hash256, b: Hash256, name: string, submit: Submit, now: real, nowUnix: nat): Story
    requires LostWork(h, raw, a, b, 0).Some? && LostWork(h, raw, a, b, 1).Some?
  {
    Story(name, LostWork(h, raw, a, b, 0).value, LostWork(h, raw, a, b, 1).value, submit, submit, now, nowUnix)
  }

  /** A node moves from tip a to tip b, the merger skips the clean template and reads the next: the
      session then works on tip b, and a share for its job on tip a is accepted if it meets the target. */
  lemma OldTipAccepted(
    env: Env, raw: WorkTemplate, a: Hash256, b: Hash256, name: string, submit: Submit, now: real, nowUnix: nat)
    requires env.cfg.Valid() && a != b && raw.height < 0x8000_0000
    requires name != "" && env.payouts.parent(name).script != []
    requires submit.worker == name && |submit.extranonce2| == EXTRANONCE2_LEN
    requires raw.minTime <= submit.ntime <= nowUnix + MAX_FUTURE_NTIME
    ensures LostWork(env.h, raw, a, b, 0).Some? && LostWork(env.h, raw, a, b, 1).Some?
    ensures var s := LostStory(env.h, raw, a, b, name, submit, now, nowUnix); var ins := s.Inputs();
            && Fed(env, ins) && |Before(env, ins, 3).jobs| == 2 && Before(env, ins, 3).work.Some?
            && Before(env, ins, 3).jobs[0].work.prevHash == a && Before(env, ins, 3).work.value.parent.prevHash == b
            && ScriptLen(s.first.parent, [], 8) <= MAX_COINBASE_SCRIPT_LEN
            && (LowEnough(env, name, s.first.parent, submit) ==>
                  Effect(env, ins, 3).accepted == Some((1, ShareKey(submit))))
  {
    hide *;
    LostWorksAre(env.h, raw, a, b);
    var s := LostStory(env.h, raw, a, b, name, submit, now, nowUnix);
    StoryIs(env.h, raw, a, b, name, submit, now, nowUnix);
    IsTold(env, s, raw, a, b);
    FirstAccepted(env, s);
    OnTipFacts(s.first, raw, a);
    OnTipFacts(s.second, raw, b);
    FedBy(env, s);
  }

  lemma StoryIs(h: Hashes, raw: WorkTemplate, a: Hash256, b: Hash256, name: string, submit: Submit, now: real,
      nowUnix: nat)
    requires LostWork(h, raw, a, b, 0).Some? && LostWork(h, raw, a, b, 1).Some?
    ensures LostStory(h, raw, a, b, name, submit, now, nowUnix)
         == Story(name, LostWork(h, raw, a, b, 0).value, LostWork(h, raw, a, b, 1).value, submit, submit, now, nowUnix)
  {
    hide LostWork;
  }

  lemma OnTipFacts(work: MergedWork, raw: WorkTemplate, tip: Hash256)
    requires OnTip(work, raw, tip)
    ensures work.parent.prevHash == tip && ScriptLen(work.parent, [], 8) <= MAX_COINBASE_SCRIPT_LEN
  {
    hide ScriptLen;
  }

  lemma JobsTemplate(env: Env, name: string, work: MergedWork, job: SessionJob)
    requires env.cfg.Valid() && ScriptLen(work.parent, [], 8) <= MAX_COINBASE_SCRIPT_LEN
    requires IsJobOf(env, name, work, job)
    ensures job.work == work.parent
  {
    hide ScriptLen, Parts, Algorithm.ShareTarget;
  }

  /** Once the second work is in force, the first job's share is accepted if it meets the target. */
  lemma FirstAccepted(env: Env, s: Story)
    requires env.cfg.Valid() && Told(env, s)
    ensures ScriptLen(s.first.parent, [], 8) <= MAX_COINBASE_SCRIPT_LEN
    ensures var state := Before(env, s.Inputs(), 3);
            && |state.jobs| == 2 && state.jobs[0].work == s.first.parent && state.work == Some(s.second)
            && (LowEnough(env, s.name, s.first.parent, s.x) ==>
                  Effect(env, s.Inputs(), 3).accepted == Some((1, ShareKey(s.x))))
  {
    hide *;
    StoryParts(s);
    ShareAccepted(env, s, 0);
    JobIs(env, s, 3, 0);
    JobsTemplate(env, s.name, s.first, Before(env, s.Inputs(), 3).jobs[0]);
    WorkInForce(env, s.Inputs(), 2);
  }

  lemma IsTold(env: Env, s: Story, raw: WorkTemplate, a: Hash256, b: Hash256)
    requires OnTip(s.first, raw, a) && OnTip(s.second, raw, b) && !s.second.cleanJobs && s.x == s.y
    requires s.name != "" && env.payouts.parent(s.name).script != []
    requires s.x.worker == s.name && |s.x.extranonce2| == EXTRANONCE2_LEN
    requires raw.minTime <= s.x.ntime <= s.nowUnix + MAX_FUTURE_NTIME
    ensures Told(env, s)
  {
    hide ScriptLen;
  }

  lemma FedBy(env: Env, s: Story)
    requires MergedWorkOf(env.h, s.first) && MergedWorkOf(env.h, s.second)
    ensures Fed(env, s.Inputs())
  {
    hide MergedWorkOf;
  }
}
