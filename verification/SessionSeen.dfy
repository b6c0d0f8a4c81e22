/** What a session's seen shares are, and how every submit that reaches a job is answered. */
module SessionSeen {
  import opened Bytes
  import opened Wrappers
  import opened Jobs
  import opened Validate
  import opened Session
  import opened SessionSteps
  import opened SessionRuns
  import Header
  import Target

  /** The submit of step `i` reached a held job of this id, passed the checks made before the seen
      shares are looked at, and had this key. */
  ghost predicate Entered(env: Env, ins: seq<Input>, i: nat, id: nat, key: (u32, u32, u32))
    requires env.cfg.Valid()
  {
    && i < |ins| && ins[i].SubmitShare? && Reaches(Before(env, ins, i), ins[i])
    && |ins[i].submit.extranonce2| == EXTRANONCE2_LEN && key == ShareKey(ins[i].submit)
    && exists n :: HeldAs(Before(env, ins, i), n, id) && Enters(Before(env, ins, i).jobs[n], ins[i])
  }

  predicate HeldAs(s: State, n: int, id: nat) {
    0 <= n < |s.jobs| && s.jobs[n].id == id
  }

  lemma OneOfId(s: State, m: int, n: int, id: nat)
    requires IdsOrdered(s) && HeldAs(s, m, id) && HeldAs(s, n, id)
    ensures m == n
  {
  }

  /** Over any run a held job's seen shares are exactly those of the submits that reached it and passed
      the first checks, whatever became of them. */
  lemma {:induction false} SeenIsEntered(env: Env, ins: seq<Input>, j: nat, n: nat, key: (u32, u32, u32))
    requires env.cfg.Valid() && j <= |ins| && n < |Before(env, ins, j).jobs|
    ensures var job := Before(env, ins, j).jobs[n];
            key in job.seen <==> exists i: nat :: i < j && Entered(env, ins, i, job.id, key)
  {
    hide Sane, AcceptedBy, PayStep, Step, Fresh, Effect, Entered, SeenAfter;
    assert ins[..0] == [];
    if j > 0 {
      RunSteps(env, ins, j - 1);
      hide Before;
      var s, job := Before(env, ins, j - 1), Before(env, ins, j).jobs[n];
      if HasSource(s, job, ins[j - 1]) {
        var m :| 0 <= m < |s.jobs| && Succeeds(s.jobs[m], job, ins[j - 1], Reaches(s, ins[j - 1]));
        SeenIsEntered(env, ins, j - 1, m, key);
        EnteredNow(env, ins, j - 1, m, key);
        SucceedsId(s.jobs[m], job, ins[j - 1], Reaches(s, ins[j - 1]));
      } else {
        NewHasNothing(env, ins, j, job, key);
      }
    }
  }

  lemma SucceedsId(a: SessionJob, b: SessionJob, input: Input, reaches: bool)
    requires Succeeds(a, b, input, reaches)
    ensures a.id == b.id && b.seen == SeenAfter(a, input, reaches)
  {
    hide SeenAfter;
  }

  lemma EnteredNow(env: Env, ins: seq<Input>, i: nat, m: nat, key: (u32, u32, u32))
    requires env.cfg.Valid() && i < |ins| && m < |Before(env, ins, i).jobs|
    ensures var a := Before(env, ins, i).jobs[m];
            key in SeenAfter(a, ins[i], Reaches(Before(env, ins, i), ins[i]))
            <==> key in a.seen || Entered(env, ins, i, a.id, key)
  {
    AlwaysOrdered(env, ins, i);
    hide Before, Sane, ShareKey, Resolved;
    var s := Before(env, ins, i);
    assert HeldAs(s, m, s.jobs[m].id);
    forall n | HeldAs(s, n, s.jobs[m].id) ensures n == m {
      OneOfId(s, m, n, s.jobs[m].id);
    }
  }

  lemma NewHasNothing(env: Env, ins: seq<Input>, j: nat, job: SessionJob, key: (u32, u32, u32))
    requires env.cfg.Valid() && 0 < j <= |ins| && Fresh(env, Before(env, ins, j), Before(env, ins, j - 1).nextJob, job)
    ensures key !in job.seen && forall i: nat :: i < j ==> !Entered(env, ins, i, job.id, key)
  {
    hide Before, Sane, ShareKey, Enters, MadeFrom;
    forall i: nat | i < j ensures !Entered(env, ins, i, job.id, key) {
      AlwaysOrdered(env, ins, i);
      IdsGrow(env, ins, i, j - 1);
    }
  }

  // ---------- keys and shares ----------

  /** The key names the share: extranonce2, ntime and nonce. */
  lemma KeyIsShare(a: Submit, b: Submit)
    requires |a.extranonce2| == EXTRANONCE2_LEN && |b.extranonce2| == EXTRANONCE2_LEN && ShareKey(a) == ShareKey(b)
    ensures a.extranonce2 == b.extranonce2 && a.ntime == b.ntime && a.nonce == b.nonce
  {
    Header.DigitsOfValue(Reverse(a.extranonce2));
    Header.DigitsOfValue(Reverse(b.extranonce2));
    assert forall i :: 0 <= i < 4 ==> a.extranonce2[i] == Reverse(a.extranonce2)[3 - i];
    assert forall i :: 0 <= i < 4 ==> b.extranonce2[i] == Reverse(b.extranonce2)[3 - i];
  }

  /** The share's hash meets the job's own target. */
  predicate Meets(env: Env, job: SessionJob, submit: Submit)
  {
    Target.IsMetBy(job.target, ShareHash(env.h, job, env.extranonce1 + submit.extranonce2, submit))
  }

  /** Whether a share meets a job's target depends on its key, and does not change with the job's age. */
  lemma MeetsByKey(env: Env, a: SessionJob, b: SessionJob, x: Submit, y: Submit)
    requires Grown(a, b) && |x.extranonce2| == EXTRANONCE2_LEN && |y.extranonce2| == EXTRANONCE2_LEN
    requires ShareKey(x) == ShareKey(y)
    ensures Meets(env, a, x) <==> Meets(env, b, y)
  {
    KeyIsShare(x, y);
    hide ShareKey, Target.IsMetBy, Header.HeaderBytes;
  }

  // ---------- answers ----------

  /** How a submit is answered that reaches a held job and passes the first checks: it is a duplicate
      exactly if its share has been entered before; otherwise it is accepted exactly if it meets the
      job's target, and rejected for low difficulty if not. */
  lemma EnteredIsAnswered(env: Env, ins: seq<Input>, j: nat, n: nat, key: (u32, u32, u32))
    requires env.cfg.Valid() && j < |ins| && n < |Before(env, ins, j).jobs|
    requires Entered(env, ins, j, Before(env, ins, j).jobs[n].id, key)
    ensures var job, fx := Before(env, ins, j).jobs[n], Effect(env, ins, j);
            var before := exists i: nat :: i < j && Entered(env, ins, i, job.id, key);
            && (fx.reply == Denied(Reject(Duplicate)) <==> before)
            && (fx.reply == Granted <==> !before && Meets(env, job, ins[j].submit))
            && (fx.reply == Denied(Reject(LowDifficulty)) <==> !before && !Meets(env, job, ins[j].submit))
            && (fx.reply == Granted <==> fx.accepted == Some((job.id, key)))
            && (fx.reply != Granted ==> fx.accepted.None?)
  {
    SeenIsEntered(env, ins, j, n, key);
    AlwaysOrdered(env, ins, j);
    var s, input := Before(env, ins, j), ins[j];
    SubmitEffectIs(env, ins, j);
    hide Before, Effect, Meets, ShareKey, Resolved, Step;
    EnteredThere(env, ins, j, n, key);
    hide Entered;
    EntersAnswer(env, s, n, input);
  }

  lemma SubmitEffectIs(env: Env, ins: seq<Input>, j: nat)
    requires env.cfg.Valid() && j < |ins| && ins[j].SubmitShare?
    ensures Effect(env, ins, j)
        == SubmitStep(env, Before(env, ins, j), ins[j].jobId, ins[j].submit, ins[j].now, ins[j].nowUnix).1
  {
    hide Before, SubmitStep;
  }

  lemma EnteredThere(env: Env, ins: seq<Input>, j: nat, n: nat, key: (u32, u32, u32))
    requires env.cfg.Valid() && j < |ins| && n < |Before(env, ins, j).jobs| && IdsOrdered(Before(env, ins, j))
    requires Entered(env, ins, j, Before(env, ins, j).jobs[n].id, key)
    ensures ins[j].SubmitShare? && |ins[j].submit.extranonce2| == EXTRANONCE2_LEN && key == ShareKey(ins[j].submit)
    ensures Reaches(Before(env, ins, j), ins[j]) && Enters(Before(env, ins, j).jobs[n], ins[j])
  {
    hide Before, ShareKey, Timely, Sane, IdsOrdered;
    var s := Before(env, ins, j);
    var m :| HeldAs(s, m, s.jobs[n].id) && Enters(s.jobs[m], ins[j]);
    assert HeldAs(s, n, s.jobs[n].id);
    OneOfId(s, m, n, s.jobs[n].id);
  }

  lemma EntersAnswer(env: Env, s: State, n: nat, input: Input)
    requires Sane(env, s) && IdsOrdered(s) && n < |s.jobs| && input.SubmitShare? && Reaches(s, input)
    requires Enters(s.jobs[n], input)
    ensures var job, fx := s.jobs[n], SubmitStep(env, s, input.jobId, input.submit, input.now, input.nowUnix).1;
            var key := ShareKey(input.submit);
            && (fx.reply == Denied(Reject(Duplicate)) <==> key in job.seen)
            && (fx.reply == Granted <==> key !in job.seen && Meets(env, job, input.submit))
            && (fx.reply == Denied(Reject(LowDifficulty)) <==> key !in job.seen && !Meets(env, job, input.submit))
            && (fx.reply == Granted <==> fx.accepted == Some((job.id, key)))
            && (fx.reply != Granted ==> fx.accepted.None?)
  {
    hide SubmitStep, Judge, ShareKey, ShareHash, Target.IsMetBy, Sane;
    var k := SubmitFrame(env, s, input.jobId, input.submit, input.now, input.nowUnix);
    assert k == Some(n);
    var job, address := s.jobs[n], s.payout.value.parent.address;
    PartsAt(env, s, n);
    AcceptedIff(env.h, job, env.extranonce1, input.submit, address, input.nowUnix);
    SeenGrowsIff(env.h, job, env.extranonce1, input.submit, address, input.nowUnix);
  }

  lemma PartsAt(env: Env, s: State, n: nat)
    requires Sane(env, s) && n < |s.jobs|
    ensures PartsFit(s.jobs[n])
  {
  }

  /** A share submitted again, for whatever it was answered the first time, is a duplicate. */
  lemma ResubmittedIsDuplicate(env: Env, ins: seq<Input>, i: nat, j: nat, n: nat, key: (u32, u32, u32))
    requires env.cfg.Valid() && i < j < |ins| && n < |Before(env, ins, j).jobs|
    requires Entered(env, ins, i, Before(env, ins, j).jobs[n].id, key)
    requires Entered(env, ins, j, Before(env, ins, j).jobs[n].id, key)
    ensures Effect(env, ins, j).reply == Denied(Reject(Duplicate)) && Effect(env, ins, j).accepted.None?
  {
    hide Before, Effect, Entered, Meets;
    EnteredIsAnswered(env, ins, j, n, key);
  }

  /** A held job's accepted shares are those of its seen shares that meet its target. */
  lemma AcceptedIsMet(env: Env, ins: seq<Input>, i: nat, j: nat, n: nat, key: (u32, u32, u32))
    requires env.cfg.Valid() && i < j <= |ins| && n < |Before(env, ins, j).jobs|
    requires Entered(env, ins, i, Before(env, ins, j).jobs[n].id, key)
    ensures var job := Before(env, ins, j).jobs[n];
            (exists a: nat :: a < j && Effect(env, ins, a).accepted == Some((job.id, key)))
                <==> Meets(env, job, ins[i].submit)
  {
    hide Before, Effect, Entered, Meets, ShareKey;
    var job := Before(env, ins, j).jobs[n];
    EnteredShare(env, ins, i, job.id, key);
    forall a: nat | a < j && Effect(env, ins, a).accepted == Some((job.id, key))
      ensures Meets(env, job, ins[i].submit)
    {
      AcceptedMeets(env, ins, a, j, n, key, ins[i].submit);
    }
    if Meets(env, job, ins[i].submit) {
      var a := FirstEntered(env, ins, i, job.id, key);
      EnteredShare(env, ins, a, job.id, key);
      var m := EnteredHeld(env, ins, a, job.id, key);
      SeenStays(env, ins, a, j, Before(env, ins, a).jobs[m], job);
      MeetsByKey(env, Before(env, ins, a).jobs[m], job, ins[a].submit, ins[i].submit);
      EnteredIsAnswered(env, ins, a, m, key);
    }
  }

  lemma EnteredShare(env: Env, ins: seq<Input>, i: nat, id: nat, key: (u32, u32, u32))
    requires env.cfg.Valid() && Entered(env, ins, i, id, key)
    ensures i < |ins| && ins[i].SubmitShare? && |ins[i].submit.extranonce2| == EXTRANONCE2_LEN
    ensures key == ShareKey(ins[i].submit)
  {
    hide Before, ShareKey;
  }

  lemma EnteredHeld(env: Env, ins: seq<Input>, i: nat, id: nat, key: (u32, u32, u32)) returns (m: nat)
    requires env.cfg.Valid() && Entered(env, ins, i, id, key)
    ensures i < |ins| && m < |Before(env, ins, i).jobs| && Before(env, ins, i).jobs[m].id == id
  {
    hide Before, ShareKey;
    var n :| HeldAs(Before(env, ins, i), n, id) && Enters(Before(env, ins, i).jobs[n], ins[i]);
    m := n;
  }

  /** The first time a share was entered. */
  lemma {:induction false} FirstEntered(env: Env, ins: seq<Input>, i: nat, id: nat, key: (u32, u32, u32))
    returns (a: nat)
    requires env.cfg.Valid() && Entered(env, ins, i, id, key)
    ensures a <= i && Entered(env, ins, a, id, key) && forall b: nat :: b < a ==> !Entered(env, ins, b, id, key)
    decreases i
  {
    hide Entered;
    a := i;
    if b: nat :| b < i && Entered(env, ins, b, id, key) {
      a := FirstEntered(env, ins, b, id, key);
    }
  }

  lemma AcceptedMeets(env: Env, ins: seq<Input>, a: nat, j: nat, n: nat, key: (u32, u32, u32), submit: Submit)
    requires env.cfg.Valid() && a < j <= |ins| && n < |Before(env, ins, j).jobs|
    requires Effect(env, ins, a).accepted == Some((Before(env, ins, j).jobs[n].id, key))
    requires |submit.extranonce2| == EXTRANONCE2_LEN && ShareKey(submit) == key
    ensures Meets(env, Before(env, ins, j).jobs[n], submit)
  {
    hide Sane, PayStep, Before, Effect, JobsStep, ShareHash, Assess, Target.IsMetBy, IdsOrdered, ShareKey, Meets;
    RunSteps(env, ins, a);
    var s, job := Before(env, ins, a), Before(env, ins, j).jobs[n];
    var m: nat :| AcceptedBy(env, s, ins[a], Before(env, ins, a + 1), Effect(env, ins, a), m);
    AcceptedMeetsNow(env, s, ins[a], Before(env, ins, a + 1), Effect(env, ins, a), m);
    SeenStays(env, ins, a, j, s.jobs[m], job);
    MeetsByKey(env, s.jobs[m], job, ins[a].submit, submit);
  }

  lemma AcceptedMeetsNow(env: Env, s: State, input: Input, t: State, fx: Effects, m: nat)
    requires AcceptedBy(env, s, input, t, fx, m)
    ensures Meets(env, s.jobs[m], input.submit)
  {
    hide ShareHash, Target.IsMetBy, ShareKey, Assess;
  }
}
