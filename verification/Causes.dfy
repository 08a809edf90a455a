/**
 Where the outcomes come from.  The theorems here compare the results of a run with its steps alone: what the queue
 holds meanwhile does not appear in them.
 */
module Causes {
  import opened Common
  import opened Sessions
  import opened Engine
  import opened Runs

  /** The robot sent the reply and it was delivered. */
  predicate Delivered(r: Reply, past: seq<Step>) {
    Answer(r) in past && (Deliver(r, true) in past || Deliver(r, false) in past)
  }

  /** What must have happened for session `j` to fail for this reason. */
  ghost predicate FailureCause(why: Failure<Reply>, j: nat, past: seq<Step>) {
    || Cancel(j, why) in past
    || (match why
        case Aborted => false
        case TimedOut => Expire(j, Fired) in past
        case TimerFailed => Expire(j, Errored) in past
        case SendFailed => exists k :: Step.Sent(j, k, true) in past
        case Refused(r) => !r.good && Delivered(r, past))
  }

  ghost predicate VerdictCause(v: Verdict<Reply>, j: nat, past: seq<Step>) {
    match v
    case Success(values) =>
      forall i :: 0 <= i < |values| ==> values[i].Some? && values[i].value.good && Delivered(values[i].value, past)
    case Failure(why) => FailureCause(why, j, past)
  }

  /** The same for one command; the commands of a multi-command session that failed may have been aborted. */
  predicate OutcomeCause(c: Command, k: nat, kind: Kind, past: seq<Step>) {
    match c.outcome
    case None => true
    case Some(Ok(r)) => r.good && Delivered(r, past)
    case Some(Failed(why)) =>
      || (why.Aborted? && kind.Multi?)
      || Cancel(c.owner, why) in past
      || (match why
          case Aborted => false
          case TimedOut => !kind.Multi? && Expire(c.owner, Fired) in past
          case TimerFailed => !kind.Multi? && Expire(c.owner, Errored) in past
          case SendFailed => Step.Sent(c.owner, k, true) in past
          case Refused(r) => !r.good && Delivered(r, past))
  }

  /** A handler in the queue has the code with which its operation completed. */
  predicate TaskCause(t: Task<nat>, past: seq<Step>) {
    match t
    case TimerDone(j, code) => code.Cancelled? || Expire(j, code) in past
    case SendDone(j, k, failed) => Step.Sent(j, k, failed) in past
    case Release(_) => true
  }

  /** Every outcome of the session has a cause, and so has its verdict. */
  ghost predicate JobCaused(cmds: seq<Command>, job: Session, past: seq<Step>)
    requires job.first + job.count <= |cmds|
  {
    && (forall k :: job.first <= k < job.first + job.count ==> OutcomeCause(cmds[k], k, job.kind, past))
    && (job.calls != [] ==> VerdictCause(job.calls[0], job.self, past))
  }

  ghost predicate Caused(s: State, past: seq<Step>)
    requires WellFormed(s)
  {
    && (forall t :: t in s.queue ==> TaskCause(t, past))
    && (forall r :: r in s.flight ==> Answer(r) in past)
    && (forall j :: 0 <= j < |s.jobs| ==> JobCaused(s.cmds, s.jobs[j], past))
  }

  // ----- One session -----

  /** Nothing outside the session changes, and all it queues by itself are its release and its cancelled wait. */
  ghost predicate Quiet(w: Local, w1: Local) {
    && |w1.cmds| == |w.cmds|
    && (forall k :: 0 <= k < |w.cmds| && !w.job.Has(k) ==> w1.cmds[k] == w.cmds[k])
    && (forall t :: t in w1.queue ==> t in w.queue || t.Release? || (t.TimerDone? && t.code.Cancelled?))
  }

  lemma StepQuiet(w: Local, w1: Local)
    requires w.Valid() && LocalStep(w, w1)
    ensures Quiet(w, w1)
  {
    forall k | 0 <= k < |w.cmds| && !w.job.Has(k) ensures w1.cmds[k] == w.cmds[k] {
      assert CmdStep(w.cmds[k], w1.cmds[k], w.job.Has(k));
    }
  }

  lemma ResolveCmdOutcomes(w: Local, k: nat, r: Outcome<Reply>, past: seq<Step>)
    requires w.Valid() && w.job.Has(k) && JobCaused(w.cmds, w.job, past)
    requires OutcomeCause(w.cmds[k].(outcome := Some(r)), k, w.job.kind, past)
    ensures var w1 := ResolveCmd(w, k, r);
      && |w1.cmds| == |w.cmds|
      && forall i :: w.job.first <= i < w.job.first + w.job.count ==> OutcomeCause(w1.cmds[i], i, w.job.kind, past)
  {}

  lemma ResolveTopOutcomes(w: Local, why: Failure<Reply>, past: seq<Step>)
    requires w.Valid() && JobCaused(w.cmds, w.job, past)
    requires !w.job.kind.Multi? ==>
      OutcomeCause(w.cmds[w.job.first].(outcome := Some(Failed(why))), w.job.first, w.job.kind, past)
    ensures var w1 := ResolveTop(w, why);
      && |w1.cmds| == |w.cmds|
      && forall i :: w.job.first <= i < w.job.first + w.job.count ==> OutcomeCause(w1.cmds[i], i, w.job.kind, past)
  {}

  /** A success consists of replies that ended the commands. */
  lemma SuccessCause(cmds: seq<Command>, job: Session, past: seq<Step>)
    requires SessionInv(cmds, job) && job.calls != [] && job.calls[0].Success?
    requires forall k :: job.first <= k < job.first + job.count ==> OutcomeCause(cmds[k], k, job.kind, past)
    ensures VerdictCause(job.calls[0], job.self, past)
  {
    SettledMeans(cmds, job);
    var values := job.calls[0].values;
    forall i | 0 <= i < |values|
      ensures values[i].Some? && values[i].value.good && Delivered(values[i].value, past)
    {
      assert OutcomeCause(cmds[job.first + i], job.first + i, job.kind, past);
    }
  }

  lemma ResolveCmdCaused(w: Local, k: nat, r: Outcome<Reply>, past: seq<Step>)
    requires LocalInv(w) && w.job.Has(k) && JobCaused(w.cmds, w.job, past)
    requires OutcomeCause(w.cmds[k].(outcome := Some(r)), k, w.job.kind, past)
    requires r.Failed? ==> FailureCause(r.why, w.job.self, past)
    ensures var w1 := ResolveCmd(w, k, r); Quiet(w, w1) && JobCaused(w1.cmds, w1.job, past)
  {
    var w1 := ResolveCmd(w, k, r);
    ResolveCmdKeeps(w, k, r);
    StepQuiet(w, w1);
    ResolveCmdOutcomes(w, k, r, past);
    if w1.job.calls != [] && w1.job.calls[0].Success? { SuccessCause(w1.cmds, w1.job, past); }
  }

  lemma ResolveTopCaused(w: Local, why: Failure<Reply>, past: seq<Step>)
    requires LocalInv(w) && JobCaused(w.cmds, w.job, past) && FailureCause(why, w.job.self, past)
    requires !w.job.kind.Multi? ==>
      OutcomeCause(w.cmds[w.job.first].(outcome := Some(Failed(why))), w.job.first, w.job.kind, past)
    ensures var w1 := ResolveTop(w, why); Quiet(w, w1) && JobCaused(w1.cmds, w1.job, past)
  {
    ResolveTopKeeps(w, why);
    StepQuiet(w, ResolveTop(w, why));
    ResolveTopOutcomes(w, why, past);
  }

  /** The handler of a completed wait or send has the right effect for what happened. */
  lemma TaskCaused(w: Local, t: Task<nat>, past: seq<Step>) returns (w1: Local)
    requires LocalInv(w) && Owns(w.cmds, w.job) && t.job == w.job.self && (t.SendDone? ==> w.job.Has(t.cmd))
    requires JobCaused(w.cmds, w.job, past) && TaskCause(t, past)
    ensures w1 == RunHandler(w, t) && Quiet(w, w1) && w1.Valid() && JobCaused(w1.cmds, w1.job, past)
  {
    w1 := RunHandler(w, t);
    match t
    case TimerDone(_, code) => if !code.Cancelled? { TimerCaused(Touch(w), code, past); }
    case SendDone(_, k, failed) =>
      if failed {
        TouchKeeps(w, w.job.sends);
        ResolveCmdCaused(Touch(w), k, Failed(SendFailed), past);
      }
    case Release(_) =>
  }

  lemma TimerCaused(w: Local, code: Code, past: seq<Step>)
    requires LocalInv(w) && Owns(w.cmds, w.job) && !code.Cancelled? && Expire(w.job.self, code) in past
    requires JobCaused(w.cmds, w.job, past)
    ensures var w1 := TimerHandler(w, code); Quiet(w, w1) && w1.Valid() && JobCaused(w1.cmds, w1.job, past)
  {
    TimerHandlerKeeps(w, code);
    ResolveTopCaused(w, if code == Fired then TimedOut else TimerFailed, past);
  }

  lemma ReplyCaused(w: Local, k: nat, r: Reply, sends: bool, past: seq<Step>) returns (w1: Local)
    requires LocalInv(w) && Owns(w.cmds, w.job) && w.job.Has(k)
    requires JobCaused(w.cmds, w.job, past) && Delivered(r, past)
    ensures w1 == OnReply(w, k, r, sends) && Quiet(w, w1) && w1.Valid() && JobCaused(w1.cmds, w1.job, past)
  {
    w1 := MarkedForReply(w, k, sends, past);
    if !(w.job.kind.Transfer? && r.good && r.more) {
      ReplyOutcome(w.cmds[k], k, w.job.kind, r, past);
      w1 := MarkedCaused(w, w1, k, ToOutcome(r), past);
    }
  }

  lemma MarkedCaused(w: Local, w0: Local, k: nat, r: Outcome<Reply>, past: seq<Step>) returns (w1: Local)
    requires LocalInv(w0) && w0.job.Has(k) && JobCaused(w0.cmds, w0.job, past)
    requires w0 == w.(job := w0.job) && w0.job == w.job.(sends := w0.job.sends, touched := w0.job.touched)
    requires OutcomeCause(w0.cmds[k].(outcome := Some(r)), k, w0.job.kind, past)
    requires r.Failed? ==> FailureCause(r.why, w0.job.self, past)
    ensures w1 == ResolveCmd(w0, k, r) && Quiet(w, w1) && w1.Valid() && JobCaused(w1.cmds, w1.job, past)
  {
    w1 := ResolveCmd(w0, k, r);
    ResolveCmdCaused(w0, k, r, past);
    ResolveCmdKeeps(w0, k, r);
  }

  lemma MarkedForReply(w: Local, k: nat, sends: bool, past: seq<Step>) returns (w0: Local)
    requires LocalInv(w) && w.job.Has(k) && JobCaused(w.cmds, w.job, past)
    ensures w0 == Touch(Sending(w, k, sends)) && LocalInv(w0) && JobCaused(w0.cmds, w0.job, past)
    ensures w0 == w.(job := w0.job) && w0.job == w.job.(sends := w0.job.sends, touched := w0.job.touched)
  {
    w0 := Touch(Sending(w, k, sends));
    TouchKeeps(w, w0.job.sends);
  }

  lemma ReplyOutcome(c: Command, k: nat, kind: Kind, r: Reply, past: seq<Step>)
    requires Delivered(r, past)
    ensures OutcomeCause(c.(outcome := Some(ToOutcome(r))), k, kind, past)
    ensures ToOutcome(r).Failed? ==> forall j :: FailureCause(ToOutcome(r).why, j, past)
  {}

  // ----- From one session to all of them -----

  lemma Later(cmds: seq<Command>, job: Session, past: seq<Step>, step: Step)
    requires job.first + job.count <= |cmds| && JobCaused(cmds, job, past)
    ensures JobCaused(cmds, job, past + [step])
  {
    assert forall t :: t in past ==> t in past + [step];
    if job.calls != [] { VerdictLater(job.calls[0], job.self, past, step); }
  }

  lemma VerdictLater(v: Verdict<Reply>, j: nat, past: seq<Step>, step: Step)
    requires VerdictCause(v, j, past)
    ensures VerdictCause(v, j, past + [step])
  {
    assert forall t :: t in past ==> t in past + [step];
  }

  lemma TaskLater(t: Task<nat>, past: seq<Step>, step: Step)
    requires TaskCause(t, past)
    ensures TaskCause(t, past + [step])
  {}

  lemma CausedLater(s: State, past: seq<Step>, step: Step)
    requires WellFormed(s) && Caused(s, past)
    ensures Caused(s, past + [step])
  {
    forall t | t in s.queue ensures TaskCause(t, past + [step]) { TaskLater(t, past, step); }
    forall j | 0 <= j < |s.jobs| ensures JobCaused(s.cmds, s.jobs[j], past + [step]) {
      Later(s.cmds, s.jobs[j], past, step);
    }
  }

  lemma PutCaused(s: State, j: nat, w1: Local, past: seq<Step>)
    requires WellFormed(s) && j < |s.jobs| && Caused(s, past) && WellFormed(Put(s, j, w1))
    requires Quiet(LocalTo(s, j), w1) && w1.Valid() && JobCaused(w1.cmds, w1.job, past)
    ensures Caused(Put(s, j, w1), past)
  {
    forall i | 0 <= i < |s.jobs| && i != j ensures JobCaused(w1.cmds, s.jobs[i], past) {
      assert Owns(s.cmds, s.jobs[i]) && Owns(s.cmds, s.jobs[j]);
      assert JobCaused(s.cmds, s.jobs[i], past);
    }
  }

  // ----- Every step -----

  lemma CancelCaused(s: State, j: nat, why: Failure<Reply>, past: seq<Step>)
    requires Inv(s) && Enabled(s, Cancel(j, why)) && Caused(s, past) && Cancel(j, why) in past
    ensures WellFormed(Next(s, Cancel(j, why))) && Caused(Next(s, Cancel(j, why)), past)
  {
    NextKeeps(s, Cancel(j, why));
    LocalOf(s, j);
    assert Owns(s.cmds, s.jobs[j]);
    ResolveTopCaused(LocalTo(s, j), why, past);
    PutCaused(s, j, ResolveTop(LocalTo(s, j), why), past);
  }

  lemma DeliverCaused(s: State, r: Reply, sends: bool, past: seq<Step>)
    requires Inv(s) && r in s.flight && Caused(s, past) && Deliver(r, sends) in past
    ensures WellFormed(Next(s, Deliver(r, sends))) && Caused(Next(s, Deliver(r, sends)), past)
  {
    NextKeeps(s, Deliver(r, sends));
    var s1 := s.(flight := s.flight - multiset{r});
    assert Caused(s1, past);
    if IdOf(r.origin) in s.table {
      var k := s.table[IdOf(r.origin)];
      var j := s.cmds[k].owner;
      LocalOf(s, j);
      assert Owns(s.cmds, s.jobs[j]) && Delivered(r, past);
      var w1 := ReplyCaused(LocalTo(s, j), k, r, sends, past);
      assert Put(s1, j, w1) == Next(s, Deliver(r, sends));
      PutCaused(s1, j, w1, past);
    }
  }

  lemma RunCaused(s: State, past: seq<Step>)
    requires Inv(s) && s.queue != [] && Caused(s, past)
    ensures WellFormed(Next(s, RunNext)) && Caused(Next(s, RunNext), past)
  {
    var t, s1 := s.queue[0], Pop(s);
    PopCaused(s, past);
    var w1 := TaskCaused(LocalTo(s1, t.job), t, past);
    NextKeeps(s, RunNext);
    assert Put(s1, t.job, w1) == Next(s, RunNext);
    PutCaused(s1, t.job, w1, past);
  }

  lemma PopCaused(s: State, past: seq<Step>)
    requires Inv(s) && s.queue != [] && Caused(s, past)
    ensures WellFormed(Pop(s)) && Caused(Pop(s), past)
    ensures var t := s.queue[0];
      && t.job < |s.jobs| && LocalInv(LocalTo(Pop(s), t.job)) && Owns(s.cmds, s.jobs[t.job])
      && t.job == s.jobs[t.job].self && (t.SendDone? ==> s.jobs[t.job].Has(t.cmd)) && TaskCause(t, past)
      && JobCaused(s.cmds, s.jobs[t.job], past)
  {
    assert TaskInRange(s.jobs, s.queue[0]);
    LocalOf(s, s.queue[0].job);
    assert Owns(s.cmds, s.jobs[s.queue[0].job]);
  }

  lemma StartCaused(s: State, kind: Kind, count: nat, past: seq<Step>)
    requires Inv(s) && Enabled(s, Start(kind, count)) && Caused(s, past)
    ensures WellFormed(Next(s, Start(kind, count))) && Caused(Next(s, Start(kind, count)), past)
  {
    NextKeeps(s, Start(kind, count));
    var s1 := Next(s, Start(kind, count));
    forall j | 0 <= j < |s1.jobs| ensures JobCaused(s1.cmds, s1.jobs[j], past) {
      if j < |s.jobs| { assert JobCaused(s.cmds, s.jobs[j], past); }
    }
  }

  lemma QueuedCaused(s: State, step: Step, past: seq<Step>)
    requires Inv(s) && Enabled(s, step) && Caused(s, past) && step in past && (step.Sent? || step.Expire?)
    ensures WellFormed(Next(s, step)) && Caused(Next(s, step), past)
  {
    NextKeeps(s, step);
    match step
    case Sent(j, k, failed) => SentCaused(s, j, k, failed, past);
    case Expire(j, code) => ExpireCaused(s, j, code, past);
  }

  lemma SentCaused(s: State, j: nat, k: nat, failed: bool, past: seq<Step>)
    requires WellFormed(s) && Enabled(s, Step.Sent(j, k, failed)) && Caused(s, past)
    requires Step.Sent(j, k, failed) in past && s.jobs[j].self == j && WellFormed(Next(s, Step.Sent(j, k, failed)))
    ensures Caused(Next(s, Step.Sent(j, k, failed)), past)
  {
    assert forall i :: 0 <= i < |s.jobs| ==> JobCaused(s.cmds, s.jobs[i], past);
  }

  lemma ExpireCaused(s: State, j: nat, code: Code, past: seq<Step>)
    requires WellFormed(s) && Enabled(s, Expire(j, code)) && Caused(s, past) && Expire(j, code) in past
    requires WellFormed(Next(s, Expire(j, code)))
    ensures Caused(Next(s, Expire(j, code)), past)
  {
    assert forall i :: 0 <= i < |s.jobs| ==> JobCaused(s.cmds, s.jobs[i], past);
  }

  lemma StepCaused(s: State, step: Step, past: seq<Step>)
    requires Inv(s) && Enabled(s, step) && Caused(s, past)
    ensures WellFormed(Next(s, step)) && Caused(Next(s, step), past + [step])
  {
    CausedLater(s, past, step);
    match step
    case Start(kind, count) => StartCaused(s, kind, count, past + [step]);
    case Cancel(j, why) => CancelCaused(s, j, why, past + [step]);
    case Deliver(r, sends) => DeliverCaused(s, r, sends, past + [step]);
    case RunNext => RunCaused(s, past + [step]);
    case Sent(_, _, _) => QueuedCaused(s, step, past + [step]);
    case Expire(_, _) => QueuedCaused(s, step, past + [step]);
    case Answer(r) => assert Caused(Next(s, step), past + [step]);
    case Lose(r) => assert Caused(Next(s, step), past + [step]);
  }

  lemma {:induction false} RunsCaused(s: State, past: seq<Step>, steps: seq<Step>)
    requires Inv(s) && Legal(s, steps) && Caused(s, past)
    ensures Caused(Exec(s, steps), past + steps)
    decreases |steps|
  {
    if steps == [] {
      assert past + steps == past;
    } else {
      var s1, step, rest := Next(s, steps[0]), steps[0], steps[1..];
      NextKeeps(s, step);
      StepCaused(s, step, past);
      RunsCaused(s1, past + [step], rest);
      Regroup(past, step, rest);
      assert [step] + rest == steps;
    }
  }

  lemma Regroup(past: seq<Step>, step: Step, rest: seq<Step>)
    ensures past + [step] + rest == past + ([step] + rest)
  {}

  /**
   Every verdict has its cause in the run.  A success consists of good replies that the robot sent and that were
   delivered; a session fails with a send only if a send of it failed, with a timeout only if its wait expired, with a
   timer error only if its wait failed, with a reply only if that reply was delivered and not good; or the user
   cancelled it with that reason.
   */
  lemma VerdictsHaveCauses(steps: seq<Step>, j: nat)
    requires Legal(INITIAL, steps) && j < |Reached(steps).jobs| && Reached(steps).jobs[j].calls != []
    ensures VerdictCause(Reached(steps).jobs[j].calls[0], j, steps)
  {
    RunsCaused(INITIAL, [], steps);
    assert [] + steps == steps;
    assert JobCaused(Reached(steps).cmds, Reached(steps).jobs[j], steps);
  }

  /** So does the outcome of every command. */
  lemma OutcomesHaveCauses(steps: seq<Step>, k: nat)
    requires Legal(INITIAL, steps) && k < |Reached(steps).cmds|
    ensures var s := Reached(steps);
      s.cmds[k].owner < |s.jobs| && OutcomeCause(s.cmds[k], k, s.jobs[s.cmds[k].owner].kind, steps)
  {
    RunsCaused(INITIAL, [], steps);
    assert [] + steps == steps;
    var s := Reached(steps);
    assert JobCaused(s.cmds, s.jobs[s.cmds[k].owner], steps);
  }

  /** Without a failed send, an ended wait or a cancel, a session ends in success or with a bad reply. */
  lemma OtherwiseReplies(steps: seq<Step>, j: nat)
    requires Legal(INITIAL, steps) && j < |Reached(steps).jobs| && Reached(steps).jobs[j].calls != []
    requires forall k :: Step.Sent(j, k, true) !in steps
    requires forall why :: Cancel(j, why) !in steps
    requires Expire(j, Fired) !in steps && Expire(j, Errored) !in steps
    ensures var v := Reached(steps).jobs[j].calls[0]; v.Success? || (v.why.Refused? && !v.why.reply.good)
  {
    VerdictsHaveCauses(steps, j);
  }

  // ----- What must not be lost -----

  /** A wait that completed, a send that failed and a user who cancelled have ended what they concern, or will. */
  predicate Accounted(s: State, step: Step)
    requires WellFormed(s)
  {
    match step
    case Expire(j, code) => j < |s.jobs| && (s.jobs[j].calls != [] || TimerDone(j, code) in s.queue)
    case Sent(j, k, true) => k < |s.cmds| && (s.cmds[k].Done() || SendDone(j, k, true) in s.queue)
    case Cancel(j, _) => j < |s.jobs| && s.jobs[j].calls != []
    case _ => true
  }

  lemma JustAccounted(s: State, step: Step)
    requires Inv(s) && Enabled(s, step)
    ensures WellFormed(Next(s, step)) && Accounted(Next(s, step), step)
  {
    NextKeeps(s, step);
    match step
    case Cancel(j, why) => DemandDecides(s, step, j);
    case Sent(j, k, failed) =>
      assert SendsInside(s.jobs[j]);
      assert Next(s, step).queue[|s.queue|] == SendDone(j, k, failed);
    case Expire(j, code) => assert Next(s, step).queue[|s.queue|] == TimerDone(j, code);
    case _ =>
  }

  /** Commands that are done stay so, and nothing is taken from the queue. */
  predicate Grows(w: Local, w1: Local) {
    && |w1.cmds| == |w.cmds| && (forall k :: 0 <= k < |w.cmds| && w.cmds[k].Done() ==> w1.cmds[k].Done())
    && w.queue <= w1.queue
  }

  lemma StepGrows(w: Local, w1: Local)
    requires w.Valid() && LocalStep(w, w1)
    ensures Grows(w, w1)
  {
    forall k | 0 <= k < |w.cmds| && w.cmds[k].Done() ensures w1.cmds[k].Done() {
      assert CmdStep(w.cmds[k], w1.cmds[k], w.job.Has(k));
    }
  }

  lemma ResolveGrows(w: Local, k: nat, r: Outcome<Reply>)
    requires LocalInv(w) && w.job.Has(k)
    ensures Grows(w, ResolveCmd(w, k, r)) && ResolveCmd(w, k, r).cmds[k].Done()
  {
    ResolveCmdKeeps(w, k, r);
    StepGrows(w, ResolveCmd(w, k, r));
  }

  lemma TimerGrows(w: Local, code: Code)
    requires LocalInv(w)
    ensures Grows(w, TimerHandler(w, code)) && (!code.Cancelled? ==> TimerHandler(w, code).job.calls != [])
  {
    TimerHandlerKeeps(w, code);
    StepGrows(w, TimerHandler(w, code));
  }

  lemma TaskGrows(w: Local, t: Task<nat>)
    requires LocalInv(w) && (t.SendDone? ==> w.job.Has(t.cmd))
    ensures Grows(w, RunHandler(w, t))
    ensures t.SendDone? && t.failed ==> RunHandler(w, t).cmds[t.cmd].Done()
    ensures t.TimerDone? && !t.code.Cancelled? ==> RunHandler(w, t).job.calls != []
  {
    TouchKeeps(w, w.job.sends);
    match t
    case TimerDone(_, code) => if !code.Cancelled? { TimerGrows(Touch(w), code); }
    case SendDone(_, k, failed) => if failed { ResolveGrows(Touch(w), k, Failed(SendFailed)); }
    case Release(_) =>
  }

  lemma ReplyGrows(w: Local, k: nat, r: Reply, sends: bool)
    requires LocalInv(w) && w.job.Has(k)
    ensures Grows(w, OnReply(w, k, r, sends))
  {
    if !(w.job.kind.Transfer? && r.good && r.more) {
      var w1 := Touch(Sending(w, k, sends));
      TouchKeeps(w, w1.job.sends);
      ResolveGrows(w1, k, ToOutcome(r));
    }
  }

  /** A handler stays in the queue until it runs. */
  lemma TaskStays(s: State, step: Step, t: Task<nat>)
    requires Inv(s) && Enabled(s, step) && t in s.queue && !(step.RunNext? && s.queue[0] == t)
    ensures t in Next(s, step).queue
  {
    match step
    case RunNext =>
      var w := LocalTo(Pop(s), s.queue[0].job);
      assert TaskInRange(s.jobs, s.queue[0]);
      LocalOf(s, s.queue[0].job);
      TaskGrows(w, s.queue[0]);
    case Cancel(j, why) =>
      LocalOf(s, j);
      ResolveTopKeeps(LocalTo(s, j), why);
    case Deliver(r, sends) =>
      if IdOf(r.origin) in s.table {
        var k := s.table[IdOf(r.origin)];
        LocalOf(s, s.cmds[k].owner);
        ReplyGrows(LocalTo(s, s.cmds[k].owner), k, r, sends);
      }
    case _ =>
  }

  /** What is done stays done, and callbacks are not taken back. */
  lemma StaysDone(s: State, step: Step)
    requires Inv(s) && Enabled(s, step)
    ensures |s.jobs| <= |Next(s, step).jobs| && |s.cmds| <= |Next(s, step).cmds|
    ensures forall j :: 0 <= j < |s.jobs| && s.jobs[j].calls != [] ==> Next(s, step).jobs[j].calls != []
    ensures forall k :: 0 <= k < |s.cmds| && s.cmds[k].Done() ==> Next(s, step).cmds[k].Done()
  {
    forall j | 0 <= j < |s.jobs| && s.jobs[j].calls != []
      ensures j < |Next(s, step).jobs| && Next(s, step).jobs[j].calls != []
    {
      DemandDecides(s, step, j);
    }
    match step
    case RunNext =>
      assert TaskInRange(s.jobs, s.queue[0]);
      LocalOf(s, s.queue[0].job);
      TaskGrows(LocalTo(Pop(s), s.queue[0].job), s.queue[0]);
    case Cancel(j, why) =>
      LocalOf(s, j);
      ResolveTopKeeps(LocalTo(s, j), why);
      StepGrows(LocalTo(s, j), ResolveTop(LocalTo(s, j), why));
    case Deliver(r, sends) =>
      if IdOf(r.origin) in s.table {
        var k := s.table[IdOf(r.origin)];
        LocalOf(s, s.cmds[k].owner);
        ReplyGrows(LocalTo(s, s.cmds[k].owner), k, r, sends);
      }
    case _ =>
  }

  /** When its handler runs, it has its effect. */
  lemma TaskRuns(s: State)
    requires Inv(s) && s.queue != []
    ensures var t, s1 := s.queue[0], Next(s, RunNext);
      && (t.TimerDone? && !t.code.Cancelled? ==> t.job < |s1.jobs| && s1.jobs[t.job].calls != [])
      && (t.SendDone? && t.failed ==> t.cmd < |s1.cmds| && s1.cmds[t.cmd].Done())
  {
    assert TaskInRange(s.jobs, s.queue[0]);
    LocalOf(s, s.queue[0].job);
    TaskGrows(LocalTo(Pop(s), s.queue[0].job), s.queue[0]);
  }

  lemma StillAccounted(s: State, step: Step, e: Step)
    requires Inv(s) && Enabled(s, step) && Accounted(s, e) && (e.Expire? ==> !e.code.Cancelled?)
    ensures WellFormed(Next(s, step)) && Accounted(Next(s, step), e)
  {
    NextKeeps(s, step);
    StaysDone(s, step);
    match e
    case Expire(j, code) => if s.jobs[j].calls == [] { Remains(s, step, TimerDone(j, code)); }
    case Sent(j, k, true) => if !s.cmds[k].Done() { Remains(s, step, SendDone(j, k, true)); }
    case _ =>
  }

  lemma Remains(s: State, step: Step, t: Task<nat>)
    requires Inv(s) && Enabled(s, step) && t in s.queue
    ensures t in Next(s, step).queue || (step.RunNext? && s.queue[0] == t)
    ensures step.RunNext? && s.queue[0] == t ==>
      var s1 := Next(s, RunNext);
      && (t.TimerDone? && !t.code.Cancelled? ==> t.job < |s1.jobs| && s1.jobs[t.job].calls != [])
      && (t.SendDone? && t.failed ==> t.cmd < |s1.cmds| && s1.cmds[t.cmd].Done())
  {
    if step.RunNext? && s.queue[0] == t { TaskRuns(s); } else { TaskStays(s, step, t); }
  }

  lemma {:induction false} RunsAccount(s: State, past: seq<Step>, steps: seq<Step>)
    requires Inv(s) && Legal(s, steps)
    requires forall p :: p in past ==> Accounted(s, p) && (p.Expire? ==> !p.code.Cancelled?)
    ensures forall p :: p in past + steps ==> Accounted(Exec(s, steps), p)
    decreases |steps|
  {
    if steps != [] {
      var s1, step, rest := Next(s, steps[0]), steps[0], steps[1..];
      NextKeeps(s, step);
      forall p | p in past + [step] ensures Accounted(s1, p) && (p.Expire? ==> !p.code.Cancelled?) {
        if p in past { StillAccounted(s, step, p); } else { JustAccounted(s, step); }
      }
      RunsAccount(s1, past + [step], rest);
      Regroup(past, step, rest);
      assert [step] + rest == steps;
    }
  }

  /**
   Nothing that completes is lost: once the queue has been worked off, every session whose wait expired or failed or
   which the user cancelled has called back, and every command with a send that failed is done.
   */
  lemma NothingLost(steps: seq<Step>, step: Step)
    requires Legal(INITIAL, steps) && step in steps && Reached(steps).queue == []
    ensures var s := Reached(steps);
      match step
      case Expire(j, _) => j < |s.jobs| && s.jobs[j].calls != []
      case Sent(_, k, true) => k < |s.cmds| && s.cmds[k].Done()
      case Cancel(j, _) => j < |s.jobs| && s.jobs[j].calls != []
      case _ => true
  {
    RunsAccount(INITIAL, [], steps);
    assert step in [] + steps;
  }
}
