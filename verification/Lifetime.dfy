/**
 How long a session lives.  Its release is posted by its callback, and a completion handler of one of its sends that
 is queued later than that finds the session gone.  This module says exactly when that happens.
 */
module Lifetime {
  import opened Common
  import opened Sessions
  import opened Engine
  import opened Runs
  import opened RequestIds

  /**
   After its release no handler that refers to a session is left in the table, the timer or the queue, except those
   of sends that were outstanding when the release was posted; only these can have used the session.
   */
  lemma NothingElseAfterRelease(steps: seq<Step>, j: nat)
    requires Legal(INITIAL, steps) && j < |Reached(steps).jobs| && !Reached(steps).jobs[j].alive
    ensures var s := Reached(steps);
      && |s.jobs[j].calls| == 1 && !s.jobs[j].timer
      && (forall id :: id in s.table ==> s.cmds[s.table[id]].owner != j)
      && (forall p :: 0 <= p < |s.queue| && s.queue[p].job == j ==> s.queue[p].SendDone?)
      && HandlersLeft(s, j) <= s.jobs[j].late
      && (s.jobs[j].touched ==> s.jobs[j].late > 0)
  {
    var s := Reached(steps);
    assert SessionInv(s.cmds, s.jobs[j]) && QueueInv(s.queue, s.jobs[j]);
    assert Agreement(s.cmds, s.table);
  }

  /** `late` is the number of sends outstanding when the callback ran, and keeps that value. */
  lemma LateStep(s: State, step: Step, j: nat)
    requires Inv(s) && Enabled(s, step) && j < |s.jobs|
    ensures j < |Next(s, step).jobs|
    ensures Follows(s.jobs[j], Next(s, step).jobs[j])
  {
    JobOfStep(s, step, j);
    LocalOf(s, j);
    match step
    case Cancel(i, why) =>
      if i == j {
        ResolveTopKeeps(LocalTo(s, j), why);
        LateLocal(LocalTo(s, j), ResolveTop(LocalTo(s, j), why));
      }
    case Deliver(r, sends) =>
      if Dispatched(s, r, j) { LateReply(LocalTo(s, j), s.table[IdOf(r.origin)], r, sends); }
    case RunNext => if s.queue[0].job == j { LateTask(LocalTo(Pop(s), j), s.queue[0]); }
    case _ =>
  }

  /** Only file sessions send more than at their start. */
  predicate Follows(job: Session, job1: Session) {
    && job1.kind == job.kind && (!job.kind.Transfer? ==> job1.sends <= job.sends)
    && job1.late == if job.calls == [] && job1.calls != [] then |job1.sends| else job.late
  }

  lemma LateLocal(w: Local, w1: Local)
    requires w.Valid() && LocalStep(w, w1)
    ensures Follows(w.job, w1.job) && w.queue <= w1.queue && w1.job.alive == w.job.alive
    ensures w1.job.touched == w.job.touched
  {}

  lemma LateReply(w: Local, k: nat, r: Reply, sends: bool)
    requires LocalInv(w) && w.job.Has(k)
    ensures Follows(w.job, OnReply(w, k, r, sends).job)
  {
    var w1 := Touch(Sending(w, k, sends));
    TouchKeeps(w, w1.job.sends);
    if !(w.job.kind.Transfer? && r.good && r.more) { LateResolve(w1, k, ToOutcome(r)); }
  }

  lemma LateResolve(w: Local, k: nat, r: Outcome<Reply>)
    requires LocalInv(w) && w.job.Has(k)
    ensures Follows(w.job, ResolveCmd(w, k, r).job)
  {
    ResolveCmdKeeps(w, k, r);
    LateLocal(w, ResolveCmd(w, k, r));
  }

  lemma LateTask(w: Local, t: Task<nat>)
    requires LocalInv(w) && (t.SendDone? ==> w.job.Has(t.cmd))
    ensures Follows(w.job, RunHandler(w, t).job) && w.queue <= RunHandler(w, t).queue
    ensures !w.job.alive ==> !RunHandler(w, t).job.alive
    ensures t.SendDone? && t.failed ==> RunHandler(w, t).job.touched == (w.job.touched || !w.job.alive)
  {
    var w1 := Touch(w);
    TouchKeeps(w, w.job.sends);
    match t
    case TimerDone(_, code) =>
      TimerHandlerKeeps(w1, code);
      LateLocal(w1, TimerHandler(w1, code));
    case SendDone(_, k, _) =>
      ResolveCmdKeeps(w1, k, Failed(SendFailed));
      LateLocal(w1, ResolveCmd(w1, k, Failed(SendFailed)));
    case Release(_) =>
  }

  lemma {:induction false} LateKept(s: State, steps: seq<Step>, j: nat)
    requires Inv(s) && Legal(s, steps) && j < |s.jobs| && s.jobs[j].calls != []
    ensures j < |Exec(s, steps).jobs| && Exec(s, steps).jobs[j].late == s.jobs[j].late
    ensures Exec(s, steps).jobs[j].kind == s.jobs[j].kind
    decreases |steps|
  {
    if steps != [] {
      NextKeeps(s, steps[0]);
      LateStep(s, steps[0], j);
      DemandDecides(s, steps[0], j);
      LateKept(Next(s, steps[0]), steps[1..], j);
    }
  }

  /**
   Lifetime, exactly.  Let `step` be the event at which the callback of session `j` runs and its release is posted, and
   `more` any run up to the release.  As many handlers are left after the release as sends were outstanding at the
   event; so one is left exactly if a send was outstanding.
   */
  lemma LeftAfterRelease(
    steps: seq<Step>, s: State, step: Step, posted: State, more: seq<Step>, s1: State, j: nat)
    requires Leads(INITIAL, steps, s) && Leads(s, [step], posted) && Leads(posted, more, s1)
    requires j < |s.jobs| && s.jobs[j].calls == [] && j < |posted.jobs| && posted.jobs[j].calls != []
    requires s1.queue != [] && s1.queue[0] == Release(j)
    ensures j < |Next(s1, RunNext).jobs| && !Next(s1, RunNext).jobs[j].alive
    ensures HandlersLeft(Next(s1, RunNext), j) == |posted.jobs[j].sends|
  {
    StepOf(s, step, posted);
    LateStep(s, step, j);
    LateKept(posted, more, j);
    ReleaseLeaves(s1, j);
  }

  lemma StepOf(s: State, step: Step, s1: State)
    requires Leads(s, [step], s1)
    ensures Enabled(s, step) && s1 == Next(s, step)
  {
    NextKeeps(s, step);
    var steps := [step];
    assert steps[0] == step && steps[1..] == [];
    assert Exec(s, steps) == Exec(Next(s, step), []);
  }

  lemma ReleaseLeaves(s: State, j: nat)
    requires Inv(s) && s.queue != [] && s.queue[0] == Release(j)
    ensures j < |s.jobs| && j < |Next(s, RunNext).jobs| && !Next(s, RunNext).jobs[j].alive
    ensures HandlersLeft(Next(s, RunNext), j) == s.jobs[j].late
  {
    assert QueueInv(s.queue, s.jobs[j]) && TaskInRange(s.jobs, s.queue[0]);
  }

  /** And such a send can always fail and use the session, whatever else has happened meanwhile. */
  lemma LateSendTouches(s: State, j: nat, k: nat) returns (steps: seq<Step>, s1: State)
    requires Inv(s) && j < |s.jobs| && !s.jobs[j].alive && k in s.jobs[j].sends
    ensures Leads(s, steps, s1) && j < |s1.jobs| && s1.jobs[j].touched
  {
    var sent := Next(s, Step.Sent(j, k, true));
    NextKeeps(s, Step.Sent(j, k, true));
    assert sent.queue[|s.queue|] == SendDone(j, k, true);
    steps, s1 := RunUntil(sent, |s.queue|, j, k);
    LeadsFirst(s, Step.Sent(j, k, true), steps, s1);
    steps := [Step.Sent(j, k, true)] + steps;
  }

  lemma {:induction false} RunUntil(s: State, n: nat, j: nat, k: nat) returns (steps: seq<Step>, s1: State)
    requires Inv(s) && n < |s.queue| && s.queue[n] == SendDone(j, k, true) && j < |s.jobs| && !s.jobs[j].alive
    ensures Leads(s, steps, s1) && j < |s1.jobs| && s1.jobs[j].touched
    decreases n
  {
    NextKeeps(s, RunNext);
    var t := Next(s, RunNext);
    if n == 0 {
      RunTouches(s);
      steps, s1 := [], t;
    } else {
      RunKeepsQueue(s, n, j);
      steps, s1 := RunUntil(t, n - 1, j, k);
    }
    LeadsFirst(s, RunNext, steps, s1);
    steps := [RunNext] + steps;
  }

  lemma RunTouches(s: State)
    requires Inv(s) && s.queue != [] && s.queue[0].SendDone? && s.queue[0].failed
    requires s.queue[0].job < |s.jobs| && !s.jobs[s.queue[0].job].alive
    ensures s.queue[0].job < |Next(s, RunNext).jobs| && Next(s, RunNext).jobs[s.queue[0].job].touched
  {
    var j := s.queue[0].job;
    JobOfStep(s, RunNext, j);
    LocalOf(s, j);
    LateTask(LocalTo(Pop(s), j), s.queue[0]);
  }

  lemma RunKeepsQueue(s: State, n: nat, j: nat)
    requires Inv(s) && 0 < n < |s.queue| && j < |s.jobs| && !s.jobs[j].alive
    ensures var t := Next(s, RunNext);
      j < |t.jobs| && !t.jobs[j].alive && n - 1 < |t.queue| && t.queue[n - 1] == s.queue[n]
  {
    var i := s.queue[0].job;
    assert TaskInRange(s.jobs, s.queue[0]);
    JobOfStep(s, RunNext, j);
    LocalOf(s, i);
    LateTask(LocalTo(Pop(s), i), s.queue[0]);
    assert Pop(s).queue[n - 1] == s.queue[n];
  }

  /** The shortest case: the only send of a command is still outstanding when the deadline has released the session. */
  lemma TouchedAfterTimeout() returns (steps: seq<Step>)
    ensures Legal(INITIAL, steps)
    ensures var jobs := Reached(steps).jobs; jobs != [] && jobs[0].touched && jobs[0].calls == [Failure(TimedOut)]
  {
    var head, s := ReleasedByDeadline();
    var tail, s1 := LateSendTouches(s, 0, 0);
    LeadsOn(INITIAL, head, s, tail, s1);
    steps := head + tail;
    FirstEventWins(s, tail, 0);
  }

  lemma ReleasedByDeadline() returns (steps: seq<Step>, s: State)
    ensures Leads(INITIAL, steps, s) && Inv(s) && 0 < |s.jobs| && !s.jobs[0].alive
    ensures s.jobs[0].sends == multiset{0} && s.jobs[0].calls == [Failure(TimedOut)]
  {
    var a := FirstStarted();
    var b := DeadlinePasses(a);
    var c := DeadlineHandled(b);
    s := ReleaseRuns(c);
    LeadsOn(INITIAL, [Start(Single, 1)], a, [Expire(0, Fired)], b);
    LeadsOn(b, [RunNext], c, [RunNext], s);
    LeadsOn(INITIAL, [Start(Single, 1)] + [Expire(0, Fired)], b, [RunNext] + [RunNext], s);
    steps := [Start(Single, 1)] + [Expire(0, Fired)] + ([RunNext] + [RunNext]);
  }

  lemma FirstStarted() returns (s: State)
    ensures Leads(INITIAL, [Start(Single, 1)], s) && Inv(s) && s.queue == [] && |s.jobs| == 1
    ensures s.jobs[0] == Job(0, Single, 0, 1, false, 0, [None], true, true, multiset{0}, [], map[], 0, false)
  {
    s := Next(INITIAL, Start(Single, 1));
    OneStep(INITIAL, Start(Single, 1));
    assert Serials(0, 1) == Serials(0, 0) + multiset{0};
    assert s.jobs[0] == NewJob(INITIAL, Single, 1);
  }

  lemma DeadlinePasses(s: State) returns (s1: State)
    requires Inv(s) && 0 < |s.jobs| && s.jobs[0].timer && s.queue == []
    ensures Leads(s, [Expire(0, Fired)], s1) && Inv(s1)
    ensures s1.queue == [TimerDone(0, Fired)] && s1.jobs == s.jobs[0 := s.jobs[0].(timer := false)]
  {
    s1 := Next(s, Expire(0, Fired));
    OneStep(s, Expire(0, Fired));
    NextKeeps(s, Expire(0, Fired));
  }

  lemma DeadlineHandled(s: State) returns (s1: State)
    requires Inv(s) && 0 < |s.jobs| && s.queue == [TimerDone(0, Fired)]
    requires s.jobs[0].calls == [] && !s.jobs[0].timer && s.jobs[0].kind.Single? && s.jobs[0].alive
    ensures Leads(s, [RunNext], s1) && Inv(s1) && 0 < |s1.jobs|
    ensures s1.queue == [Release(0)] && s1.jobs[0].calls == [Failure(TimedOut)] && s1.jobs[0].sends == s.jobs[0].sends
  {
    OneStep(s, RunNext);
    NextKeeps(s, RunNext);
    var w := LocalTo(Pop(s), 0);
    LocalOf(s, 0);
    assert Touch(w) == w && s.jobs[0].self == 0;
    TimerHandlerKeeps(w, Fired);
    ResolveTopKeeps(w, TimedOut);
    s1 := Put(Pop(s), 0, ResolveTop(w, TimedOut));
    assert Pop(s).queue == [] && s1 == Next(s, RunNext);
  }

  lemma ReleaseRuns(s: State) returns (s1: State)
    requires Inv(s) && 0 < |s.jobs| && s.queue == [Release(0)]
    ensures Leads(s, [RunNext], s1) && Inv(s1) && 0 < |s1.jobs|
    ensures s1.jobs[0] == s.jobs[0].(alive := false)
  {
    s1 := Next(s, RunNext);
    OneStep(s, RunNext);
    NextKeeps(s, RunNext);
  }

  // ----- Robots that answer what they were sent -----

  /** The send of command `k` has completed; file sessions, which nothing ever releases, do not matter. */
  predicate NotSending(s: State, k: nat)
    requires WellFormed(s)
  {
    k < |s.cmds| ==> s.jobs[s.cmds[k].owner].kind.Transfer? || k !in s.jobs[s.cmds[k].owner].sends
  }

  /** A step within the window of request ids, of a robot that answers a command only after its send completed. */
  predicate Orderly(s: State, step: Step)
    requires WellFormed(s)
  {
    InWindow(s, step) && (step.Answer? ==> NotSending(s, step.reply.origin))
  }

  /** No command with a reply still has an outstanding send. */
  predicate AnsweredInv(s: State)
    requires WellFormed(s)
  {
    && (forall r :: r in s.flight ==> NotSending(s, r.origin))
    && (forall k: nat :: k < |s.cmds| && ByReply(s.cmds[k]) ==> NotSending(s, k))
    && (forall j :: 0 <= j < |s.jobs| ==> NoneLate(s.jobs[j]))
  }

  predicate NoneLate(job: Session) {
    !job.kind.Transfer? && job.calls != [] && job.calls[0].Success? ==> job.late == 0
  }

  lemma SendsShrink(s: State, step: Step, j: nat)
    requires Inv(s) && Enabled(s, step) && j < |s.jobs|
    ensures j < |Next(s, step).jobs| && Next(s, step).jobs[j].kind == s.jobs[j].kind
    ensures !s.jobs[j].kind.Transfer? ==> Next(s, step).jobs[j].sends <= s.jobs[j].sends
  {
    LateStep(s, step, j);
  }

  lemma StillNotSending(s: State, step: Step, k: nat)
    requires Inv(s) && WindowInv(s) && Enabled(s, step) && k < |s.cmds| && NotSending(s, k)
    ensures WellFormed(Next(s, step)) && NotSending(Next(s, step), k)
  {
    NextKeeps(s, step);
    NextOwn(s, step);
    SendsShrink(s, step, s.cmds[k].owner);
  }

  lemma RepliedNotSending(s: State, step: Step, k: nat)
    requires Inv(s) && WindowInv(s) && AnsweredInv(s) && Enabled(s, step) && WellFormed(Next(s, step))
    requires k < |Next(s, step).cmds| && ByReply(Next(s, step).cmds[k])
    ensures NotSending(Next(s, step), k)
  {
    NextOwn(s, step);
    FlightOf(s, step);
    assert k < |s.cmds|;
    assert NotSending(s, k) by {
      if !ByReply(s.cmds[k]) { assert Answered(step) == Some(k); }
    }
    StillNotSending(s, step, k);
  }

  /** A session that succeeds has a reply to every command, so nothing of it is being sent any more. */
  lemma SuccessSent(s: State, j: nat)
    requires Inv(s) && j < |s.jobs| && !s.jobs[j].kind.Transfer?
    requires s.jobs[j].calls != [] && s.jobs[j].calls[0].Success?
    requires forall k: nat :: k < |s.cmds| && ByReply(s.cmds[k]) ==> NotSending(s, k)
    ensures s.jobs[j].sends == multiset{}
  {
    var job := s.jobs[j];
    assert SessionInv(s.cmds, job) && SendsInside(job) && Owns(s.cmds, job);
    SettledMeans(s.cmds, job);
    forall k: nat | job.Has(k) ensures k !in job.sends {
      var i := k - job.first;
      assert s.cmds[job.first + i].outcome.value.Ok?;
      assert ByReply(s.cmds[k]) && NotSending(s, k);
    }
    assert forall k :: k !in job.sends;
  }

  lemma LateNone(s: State, step: Step, j: nat)
    requires Inv(s) && Enabled(s, step) && j < |s.jobs| && NoneLate(s.jobs[j])
    requires Inv(Next(s, step)) && j < |Next(s, step).jobs|
    requires forall k: nat :: k < |Next(s, step).cmds| && ByReply(Next(s, step).cmds[k]) ==>
      NotSending(Next(s, step), k)
    ensures NoneLate(Next(s, step).jobs[j])
  {
    var job1 := Next(s, step).jobs[j];
    LateStep(s, step, j);
    DemandDecides(s, step, j);
    if !job1.kind.Transfer? && job1.calls != [] && job1.calls[0].Success? { SuccessSent(Next(s, step), j); }
  }

  lemma AnsweredKept(s: State, step: Step)
    requires Inv(s) && WindowInv(s) && AnsweredInv(s) && Orderly(s, step) && Enabled(s, step)
    ensures Inv(Next(s, step)) && AnsweredInv(Next(s, step))
  {
    var s1 := Next(s, step);
    NextKeeps(s, step);
    forall r | r in s1.flight ensures NotSending(s1, r.origin) { FlightNotSending(s, step, r); }
    forall k: nat | k < |s1.cmds| && ByReply(s1.cmds[k]) ensures NotSending(s1, k) { RepliedNotSending(s, step, k); }
    forall j | 0 <= j < |s1.jobs| ensures NoneLate(s1.jobs[j]) {
      if j < |s.jobs| { LateNone(s, step, j); } else { NewNotLate(s, step, j); }
    }
  }

  lemma FlightNotSending(s: State, step: Step, r: Reply)
    requires Inv(s) && WindowInv(s) && AnsweredInv(s) && Orderly(s, step) && Enabled(s, step)
    requires WellFormed(Next(s, step)) && r in Next(s, step).flight
    ensures NotSending(Next(s, step), r.origin)
  {
    FlightOf(s, step);
    assert r.origin < |s.cmds| && NotSending(s, r.origin);
    StillNotSending(s, step, r.origin);
  }

  lemma NewNotLate(s: State, step: Step, j: nat)
    requires Inv(s) && Enabled(s, step) && |s.jobs| <= j < |Next(s, step).jobs|
    ensures Next(s, step).jobs[j].calls == []
  {}

  predicate OrderlyRun(s: State, steps: seq<Step>)
    requires Inv(s) && WindowInv(s) && AnsweredInv(s)
    decreases |steps|
  {
    steps == [] || (Orderly(s, steps[0]) &&
      (NeverTaken(s, steps[0]); WindowKept(s, steps[0]); AnsweredKept(s, steps[0]);
        OrderlyRun(Next(s, steps[0]), steps[1..])))
  }

  lemma {:induction false} OrderlyKeeps(s: State, steps: seq<Step>)
    requires Inv(s) && WindowInv(s) && AnsweredInv(s) && OrderlyRun(s, steps)
    ensures Legal(s, steps) && AnsweredInv(Exec(s, steps))
    decreases |steps|
  {
    if steps != [] {
      NeverTaken(s, steps[0]);
      WindowKept(s, steps[0]);
      AnsweredKept(s, steps[0]);
      OrderlyKeeps(Next(s, steps[0]), steps[1..]);
    }
  }

  /**
   With such a robot a session that ends in success is never touched after its release: by then every send of it has
   completed and its handler has run.
   */
  lemma SuccessIsSafe(steps: seq<Step>, j: nat)
    requires OrderlyRun(INITIAL, steps) && Legal(INITIAL, steps) && j < |Reached(steps).jobs|
    requires var job := Reached(steps).jobs[j]; !job.kind.Transfer? && job.calls != [] && job.calls[0].Success?
    ensures var s := Reached(steps); !s.jobs[j].touched && (!s.jobs[j].alive ==> HandlersLeft(s, j) == 0)
  {
    OrderlyKeeps(INITIAL, steps);
    var s := Reached(steps);
    assert NoneLate(s.jobs[j]) && QueueInv(s.queue, s.jobs[j]);
  }
}
