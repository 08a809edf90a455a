/**
 The 8-bit request id.  Allocation k gets the id (1 + k) % 256, so a command shares its id with the command
 256 allocations later.  This module says exactly when that goes wrong, gives a run in which it does, and
 proves that it never does while every command ends, and its replies are gone, 256 allocations later.
 */
module RequestIds {
  import opened Common
  import opened Sessions
  import opened Engine
  import opened Runs

  /** A command with serial number `k` is registered, or would be registered before number `n`. */
  predicate Occupied(s: State, k: nat, n: nat) {
    k < n && (k < |s.cmds| ==> !s.cmds[k].Done())
  }

  /**
   `registerHandler` throws for one of the next `count` commands exactly when an earlier command that is not
   done, possibly one of the same session, has a serial number that is the same modulo 256.
   */
  lemma RegisterThrowsIff(s: State, count: nat)
    requires Inv(s)
    ensures !FreshIds(s, count) <==>
      exists k: nat, n: nat :: |s.cmds| <= n < |s.cmds| + count && Occupied(s, k, n) && IdOf(k) == IdOf(n)
  {
    if !FreshIds(s, count) {
      if count > 256 {
        ModUnique(1 + |s.cmds| + 256, 1 + (1 + |s.cmds|) / 256, IdOf(|s.cmds|));
        assert Occupied(s, |s.cmds|, |s.cmds| + 256) && IdOf(|s.cmds|) == IdOf(|s.cmds| + 256);
      } else {
        var n :| |s.cmds| <= n < |s.cmds| + count && IdOf(n) in s.table;
        var k := s.table[IdOf(n)];
        assert Occupied(s, k, n) && IdOf(k) == IdOf(n);
      }
    }
    if k: nat, n: nat :| |s.cmds| <= n < |s.cmds| + count && Occupied(s, k, n) && IdOf(k) == IdOf(n) {
      if k < |s.cmds| {
        assert s.cmds[k].id in s.table;
      } else {
        SameId(k, n);
      }
    }
  }

  /** The first id is 1, then they count up, with 0 after 255; sharing an id means a multiple of 256 apart. */
  lemma IdsWrap(k: nat, n: nat)
    ensures IdOf(0) == 1 && IdOf(n + 1) == if IdOf(n) == 255 then 0 else IdOf(n) + 1
    ensures IdOf(k) == IdOf(n) <==> k % 256 == n % 256
  {
    IdIs(0);
    IdIs(n);
    IdIs(n + 1);
    IdIs(k);
    var q, r := n / 256, n % 256;
    assert n == 256 * q + r;
    if r < 255 {
      assert (n + 1) % 256 == r + 1;
    } else {
      assert n + 1 == 256 * (q + 1);
    }
  }

  lemma IdIs(n: nat)
    ensures IdOf(n) == if n % 256 == 255 then 0 else n % 256 + 1
  {
    var q, r := n / 256, n % 256;
    assert 1 + n == 256 * q + (1 + r);
  }

  /** Serial numbers with the same id are a multiple of 256 apart. */
  lemma SameId(k: nat, n: nat)
    requires k < n && IdOf(k) == IdOf(n)
    ensures k + 256 <= n && (n < k + 512 ==> n == k + 256)
  {
    var a, b := (1 + k) / 256, (1 + n) / 256;
    assert 1 + k == 256 * a + IdOf(k) && 1 + n == 256 * b + IdOf(n);
    assert n - k == 256 * (b - a);
  }

  /**
   A datagram is handed to a command other than the one it answers exactly when such a command is open and
   shares its id.
   */
  lemma MisdeliveredIff(s: State, r: Reply)
    requires Inv(s) && r.origin < |s.cmds|
    ensures (IdOf(r.origin) in s.table && s.table[IdOf(r.origin)] != r.origin) <==>
      exists k :: 0 <= k < |s.cmds| && k != r.origin && !s.cmds[k].Done() && IdOf(k) == IdOf(r.origin)
  {
    if IdOf(r.origin) in s.table && s.table[IdOf(r.origin)] != r.origin {
      var k := s.table[IdOf(r.origin)];
      assert k != r.origin && !s.cmds[k].Done() && IdOf(k) == IdOf(r.origin);
    }
    if k :| 0 <= k < |s.cmds| && k != r.origin && !s.cmds[k].Done() && IdOf(k) == IdOf(r.origin) {
      assert s.cmds[k].id == IdOf(k);
    }
  }

  // ----- The window -----

  /** Command n - 256 has ended and no reply to it is still on its way. */
  predicate Retired(s: State, n: nat) {
    n >= 256 ==>
      && n - 256 < |s.cmds| && s.cmds[n - 256].Done()
      && forall r :: r in s.flight ==> r.origin != n - 256
  }

  /**
   A step within the window: a command is only constructed once the command that had its id is retired, and
   the robot only answers the last 256 commands.  Nothing is said about ids being free.
   */
  predicate InWindow(s: State, step: Step) {
    match step
    case Start(kind, count) =>
      (kind.Multi? || count == 1) && forall n :: |s.cmds| <= n < |s.cmds| + count ==> Retired(s, n)
    case Answer(r) => r.origin < |s.cmds| <= r.origin + 256
    case Lose(_) => Enabled(s, step)
    case Deliver(_, _) => Enabled(s, step)
    case Sent(_, _, _) => Enabled(s, step)
    case Expire(_, _) => Enabled(s, step)
    case Cancel(_, _) => Enabled(s, step)
    case RunNext => Enabled(s, step)
  }

  /** A command that a reply ended was ended by a reply to itself. */
  predicate OwnReply(c: Command, k: nat) {
    match c.outcome
    case None => true
    case Some(Ok(r)) => r.origin == k
    case Some(Failed(Refused(r))) => r.origin == k
    case Some(Failed(_)) => true
  }

  predicate WindowInv(s: State) {
    && (forall k :: 0 <= k < |s.cmds| && !s.cmds[k].Done() ==> |s.cmds| <= k + 256)
    && (forall r :: r in s.flight ==> r.origin < |s.cmds| <= r.origin + 256)
    && (forall k :: 0 <= k < |s.cmds| ==> OwnReply(s.cmds[k], k))
  }

  /** Within the window `registerHandler` never throws. */
  lemma NeverTaken(s: State, step: Step)
    requires Inv(s) && WindowInv(s) && InWindow(s, step)
    ensures Enabled(s, step)
  {
    if step.Start? {
      assert !Retired(s, |s.cmds| + 256);
      forall n | |s.cmds| <= n < |s.cmds| + step.count ensures IdOf(n) !in s.table {
        assert Retired(s, n);
        if IdOf(n) in s.table {
          SameId(s.table[IdOf(n)], n);
        }
      }
    }
  }

  /** Within the window a reply finds the handler of the command that it answers, or none. */
  lemma OwnHandler(s: State, r: Reply)
    requires Inv(s) && WindowInv(s) && r in s.flight
    ensures IdOf(r.origin) in s.table ==> s.table[IdOf(r.origin)] == r.origin
  {
    if IdOf(r.origin) in s.table {
      var k := s.table[IdOf(r.origin)];
      if k < r.origin {
        SameId(k, r.origin);
      } else if r.origin < k {
        SameId(r.origin, k);
      }
    }
  }

  // ----- Every run within the window -----

  /** A command that a reply has ended. */
  predicate ByReply(c: Command) {
    match c.outcome
    case None => false
    case Some(Ok(_)) => true
    case Some(Failed(why)) => why.Refused?
  }

  /** Commands only go from open to done, and by a reply only the command `from` that it answers. */
  predicate OwnSteps(cmds: seq<Command>, cmds1: seq<Command>, from: Option<nat>) {
    && |cmds| <= |cmds1|
    && forall k :: 0 <= k < |cmds| ==> cmds1[k] == cmds[k] || OwnStep(cmds[k], cmds1[k], k, from)
  }

  predicate OwnStep(c: Command, c1: Command, k: nat, from: Option<nat>) {
    !c.Done() && c1 == c.(outcome := c1.outcome) && c1.Done() && OwnReply(c1, k) && (ByReply(c1) ==> from == Some(k))
  }

  lemma ResolveCmdOwn(w: Local, k: nat, r: Outcome<Reply>, from: Option<nat>)
    requires w.Valid() && w.job.Has(k)
    requires var c := w.cmds[k].(outcome := Some(r)); OwnReply(c, k) && (ByReply(c) ==> from == Some(k))
    ensures OwnSteps(w.cmds, ResolveCmd(w, k, r).cmds, from) && |ResolveCmd(w, k, r).cmds| == |w.cmds|
  {}

  lemma ResolveTopOwn(w: Local, why: Failure<Reply>)
    requires w.Valid() && !why.Refused?
    ensures OwnSteps(w.cmds, ResolveTop(w, why).cmds, None) && |ResolveTop(w, why).cmds| == |w.cmds|
  {}

  lemma TaskOwn(w: Local, t: Task<nat>)
    requires LocalInv(w) && (t.SendDone? ==> w.job.Has(t.cmd))
    ensures OwnSteps(w.cmds, RunHandler(w, t).cmds, None) && |RunHandler(w, t).cmds| == |w.cmds|
  {
    var w1 := Touch(w);
    TouchKeeps(w, w.job.sends);
    match t
    case TimerDone(_, code) =>
      TimerHandlerKeeps(w1, code);
      ResolveTopOwn(w1, TimedOut);
      ResolveTopOwn(w1, TimerFailed);
    case SendDone(_, k, _) => ResolveCmdOwn(w1, k, Failed(SendFailed), None);
    case Release(_) =>
  }

  lemma ReplyOwn(w: Local, r: Reply, sends: bool)
    requires w.Valid() && w.job.Has(r.origin)
    ensures OwnSteps(w.cmds, OnReply(w, r.origin, r, sends).cmds, Some(r.origin))
    ensures |OnReply(w, r.origin, r, sends).cmds| == |w.cmds|
  {
    ResolveCmdOwn(Touch(Sending(w, r.origin, sends)), r.origin, ToOutcome(r), Some(r.origin));
  }

  lemma DeliverOwn(s: State, r: Reply, sends: bool)
    requires Inv(s) && WindowInv(s) && r in s.flight
    ensures OwnSteps(s.cmds, Next(s, Deliver(r, sends)).cmds, Some(r.origin))
    ensures |Next(s, Deliver(r, sends)).cmds| == |s.cmds|
  {
    OwnHandler(s, r);
    if IdOf(r.origin) in s.table {
      ReplyOwn(LocalTo(s, s.cmds[r.origin].owner), r, sends);
    }
  }

  /** The command that a step may end by a reply. */
  function Answered(step: Step): Option<nat> {
    if step.Deliver? then Some(step.reply.origin) else None
  }

  lemma NextOwn(s: State, step: Step)
    requires Inv(s) && WindowInv(s) && Enabled(s, step)
    ensures OwnSteps(s.cmds, Next(s, step).cmds, Answered(step))
    ensures !step.Start? ==> |Next(s, step).cmds| == |s.cmds|
  {
    match step
    case Cancel(j, why) => ResolveTopOwn(LocalTo(s, j), why);
    case Deliver(r, sends) => DeliverOwn(s, r, sends);
    case RunNext =>
      LocalOf(s, s.queue[0].job);
      TaskOwn(LocalTo(Pop(s), s.queue[0].job), s.queue[0]);
    case _ =>
  }

  lemma WindowKept(s: State, step: Step)
    requires Inv(s) && WindowInv(s) && InWindow(s, step) && Enabled(s, step)
    ensures WindowInv(Next(s, step))
  {
    NextOwn(s, step);
    FlightOf(s, step);
    if step.Start? { StartInWindow(s, step); } else { OpenInWindow(s.cmds, Next(s, step).cmds, Answered(step)); }
    RepliesOwn(s.cmds, Next(s, step).cmds, Answered(step));
  }

  lemma FlightOf(s: State, step: Step)
    requires WellFormed(s) && Enabled(s, step)
    ensures forall r :: r in Next(s, step).flight ==> r in s.flight || step == Answer(r)
    ensures step.Start? ==> forall k :: |s.cmds| <= k < |Next(s, step).cmds| ==> Next(s, step).cmds[k].outcome == None
  {}

  lemma OpenInWindow(cmds: seq<Command>, cmds1: seq<Command>, from: Option<nat>)
    requires OwnSteps(cmds, cmds1, from) && |cmds1| == |cmds|
    requires forall k :: 0 <= k < |cmds| && !cmds[k].Done() ==> |cmds| <= k + 256
    ensures forall k :: 0 <= k < |cmds1| && !cmds1[k].Done() ==> |cmds1| <= k + 256
  {}

  lemma RepliesOwn(cmds: seq<Command>, cmds1: seq<Command>, from: Option<nat>)
    requires OwnSteps(cmds, cmds1, from) && forall k :: |cmds| <= k < |cmds1| ==> cmds1[k].outcome == None
    requires forall k :: 0 <= k < |cmds| ==> OwnReply(cmds[k], k)
    ensures forall k :: 0 <= k < |cmds1| ==> OwnReply(cmds1[k], k)
  {}

  lemma StartInWindow(s: State, step: Step)
    requires Inv(s) && WindowInv(s) && InWindow(s, step) && step.Start? && Enabled(s, step)
    ensures var s1 := Next(s, step);
      && (forall k :: 0 <= k < |s1.cmds| && !s1.cmds[k].Done() ==> |s1.cmds| <= k + 256)
      && (forall r :: r in s1.flight ==> r.origin < |s1.cmds| <= r.origin + 256)
  {
    var n := |s.cmds| + step.count;
    StartShape(s, step);
    forall k | 0 <= k < n && (k < |s.cmds| ==> !s.cmds[k].Done()) ensures n <= k + 256 {
      assert |s.cmds| <= k + 256 < n ==> Retired(s, k + 256);
    }
    forall r | r in s.flight ensures r.origin < n <= r.origin + 256 {
      assert |s.cmds| <= r.origin + 256 < n ==> Retired(s, r.origin + 256);
    }
  }

  lemma StartShape(s: State, step: Step)
    requires Inv(s) && step.Start? && Enabled(s, step)
    ensures var s1 := Next(s, step);
      && |s1.cmds| == |s.cmds| + step.count && s1.flight == s.flight
      && forall k :: 0 <= k < |s.cmds| ==> s1.cmds[k] == s.cmds[k]
  {}

  predicate WithinWindow(s: State, steps: seq<Step>)
    requires Inv(s) && WindowInv(s)
    decreases |steps|
  {
    steps == [] || (InWindow(s, steps[0]) &&
      (NeverTaken(s, steps[0]); NextKeeps(s, steps[0]); WindowKept(s, steps[0]);
        WithinWindow(Next(s, steps[0]), steps[1..])))
  }

  lemma {:induction false} WindowRun(s: State, steps: seq<Step>)
    requires Inv(s) && WindowInv(s) && WithinWindow(s, steps)
    ensures Legal(s, steps) && WindowInv(Exec(s, steps))
    decreases |steps|
  {
    if steps != [] {
      NeverTaken(s, steps[0]);
      NextKeeps(s, steps[0]);
      WindowKept(s, steps[0]);
      WindowRun(Next(s, steps[0]), steps[1..]);
    }
  }

  /**
   In every run within the window no registration ever throws, and every command that was ended by a reply
   was ended by a reply to itself and not to another command with the same id.
   */
  lemma NoAliasing(steps: seq<Step>)
    requires WithinWindow(INITIAL, steps)
    ensures Legal(INITIAL, steps)
    ensures forall k :: 0 <= k < |Reached(steps).cmds| ==> OwnReply(Reached(steps).cmds[k], k)
  {
    WindowRun(INITIAL, steps);
  }

  /** Within the window, result i of a successful session is the reply to command i. */
  lemma ResultsAreReplies(steps: seq<Step>, j: nat, i: nat)
    requires WithinWindow(INITIAL, steps)
    requires Legal(INITIAL, steps) && j < |Reached(steps).jobs|
    requires var job := Reached(steps).jobs[j]; i < job.count && job.calls != [] && job.calls[0].Success?
    ensures var job := Reached(steps).jobs[j];
      i < |job.calls[0].values| && job.calls[0].values[i].Some? && job.calls[0].values[i].value.origin == job.first + i
  {
    AllOrNothing(steps, j);
    NoAliasing(steps);
    var s := Reached(steps);
    assert OwnReply(s.cmds[s.jobs[j].first + i], s.jobs[j].first + i);
  }

  // ----- Outside the window -----

  lemma StartOne(s: State) returns (s1: State)
    requires Inv(s) && s.table == map[]
    ensures Leads(s, [Start(Single, 1)], s1) && Inv(s1)
    ensures |s1.cmds| == |s.cmds| + 1 && |s1.jobs| == |s.jobs| + 1 && s1.flight == s.flight
    ensures s1.table == map[IdOf(|s.cmds|) := |s.cmds|]
    ensures s1.jobs[|s.jobs|].first == |s.cmds| && s1.jobs[|s.jobs|].count == 1
    ensures s1.jobs[|s.jobs|].kind.Single? && s1.jobs[|s.jobs|].alive
    ensures s1.cmds[|s.cmds|] == Cmd(IdOf(|s.cmds|), |s.jobs|, None)
  {
    s1 := Next(s, Start(Single, 1));
    OneStep(s, Start(Single, 1));
    NextKeeps(s, Start(Single, 1));
    OneRegistered(s);
  }

  lemma OneRegistered(s: State)
    requires s.table == map[]
    ensures NewTable(s, 1) == map[IdOf(|s.cmds|) := |s.cmds|]
  {
    var s1 := s.(table := NewTable(s, 1));
    forall id | id in s1.table ensures id == IdOf(|s.cmds|) && s1.table[id] == |s.cmds| { IdOfOffset(s, id); }
    OffsetOfId(s, 0);
    assert IdOf(|s.cmds|) in s1.table;
  }

  lemma CancelOne(s: State, j: nat) returns (s1: State)
    requires Inv(s) && j < |s.jobs| && s.jobs[j].kind.Single? && s.jobs[j].alive
    requires s.table == map[IdOf(s.jobs[j].first) := s.jobs[j].first]
    ensures Leads(s, [Cancel(j, Aborted)], s1) && Inv(s1)
    ensures s1.table == map[] && |s1.cmds| == |s.cmds| && s1.flight == s.flight
  {
    s1 := Next(s, Cancel(j, Aborted));
    OneStep(s, Cancel(j, Aborted));
    NextKeeps(s, Cancel(j, Aborted));
  }

  /** A user who cancels every command at once: `n` commands come and go, and nothing else changes. */
  lemma {:induction false} Churn(s: State, n: nat) returns (steps: seq<Step>, s1: State)
    requires Inv(s) && s.table == map[]
    ensures Leads(s, steps, s1) && Inv(s1)
    ensures s1.table == map[] && |s1.cmds| == |s.cmds| + n && s1.flight == s.flight
    decreases n
  {
    if n == 0 {
      steps, s1 := [], s;
    } else {
      var a := StartOne(s);
      var b := CancelOne(a, |s.jobs|);
      LeadsOn(s, [Start(Single, 1)], a, [Cancel(|s.jobs|, Aborted)], b);
      steps, s1 := Churn(b, n - 1);
      LeadsOn(s, [Start(Single, 1)] + [Cancel(|s.jobs|, Aborted)], b, steps, s1);
      steps := [Start(Single, 1)] + [Cancel(|s.jobs|, Aborted)] + steps;
    }
  }

  lemma RobotAnswers(s: State, r: Reply) returns (s1: State)
    requires Inv(s) && r.origin < |s.cmds|
    ensures Leads(s, [Answer(r)], s1) && Inv(s1) && s1 == s.(flight := s.flight + multiset{r})
  {
    s1 := Next(s, Answer(r));
    OneStep(s, Answer(r));
    NextKeeps(s, Answer(r));
  }

  /** Command 0 is answered and cancelled before the answer arrives. */
  lemma CancelledBeforeReply(r: Reply) returns (steps: seq<Step>, s: State)
    requires r.origin == 0
    ensures Leads(INITIAL, steps, s) && Inv(s) && s.table == map[] && |s.cmds| == 1 && s.flight == multiset{r}
  {
    var a := StartOne(INITIAL);
    var b := RobotAnswers(a, r);
    var c := CancelOne(b, 0);
    LeadsOn(a, [Answer(r)], b, [Cancel(0, Aborted)], c);
    LeadsOn(INITIAL, [Start(Single, 1)], a, [Answer(r)] + [Cancel(0, Aborted)], c);
    steps, s := [Start(Single, 1)] + ([Answer(r)] + [Cancel(0, Aborted)]), c;
  }

  lemma DeliverLate(s: State, r: Reply) returns (steps: seq<Step>, s1: State)
    requires Inv(s) && s.table == map[] && r in s.flight && r.good && IdOf(r.origin) == IdOf(|s.cmds|)
    ensures Leads(s, steps, s1)
    ensures |s1.cmds| == |s.cmds| + 1 && s1.cmds[|s.cmds|].outcome == Some(Ok(r))
  {
    var a := StartOne(s);
    s1 := Next(a, Deliver(r, false));
    OneStep(a, Deliver(r, false));
    LeadsOn(s, [Start(Single, 1)], a, [Deliver(r, false)], s1);
    steps := [Start(Single, 1)] + [Deliver(r, false)];
  }

  /** The answer to command 0 is still on its way, command 0 is cancelled, and so are 255 others. */
  lemma BeforeLateReply(r: Reply) returns (steps: seq<Step>, s: State)
    requires r.origin == 0
    ensures Leads(INITIAL, steps, s) && Inv(s) && s.table == map[] && |s.cmds| == 256 && s.flight == multiset{r}
  {
    var head, a := CancelledBeforeReply(r);
    var churn, b := Churn(a, 255);
    LeadsOn(INITIAL, head, a, churn, b);
    steps, s := head + churn, b;
  }

  lemma ReachedBy(steps: seq<Step>, s: State)
    requires Leads(INITIAL, steps, s)
    ensures Legal(INITIAL, steps) && Reached(steps) == s
  {}

  /**
   The window is needed: the reply to command 0 arrives after command 0 was cancelled and 256 more commands
   were constructed, and it ends command 256 as if it were that command's own reply.
   */
  lemma LateReplyIsMisdelivered(body: seq<Byte>) returns (steps: seq<Step>)
    ensures Legal(INITIAL, steps)
    ensures var s := Reached(steps);
      |s.cmds| == 257 && s.cmds[256].outcome == Some(Ok(Reply(0, true, false, body)))
  {
    var r := Reply(0, true, false, body);
    var head, s := BeforeLateReply(r);
    var tail, s1 := DeliverLate(s, r);
    LeadsOn(INITIAL, head, s, tail, s1);
    steps := head + tail;
    ReachedBy(steps, s1);
  }
}
