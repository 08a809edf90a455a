/** Whole runs of the RPC server with its robot. */
module RpcRuns {
  import opened Common
  import opened Rpc

  ghost predicate Legal(s: State, steps: seq<Step>)
    requires WellFormed(s)
    decreases |steps|
  {
    steps == [] || (Enabled(s, steps[0]) && (NextWellFormed(s, steps[0]); Legal(Next(s, steps[0]), steps[1..])))
  }

  ghost function Exec(s: State, steps: seq<Step>): (r: State)
    requires WellFormed(s) && Legal(s, steps)
    ensures WellFormed(r)
    decreases |steps|
  {
    if steps == [] then s else (NextWellFormed(s, steps[0]); Exec(Next(s, steps[0]), steps[1..]))
  }

  /** No status write times out harmfully during the run. */
  ghost predicate TimelyRun(s: State, steps: seq<Step>)
    requires WellFormed(s) && Legal(s, steps)
    decreases |steps|
  {
    steps == [] ||
      (Timely(s, steps[0]) && (NextWellFormed(s, steps[0]); TimelyRun(Next(s, steps[0]), steps[1..])))
  }

  lemma {:induction false} RunKeeps(s: State, steps: seq<Step>)
    requires Inv(s) && Legal(s, steps) && TimelyRun(s, steps)
    ensures Inv(Exec(s, steps))
    decreases |steps|
  {
    if steps != [] {
      NextWellFormed(s, steps[0]);
      NextKeeps(s, steps[0]);
      RunKeeps(Next(s, steps[0]), steps[1..]);
    }
  }

  /** A timely run of a new server; `s` is the state after it. */
  ghost predicate Reaches(base: Byte, zeroDelay: bool, regs: seq<Byte>, steps: seq<Step>, s: State) {
    && |regs| == 256
    && Legal(Initial(base, zeroDelay, regs), steps)
    && TimelyRun(Initial(base, zeroDelay, regs), steps)
    && Exec(Initial(base, zeroDelay, regs), steps) == s
  }

  /**
   Every request is served exactly once: the requests raised so far are the executions so far, plus one
   exactly while the register holds a request that is not being served.
   */
  lemma ExactlyOnce(base: Byte, zeroDelay: bool, regs: seq<Byte>, steps: seq<Step>, s: State, i: nat)
    requires Reaches(base, zeroDelay, regs, steps, s) && i < |s.server.services|
    ensures s.server.base + i < |s.regs| && i < |s.raised|
    ensures var sv, requested := s.server.services[i], s.regs[s.server.base + i] == 1;
      s.raised[i] == sv.served + if requested && sv.active == 0 && !FactsOf(s, i).Due(i) then 1 else 0
  {
    RunKeeps(Initial(base, zeroDelay, regs), steps);
    assert ServiceInv(FactsOf(s, i), i);
    RegisterIndex(s, i);
  }

  /** A status write only ever lowers the request that was served; a later request is never overwritten. */
  lemma NeverOverwritten(base: Byte, zeroDelay: bool, regs: seq<Byte>, steps: seq<Step>, s: State, i: nat)
    requires Reaches(base, zeroDelay, regs, steps, s) && Enabled(s, Handle) && i < |s.server.services|
    requires IsWrite(s.server.sent[|s.snapshots|], i)
    ensures s.server.base + i < |s.regs| && i < |s.raised|
    ensures s.regs[s.server.base + i] == 1 && s.raised[i] == s.server.services[i].served
    ensures Next(s, Handle).regs[s.server.base + i] != 1
  {
    RunKeeps(Initial(base, zeroDelay, regs), steps);
    NextWellFormed(s, Handle);
    WriteHandled(FactsOf(s, i), i);
    RegisterIndex(s, i);
  }

  /**
   Executions of a service never overlap; the busy flag is set exactly from the start of an execution to the
   end of its status write, and it is released: when nothing is left to arrive and nothing runs, it is clear.
   */
  lemma MutualExclusion(base: Byte, zeroDelay: bool, regs: seq<Byte>, steps: seq<Step>, s: State, i: nat)
    requires Reaches(base, zeroDelay, regs, steps, s) && i < |s.server.services|
    ensures var sv := s.server.services[i];
      && sv.active <= 1
      && (sv.busy <==> sv.active == 1 || sv.writing.Some?)
      && (sv.active == 0 && s.delivered == |s.server.sent| ==> !sv.busy)
  {
    RunKeeps(Initial(base, zeroDelay, regs), steps);
    assert ServiceInv(FactsOf(s, i), i);
  }

  /**
   An execution of a service begins exactly when the reply to an open read arrives that covers the service and shows its
   register as 1, and the service is not busy.
   */
  lemma BeginsExactly(s: State, step: Step, i: nat)
    requires WellFormed(s) && Enabled(s, step) && i < |s.server.services|
    ensures |Next(s, step).server.services| >= |s.server.services|
    ensures var v, k := s.server, s.delivered;
      Next(s, step).server.services[i].served == v.services[i].served +
        if step.Deliver? && k in v.open && i < v.open[k] && s.snapshots[k][i] == 1 && !v.services[i].busy then 1 else 0
  {
    match step
    case Deliver(now) =>
      WellFormedReplies(s);
      ResolveAllSame(Replied(s), now);
      ResolveAllServed(Replied(s), now, i);
    case ReadFails(k, now) =>
      ResolveAllSame(s.server.(open := s.server.open - {k}), now);
      ResolveAllServed(s.server.(open := s.server.open - {k}), now, i);
    case _ =>
  }

  lemma {:induction false} ResolveAllServed(v: Server, now: seq<Resolution>, i: nat)
    requires CanResolve(v, now) && i < |v.services|
    ensures i < |ResolveAll(v, now).services| && ResolveAll(v, now).services[i].served == v.services[i].served
    decreases |now|
  {
    if now != [] { ResolveAllServed(Resolved(v, now[0].service, now[0].failed), now[1..], i); }
  }

  // ----- When a status write times out harmfully -----

  ghost predicate Leads(s: State, steps: seq<Step>, s1: State) {
    WellFormed(s) && Legal(s, steps) && Exec(s, steps) == s1
  }

  lemma LeadsFirst(s: State, step: Step, rest: seq<Step>, s1: State)
    requires WellFormed(s) && Enabled(s, step) && Leads(Next(s, step), rest, s1)
    ensures Leads(s, [step] + rest, s1)
  {
    assert ([step] + rest)[1..] == rest;
  }

  lemma LeadsRest(s: State, steps: seq<Step>, s1: State)
    requires Leads(s, steps, s1) && steps != []
    ensures Enabled(s, steps[0]) && Leads(Next(s, steps[0]), steps[1..], s1)
  {
    NextWellFormed(s, steps[0]);
  }

  lemma {:induction false} LeadsOn(s: State, steps: seq<Step>, s1: State, more: seq<Step>, s2: State)
    requires Leads(s, steps, s1) && Leads(s1, more, s2)
    ensures Leads(s, steps + more, s2)
    decreases |steps|
  {
    if steps == [] {
      assert steps + more == more;
    } else {
      LeadsRest(s, steps, s1);
      LeadsOn(Next(s, steps[0]), steps[1..], s1, more, s2);
      LeadsFirst(s, steps[0], steps[1..] + more, s2);
      assert steps + more == [steps[0]] + (steps[1..] + more);
    }
  }

  /** The robot carries out commands until it has answered read `k`; the register is still requested. */
  lemma {:induction false} HandleUntil(s: State, i: nat, k: nat) returns (steps: seq<Step>, s1: State)
    requires WellFormed(s) && i < |s.server.services| && FactsOf(s, i).Watches(k, i)
    requires if k < |s.snapshots| then FactsOf(s, i).Shows(k, i) else FactsOf(s, i).held
    requires forall m :: |s.snapshots| <= m < k ==> !IsWrite(s.server.sent[m], i)
    ensures Leads(s, steps, s1) && WellFormed(s1) && s1.server == s.server && s1.raised == s.raised
    ensures k < |s1.snapshots| && FactsOf(s1, i).Shows(k, i) && s1.delivered == s.delivered
    decreases k - |s.snapshots|
  {
    if k < |s.snapshots| {
      steps, s1 := [], s;
    } else {
      var s0 := Next(s, Handle);
      NextWellFormed(s, Handle);
      RegisterIndex(s, i);
      if s.server.sent[|s.snapshots|].Write? {
        RegisterIndex(s, s.server.sent[|s.snapshots|].service);
      }
      steps, s1 := HandleUntil(s0, i, k);
      LeadsFirst(s, Handle, steps, s1);
      steps := [Handle] + steps;
    }
  }

  /** A reply after which nothing resolves at once: the server has it, and may have asked for more. */
  lemma QuietReply(s: State) returns (v: Server)
    requires WellFormed(s) && Enabled(s, Deliver([]))
    ensures WellFormed(Next(s, Deliver([]))) && Replies(s) && v == Replied(s) && Polled(v, Next(s, Deliver([])).server)
    ensures Next(s, Deliver([])) == s.(server := Next(s, Deliver([])).server, delivered := s.delivered + 1)
  {
    DeliverWellFormed(s, []);
    WellFormedReplies(s);
    v := Replied(s);
  }

  /** One reply other than that of read `k` either starts the idle service or leaves it alone. */
  lemma DeliverIdle(s: State, i: nat, k: nat)
    requires WellFormed(s) && Enabled(s, Deliver([])) && i < |s.server.services|
    requires !s.server.services[i].busy && s.server.services[i].writing == None
    requires FactsOf(s, i).Watches(k, i) && k != s.delivered
    ensures var s1 := Next(s, Deliver([]));
      && WellFormed(s1) && i < |s1.server.services| && FactsOf(s1, i).Watches(k, i)
      && s1.snapshots == s.snapshots && s1.raised == s.raised && s1.delivered == s.delivered + 1
      && (s1.server.services[i] == s.server.services[i] ||
          s1.server.services[i].served == s.server.services[i].served + 1)
  {
    var v := QuietReply(s);
    RepliedIdle(s, i, k);
  }

  lemma RepliedIdle(s: State, i: nat, k: nat)
    requires Replies(s) && i < |s.server.services|
    requires !s.server.services[i].busy && s.server.services[i].writing == None && k != s.delivered
    requires k in s.server.open
    ensures var v := Replied(s);
      && |v.services| == |s.server.services| && v.base == s.server.base && v.started == s.server.started
      && k in v.open && v.open[k] == s.server.open[k]
      && (v.services[i] == s.server.services[i] || v.services[i].served == s.server.services[i].served + 1)
  {}

  lemma DeliverTo(s: State, i: nat)
    requires WellFormed(s) && Enabled(s, Deliver([])) && i < |s.server.services| && !s.server.services[i].busy
    requires FactsOf(s, i).Watches(s.delivered, i) && FactsOf(s, i).Shows(s.delivered, i)
    ensures var s1 := Next(s, Deliver([]));
      && WellFormed(s1) && i < |s1.server.services| && s1.raised == s.raised
      && s1.server.services[i].served == s.server.services[i].served + 1
  {
    var v := QuietReply(s);
  }

  /** Replies arrive until one that shows the request starts the service. */
  lemma {:induction false} DeliverUntil(s: State, i: nat, k: nat) returns (steps: seq<Step>, s1: State)
    requires WellFormed(s) && i < |s.server.services| && !s.server.services[i].busy
      && s.server.services[i].writing == None
    requires FactsOf(s, i).Watches(k, i) && FactsOf(s, i).Shows(k, i)
    ensures Leads(s, steps, s1) && WellFormed(s1) && i < |s1.server.services| && s1.raised == s.raised
    ensures s1.server.services[i].served == s.server.services[i].served + 1
    decreases k - s.delivered
  {
    var s0 := Next(s, Deliver([]));
    NextWellFormed(s, Deliver([]));
    if k == s.delivered {
      DeliverTo(s, i);
      steps, s1 := [], s0;
    } else {
      DeliverIdle(s, i, k);
      if s0.server.services[i] == s.server.services[i] {
        steps, s1 := DeliverUntil(s0, i, k);
      } else {
        steps, s1 := [], s0;
      }
    }
    LeadsFirst(s, Deliver([]), steps, s1);
    steps := [Deliver([])] + steps;
  }

  /**
   The condition is exact: if a status write times out harmfully, the robot and the channels alone can go on
   so that the service is executed once more than it was requested.
   */
  lemma HarmfulTimeoutRepeats(s: State, i: nat) returns (steps: seq<Step>, s2: State)
    requires Inv(s) && Enabled(s, WriteFails(i)) && !Harmless(FactsOf(s, i), i)
    ensures Leads(Next(s, WriteFails(i)), steps, s2)
    ensures i < |s2.server.services| && i < |s2.raised| && s2.server.services[i].served == s2.raised[i] + 1
  {
    var f, w := FactsOf(s, i), s.server.services[i].writing.value;
    assert ServiceInv(f, i);
    var k: nat :| f.Watches(k, i) && k < w && !(k < |s.snapshots| && (f.Shows(k, i) ==> f.Unserved()));
    var s0 := Next(s, WriteFails(i));
    NextWellFormed(s, WriteFails(i));
    assert f.raised == f.me.served by {
      if k >= |s.snapshots| { assert f.Due(i); }
    }
    var head, s1 := HandleUntil(s0, i, k);
    var tail, s3 := DeliverUntil(s1, i, k);
    LeadsOn(s0, head, s1, tail, s3);
    steps, s2 := head + tail, s3;
  }

  /** State `n` of the run below, built step by step. */
  lemma OneMore(s0: State, steps: seq<Step>, s: State, step: Step) returns (s1: State)
    requires Leads(s0, steps, s) && WellFormed(s0) && TimelyRun(s0, steps)
    requires WellFormed(s) && Enabled(s, step) && !step.WriteFails?
    ensures s1 == Next(s, step) && WellFormed(s1)
    ensures Leads(s0, steps + [step], s1) && TimelyRun(s0, steps + [step])
  {
    s1 := Next(s, step);
    NextWellFormed(s, step);
    LeadsFirst(s, step, [], s1);
    LeadsOn(s0, steps, s, [step], s1);
    TimelyOn(s0, steps, s, step);
  }

  lemma {:induction false} TimelyOn(s0: State, steps: seq<Step>, s: State, step: Step)
    requires Leads(s0, steps, s) && TimelyRun(s0, steps) && Enabled(s, step) && !step.WriteFails?
    requires Legal(s0, steps + [step])
    ensures TimelyRun(s0, steps + [step])
    decreases |steps|
  {
    if steps != [] {
      LeadsRest(s0, steps, s);
      assert (steps + [step])[1..] == steps[1..] + [step];
      TimelyOn(Next(s0, steps[0]), steps[1..], s, step);
    }
  }

  lemma OneRequested(regs: seq<Byte>) returns (steps: seq<Step>, s: State)
    requires |regs| == 256 && regs[0] == IDLE
    ensures Leads(Initial(0, true, regs), steps, s) && TimelyRun(Initial(0, true, regs), steps) && WellFormed(s)
    ensures s == State(Server(0, true, [Service(false, 0, None, 0)], true, [Read(2)], map[0 := 1], false, 0, 1, 1),
                       regs[0 := REQUESTED], [], 0, [1])
  {
    var init := Initial(0, true, regs);
    var head, s2 := OneStarted(regs);
    s := OneMore(init, head, s2, Raise(0));
    steps := head + [Raise(0)];
  }

  lemma OneStarted(regs: seq<Byte>) returns (steps: seq<Step>, s: State)
    requires |regs| == 256 && regs[0] == IDLE
    ensures Leads(Initial(0, true, regs), steps, s) && TimelyRun(Initial(0, true, regs), steps) && WellFormed(s)
    ensures s == State(Server(0, true, [Service(false, 0, None, 0)], true, [Read(2)], map[0 := 1], false, 0, 1, 1),
                       regs, [], 0, [0])
  {
    var init := Initial(0, true, regs);
    var s1 := OneMore(init, [], init, Add);
    s := OneMore(init, [Add], s1, Start);
    steps := [Add] + [Start];
  }

  /** One service; its request is raised, read and being served, and the next read is on its way. */
  lemma BeingServed(regs: seq<Byte>) returns (steps: seq<Step>, s: State)
    requires |regs| == 256 && regs[0] == IDLE
    ensures Leads(Initial(0, true, regs), steps, s) && TimelyRun(Initial(0, true, regs), steps) && WellFormed(s)
    ensures s.server.services == [Service(true, 1, None, 1)] && s.server.open == map[1 := 1] && s.server.base == 0
    ensures s.server.sent == [Read(2), Read(2)] && |s.snapshots| == s.delivered == 1
    ensures s.regs[0] == REQUESTED && s.raised == [1]
  {
    var head, s3 := OneRequested(regs);
    var s4 := OneMore(Initial(0, true, regs), head, s3, Handle);
    assert s4.snapshots[0][0] == REQUESTED;
    s := OneMore(Initial(0, true, regs), head + [Handle], s4, Deliver([]));
    steps := head + [Handle] + [Deliver([])];
    assert s.server.open == map[1 := 1];
  }

  /**
   Such a state is reached when the next read is answered before the status write is sent: with no delay
   between reads, one request is enough.
   */
  lemma HarmfulTimeoutReachable(regs: seq<Byte>) returns (steps: seq<Step>, s: State)
    requires |regs| == 256 && regs[0] == IDLE
    ensures Reaches(0, true, regs, steps, s)
    ensures Enabled(s, WriteFails(0)) && !Harmless(FactsOf(s, 0), 0)
  {
    var init := Initial(0, true, regs);
    var head, s5 := BeingServed(regs);
    var s6 := OneMore(init, head, s5, Handle);
    assert s6.snapshots[1][0] == REQUESTED;
    s := OneMore(init, head + [Handle], s6, Resolve(0, false));
    steps := head + [Handle] + [Resolve(0, false)];
    assert FactsOf(s, 0).Watches(1, 0) && FactsOf(s, 0).Shows(1, 0);
  }

  // ----- Polling -----

  function Waits(v: Server): nat { v.expired + if v.armed then 1 else 0 }

  /** Reads that are open and waits that are pending never exceed the successful calls of `start`. */
  predicate PollInv(v: Server) { |v.open| + Waits(v) <= v.starts }

  lemma OpenOneMore(v: Server)
    requires forall k :: k in v.open ==> k < |v.sent|
    ensures |ReadCommands(v).open| == |v.open| + 1
  {
    assert ReadCommands(v).open.Keys == v.open.Keys + {|v.sent|};
    assert |ReadCommands(v).open| == |ReadCommands(v).open.Keys|;
  }

  lemma OpenOneLess(v: Server, k: nat)
    requires k in v.open
    ensures |v.open - {k}| == |v.open| - 1
  {
    assert (v.open - {k}).Keys == v.open.Keys - {k};
    assert |v.open - {k}| == |(v.open - {k}).Keys|;
  }

  lemma {:induction false} PollRun(s: State, steps: seq<Step>)
    requires WellFormed(s) && Legal(s, steps) && PollInv(s.server)
    ensures PollInv(Exec(s, steps).server)
    decreases |steps|
  {
    if steps != [] {
      NextWellFormed(s, steps[0]);
      PollKept(s, steps[0]);
      PollRun(Next(s, steps[0]), steps[1..]);
    }
  }

  lemma AgainPolls(v: Server)
    requires forall k :: k in v.open ==> k < |v.sent|
    ensures |Again(v).open| + Waits(Again(v)) <= |v.open| + Waits(v) + 1 && Again(v).starts == v.starts
    ensures |StartTimer(v).open| + Waits(StartTimer(v)) <= |v.open| + Waits(v) + 1 && StartTimer(v).starts == v.starts
  {
    OpenOneMore(v);
  }

  lemma PollKept(s: State, step: Step)
    requires WellFormed(s) && Enabled(s, step) && PollInv(s.server)
    ensures PollInv(Next(s, step).server)
  {
    var v := s.server;
    match step
    case Add =>
    case Start => OpenOneMore(v.(started := true, starts := v.starts + 1));
    case Stop =>
    case Expire =>
    case RunTimer => OpenOneMore(v.(expired := v.expired - 1));
    case FailTimer => AgainPolls(v.(armed := false));
    case Raise(_) =>
    case Handle =>
    case Deliver(now) =>
      WellFormedReplies(s);
      ResolveAllSame(Replied(s), now);
      if s.delivered in v.open {
        OpenOneLess(v, s.delivered);
        AgainPolls(ResolveAll(Replied(s), now));
      }
    case ReadFails(k, now) =>
      OpenOneLess(v, k);
      ResolveAllSame(v.(open := v.open - {k}), now);
      AgainPolls(ResolveAll(v.(open := v.open - {k}), now));
    case WriteFails(_) =>
    case Resolve(_, _) =>
  }

  /** A started server has a read open or a wait pending, so it will read again. */
  predicate PollsOn(v: Server) { v.started ==> |v.open| + Waits(v) >= 1 }

  lemma AgainPollsOn(v: Server)
    requires forall k :: k in v.open ==> k < |v.sent|
    ensures PollsOn(Again(v)) && |StartTimer(v).open| + Waits(StartTimer(v)) >= 1
  {
    OpenOneMore(v);
  }

  lemma PollsOnKept(s: State, step: Step)
    requires WellFormed(s) && Enabled(s, step) && PollsOn(s.server)
    ensures PollsOn(Next(s, step).server)
  {
    var v := s.server;
    match step
    case Start => OpenOneMore(v.(started := true, starts := v.starts + 1));
    case RunTimer => OpenOneMore(v.(expired := v.expired - 1));
    case FailTimer => AgainPollsOn(v.(armed := false));
    case Deliver(now) =>
      WellFormedReplies(s);
      ResolveAllSame(Replied(s), now);
      if s.delivered in v.open { AgainPollsOn(ResolveAll(Replied(s), now)); }
    case ReadFails(k, now) =>
      ResolveAllSame(v.(open := v.open - {k}), now);
      AgainPollsOn(ResolveAll(v.(open := v.open - {k}), now));
    case _ =>
  }

  lemma {:induction false} PollsOnRun(s: State, steps: seq<Step>)
    requires WellFormed(s) && Legal(s, steps) && PollsOn(s.server)
    ensures PollsOn(Exec(s, steps).server)
    decreases |steps|
  {
    if steps != [] {
      NextWellFormed(s, steps[0]);
      PollsOnKept(s, steps[0]);
      PollsOnRun(Next(s, steps[0]), steps[1..]);
    }
  }

  /** In every run a server that has been started and not stopped goes on polling. */
  lemma NeverStopsPolling(base: Byte, zeroDelay: bool, regs: seq<Byte>, steps: seq<Step>)
    requires |regs| == 256 && Legal(Initial(base, zeroDelay, regs), steps)
    ensures var v := Exec(Initial(base, zeroDelay, regs), steps).server;
      v.started ==> |v.open| + Waits(v) >= 1
  {
    PollsOnRun(Initial(base, zeroDelay, regs), steps);
  }

  /** How many waits have run out and had their handlers run. */
  function TimerRuns(steps: seq<Step>): nat {
    if steps == [] then 0 else (if steps[0] == RunTimer then 1 else 0) + TimerRuns(steps[1..])
  }

  /** With a delay every read comes from a start or from a wait; without one there are no waits. */
  predicate PacedBy(v: Server, v1: Server, runs: nat) {
    && v1.zeroDelay == v.zeroDelay
    && (!v.zeroDelay ==> v1.issued + v.starts == v.issued + v1.starts + runs)
    && (v.zeroDelay && Waits(v) == 0 ==> Waits(v1) == 0)
  }

  lemma PacedStep(s: State, step: Step)
    requires WellFormed(s) && Enabled(s, step)
    ensures PacedBy(s.server, Next(s, step).server, if step == RunTimer then 1 else 0)
  {
    match step
    case Deliver(now) =>
      WellFormedReplies(s);
      ResolveAllSame(Replied(s), now);
    case ReadFails(k, now) => ResolveAllSame(s.server.(open := s.server.open - {k}), now);
    case _ =>
  }

  lemma {:induction false} PacedRun(s: State, steps: seq<Step>)
    requires WellFormed(s) && Legal(s, steps)
    ensures PacedBy(s.server, Exec(s, steps).server, TimerRuns(steps))
    decreases |steps|
  {
    if steps != [] {
      NextWellFormed(s, steps[0]);
      PacedStep(s, steps[0]);
      PacedRun(Next(s, steps[0]), steps[1..]);
    }
  }

  /**
   With a delay between reads, the reads issued are one for each successful start and one for each wait that ran out;
   without a delay the server never waits, so it always has a read open while it is started.
   */
  lemma Paced(base: Byte, zeroDelay: bool, regs: seq<Byte>, steps: seq<Step>)
    requires |regs| == 256 && Legal(Initial(base, zeroDelay, regs), steps)
    ensures var v := Exec(Initial(base, zeroDelay, regs), steps).server;
      if zeroDelay then Waits(v) == 0 && (v.started ==> |v.open| >= 1) else v.issued == v.starts + TimerRuns(steps)
  {
    PacedRun(Initial(base, zeroDelay, regs), steps);
    PollsOnRun(Initial(base, zeroDelay, regs), steps);
  }

  /**
   After a final `stop`, every read that is still issued uses up a wait that was pending at that moment, so
   there are at most as many as there were waits, whatever else happens.
   */
  lemma AfterStop(s: State, steps: seq<Step>)
    requires WellFormed(s) && Legal(s, [Stop] + steps) && forall step :: step in steps ==> !step.Start?
    ensures var v, v1 := s.server, Exec(s, [Stop] + steps).server;
      !v1.started && v1.issued + Waits(v1) <= v.issued + Waits(v)
  {
    NextWellFormed(s, Stop);
    assert ([Stop] + steps)[1..] == steps;
    StoppedRun(Next(s, Stop), steps);
  }

  lemma {:induction false} StoppedRun(s: State, steps: seq<Step>)
    requires WellFormed(s) && Legal(s, steps) && !s.server.started && forall step :: step in steps ==> !step.Start?
    ensures var v, v1 := s.server, Exec(s, steps).server;
      !v1.started && v1.issued + Waits(v1) <= v.issued + Waits(v)
    decreases |steps|
  {
    if steps != [] {
      NextWellFormed(s, steps[0]);
      StoppedStep(s, steps[0]);
      StoppedRun(Next(s, steps[0]), steps[1..]);
    }
  }

  lemma StoppedStep(s: State, step: Step)
    requires WellFormed(s) && Enabled(s, step) && !s.server.started && !step.Start?
    ensures var v, v1 := s.server, Next(s, step).server;
      !v1.started && v1.issued + Waits(v1) <= v.issued + Waits(v)
  {
    match step
    case Deliver(now) =>
      WellFormedReplies(s);
      ResolveAllSame(Replied(s), now);
    case ReadFails(k, now) => ResolveAllSame(s.server.(open := s.server.open - {k}), now);
    case _ =>
  }

  /** From the start: reads and waits are bounded by the successful starts, timely or not. */
  lemma Polling(base: Byte, zeroDelay: bool, regs: seq<Byte>, steps: seq<Step>)
    requires |regs| == 256 && Legal(Initial(base, zeroDelay, regs), steps)
    ensures PollInv(Exec(Initial(base, zeroDelay, regs), steps).server)
  {
    PollRun(Initial(base, zeroDelay, regs), steps);
  }
}
