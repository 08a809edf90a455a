/** What holds in every state that the client can reach, and over whole runs. */
module Runs {
  import opened Common
  import opened Sessions
  import opened Engine

  /** Every step is possible in the state in which it is taken. */
  predicate Legal(s: State, steps: seq<Step>)
    requires Inv(s)
    decreases |steps|
  {
    steps == [] || (Enabled(s, steps[0]) && (NextKeeps(s, steps[0]); Legal(Next(s, steps[0]), steps[1..])))
  }

  /** The state after a run. */
  function Exec(s: State, steps: seq<Step>): (r: State)
    requires Inv(s) && Legal(s, steps)
    ensures Inv(r)
    decreases |steps|
  {
    if steps == [] then s else (NextKeeps(s, steps[0]); Exec(Next(s, steps[0]), steps[1..]))
  }

  /** The state after a run of a new client. */
  function Reached(steps: seq<Step>): (s: State)
    requires Legal(INITIAL, steps)
    ensures Inv(s)
  {
    Exec(INITIAL, steps)
  }

  /** A legal run from `s` ends in `s1`. */
  predicate Leads(s: State, steps: seq<Step>, s1: State) {
    Inv(s) && Legal(s, steps) && Exec(s, steps) == s1
  }

  lemma LeadsFirst(s: State, step: Step, rest: seq<Step>, s1: State)
    requires Inv(s) && Enabled(s, step) && Leads(Next(s, step), rest, s1)
    ensures Leads(s, [step] + rest, s1)
  {
    NextKeeps(s, step);
    assert ([step] + rest)[1..] == rest;
  }

  lemma OneStep(s: State, step: Step)
    requires Inv(s) && Enabled(s, step)
    ensures Leads(s, [step], Next(s, step))
  {
    NextKeeps(s, step);
    LeadsFirst(s, step, [], Next(s, step));
  }

  /** Behind its first step a run goes on from some state `t`; any other way on from there can take its place. */
  lemma LeadsSplit(s: State, steps: seq<Step>, s1: State, other: seq<Step>, s2: State) returns (t: State)
    requires Leads(s, steps, s1) && steps != []
    ensures Leads(t, steps[1..], s1)
    ensures Leads(t, other, s2) ==> Leads(s, [steps[0]] + other, s2)
  {
    NextKeeps(s, steps[0]);
    t := Next(s, steps[0]);
    if Leads(t, other, s2) { LeadsFirst(s, steps[0], other, s2); }
  }

  lemma LeadsNowhere(s: State, s1: State)
    requires Leads(s, [], s1)
    ensures s == s1
  {}

  /** Runs can be put one after the other. */
  lemma {:induction false} LeadsOn(s: State, steps: seq<Step>, s1: State, more: seq<Step>, s2: State)
    requires Leads(s, steps, s1) && Leads(s1, more, s2)
    ensures Leads(s, steps + more, s2)
    decreases |steps|
  {
    if steps == [] {
      LeadsNowhere(s, s1);
      assert steps + more == more;
    } else {
      var rest := steps[1..];
      var t := LeadsSplit(s, steps, s1, rest + more, s2);
      LeadsOn(t, rest, s1, more, s2);
      HeadFirst(steps, more);
    }
  }

  lemma HeadFirst<T>(steps: seq<T>, more: seq<T>)
    requires steps != []
    ensures steps + more == [steps[0]] + (steps[1..] + more)
  {}

  // ----- The handler table -----

  /** An id is a key of `requests_` exactly when one command that is started and not done has that id. */
  lemma HandlerTable(steps: seq<Step>, id: Byte)
    requires Legal(INITIAL, steps)
    ensures var s := Reached(steps);
      && (id in s.table <==> exists k :: 0 <= k < |s.cmds| && !s.cmds[k].Done() && IdOf(k) == id)
      && (forall k :: 0 <= k < |s.cmds| && !s.cmds[k].Done() && IdOf(k) == id ==> id in s.table && s.table[id] == k)
  {
    var s := Reached(steps);
    if id in s.table {
      assert IdOf(s.table[id]) == id;
    }
  }

  // ----- The user's callback -----

  function TimerDemand(code: Code): Option<Verdict<Reply>> {
    match code
    case Cancelled => None
    case Fired => Some(Failure(TimedOut))
    case Errored => Some(Failure(TimerFailed))
  }

  /** A reply finds a handler of session `j`. */
  predicate Dispatched(s: State, r: Reply, j: nat)
    requires WellFormed(s)
  {
    IdOf(r.origin) in s.table && s.cmds[s.table[IdOf(r.origin)]].owner == j
  }

  /** What an event does to session `j`. */
  function JobAfter(s: State, step: Step, j: nat): Session
    requires WellFormed(s) && Enabled(s, step) && j < |s.jobs|
  {
    match step
    case Sent(i, k, failed) => if i == j then Sessions.Sent(LocalTo(s, j), k, failed).job else s.jobs[j]
    case Expire(i, _) => if i == j then s.jobs[j].(timer := false) else s.jobs[j]
    case Cancel(i, why) => if i == j then ResolveTop(LocalTo(s, j), why).job else s.jobs[j]
    case Deliver(r, sends) =>
      if Dispatched(s, r, j) then OnReply(LocalTo(s, j), s.table[IdOf(r.origin)], r, sends).job else s.jobs[j]
    case RunNext => if s.queue[0].job == j then RunHandler(LocalTo(Pop(s), j), s.queue[0]).job else s.jobs[j]
    case _ => s.jobs[j]
  }

  lemma JobOfStep(s: State, step: Step, j: nat)
    requires WellFormed(s) && Enabled(s, step) && j < |s.jobs|
    ensures |s.jobs| <= |Next(s, step).jobs| && Next(s, step).jobs[j] == JobAfter(s, step, j)
  {}

  /** The verdict that the event `step` asks session `j` to end with, if it asks for that. */
  function Demand(s: State, step: Step, j: nat): Option<Verdict<Reply>>
    requires WellFormed(s) && Enabled(s, step) && j < |s.jobs|
  {
    match step
    case Cancel(i, why) => if i == j then Some(Failure(why)) else None
    case Deliver(r, _) => if Dispatched(s, r, j) then ReplyDemand(LocalTo(s, j), s.table[IdOf(r.origin)], r) else None
    case RunNext => if s.queue[0].job == j then TaskDemand(LocalTo(s, j), s.queue[0]) else None
    case _ => None
  }

  function ReplyDemand(w: Local, k: nat, r: Reply): Option<Verdict<Reply>>
    requires w.Valid() && w.job.Has(k)
  {
    if w.job.kind.Transfer? && r.good && r.more then None else Asked(w.job, k, ToOutcome(r))
  }

  function TaskDemand(w: Local, t: Task<nat>): Option<Verdict<Reply>>
    requires w.Valid() && (t.SendDone? ==> w.job.Has(t.cmd))
  {
    match t
    case TimerDone(_, code) => TimerDemand(code)
    case SendDone(_, k, failed) => if failed && !w.cmds[k].Done() then Some(Failure(SendFailed)) else None
    case Release(_) => None
  }

  /** The verdicts given to a session, after an event that asks for `d`. */
  function CallsAfter(job: Session, d: Option<Verdict<Reply>>): seq<Verdict<Reply>> {
    if job.calls == [] then Calls(d) else job.calls
  }

  lemma TouchKeeps(w: Local, sends: multiset<nat>)
    requires LocalInv(w)
    ensures LocalInv(Touch(w.(job := w.job.(sends := sends))))
  {}

  lemma ReplyDecides(w: Local, k: nat, r: Reply, sends: bool)
    requires LocalInv(w) && w.job.Has(k) && !w.cmds[k].Done()
    ensures OnReply(w, k, r, sends).job.calls == CallsAfter(w.job, ReplyDemand(w, k, r))
  {
    var w1 := Touch(Sending(w, k, sends));
    TouchKeeps(w, w1.job.sends);
    ResolveCmdKeeps(w1, k, ToOutcome(r));
  }

  lemma TaskDecides(w: Local, t: Task<nat>)
    requires LocalInv(w) && (t.SendDone? ==> w.job.Has(t.cmd))
    ensures RunHandler(w, t).job.calls == CallsAfter(w.job, TaskDemand(w, t))
  {
    var w1 := Touch(w);
    TouchKeeps(w, w.job.sends);
    match t
    case TimerDone(_, code) => TimerDecides(w1, code);
    case SendDone(_, k, _) => ResolveCmdKeeps(w1, k, Failed(SendFailed));
    case Release(_) =>
  }

  lemma TimerDecides(w: Local, code: Code)
    requires LocalInv(w)
    ensures TimerHandler(w, code).job.calls == CallsAfter(w.job, TimerDemand(code))
  {
    TimerHandlerKeeps(w, code);
    ResolveTopKeeps(w, TimedOut);
    ResolveTopKeeps(w, TimerFailed);
  }

  /** One event: the callback runs if it has not run yet and the event asks for it, with what it asks for. */
  lemma DemandDecides(s: State, step: Step, j: nat)
    requires Inv(s) && Enabled(s, step) && j < |s.jobs|
    ensures j < |Next(s, step).jobs|
    ensures Next(s, step).jobs[j].calls == CallsAfter(s.jobs[j], Demand(s, step, j))
  {
    JobOfStep(s, step, j);
    AfterDecides(s, step, j);
  }

  lemma AfterDecides(s: State, step: Step, j: nat)
    requires Inv(s) && Enabled(s, step) && j < |s.jobs|
    ensures JobAfter(s, step, j).calls == CallsAfter(s.jobs[j], Demand(s, step, j))
  {
    match step
    case Cancel(i, why) =>
      if i == j {
        LocalOf(s, j);
        ResolveTopKeeps(LocalTo(s, j), why);
      }
    case Deliver(r, sends) =>
      if Dispatched(s, r, j) { DispatchDecides(s, r, sends, j); }
    case RunNext =>
      if s.queue[0].job == j {
        LocalOf(s, j);
        TaskDecides(LocalTo(Pop(s), j), s.queue[0]);
      }
    case _ =>
  }

  lemma DispatchDecides(s: State, r: Reply, sends: bool, j: nat)
    requires Inv(s) && j < |s.jobs| && Dispatched(s, r, j)
    ensures var w, k := LocalTo(s, j), s.table[IdOf(r.origin)];
      w.Valid() && w.job.Has(k) && OnReply(w, k, r, sends).job.calls == CallsAfter(w.job, ReplyDemand(w, k, r))
  {
    LocalOf(s, j);
    ReplyDecides(LocalTo(s, j), s.table[IdOf(r.origin)], r, sends);
  }

  lemma LocalOf(s: State, j: nat)
    requires Inv(s) && j < |s.jobs|
    ensures LocalInv(LocalTo(s, j)) && (s.queue != [] ==> LocalInv(LocalTo(Pop(s), j)))
  {
    assert SessionInv(s.cmds, s.jobs[j]);
  }

  /** The first verdict that any event of a run asks session `j` to end with. */
  function FirstDemand(s: State, steps: seq<Step>, j: nat): Option<Verdict<Reply>>
    requires Inv(s) && Legal(s, steps) && j < |s.jobs|
    decreases |steps|
  {
    if steps == [] then None
    else
      var d := Demand(s, steps[0], j);
      if d.Some? then d
      else
        NextKeeps(s, steps[0]);
        DemandDecides(s, steps[0], j);
        FirstDemand(Next(s, steps[0]), steps[1..], j)
  }

  /**
   Over any order of replies, send errors, expiring and failing waits, cancellations and late or duplicate
   datagrams, the callback has run once with what the first of these asked for, or not yet.
   */
  lemma {:induction false} FirstEventWins(s: State, steps: seq<Step>, j: nat)
    requires Inv(s) && Legal(s, steps) && j < |s.jobs|
    ensures j < |Exec(s, steps).jobs|
    ensures Exec(s, steps).jobs[j].calls == CallsAfter(s.jobs[j], FirstDemand(s, steps, j))
    decreases |steps|
  {
    if steps != [] {
      NextKeeps(s, steps[0]);
      DemandDecides(s, steps[0], j);
      FirstEventWins(Next(s, steps[0]), steps[1..], j);
    }
  }

  /** Once the callback has run it never runs again. */
  lemma CalledOnce(steps: seq<Step>, more: seq<Step>, j: nat)
    requires Legal(INITIAL, steps) && Legal(Reached(steps), more) && j < |Reached(steps).jobs|
    ensures |Reached(steps).jobs[j].calls| <= 1
    ensures j < |Exec(Reached(steps), more).jobs|
    ensures |Reached(steps).jobs[j].calls| == 1 ==>
      Exec(Reached(steps), more).jobs[j].calls == Reached(steps).jobs[j].calls
  {
    FirstEventWins(Reached(steps), more, j);
    assert SessionInv(Reached(steps).cmds, Reached(steps).jobs[j]);
  }

  /**
   A multi-command session succeeds only when every command succeeded, result i being the value that
   command i was resolved with; when it fails, every command has ended.  At the callback no handler of the
   session was registered.
   */
  lemma AllOrNothing(steps: seq<Step>, j: nat)
    requires Legal(INITIAL, steps) && j < |Reached(steps).jobs|
    requires Reached(steps).jobs[j].calls != []
    ensures var s := Reached(steps); var job := s.jobs[j];
      && (forall k :: job.first <= k < job.first + job.count ==> s.cmds[k].Done())
      && (job.calls[0].Success? ==>
            |job.calls[0].values| == job.count &&
            forall i :: 0 <= i < job.count ==>
              && s.cmds[job.first + i].outcome.value.Ok?
              && job.calls[0].values[i] == Some(s.cmds[job.first + i].outcome.value.value))
      && (forall id :: id in job.seen ==> !job.Has(job.seen[id]))
  {
    var s := Reached(steps);
    SettledMeans(s.cmds, s.jobs[j]);
  }

  lemma SettledMeans(cmds: seq<Command>, job: Session)
    requires SessionInv(cmds, job) && job.calls != []
    ensures forall k :: job.first <= k < job.first + job.count ==> cmds[k].Done()
    ensures job.calls[0].Success? ==>
      |job.calls[0].values| == job.count &&
      forall i :: 0 <= i < job.count ==>
        && cmds[job.first + i].outcome.value.Ok?
        && job.calls[0].values[i] == Some(cmds[job.first + i].outcome.value.value)
    ensures forall id :: id in job.seen ==> !job.Has(job.seen[id])
  {
    if job.calls[0].Success? {
      forall i | 0 <= i < job.count
        ensures cmds[job.first + i].outcome.value.Ok?
        ensures job.calls[0].values[i] == Some(cmds[job.first + i].outcome.value.value)
      {
        assert Faithful(cmds, job.first, job.calls[0].values);
        assert cmds[job.first + i].Done();
      }
    }
  }

  /** Handlers of sends that are still to run: outstanding or in the queue. */
  function HandlersLeft(s: State, j: nat): nat
    requires j < |s.jobs|
  {
    |s.jobs[j].sends| + SendsIn(s.queue, j)
  }

  /**
   A session whose callback has not run still has a way to end: its wait is pending, or has completed and
   is in the queue.  So when nothing is queued and its wait is not pending, its callback has run once and it has been
   released, whether its sends have completed or not.  If they have, no event can ever reach it again.
   */
  lemma CompleteRun(steps: seq<Step>, j: nat)
    requires Legal(INITIAL, steps) && j < |Reached(steps).jobs|
    ensures var s := Reached(steps);
      s.queue == [] && !s.jobs[j].timer ==>
        && |s.jobs[j].calls| == 1 && (!s.jobs[j].kind.Transfer? ==> !s.jobs[j].alive)
        && (s.jobs[j].sends == multiset{} ==> HandlersLeft(s, j) == 0)
  {
    var s := Reached(steps);
    assert SessionInv(s.cmds, s.jobs[j]) && QueueInv(s.queue, s.jobs[j]) && Waiting(s.queue, s.jobs[j]);
  }
}
