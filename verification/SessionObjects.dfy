/**
 The objects of the client, updated in place as in the source.  `MultiCommandSession.Resolve` stops its
 sub-sessions, each of which resolves and calls back into `MultiCommandSession.Resolve`.  The methods keep
 that recursion.  It ends because every turn sets a `done` flag that was not set, and its result is the
 closed form of module Sessions, which the theorems about runs are about.
 */
module SessionObjects {
  import opened Common
  import opened Sessions

  type SessionView<V> = World<V, CommandSession<V>, DeadlineSession<V>>

  /** Number of `done_` flags that are not set. */
  ghost function OpenFlags<V, H, J>(w: World<V, H, J>): nat {
    |OpenCmds(w.cmds)| + if w.job.done then 0 else 1
  }

  ghost function OpenCmds<V, J>(cmds: seq<Cmd<V, J>>): set<nat> {
    set k: nat | k < |cmds| && !cmds[k].Done()
  }

  lemma OneFlagLess<V, J>(cmds: seq<Cmd<V, J>>, k: nat, c: Cmd<V, J>)
    requires k < |cmds| && !cmds[k].Done() && c.Done()
    ensures |OpenCmds(cmds[k := c])| < |OpenCmds(cmds)|
  {
    assert OpenCmds(cmds[k := c]) == OpenCmds(cmds) - {k};
    assert k in OpenCmds(cmds);
  }

  lemma StoppedOneMore<V, J>(cmds: seq<Cmd<V, J>>, i: nat)
    requires i < |cmds|
    ensures Stopped(cmds, 0, i + 1) == Stopped(cmds, 0, i)[i := StopOne(cmds[i], true)]
    ensures OpenIds(cmds, 0, i + 1) == OpenIds(cmds, 0, i) + if cmds[i].Done() then {} else {cmds[i].id}
    ensures Stopped(cmds, 0, i)[i] == cmds[i]
    ensures |OpenCmds(Stopped(cmds, 0, i))| <= |OpenCmds(cmds)|
  {
    forall id | id in OpenIds(cmds, 0, i + 1) && id !in OpenIds(cmds, 0, i)
      ensures !cmds[i].Done() && id == cmds[i].id
    {
      var k :| 0 <= k < i + 1 && !cmds[k].Done() && cmds[k].id == id;
    }
    Subset(OpenCmds(Stopped(cmds, 0, i)), OpenCmds(cmds));
  }

  lemma Subset<T>(a: set<T>, b: set<T>)
    requires a <= b
    ensures |a| <= |b|
  {
    assert b == a + (b - a);
  }

  lemma NextId(first: Byte, i: nat)
    ensures (IdAt(first, i) + 1) % 256 == IdAt(first, i + 1)
  {}

  ghost predicate NewSub<V>(c: CommandSession<V>, top: DeadlineSession<V>, multi: MultiCommandSession?<V>, i: nat)
    reads c
  {
    c.Wired(top, multi, i) && !c.started && !c.done && c.outcome == None
  }

  ghost predicate NewSubs<V>(
    subs: seq<CommandSession<V>>, top: DeadlineSession<V>, multi: MultiCommandSession?<V>, first: Byte)
    reads subs
  {
    && Distinct(subs)
    && forall i :: 0 <= i < |subs| ==> NewSub(subs[i], top, multi, i) && subs[i].id == IdAt(first, i)
  }

  lemma OneSubMore<V>(
    subs: seq<CommandSession<V>>, c: CommandSession<V>, top: DeadlineSession<V>, multi: MultiCommandSession<V>,
    first: Byte)
    requires NewSubs(subs, top, multi, first) && c !in subs && NewSub(c, top, multi, |subs|)
      && c.id == IdAt(first, |subs|)
    ensures NewSubs(subs + [c], top, multi, first)
  {}

  ghost predicate Distinct<T>(s: seq<T>) {
    forall i, k :: 0 <= i < k < |s| ==> s[i] != s[k]
  }

  /** The handler table after the commands were registered one after the other, up to the first whose id is in use. */
  ghost function Registered<V>(
    table: map<Byte, CommandSession<V>>, subs: seq<CommandSession<V>>): map<Byte, CommandSession<V>>
    decreases |subs|
  {
    if subs == [] || subs[0].id in table then table else Registered(table[subs[0].id := subs[0]], subs[1..])
  }

  /** How many commands come before that one. */
  ghost function FreeCount<V>(table: map<Byte, CommandSession<V>>, subs: seq<CommandSession<V>>): (n: nat)
    ensures n <= |subs|
    decreases |subs|
  {
    if subs == [] || subs[0].id in table then 0 else 1 + FreeCount(table[subs[0].id := subs[0]], subs[1..])
  }

  /** No registration finds its id in use. */
  ghost predicate AllFree<V>(table: map<Byte, CommandSession<V>>, subs: seq<CommandSession<V>>) {
    FreeCount(table, subs) == |subs|
  }

  /** The table holds exactly what it held before, and the commands that came before the first id in use. */
  lemma {:induction false} RegisteredHolds<V>(table: map<Byte, CommandSession<V>>, subs: seq<CommandSession<V>>,
    id: Byte)
    ensures id in table ==> id in Registered(table, subs) && Registered(table, subs)[id] == table[id]
    ensures forall i :: 0 <= i < FreeCount(table, subs) && subs[i].id == id ==>
      id !in table && id in Registered(table, subs) && Registered(table, subs)[id] == subs[i]
    ensures id in Registered(table, subs) ==>
      id in table || exists i :: 0 <= i < FreeCount(table, subs) && subs[i].id == id
    decreases |subs|
  {
    if FreeCount(table, subs) > 0 {
      var c, rest := subs[0], subs[1..];
      RegisteredHolds(table[c.id := c], rest, id);
      assert forall i :: 0 < i < |subs| ==> subs[i] == rest[i - 1];
      if i :| 0 <= i < FreeCount(table[c.id := c], rest) && rest[i].id == id {
        assert subs[i + 1].id == id;
      }
    }
  }

  /** Registering command `i`, and then the rest. */
  lemma RegisterFirst<V>(table: map<Byte, CommandSession<V>>, all: seq<CommandSession<V>>, i: nat)
    requires i < |all|
    ensures var n := FreeCount(table, all[i..]);
      if all[i].id in table then n == 0 && Registered(table, all[i..]) == table && Serials(i, n) == multiset{}
      else
        var table1 := table[all[i].id := all[i]];
        && n == FreeCount(table1, all[i + 1..]) + 1 && Registered(table, all[i..]) == Registered(table1, all[i + 1..])
        && Serials(i, n) == multiset{i} + Serials(i + 1, n - 1)
  {
    var subs := all[i..];
    assert subs[0] == all[i] && subs[1..] == all[i + 1..];
    if all[i].id !in table { SerialsFront(i, FreeCount(table, subs) - 1); }
  }

  lemma {:induction false} SerialsFront(first: nat, n: nat)
    ensures Serials(first, n + 1) == multiset{first} + Serials(first + 1, n)
  {
    if n > 0 { SerialsFront(first, n - 1); }
  }

  class Client<V> {
    var requestId: Byte
    var requests: map<Byte, CommandSession<V>>

    constructor ()
      ensures requestId == 1 && requests == map[]
    {
      requestId, requests := 1, map[];
    }

    method AllocateId() returns (id: Byte)
      modifies this`requestId
      ensures id == old(requestId) && requestId == (old(requestId) + 1) % 256
    {
      id := requestId;
      requestId := (requestId + 1) % 256;
    }

    /** `thrown` stands for the `std::logic_error` that an id in use causes; the table is then as before. */
    method RegisterHandler(id: Byte, handler: CommandSession<V>) returns (thrown: bool)
      modifies this`requests
      ensures thrown <==> id in old(requests)
      ensures requests == if thrown then old(requests) else old(requests)[id := handler]
    {
      thrown := id in requests;
      if !thrown {
        requests := requests[id := handler];
      }
    }

    method RemoveHandler(id: Byte)
      modifies this`requests
      ensures requests == old(requests) - {id}
    {
      requests := requests - {id};
    }

    /** Dispatch of a reply with request id `id` whose header and payload decode to `r`. */
    method OnReceive(id: Byte, r: Outcome<V>) returns (known: bool)
      requires id in requests ==> requests[id].top.Valid() && requests[id].OfTop()
      modifies if id in requests then requests[id].top.Footprint() else {}
      ensures known <==> id in old(requests)
      ensures known ==> var c := old(requests[id]);
        c.top.Valid() && c.top.View() == ResolveCmd(Touch(old(c.top.View())), c.index, r)
    {
      known := id in requests;
      if known {
        requests[id].top.Used();
        requests[id].Resolve(r);
      }
    }
  }
  class Executor<V> {
    var queue: seq<Task<DeadlineSession<V>>>

    constructor ()
      ensures queue == []
    {
      queue := [];
    }

    method Post(t: Task<DeadlineSession<V>>)
      modifies this
      ensures queue == old(queue) + [t]
    {
      queue := queue + [t];
    }

    /** Run the oldest handler. */
    method RunNext()
      requires queue != [] && queue[0].job.Valid() && queue[0].job.executor == this
      requires queue[0].SendDone? ==> queue[0].cmd < |queue[0].job.Subs()|
      modifies this, queue[0].job.Footprint()
      ensures var t := old(queue[0]);
        t.job.Valid() && t.job.View() == RunHandler(old(t.job.View()).(queue := old(queue[1..])), t)
    {
      var t := queue[0];
      queue := queue[1..];
      assert t.job.View() == old(t.job.View()).(queue := queue);
      match t
      case TimerDone(job, code) =>
        if code != Cancelled { job.Used(); }
        job.OnTimer(code);
      case SendDone(job, k, failed) =>
        if failed {
          job.Used();
          job.Subs()[k].Resolve(Failed(SendFailed));
        }
      case Release(job) => job.alive := false;
    }
  }

  class CommandSession<V> {
    const client: Client<V>
    const id: Byte
    const top: DeadlineSession<V>
    const multi: MultiCommandSession?<V>
    const index: nat
    var started: bool
    var done: bool
    ghost var outcome: Option<Outcome<V>>

    constructor (client: Client<V>, id: Byte, top: DeadlineSession<V>, multi: MultiCommandSession?<V>, index: nat)
      ensures this.client == client && this.id == id && this.top == top && this.multi == multi && this.index == index
      ensures !started && !done && outcome == None
    {
      this.client, this.id, this.top, this.multi, this.index := client, id, top, multi, index;
      started, done, outcome := false, false, None;
    }

    ghost predicate Wired(top: DeadlineSession<V>, multi: MultiCommandSession?<V>, i: nat) {
      this.top == top && this.multi == multi && client == top.client && index == i
    }

    ghost predicate In(top: DeadlineSession<V>, i: nat)
      reads this`done, this`outcome, top`many
    {
      Wired(top, top.many, i) && (done <==> outcome.Some?)
    }

    /**
     Register the handler and start the send, which is then outstanding.  `thrown` stands for either
     `std::logic_error`: the session was already started, or its id is in use.
     */
    method Start() returns (thrown: bool)
      modifies this`started, client`requests, top`sends
      ensures started
      ensures thrown <==> old(started) || id in old(client.requests)
      ensures client.requests == if thrown then old(client.requests) else old(client.requests)[id := this]
      ensures top.sends == if thrown then old(top.sends) else old(top.sends) + multiset{index}
    {
      if started { return true; }
      started := true;
      thrown := client.RegisterHandler(id, this);
      if !thrown {
        top.sends := top.sends + multiset{index};
      }
    }

    /** It is one of the commands of its session. */
    ghost predicate OfTop()
      reads top, top.many
    {
      index < |top.Subs()| && top.Subs()[index] == this
    }

    /** Set the flag and remove the handler. */
    method Finish(r: Outcome<V>)
      requires top.Valid() && OfTop() && !done
      modifies this, client
      ensures top.Valid() && top.Same(old(top.one), old(top.many), old(top.Subs()))
      ensures var w, c := old(top.View()), old(top.View()).cmds[index];
        top.View() == w.(cmds := w.cmds[index := c.(outcome := Some(r))], table := w.table - {c.id})
      ensures OpenFlags(top.View()) < old(OpenFlags(top.View()))
    {
      assert In(top, index);
      ghost var w := top.View();
      done := true;
      outcome := Some(r);
      client.RemoveHandler(id);
      OneFlagLess(w.cmds, index, w.cmds[index].(outcome := Some(r)));
      assert top.View().cmds == w.cmds[index := w.cmds[index].(outcome := Some(r))];
    }

    method Resolve(r: Outcome<V>)
      requires top.Valid() && OfTop()
      modifies top.Footprint()
      ensures top.Valid() && top.Same(old(top.one), old(top.many), old(top.Subs()))
      ensures top.View() == ResolveCmd(old(top.View()), index, r)
      decreases OpenFlags(top.View()), 3
    {
      assert In(top, index);
      if done { return; }
      Finish(r);
      if multi != null {
        multi.PartDone(index, r);
      } else {
        top.OnDone(Lift(r));
      }
    }
  }

  class MultiCommandSession<V> {
    const top: DeadlineSession<V>
    var sessions: seq<CommandSession<V>>
    var started: bool
    var done: bool
    var finished: nat
    var results: seq<Option<V>>

    constructor (top: DeadlineSession<V>)
      ensures this.top == top && sessions == [] && results == [] && finished == 0 && !started && !done
    {
      this.top := top;
      sessions, results, finished, started, done := [], [], 0, false, false;
    }

    /** Construct `count` sub-sessions; each constructor allocates a request id. */
    method InitSessions(count: nat)
      requires sessions == [] && results == [] && top.many == this
      modifies this`sessions, this`results, top.client`requestId
      ensures |sessions| == count && NewSubs(sessions, top, this, old(top.client.requestId))
      ensures results == seq(count, i => None)
      ensures top.client.requestId == IdAt(old(top.client.requestId), count)
      ensures forall c :: c in sessions ==> fresh(c)
    {
      var i := 0;
      while i < count
        invariant i == |sessions| <= count && NewSubs(sessions, top, this, old(top.client.requestId))
        invariant results == seq(i, k => None)
        invariant top.client.requestId == IdAt(old(top.client.requestId), i)
        invariant forall c :: c in sessions ==> fresh(c)
      {
        ghost var before := sessions;
        var c := NewSession(i);
        sessions, results := sessions + [c], results + [None];
        OneSubMore(before, c, top, this, old(top.client.requestId));
        NextId(old(top.client.requestId), i);
        i := i + 1;
      }
    }

    method NewSession(i: nat) returns (c: CommandSession<V>)
      requires top.many == this
      modifies top.client`requestId
      ensures fresh(c) && NewSub(c, top, this, i) && c.id == old(top.client.requestId)
      ensures top.client.requestId == (old(top.client.requestId) + 1) % 256
    {
      var id := top.client.AllocateId();
      c := new CommandSession<V>(top.client, id, top, this, i);
    }

    /**
     Start the sub-sessions from `i` on, up to the first whose registration throws: those before it stay registered
     and their sends outstanding.
     */
    method StartSessions(i: nat) returns (thrown: bool)
      requires i <= |sessions| && Distinct(sessions)
      requires forall k :: i <= k < |sessions| ==> !sessions[k].started && sessions[k].Wired(top, this, k)
      modifies top.client`requests, top`sends, (set c | c in sessions)`started
      ensures thrown <==> !AllFree(old(top.client.requests), sessions[i..])
      ensures var n := FreeCount(old(top.client.requests), sessions[i..]);
        && top.client.requests == Registered(old(top.client.requests), sessions[i..])
        && top.sends == old(top.sends) + Serials(i, n)
      decreases |sessions| - i
    {
      thrown := false;
      if i < |sessions| {
        RegisterFirst(top.client.requests, sessions, i);
        thrown := sessions[i].Start();
        if !thrown {
          thrown := StartSessions(i + 1);
        }
      }
    }

    method Start() returns (thrown: bool)
      requires Distinct(sessions)
      requires forall k :: 0 <= k < |sessions| ==> !sessions[k].started && sessions[k].Wired(top, this, k)
      modifies this`started, top.client`requests, top`sends, (set c | c in sessions)`started
      ensures thrown <==> old(started) || !AllFree(old(top.client.requests), sessions)
      ensures old(started) ==> unchanged(top.client`requests) && unchanged(top`sends)
      ensures !old(started) ==>
        && top.client.requests == Registered(old(top.client.requests), sessions)
        && top.sends == old(top.sends) + Serials(0, FreeCount(old(top.client.requests), sessions))
    {
      if started { return true; }
      started := true;
      assert sessions[0..] == sessions;
      thrown := StartSessions(0);
    }

    /** The callback that `callback<I>` makes for sub-session `i`. */
    method PartDone(i: nat, r: Outcome<V>)
      requires top.Valid() && top.many == this && i < |sessions|
      modifies top.Footprint()
      ensures top.Valid() && top.Same(old(top.one), old(top.many), old(top.Subs()))
      ensures top.View() == Sessions.PartDone(old(top.View()), i, r)
      decreases OpenFlags(top.View()), 2
    {
      match r
      case Failed(why) => Resolve(Some(why));
      case Ok(v) =>
        ghost var w := top.View();
        results := results[i := Some(v)];
        finished := finished + 1;
        assert top.View().cmds == w.cmds;
        if finished == |sessions| {
          Resolve(None);
        }
    }

    method Resolve(error: Option<Failure<V>>)
      requires top.Valid() && top.many == this
      modifies top.Footprint()
      ensures top.Valid() && top.Same(old(top.one), old(top.many), old(top.Subs()))
      ensures top.View() ==
        ResolveJob(old(top.View()), match error case Some(why) => Failure(why) case None => Success(old(results)))
      decreases OpenFlags(top.View()), 1
    {
      if done { return; }
      ghost var w := top.View();
      done := true;
      assert top.View() == w.(job := w.job.(done := true));
      match error
      case Some(why) =>
        StopSessions();
        top.OnDone(Failure(why));
      case None =>
        top.OnDone(Success(results));
    }

    method StopSessions()
      requires top.Valid() && top.many == this && done
      modifies top.Footprint()
      ensures top.Valid() && top.Same(old(top.one), old(top.many), old(top.Subs()))
      ensures top.View() == StopAll(old(top.View()))
      decreases OpenFlags(top.View()), 5
    {
      ghost var w := top.View();
      var i := 0;
      while i < |sessions|
        invariant i <= |sessions| && sessions == old(sessions)
        invariant top.Valid() && top.Same(old(top.one), old(top.many), old(top.Subs()))
        invariant top.View() == w.(cmds := Stopped(w.cmds, 0, i), table := w.table - OpenIds(w.cmds, 0, i))
      {
        StopSession(i, w);
        i := i + 1;
      }
    }

    /** One round of the loop, which began in `w`. */
    method StopSession(i: nat, ghost w: SessionView<V>)
      requires top.Valid() && top.many == this && done && i < |sessions| == |w.cmds| && w.job.done
      requires top.View() == w.(cmds := Stopped(w.cmds, 0, i), table := w.table - OpenIds(w.cmds, 0, i))
      modifies top.Footprint()
      ensures top.Valid() && top.Same(old(top.one), old(top.many), old(top.Subs()))
      ensures top.View() == w.(cmds := Stopped(w.cmds, 0, i + 1), table := w.table - OpenIds(w.cmds, 0, i + 1))
      decreases OpenFlags(w), 4
    {
      StoppedOneMore(w.cmds, i);
      sessions[i].Resolve(Failed(Aborted));
    }
  }

  class DeadlineSession<V> {
    const client: Client<V>
    const executor: Executor<V>
    var one: CommandSession?<V>
    var many: MultiCommandSession?<V>
    var timer: bool
    var alive: bool
    /** Commands with a send that is outstanding. */
    var sends: multiset<nat>
    var calls: seq<Verdict<V>>
    ghost var seen: map<Byte, CommandSession<V>>
    ghost var late: nat
    ghost var touched: bool

    constructor (client: Client<V>, executor: Executor<V>)
      ensures this.client == client && this.executor == executor
      ensures one == null && many == null && Unused()
    {
      this.client, this.executor := client, executor;
      one, many, timer, alive, sends, calls := null, null, false, true, multiset{}, [];
      seen, late, touched := map[], 0, false;
    }

    /** Not started. */
    ghost predicate Unused()
      reads this
    {
      !timer && alive && sends == multiset{} && calls == [] && seen == map[] && late == 0 && !touched
    }

    function Subs(): seq<CommandSession<V>>
      reads this, many
    {
      if many != null then many.sessions else if one != null then [one] else []
    }

    ghost function Footprint(): set<object>
      reads this, many
    {
      {this, client, executor} + (set c | c in Subs()) + if many != null then {many} else {}
    }

    /** The objects of the session are these. */
    ghost predicate Same(one: CommandSession?<V>, many: MultiCommandSession?<V>, subs: seq<CommandSession<V>>)
      reads this, this.many
    {
      this.one == one && this.many == many && Subs() == subs
    }

    ghost predicate Valid()
      reads this, many, Subs()
    {
      && (many != null ==> many.top == this && |many.results| == |many.sessions|)
      && (many == null ==> one != null)
      && (forall i :: 0 <= i < |Subs()| ==> Subs()[i].In(this, i))
    }

    ghost function View(): SessionView<V>
      requires Valid()
      reads this, many, Subs(), client, executor
    {
      var cmds := seq(|Subs()|, i requires 0 <= i < |Subs()| reads this, many, Subs() =>
        Cmd(Subs()[i].id, this, Subs()[i].outcome));
      var job := if many != null
        then Job(this, Multi, 0, |Subs()|, many.done, many.finished, many.results, timer, alive, sends,
                 calls, seen, late, touched)
        else Job(this, Single, 0, 1, false, 0, [None], timer, alive, sends, calls, seen, late, touched);
      SessionView<V>.World(cmds, client.requests, job, executor.queue)
    }

    method CancelTimeout()
      requires Valid()
      modifies this`timer, executor
      ensures Valid() && !timer && Same(old(one), old(many), old(Subs()))
      ensures executor.queue == old(executor.queue) + if old(timer) then [TimerDone(this, Cancelled)] else []
    {
      if timer {
        timer := false;
        executor.Post(TimerDone(this, Cancelled));
        assert Subs() == old(Subs());
      }
    }

    /** The callback given to `start` by `sendCommand` and `sendMultipleCommands`. */
    method OnDone(v: Verdict<V>)
      requires Valid()
      modifies this, executor
      ensures Valid() && Same(old(one), old(many), old(Subs()))
      ensures View() == Complete(old(View()), v)
    {
      CancelTimeout();
      calls := calls + [v];
      seen, late := client.requests, |sends|;
      executor.Post(Release(this));
    }

    /** History: a handler is about to use the session. */
    ghost method Used()
      requires Valid()
      modifies this`touched
      ensures Valid() && Same(old(one), old(many), old(Subs())) && View() == Touch(old(View()))
    {
      touched := touched || !alive;
      assert Subs() == old(Subs());
    }

    /** The send of command `k` completes: its handler is queued. */
    method OnSent(k: nat, failed: bool)
      requires Valid() && k in sends
      modifies this`sends, executor
      ensures Valid() && Same(old(one), old(many), old(Subs())) && View() == Sent(old(View()), k, failed)
    {
      sends := sends - multiset{k};
      executor.Post(SendDone(this, k, failed));
      assert Subs() == old(Subs());
    }

    method Resolve(why: Failure<V>)
      requires Valid()
      modifies Footprint()
      ensures Valid() && Same(old(one), old(many), old(Subs()))
      ensures View() == ResolveTop(old(View()), why)
    {
      if many != null {
        many.Resolve(Some(why));
      } else {
        assert Subs()[0] == one;
        one.Resolve(Failed(why));
      }
    }

    method OnTimer(code: Code)
      requires Valid()
      modifies Footprint()
      ensures Valid() && Same(old(one), old(many), old(Subs()))
      ensures View() == TimerHandler(old(View()), code)
    {
      if code == Cancelled { return; }
      if code == Errored { Resolve(TimerFailed); }
      Resolve(TimedOut);
    }
  }

  /**
   A session whose commands were just started: nothing is done, all sends are outstanding, the deadline is
   pending.
   */
  ghost function Started<V>(
    d: DeadlineSession<V>, kind: Kind, first: Byte, count: nat,
    table: map<Byte, CommandSession<V>>, queue: seq<Task<DeadlineSession<V>>>): SessionView<V>
  {
    SessionView<V>.World(
      seq(count, i requires 0 <= i => Cmd(IdAt(first, i), d, None)), table,
      Job(d, kind, 0, count, false, 0, seq(count, i => None), true, true, Serials(0, count), [], map[], 0, false),
      queue)
  }

  /** Constructed, but not started. */
  ghost predicate Constructed<V>(d: DeadlineSession<V>, first: Byte, count: nat)
    reads d, d.many, d.Subs()
  {
    && d.many != null && d.many.top == d && !d.many.started && d.one == null && d.Unused()
    && !d.many.done && d.many.finished == 0 && d.many.results == seq(count, i => None)
    && |d.many.sessions| == count && NewSubs(d.many.sessions, d, d.many, first)
  }

  method NewMulti<V>(client: Client<V>, executor: Executor<V>, count: nat) returns (d: DeadlineSession<V>)
    modifies client`requestId
    ensures fresh(d) && d.client == client && d.executor == executor && d.many != null && fresh(d.many)
    ensures forall c :: c in d.many.sessions ==> fresh(c)
    ensures Constructed(d, old(client.requestId), count)
    ensures client.requestId == IdAt(old(client.requestId), count)
  {
    d := new DeadlineSession<V>(client, executor);
    var many := new MultiCommandSession<V>(d);
    d.many := many;
    many.InitSessions(count);
  }

  /**
   `sendMultipleCommands`: construct, register, send, arm the timer.  It throws exactly when the id of some
   command is in use, by an older session or by an earlier command of this one; then no timer is armed, but the
   commands before that one stay registered and their sends outstanding.
   */
  method SendMultipleCommands<V>(client: Client<V>, executor: Executor<V>, count: nat)
    returns (d: DeadlineSession<V>, thrown: bool)
    modifies client
    ensures fresh(d) && d.client == client && d.executor == executor && d.many != null
    ensures client.requestId == IdAt(old(client.requestId), count)
    ensures NewIds(d.Subs(), old(client.requestId)) && |d.Subs()| == count
    ensures thrown <==> !AllFree(old(client.requests), d.Subs())
    ensures thrown ==>
      && client.requests == Registered(old(client.requests), d.Subs())
      && !d.timer && d.sends == Serials(0, FreeCount(old(client.requests), d.Subs())) && d.calls == []
    ensures !thrown ==> d.Valid()
    ensures !thrown ==> d.View() == Started(d, Multi, old(client.requestId), count,
                                            Registered(old(client.requests), d.Subs()), old(executor.queue))
  {
    d := NewMulti(client, executor, count);
    thrown := StartMulti(d, old(client.requestId), count);
  }

  /** The second half: everything has been constructed. */
  method StartMulti<V>(d: DeadlineSession<V>, ghost first: Byte, ghost count: nat) returns (thrown: bool)
    requires Constructed(d, first, count)
    modifies d`timer, d`sends, d.many`started, d.client`requests, (set c | c in d.Subs())`started
    ensures d.many == old(d.many) && d.Subs() == old(d.Subs())
    ensures thrown <==> !AllFree(old(d.client.requests), d.Subs())
    ensures thrown ==>
      && d.client.requests == Registered(old(d.client.requests), d.Subs())
      && !d.timer && d.sends == Serials(0, FreeCount(old(d.client.requests), d.Subs())) && d.calls == []
    ensures !thrown ==> d.Valid()
    ensures !thrown ==> d.View() == Started(d, Multi, first, count, Registered(old(d.client.requests), d.Subs()),
                                            d.executor.queue)
  {
    thrown := d.many.Start();
    if !thrown {
      d.timer := true;
      assert d.View().cmds == seq(count, i requires 0 <= i => Cmd(IdAt(first, i), d, None));
    }
  }

  ghost predicate NewIds<V>(subs: seq<CommandSession<V>>, first: Byte) {
    forall i :: 0 <= i < |subs| ==> subs[i].id == IdAt(first, i)
  }

  /** `sendCommand`: the same for a single command. */
  method SendCommand<V>(client: Client<V>, executor: Executor<V>)
    returns (d: DeadlineSession<V>, thrown: bool)
    modifies client
    ensures fresh(d) && d.client == client && d.executor == executor && d.many == null && d.one != null
    ensures d.one.id == old(client.requestId)
    ensures client.requestId == IdAt(old(client.requestId), 1)
    ensures thrown <==> d.one.id in old(client.requests)
    ensures thrown ==> client.requests == old(client.requests) && d.Unused()
    ensures !thrown ==> d.Valid()
    ensures !thrown ==> d.View() == Started(d, Single, old(client.requestId), 1,
                                            old(client.requests)[d.one.id := d.one], old(executor.queue))
  {
    d := new DeadlineSession<V>(client, executor);
    var id := client.AllocateId();
    var one := new CommandSession<V>(client, id, d, null, 0);
    d.one := one;
    thrown := StartSingle(d);
  }

  method StartSingle<V>(d: DeadlineSession<V>) returns (thrown: bool)
    requires d.one != null && d.many == null && d.Unused()
    requires d.one.Wired(d, null, 0) && !d.one.started && !d.one.done && d.one.outcome == None
    modifies d`timer, d`sends, d.client`requests, d.one`started
    ensures thrown <==> d.one.id in old(d.client.requests)
    ensures thrown ==> d.client.requests == old(d.client.requests) && d.Unused()
    ensures !thrown ==> d.Valid()
    ensures !thrown ==> d.View() == Started(d, Single, d.one.id, 1, old(d.client.requests)[d.one.id := d.one],
      d.executor.queue)
  {
    thrown := d.one.Start();
    if !thrown {
      d.timer := true;
      assert Serials(0, 1) == Serials(0, 0) + multiset{0};
    }
  }

  /** All registrations succeed exactly when no id is in use and no two commands have the same id. */
  lemma {:induction false} AllFreeIff<V>(table: map<Byte, CommandSession<V>>, subs: seq<CommandSession<V>>)
    ensures AllFree(table, subs) <==>
      && (forall i :: 0 <= i < |subs| ==> subs[i].id !in table)
      && (forall i, k :: 0 <= i < k < |subs| ==> subs[i].id != subs[k].id)
    decreases |subs|
  {
    if subs != [] {
      var table1, rest := table[subs[0].id := subs[0]], subs[1..];
      AllFreeIff(table1, rest);
      assert forall i :: 0 <= i < |rest| ==> rest[i] == subs[i + 1];
      assert forall k :: 0 < k < |subs| ==> subs[k] == rest[k - 1];
    }
  }

  /** In terms of the counter: no registration throws exactly when there are at most 256 commands and none of
      the ids that the counter hands out is in use. */
  lemma NoThrowIff<V>(table: map<Byte, CommandSession<V>>, subs: seq<CommandSession<V>>, first: Byte)
    requires NewIds(subs, first)
    ensures AllFree(table, subs) <==> |subs| <= 256 && forall i :: 0 <= i < |subs| ==> IdAt(first, i) !in table
  {
    AllFreeIff(table, subs);
    if |subs| > 256 {
      assert subs[0].id == IdAt(first, 0) == IdAt(first, 256) == subs[256].id;
    } else {
      forall i, k | 0 <= i < k < |subs| ensures subs[i].id != subs[k].id { IdsDiffer(first, i, k); }
    }
  }

  lemma IdsDiffer(first: Byte, i: nat, k: nat)
    requires i < k < 256
    ensures IdAt(first, i) != IdAt(first, k)
  {}
}
