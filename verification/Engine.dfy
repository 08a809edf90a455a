/**
 The client with all its sessions, as a machine whose steps are single events on a single-threaded
 executor: a call by the user, a datagram that arrives, is lost or is sent by the robot, a timer that
 expires, or the oldest queued handler that runs.
 */
module Engine {
  import opened Common
  import opened Sessions

  /** A reply of the robot to the command with serial number `origin`.  `more` marks a file block after
      which the session goes on. */
  datatype Reply = Reply(origin: nat, good: bool, more: bool, body: seq<Byte>)

  type Command = Cmd<Reply, nat>
  type Session = Job<Reply, nat, nat>
  type Local = World<Reply, nat, nat>

  /**
   `cmds` lists every command session ever constructed, in the order of `allocateId`; the position in the
   list is its serial number.  `table` is `requests_`: it maps a request id to the serial number of the
   command whose handler is registered.
   */
  datatype State = State(
    cmds: seq<Command>, table: map<Byte, nat>, jobs: seq<Session>,
    queue: seq<Task<nat>>, flight: multiset<Reply>)

  datatype Step =
    | Start(kind: Kind, count: nat)
    | Answer(reply: Reply)                     // the robot sends a reply
    | Lose(reply: Reply)
    | Deliver(reply: Reply, sends: bool)       // a file session may send an acknowledgement or a block
    | Sent(job: nat, cmd: nat, failed: bool)   // an outstanding send of a session completes
    | Expire(job: nat, code: Code)             // the pending wait of a session completes
    | Cancel(job: nat, why: Failure<Reply>)    // the user resolves the session
    | RunNext                                  // the oldest queued handler runs

  /** `request_id_` starts at 1 and is an 8-bit counter. */
  function IdOf(serial: nat): Byte { IdAt(1, serial) }

  const INITIAL := State([], map[], [], [], multiset{})

  function LocalTo(s: State, j: nat): Local
    requires j < |s.jobs|
  {
    World(s.cmds, s.table, s.jobs[j], s.queue)
  }

  function Put(s: State, j: nat, w: Local): State
    requires j < |s.jobs|
  {
    s.(cmds := w.cmds, table := w.table, jobs := s.jobs[j := w.job], queue := w.queue)
  }

  /** No id of the `count` commands that would be constructed next is registered, and they differ. */
  predicate FreshIds(s: State, count: nat) {
    && count <= 256
    && forall n :: |s.cmds| <= n < |s.cmds| + count ==> IdOf(n) !in s.table
  }

  function NewJob(s: State, kind: Kind, count: nat): Session {
    Job(|s.jobs|, kind, |s.cmds|, count, false, 0, seq(count, i => None), true, true,
        Serials(|s.cmds|, count), [], map[], 0, false)
  }

  function NewCmds(s: State, count: nat): (r: seq<Command>)
    ensures |r| == count
    ensures forall i :: 0 <= i < count ==> r[i] == Cmd(IdOf(|s.cmds| + i), |s.jobs|, None)
  {
    seq<Command>(count, i requires 0 <= i < count => Command.Cmd(IdOf(|s.cmds| + i), |s.jobs|, None))
  }

  function NewTable(s: State, count: nat): (r: map<Byte, nat>)
    requires count <= 256
  {
    s.table + map id: Byte | Offset(s, id) < count :: |s.cmds| + Offset(s, id)
  }

  /** Distance from the next id to be allocated to `id`. */
  function Offset(s: State, id: Byte): Byte { (id - 1 - |s.cmds|) % 256 }

  /** Construct the commands, register their handlers, start their sends, arm the timer. */
  function StartSession(s: State, kind: Kind, count: nat): State
    requires count <= 256
  {
    s.(cmds := s.cmds + NewCmds(s, count),
       table := NewTable(s, count),
       jobs := s.jobs + [NewJob(s, kind, count)])
  }

  function ToOutcome(r: Reply): Outcome<Reply> { if r.good then Ok(r) else Failed(Refused(r)) }

  /** A file session starts one more send; other sessions do not. */
  function Sending(w: Local, k: nat, sends: bool): Local {
    if w.job.kind.Transfer? && sends then w.(job := w.job.(sends := w.job.sends + multiset{k})) else w
  }

  /** The handler of command `k` gets a reply; after a block of a file that is not the last the session goes on. */
  function OnReply(w: Local, k: nat, r: Reply, sends: bool): Local
    requires w.Valid() && w.job.Has(k)
  {
    var w1 := Touch(Sending(w, k, sends));
    if w.job.kind.Transfer? && r.good && r.more then w1 else ResolveCmd(w1, k, ToOutcome(r))
  }

  /** `Client::onReceive`: look up the handler by id and run it; without one the datagram is dropped. */
  function Receive(s: State, r: Reply, sends: bool): State
    requires WellFormed(s)
  {
    var id := IdOf(r.origin);
    if id !in s.table then s
    else
      var k := s.table[id];
      var j := s.cmds[k].owner;
      Put(s, j, OnReply(LocalTo(s, j), k, r, sends))
  }

  function Pop(s: State): State
    requires s.queue != []
  {
    s.(queue := s.queue[1..])
  }

  function RunTask(s: State): State
    requires WellFormed(s) && s.queue != []
  {
    var s1, j := Pop(s), s.queue[0].job;
    Put(s1, j, RunHandler(LocalTo(s1, j), s.queue[0]))
  }

  predicate Enabled(s: State, step: Step) {
    match step
    case Start(kind, count) => FreshIds(s, count) && (kind.Multi? || count == 1)
    case Answer(r) => r.origin < |s.cmds|
    case Lose(r) => r in s.flight
    case Deliver(r, _) => r in s.flight
    case Sent(j, k, _) => j < |s.jobs| && k in s.jobs[j].sends
    case Expire(j, code) => j < |s.jobs| && s.jobs[j].timer && !code.Cancelled?
    case Cancel(j, why) => j < |s.jobs| && s.jobs[j].alive && !s.jobs[j].kind.Transfer? && !why.Refused?
    case RunNext => s.queue != []
  }

  function Next(s: State, step: Step): State
    requires WellFormed(s) && Enabled(s, step)
  {
    match step
    case Start(kind, count) => StartSession(s, kind, count)
    case Answer(r) => s.(flight := s.flight + multiset{r})
    case Lose(r) => s.(flight := s.flight - multiset{r})
    case Deliver(r, sends) => Receive(s.(flight := s.flight - multiset{r}), r, sends)
    case Sent(j, k, failed) => Put(s, j, Sessions.Sent(LocalTo(s, j), k, failed))
    case Expire(j, code) =>
      s.(jobs := s.jobs[j := s.jobs[j].(timer := false)], queue := s.queue + [TimerDone(j, code)])
    case Cancel(j, why) => Put(s, j, ResolveTop(LocalTo(s, j), why))
    case RunNext => RunTask(s)
  }

  // ----- Invariant -----

  /** Commands and sessions refer to each other consistently; every command has its allocated id. */
  predicate Structure(cmds: seq<Command>, jobs: seq<Session>) {
    && (forall j :: 0 <= j < |jobs| ==> Shape(cmds, jobs[j], j))
    && (forall k :: 0 <= k < |cmds| ==>
          cmds[k].id == IdOf(k) && cmds[k].owner < |jobs| && jobs[cmds[k].owner].Has(k))
  }

  predicate Shape(cmds: seq<Command>, job: Session, j: nat) {
    && job.self == j
    && job.first + job.count <= |cmds|
    && |job.results| == job.count
    && (!job.kind.Multi? ==> job.count == 1)
    && SendsInside(job)
    && Owns(cmds, job)
  }

  predicate SendsInside(job: Session) {
    forall k :: k in job.sends ==> job.Has(k)
  }

  predicate Owns(cmds: seq<Command>, job: Session)
    requires job.first + job.count <= |cmds|
  {
    forall k :: job.first <= k < job.first + job.count ==> cmds[k].owner == job.self
  }

  /** Every handler in the table and in the queue refers to a command or session that exists. */
  predicate WellFormed(s: State) {
    && Structure(s.cmds, s.jobs)
    && (forall id :: id in s.table ==> s.table[id] < |s.cmds|)
    && (forall p :: 0 <= p < |s.queue| ==> TaskInRange(s.jobs, s.queue[p]))
  }

  predicate TaskInRange(jobs: seq<Session>, t: Task<nat>) {
    t.job < |jobs| && (t.SendDone? ==> jobs[t.job].Has(t.cmd))
  }

  /** Handler table and `done_` flags agree, in both directions. */
  predicate Agreement(cmds: seq<Command>, table: map<Byte, nat>) {
    && (forall k :: 0 <= k < |cmds| && !cmds[k].Done() ==> cmds[k].id in table && table[cmds[k].id] == k)
    && (forall id :: id in table ==>
          table[id] < |cmds| && !cmds[table[id]].Done() && cmds[table[id]].id == id)
  }

  /** Number of commands in `lo..hi` that are done. */
  function DoneCount(cmds: seq<Command>, lo: nat, hi: nat): nat
    requires hi <= |cmds|
  {
    if hi <= lo then 0 else DoneCount(cmds, lo, hi - 1) + if cmds[hi - 1].Done() then 1 else 0
  }

  /** While a multi-command session runs, its results are the values of its finished commands. */
  predicate Collecting(cmds: seq<Command>, job: Session)
    requires job.first + job.count <= |cmds| && |job.results| == job.count
  {
    && job.finished == DoneCount(cmds, job.first, job.first + job.count)
    && (0 < job.count ==> job.finished < job.count)
    && Kept(cmds, job.first, job.results)
  }

  /** Every finished command among the `|results|` from `first` on succeeded with the value kept for it. */
  predicate Kept(cmds: seq<Command>, first: nat, results: seq<Option<Reply>>)
    requires first + |results| <= |cmds|
  {
    forall k :: first <= k < first + |results| ==>
      match cmds[k].outcome
      case None => true
      case Some(r) => r.Ok? && results[k - first] == Some(r.value)
  }

  /** A success holds exactly the values that the session's commands were resolved with. */
  predicate Faithful(cmds: seq<Command>, first: nat, values: seq<Option<Reply>>)
    requires first + |values| <= |cmds|
  {
    forall k :: first <= k < first + |values| ==>
      match cmds[k].outcome
      case None => false
      case Some(r) => r.Ok? && values[k - first] == Some(r.value)
  }

  predicate Settled(cmds: seq<Command>, job: Session)
    requires job.first + job.count <= |cmds|
  {
    && |job.calls| == 1
    && !job.timer
    && (job.kind.Multi? ==> job.done)
    && (forall k :: job.first <= k < job.first + job.count ==> cmds[k].Done())
    && (job.calls[0].Success? ==>
          |job.calls[0].values| == job.count && Faithful(cmds, job.first, job.calls[0].values))
    && (forall id :: id in job.seen ==> !job.Has(job.seen[id]))
  }

  predicate Running(cmds: seq<Command>, job: Session)
    requires job.first + job.count <= |cmds| && |job.results| == job.count
  {
    && job.calls == [] && job.alive
    && (if job.kind.Multi? then !job.done && Collecting(cmds, job)
        else forall k :: job.first <= k < job.first + job.count ==> !cmds[k].Done())
  }

  /** The invariant of one session. */
  predicate SessionInv(cmds: seq<Command>, job: Session) {
    && job.first + job.count <= |cmds|
    && |job.results| == job.count
    && (if job.calls == [] then Running(cmds, job) else Settled(cmds, job))
  }

  predicate LocalInv(w: Local) {
    w.Valid() && Agreement(w.cmds, w.table) && SessionInv(w.cmds, w.job)
  }

  /** A wait that completed without being cancelled is still in the queue. */
  predicate WaitQueued(queue: seq<Task<nat>>, j: nat) {
    exists p :: 0 <= p < |queue| && queue[p].TimerDone? && queue[p].job == j && !queue[p].code.Cancelled?
  }

  /** A session whose callback has not run has a wait that will end it. */
  predicate Waiting(queue: seq<Task<nat>>, job: Session) {
    job.calls == [] ==> job.timer || WaitQueued(queue, job.self)
  }

  /** Only the handlers of sends can follow the release of a session in the queue, or be left after it. */
  predicate Fifo(queue: seq<Task<nat>>, job: Session) {
    && (job.calls == [] || job.kind.Transfer? ==> job.alive && Release(job.self) !in queue)
    && (job.calls != [] && !job.kind.Transfer? && job.alive ==> Release(job.self) in queue)
    && (!job.alive ==> OnlySends(queue, job.self))
    && (forall p :: 0 <= p < |queue| && queue[p] == Release(job.self) ==> OnlySends(queue[p + 1..], job.self))
  }

  predicate OnlySends(queue: seq<Task<nat>>, j: nat) {
    forall p :: 0 <= p < |queue| && queue[p].job == j ==> queue[p].SendDone?
  }

  /** Number of queued handlers of sends of session `j`. */
  function SendsIn(queue: seq<Task<nat>>, j: nat): nat {
    if queue == [] then 0 else SendsIn(queue[1..], j) + if queue[0].SendDone? && queue[0].job == j then 1 else 0
  }

  /** How many of them are behind the release of the session. */
  function Behind(queue: seq<Task<nat>>, j: nat): nat {
    if queue == [] then 0 else if queue[0] == Release(j) then SendsIn(queue[1..], j) else Behind(queue[1..], j)
  }

  /**
   The sends that were outstanding when the release was posted are those that still are, and those whose handlers
   are behind it.  Only they can use the session after its release.
   */
  predicate LateInv(queue: seq<Task<nat>>, job: Session) {
    if job.calls == [] || job.kind.Transfer? then !job.touched
    else if job.alive then !job.touched && |job.sends| + Behind(queue, job.self) == job.late
    else |job.sends| + SendsIn(queue, job.self) <= job.late && (job.touched ==> job.late > 0)
  }

  predicate QueueInv(queue: seq<Task<nat>>, job: Session) {
    Fifo(queue, job) && LateInv(queue, job)
  }

  predicate NoTask(queue: seq<Task<nat>>, j: nat) {
    forall p :: 0 <= p < |queue| ==> queue[p].job != j
  }

  /** The invariant, except that the wait of a session may just have been taken from the queue. */
  predicate InvBut(s: State) {
    && WellFormed(s)
    && (forall j :: 0 <= j < |s.jobs| ==> SessionInv(s.cmds, s.jobs[j]))
    && (forall j :: 0 <= j < |s.jobs| ==> QueueInv(s.queue, s.jobs[j]))
    && Agreement(s.cmds, s.table)
  }

  predicate Inv(s: State) {
    InvBut(s) && forall j :: 0 <= j < |s.jobs| ==> Waiting(s.queue, s.jobs[j])
  }

  // ----- What the handlers of one session do to its own invariant -----

  /** `w1` differs from `w` only in what belongs to the session. */
  predicate LocalStep(w: Local, w1: Local)
    requires w.Valid()
  {
    && |w1.cmds| == |w.cmds|
    && (forall k :: 0 <= k < |w.cmds| ==> CmdStep(w.cmds[k], w1.cmds[k], w.job.Has(k)))
    && (forall id :: id in w1.table ==> id in w.table && w1.table[id] == w.table[id])
    && w1.job == w.job.(done := w1.job.done, finished := w1.job.finished, results := w1.job.results,
                        timer := w1.job.timer, calls := w1.job.calls, seen := w1.job.seen, late := w1.job.late)
    && |w1.job.results| == |w.job.results|
    && QueueStep(w, w1)
  }

  /** A command keeps its id and owner; it changes only from open to done and only inside its session. */
  predicate CmdStep(c: Command, c1: Command, inside: bool) {
    c1 == c || (inside && !c.Done() && c1 == c.(outcome := c1.outcome))
  }

  /** The callback runs at most once more, and exactly then the wait is cancelled and the release posted. */
  predicate QueueStep(w: Local, w1: Local) {
    if w1.job.calls == w.job.calls then
      w1.queue == w.queue && w1.job.timer == w.job.timer && w1.job.late == w.job.late
    else
      && w.job.calls == [] && w1.job.calls != [] && !w1.job.timer && w1.job.late == |w.job.sends|
      && w1.queue == w.queue
           + (if w.job.timer then [TimerDone(w.job.self, Cancelled)] else [])
           + (if w.job.kind.Transfer? then [] else [Release(w.job.self)])
  }

  lemma {:induction false} DoneCountBound(cmds: seq<Command>, lo: nat, hi: nat)
    requires lo <= hi <= |cmds|
    ensures DoneCount(cmds, lo, hi) <= hi - lo
    ensures DoneCount(cmds, lo, hi) == hi - lo <==> forall k :: lo <= k < hi ==> cmds[k].Done()
  {
    if lo < hi {
      DoneCountBound(cmds, lo, hi - 1);
      assert cmds[hi - 1].Done() || !cmds[hi - 1].Done();
    }
  }

  lemma {:induction false} DoneCountUpdate(cmds: seq<Command>, k: nat, c: Command, lo: nat, hi: nat)
    requires hi <= |cmds| && lo <= k < |cmds| && !cmds[k].Done() && c.Done()
    ensures DoneCount(cmds[k := c], lo, hi) == DoneCount(cmds, lo, hi) + if k < hi then 1 else 0
  {
    if lo < hi {
      DoneCountUpdate(cmds, k, c, lo, hi - 1);
    }
  }

  lemma StopJob(w: Local, v: Verdict<Reply>)
    requires w.Valid() && w.job.kind.Multi? && v.Failure? && !w.job.done
    requires Agreement(w.cmds, w.table) && w.job.calls == []
    ensures LocalInv(ResolveJob(w, v)) && LocalStep(w, ResolveJob(w, v))
    ensures ResolveJob(w, v).job.calls == [v]
  {
    var w1 := ResolveJob(w, v);
    var lo, hi := w.job.first, w.job.first + w.job.count;
    forall k | 0 <= k < |w.cmds| ensures CmdStep(w.cmds[k], w1.cmds[k], w.job.Has(k)) {}
    assert forall k :: lo <= k < hi ==> w1.cmds[k].Done();
    forall k | 0 <= k < |w1.cmds| && !w1.cmds[k].Done()
      ensures w1.cmds[k].id in w1.table && w1.table[w1.cmds[k].id] == k
    {
      assert w.cmds[k] == w1.cmds[k];
      assert w.cmds[k].id !in OpenIds(w.cmds, lo, hi);
    }
  }

  /** The session after command `k` has set its flag and removed its handler, before it calls back. */
  function Ended(w: Local, k: nat, r: Outcome<Reply>): Local
    requires w.Valid() && w.job.Has(k)
  {
    w.(cmds := w.cmds[k := w.cmds[k].(outcome := Some(r))], table := w.table - {w.cmds[k].id})
  }

  lemma EndedAgrees(w: Local, k: nat, r: Outcome<Reply>)
    requires w.Valid() && w.job.Has(k) && !w.cmds[k].Done() && Agreement(w.cmds, w.table)
    ensures Agreement(Ended(w, k, r).cmds, Ended(w, k, r).table)
  {}

  lemma EndPartFailed(w: Local, k: nat, why: Failure<Reply>)
    requires LocalInv(w) && w.job.kind.Multi? && w.job.Has(k) && !w.cmds[k].Done()
    ensures LocalInv(ResolveCmd(w, k, Failed(why))) && LocalStep(w, ResolveCmd(w, k, Failed(why)))
  {
    var w0 := Ended(w, k, Failed(why));
    EndedAgrees(w, k, Failed(why));
    StopJob(w0, Failure(why));
    StepAfterOpen(w, w0, ResolveJob(w0, Failure(why)), k);
  }

  lemma KeepOne(cmds: seq<Command>, first: nat, results: seq<Option<Reply>>, k: nat, v: Reply)
    requires first <= k < first + |results| <= |cmds| && Kept(cmds, first, results)
    ensures Kept(cmds[k := cmds[k].(outcome := Some(Ok(v)))], first, results[k - first := Some(v)])
  {
    var cmds1 := cmds[k := cmds[k].(outcome := Some(Ok(v)))];
    assert forall i :: 0 <= i < |cmds| && i != k ==> cmds1[i] == cmds[i];
  }

  lemma EndPartMore(w: Local, k: nat, v: Reply)
    requires LocalInv(w) && w.job.kind.Multi? && w.job.Has(k) && !w.cmds[k].Done()
    requires w.job.finished + 1 < w.job.count
    ensures LocalInv(ResolveCmd(w, k, Ok(v))) && LocalStep(w, ResolveCmd(w, k, Ok(v)))
  {
    EndedAgrees(w, k, Ok(v));
    DoneCountUpdate(w.cmds, k, w.cmds[k].(outcome := Some(Ok(v))), w.job.first, w.job.first + w.job.count);
    KeepOne(w.cmds, w.job.first, w.job.results, k, v);
  }

  lemma AllDoneAfter(w: Local, k: nat, v: Reply)
    requires w.Valid() && w.job.Has(k) && !w.cmds[k].Done() && Collecting(w.cmds, w.job)
    requires w.job.finished + 1 == w.job.count
    ensures forall i :: w.job.first <= i < w.job.first + w.job.count ==> Ended(w, k, Ok(v)).cmds[i].Done()
    ensures Faithful(Ended(w, k, Ok(v)).cmds, w.job.first, w.job.results[k - w.job.first := Some(v)])
  {
    var lo, hi := w.job.first, w.job.first + w.job.count;
    var cmds1 := Ended(w, k, Ok(v)).cmds;
    DoneCountUpdate(w.cmds, k, cmds1[k], lo, hi);
    DoneCountBound(cmds1, lo, hi);
    KeepOne(w.cmds, lo, w.job.results, k, v);
  }

  lemma EndPartLast(w: Local, k: nat, v: Reply)
    requires LocalInv(w) && w.job.kind.Multi? && w.job.Has(k) && !w.cmds[k].Done()
    requires w.job.finished + 1 == w.job.count
    ensures LocalInv(ResolveCmd(w, k, Ok(v))) && LocalStep(w, ResolveCmd(w, k, Ok(v)))
    ensures ResolveCmd(w, k, Ok(v)).job.calls == [Success(w.job.results[k - w.job.first := Some(v)])]
  {
    EndedAgrees(w, k, Ok(v));
    AllDoneAfter(w, k, v);
    var w0, w1 := Ended(w, k, Ok(v)), ResolveCmd(w, k, Ok(v));
    assert w1.cmds == w0.cmds && w1.table == w0.table == w1.job.seen;
    assert forall id :: id in w0.table ==> !w0.cmds[w0.table[id]].Done();
  }

  /** One command of a running multi-command session ends; the cases of `callback<I>`. */
  lemma EndPart(w: Local, k: nat, r: Outcome<Reply>)
    requires LocalInv(w) && w.job.kind.Multi? && w.job.Has(k) && !w.cmds[k].Done()
    ensures LocalInv(ResolveCmd(w, k, r)) && LocalStep(w, ResolveCmd(w, k, r))
  {
    match r
    case Failed(why) => EndPartFailed(w, k, why);
    case Ok(v) =>
      if w.job.finished + 1 < w.job.count { EndPartMore(w, k, v); } else { EndPartLast(w, k, v); }
  }

  /** Ending one command first and stopping the rest afterwards is one step of the session. */
  lemma StepAfterOpen(w: Local, w0: Local, w1: Local, k: nat)
    requires w.Valid() && w.job.Has(k) && !w.cmds[k].Done()
    requires |w0.cmds| == |w.cmds|
    requires w0.cmds == w.cmds[k := w.cmds[k].(outcome := w0.cmds[k].outcome)] && w0.cmds[k].Done()
    requires w0.table == w.table - {w.cmds[k].id} && w0.job == w.job && w0.queue == w.queue
    requires w0.Valid() && LocalStep(w0, w1)
    ensures LocalStep(w, w1)
  {
    forall i | 0 <= i < |w.cmds| ensures CmdStep(w.cmds[i], w1.cmds[i], w.job.Has(i)) {
      assert CmdStep(w0.cmds[i], w1.cmds[i], w.job.Has(i));
    }
  }

  lemma EndSingle(w: Local, k: nat, r: Outcome<Reply>)
    requires LocalInv(w) && !w.job.kind.Multi? && w.job.Has(k) && !w.cmds[k].Done()
    ensures LocalInv(ResolveCmd(w, k, r)) && LocalStep(w, ResolveCmd(w, k, r))
  {
    var w1 := ResolveCmd(w, k, r);
    assert w1.cmds == w.cmds[k := w.cmds[k].(outcome := Some(r))];
    assert w1.table == w.table - {w.cmds[k].id};
    assert Agreement(w1.cmds, w1.table);
  }

  /** The verdict that a session owes its user once command `k` ends with `r`, if that ends the session. */
  function Asked(job: Session, k: nat, r: Outcome<Reply>): Option<Verdict<Reply>>
    requires job.Has(k) && |job.results| == job.count
  {
    match r
    case Failed(why) => Some(Failure(why))
    case Ok(v) =>
      if !job.kind.Multi? then Some(Success([Some(v)]))
      else if job.finished + 1 == job.count then Some(Success(job.results[k - job.first := Some(v)]))
      else None
  }

  function Calls(v: Option<Verdict<Reply>>): seq<Verdict<Reply>> {
    if v.None? then [] else [v.value]
  }

  lemma ResolveCmdKeeps(w: Local, k: nat, r: Outcome<Reply>)
    requires LocalInv(w) && w.job.Has(k)
    ensures LocalInv(ResolveCmd(w, k, r)) && LocalStep(w, ResolveCmd(w, k, r))
    ensures ResolveCmd(w, k, r).cmds[k].Done()
    ensures ResolveCmd(w, k, r).job.calls ==
      if w.cmds[k].Done() then w.job.calls else Calls(Asked(w.job, k, r))
  {
    if w.cmds[k].Done() {
      assert ResolveCmd(w, k, r) == w;
      NoStep(w);
    } else {
      AskedCalls(w, k, r);
      if w.job.kind.Multi? { EndPart(w, k, r); } else { EndSingle(w, k, r); }
    }
  }

  lemma NoStep(w: Local)
    requires LocalInv(w)
    ensures LocalStep(w, w)
  {}

  lemma AskedCalls(w: Local, k: nat, r: Outcome<Reply>)
    requires LocalInv(w) && w.job.Has(k) && !w.cmds[k].Done()
    ensures ResolveCmd(w, k, r).job.calls == Calls(Asked(w.job, k, r)) && ResolveCmd(w, k, r).cmds[k].Done()
  {}

  lemma ResolveTopKeeps(w: Local, why: Failure<Reply>)
    requires LocalInv(w)
    ensures LocalInv(ResolveTop(w, why)) && LocalStep(w, ResolveTop(w, why))
    ensures ResolveTop(w, why).job.calls == if w.job.calls == [] then [Failure(why)] else w.job.calls
  {
    if !w.job.kind.Multi? {
      ResolveCmdKeeps(w, w.job.first, Failed(why));
    } else if w.job.calls == [] {
      StopJob(w, Failure(why));
    } else {
      assert ResolveTop(w, why) == w;
    }
  }

  /** In particular the second `resolve` of a wait that failed changes nothing. */
  lemma TimerHandlerKeeps(w: Local, code: Code)
    requires LocalInv(w)
    ensures LocalInv(TimerHandler(w, code)) && LocalStep(w, TimerHandler(w, code))
    ensures TimerHandler(w, code) ==
      match code
      case Cancelled => w
      case Fired => ResolveTop(w, TimedOut)
      case Errored => ResolveTop(w, TimerFailed)
    ensures !code.Cancelled? ==> TimerHandler(w, code).job.calls != []
  {
    match code
    case Cancelled => NoStep(w);
    case Fired => ResolveTopKeeps(w, TimedOut);
    case Errored =>
      ResolveTopKeeps(w, TimerFailed);
      SecondResolve(ResolveTop(w, TimerFailed), TimedOut);
  }

  lemma SecondResolve(w: Local, why: Failure<Reply>)
    requires LocalInv(w) && w.job.calls != []
    ensures ResolveTop(w, why) == w
  {}

  // ----- From one session to all of them -----

  lemma {:induction false} DoneCountSame(cmds: seq<Command>, cmds1: seq<Command>, lo: nat, hi: nat)
    requires hi <= |cmds| && hi <= |cmds1|
    requires forall k :: lo <= k < hi ==> cmds1[k] == cmds[k]
    ensures DoneCount(cmds1, lo, hi) == DoneCount(cmds, lo, hi)
  {
    if lo < hi {
      DoneCountSame(cmds, cmds1, lo, hi - 1);
    }
  }

  /** A session is not affected by what happens to the commands of other sessions. */
  lemma OtherSession(cmds: seq<Command>, cmds1: seq<Command>, job: Session)
    requires SessionInv(cmds, job) && |cmds1| >= |cmds|
    requires forall k :: job.first <= k < job.first + job.count ==> cmds1[k] == cmds[k]
    ensures SessionInv(cmds1, job)
  {
    DoneCountSame(cmds, cmds1, job.first, job.first + job.count);
  }

  lemma StepStructure(cmds: seq<Command>, jobs: seq<Session>, cmds1: seq<Command>, jobs1: seq<Session>)
    requires Structure(cmds, jobs) && |cmds1| == |cmds| && |jobs1| == |jobs|
    requires forall k :: 0 <= k < |cmds| ==> cmds1[k].id == cmds[k].id && cmds1[k].owner == cmds[k].owner
    requires forall j :: 0 <= j < |jobs| ==> SameFrame(jobs[j], jobs1[j]) && SendsInside(jobs1[j])
    ensures Structure(cmds1, jobs1)
  {
    forall j | 0 <= j < |jobs1| ensures Shape(cmds1, jobs1[j], j) {
      assert Owns(cmds, jobs[j]);
    }
  }

  predicate SameFrame(a: Session, b: Session) {
    b.self == a.self && b.kind == a.kind && b.first == a.first && b.count == a.count && |b.results| == |a.results|
  }

  // ----- Appending to the queue -----

  lemma {:induction false} SendsAppend(queue: seq<Task<nat>>, extra: seq<Task<nat>>, j: nat)
    ensures SendsIn(queue + extra, j) == SendsIn(queue, j) + SendsIn(extra, j)
  {
    if queue == [] {
      assert queue + extra == extra;
    } else {
      SendsAppend(queue[1..], extra, j);
      assert (queue + extra)[1..] == queue[1..] + extra;
    }
  }

  lemma {:induction false} BehindAppend(queue: seq<Task<nat>>, extra: seq<Task<nat>>, j: nat)
    ensures Behind(queue + extra, j) ==
      if Release(j) in queue then Behind(queue, j) + SendsIn(extra, j) else Behind(extra, j)
  {
    if queue == [] {
      assert queue + extra == extra;
    } else {
      assert (queue + extra)[1..] == queue[1..] + extra;
      if queue[0] == Release(j) { SendsAppend(queue[1..], extra, j); } else { BehindAppend(queue[1..], extra, j); }
    }
  }

  lemma {:induction false} NoSends(queue: seq<Task<nat>>, j: nat)
    requires forall p :: 0 <= p < |queue| ==> queue[p].job != j || !queue[p].SendDone?
    ensures SendsIn(queue, j) == 0 && Behind(queue, j) == 0
  {
    if queue != [] { NoSends(queue[1..], j); }
  }

  lemma FifoAppendOther(queue: seq<Task<nat>>, extra: seq<Task<nat>>, job: Session)
    requires Fifo(queue, job) && OnlySends(extra, job.self)
    ensures Fifo(queue + extra, job)
  {
    forall p | 0 <= p < |queue + extra| && (queue + extra)[p] == Release(job.self)
      ensures OnlySends((queue + extra)[p + 1..], job.self)
    {
      assert p < |queue|;
      assert (queue + extra)[p + 1..] == queue[p + 1..] + extra;
    }
  }

  lemma QueueAppendOther(queue: seq<Task<nat>>, extra: seq<Task<nat>>, job: Session)
    requires QueueInv(queue, job) && NoTask(extra, job.self)
    ensures QueueInv(queue + extra, job)
  {
    FifoAppendOther(queue, extra, job);
    SendsAppend(queue, extra, job.self);
    BehindAppend(queue, extra, job.self);
    NoSends(extra, job.self);
  }

  /** The handler of a send that has completed, whenever that is. */
  lemma QueueAppendSend(queue: seq<Task<nat>>, job: Session, k: nat, failed: bool)
    requires QueueInv(queue, job) && k in job.sends
    ensures QueueInv(queue + [SendDone(job.self, k, failed)], job.(sends := job.sends - multiset{k}))
  {
    var extra: seq<Task<nat>> := [SendDone(job.self, k, failed)];
    FifoAppendOther(queue, extra, job);
    SendsAppend(queue, extra, job.self);
    BehindAppend(queue, extra, job.self);
    assert SendsIn(extra, job.self) == 1 + SendsIn(extra[1..], job.self);
  }

  /** Appending tasks of a session whose release has not been posted, the release at most at the end. */
  lemma FifoAppendOwn(queue: seq<Task<nat>>, extra: seq<Task<nat>>, job: Session, job1: Session)
    requires Fifo(queue, job) && job1.self == job.self && Release(job.self) !in queue && job1.alive
    requires forall p :: 0 <= p < |extra| - 1 ==> !extra[p].Release?
    requires Release(job.self) in extra <==> job1.calls != [] && !job1.kind.Transfer?
    ensures Fifo(queue + extra, job1)
  {
    var q := queue + extra;
    forall p | 0 <= p < |q| && q[p] == Release(job.self) ensures OnlySends(q[p + 1..], job.self) {
      assert q[p] == extra[p - |queue|];
      assert q[p + 1..] == [];
    }
    if Release(job.self) in extra {
      var p :| 0 <= p < |extra| && extra[p] == Release(job.self);
      assert q[|queue| + p] == Release(job.self);
    }
  }

  /** What a session appends when its callback runs: the cancelled wait and the release. */
  function Ending(job: Session): seq<Task<nat>> {
    (if job.timer then [TimerDone(job.self, Cancelled)] else [])
    + (if job.kind.Transfer? then [] else [Release(job.self)])
  }

  lemma EndingShape(job: Session)
    ensures var extra := Ending(job);
      && (forall p :: 0 <= p < |extra| - 1 ==> !extra[p].Release?)
      && (forall p :: 0 <= p < |extra| ==> extra[p].job == job.self && !extra[p].SendDone?)
      && (Release(job.self) in extra <==> !job.kind.Transfer?)
  {
    if !job.kind.Transfer? {
      assert Ending(job)[|Ending(job)| - 1] == Release(job.self);
    }
  }

  lemma QueueAppendEnding(queue: seq<Task<nat>>, job: Session, job1: Session)
    requires QueueInv(queue, job) && job.calls == [] && job1.calls != [] && job1.alive
    requires job1.self == job.self && job1.kind == job.kind && job1.touched == job.touched
    requires job1.sends == job.sends && job1.late == |job.sends|
    ensures QueueInv(queue + Ending(job), job1)
  {
    EndingShape(job);
    FifoAppendOwn(queue, Ending(job), job, job1);
    BehindAppend(queue, Ending(job), job.self);
    NoSends(Ending(job), job.self);
  }

  lemma PutQueue(s: State, j: nat, w1: Local)
    requires InvBut(s) && j < |s.jobs| && LocalStep(LocalTo(s, j), w1) && LocalInv(w1)
    ensures QueueInv(w1.queue, w1.job)
    ensures forall i :: 0 <= i < |s.jobs| && i != j ==> QueueInv(w1.queue, s.jobs[i])
    ensures forall p :: 0 <= p < |w1.queue| ==> TaskInRange(s.jobs, w1.queue[p])
    ensures s.queue <= w1.queue
  {
    var job := s.jobs[j];
    if w1.job.calls != job.calls {
      var extra := Ending(job);
      assert w1.queue == s.queue + extra;
      EndingShape(job);
      assert SessionInv(s.cmds, job);
      QueueAppendEnding(s.queue, job, w1.job);
      forall i | 0 <= i < |s.jobs| && i != j ensures QueueInv(w1.queue, s.jobs[i]) {
        QueueAppendOther(s.queue, extra, s.jobs[i]);
      }
    }
  }

  lemma PutKeeps(s: State, j: nat, w1: Local)
    requires InvBut(s) && j < |s.jobs| && LocalInv(w1) && LocalStep(LocalTo(s, j), w1)
    ensures InvBut(Put(s, j, w1))
    ensures forall i :: 0 <= i < |s.jobs| && i != j && Waiting(s.queue, s.jobs[i]) ==> Waiting(w1.queue, s.jobs[i])
    ensures Waiting(s.queue, s.jobs[j]) ==> Waiting(w1.queue, w1.job)
  {
    PutQueue(s, j, w1);
    PutStructure(s, j, w1);
    PutSessions(s, j, w1);
    forall i | 0 <= i < |s.jobs| && i != j && Waiting(s.queue, s.jobs[i]) ensures Waiting(w1.queue, s.jobs[i]) {
      StillWaiting(s.queue, w1.queue, s.jobs[i]);
    }
    OwnWaiting(LocalTo(s, j), w1);
  }

  lemma OwnWaiting(w: Local, w1: Local)
    requires w.Valid() && LocalStep(w, w1)
    ensures Waiting(w.queue, w.job) ==> Waiting(w1.queue, w1.job)
  {}

  lemma PutStructure(s: State, j: nat, w1: Local)
    requires InvBut(s) && j < |s.jobs| && LocalInv(w1) && LocalStep(LocalTo(s, j), w1)
    ensures Structure(w1.cmds, s.jobs[j := w1.job])
  {
    assert forall k :: 0 <= k < |s.cmds| ==> CmdStep(s.cmds[k], w1.cmds[k], s.jobs[j].Has(k));
    StepStructure(s.cmds, s.jobs, w1.cmds, s.jobs[j := w1.job]);
  }

  lemma StillWaiting(queue: seq<Task<nat>>, queue1: seq<Task<nat>>, job: Session)
    requires Waiting(queue, job) && queue <= queue1
    ensures Waiting(queue1, job)
  {
    if WaitQueued(queue, job.self) { StillQueued(queue, queue1, job.self); }
  }

  lemma PutSessions(s: State, j: nat, w1: Local)
    requires InvBut(s) && j < |s.jobs| && LocalInv(w1) && LocalStep(LocalTo(s, j), w1)
    ensures forall i :: 0 <= i < |s.jobs| && i != j ==> SessionInv(w1.cmds, s.jobs[i])
  {
    assert forall k :: 0 <= k < |s.cmds| ==> CmdStep(s.cmds[k], w1.cmds[k], s.jobs[j].Has(k));
    forall i | 0 <= i < |s.jobs| && i != j ensures SessionInv(w1.cmds, s.jobs[i]) {
      assert Owns(s.cmds, s.jobs[i]) && Owns(s.cmds, s.jobs[j]);
      OtherSession(s.cmds, w1.cmds, s.jobs[i]);
    }
  }

  lemma StillQueued(queue: seq<Task<nat>>, queue1: seq<Task<nat>>, j: nat)
    requires WaitQueued(queue, j) && queue <= queue1
    ensures WaitQueued(queue1, j)
  {
    var p :| 0 <= p < |queue| && queue[p].TimerDone? && queue[p].job == j && !queue[p].code.Cancelled?;
    assert queue1[p] == queue[p];
  }

  // ----- One step -----

  lemma ModUnique(x: int, q: int, r: Byte)
    requires x == 256 * q + r
    ensures x % 256 == r
  {}

  lemma OffsetOfId(s: State, i: nat)
    requires i < 256
    ensures Offset(s, IdOf(|s.cmds| + i)) == i
  {
    var x := 1 + |s.cmds| + i;
    ModUnique(IdOf(|s.cmds| + i) - 1 - |s.cmds|, -(x / 256), i);
  }

  lemma IdOfOffset(s: State, id: Byte)
    ensures IdOf(|s.cmds| + Offset(s, id)) == id
  {
    var d := id - 1 - |s.cmds|;
    ModUnique(1 + |s.cmds| + Offset(s, id), -(d / 256), id);
  }

  lemma StartAgrees(s: State, count: nat)
    requires WellFormed(s) && Agreement(s.cmds, s.table) && FreshIds(s, count)
    ensures Agreement(s.cmds + NewCmds(s, count), NewTable(s, count))
  {
    var cmds1, table1 := s.cmds + NewCmds(s, count), NewTable(s, count);
    forall k | 0 <= k < |cmds1| && !cmds1[k].Done() ensures cmds1[k].id in table1 && table1[cmds1[k].id] == k {
      OpenRegistered(s, count, k);
    }
    forall id | id in table1
      ensures table1[id] < |cmds1| && !cmds1[table1[id]].Done() && cmds1[table1[id]].id == id
    {
      RegisteredOpen(s, count, id);
    }
  }

  lemma OpenRegistered(s: State, count: nat, k: nat)
    requires WellFormed(s) && Agreement(s.cmds, s.table) && FreshIds(s, count)
    requires k < |s.cmds| + count && !(s.cmds + NewCmds(s, count))[k].Done()
    ensures var id := (s.cmds + NewCmds(s, count))[k].id; id in NewTable(s, count) && NewTable(s, count)[id] == k
  {
    if k < |s.cmds| {
      var id := s.cmds[k].id;
      IdOfOffset(s, id);
      assert id in s.table && !(Offset(s, id) < count);
    } else {
      OffsetOfId(s, k - |s.cmds|);
    }
  }

  lemma RegisteredOpen(s: State, count: nat, id: Byte)
    requires WellFormed(s) && Agreement(s.cmds, s.table) && FreshIds(s, count) && id in NewTable(s, count)
    ensures var k, cmds1 := NewTable(s, count)[id], s.cmds + NewCmds(s, count);
      k < |cmds1| && !cmds1[k].Done() && cmds1[k].id == id
  {
    IdOfOffset(s, id);
  }

  lemma {:induction false} DoneCountNone(cmds: seq<Command>, lo: nat, hi: nat)
    requires hi <= |cmds| && forall k :: lo <= k < hi ==> !cmds[k].Done()
    ensures DoneCount(cmds, lo, hi) == 0
  {
    if lo < hi {
      DoneCountNone(cmds, lo, hi - 1);
    }
  }

  lemma StartStructure(s: State, kind: Kind, count: nat)
    requires Structure(s.cmds, s.jobs) && (kind.Multi? || count == 1)
    ensures Structure(s.cmds + NewCmds(s, count), s.jobs + [NewJob(s, kind, count)])
  {
    var cmds1, jobs1 := s.cmds + NewCmds(s, count), s.jobs + [NewJob(s, kind, count)];
    forall j | 0 <= j < |jobs1| ensures Shape(cmds1, jobs1[j], j) {
      if j < |s.jobs| { ShapeKept(s.cmds, NewCmds(s, count), s.jobs[j], j); } else { NewShape(s, kind, count); }
    }
    OwnersKept(s, kind, count);
  }

  lemma NewShape(s: State, kind: Kind, count: nat)
    requires kind.Multi? || count == 1
    ensures Shape(s.cmds + NewCmds(s, count), NewJob(s, kind, count), |s.jobs|)
  {}

  lemma OwnersKept(s: State, kind: Kind, count: nat)
    requires Structure(s.cmds, s.jobs)
    ensures var cmds1, jobs1 := s.cmds + NewCmds(s, count), s.jobs + [NewJob(s, kind, count)];
      forall k :: 0 <= k < |cmds1| ==>
        cmds1[k].id == IdOf(k) && cmds1[k].owner < |jobs1| && jobs1[cmds1[k].owner].Has(k)
  {
    var cmds1, jobs1 := s.cmds + NewCmds(s, count), s.jobs + [NewJob(s, kind, count)];
    forall k | 0 <= k < |cmds1|
      ensures cmds1[k].id == IdOf(k) && cmds1[k].owner < |jobs1| && jobs1[cmds1[k].owner].Has(k)
    {
      if k < |s.cmds| { assert cmds1[k] == s.cmds[k]; } else { assert cmds1[k] == NewCmds(s, count)[k - |s.cmds|]; }
    }
  }

  lemma ShapeKept(cmds: seq<Command>, more: seq<Command>, job: Session, j: nat)
    requires Shape(cmds, job, j)
    ensures Shape(cmds + more, job, j)
  {
    assert Owns(cmds, job);
  }

  lemma WaitQueuedAppend(queue: seq<Task<nat>>, extra: seq<Task<nat>>, j: nat)
    requires WaitQueued(queue, j) || WaitQueued(extra, j)
    ensures WaitQueued(queue + extra, j)
  {
    if WaitQueued(queue, j) {
      StillQueued(queue, queue + extra, j);
    } else {
      var p :| 0 <= p < |extra| && extra[p].TimerDone? && extra[p].job == j && !extra[p].code.Cancelled?;
      assert (queue + extra)[|queue| + p] == extra[p];
    }
  }

  lemma StartOld(s: State, kind: Kind, count: nat, j: nat)
    requires Inv(s) && Enabled(s, Start(kind, count)) && j < |s.jobs|
    ensures var s1 := StartSession(s, kind, count);
      SessionInv(s1.cmds, s1.jobs[j]) && QueueInv(s1.queue, s1.jobs[j]) && Waiting(s1.queue, s1.jobs[j])
  {
    var s1 := StartSession(s, kind, count);
    assert Waiting(s.queue, s.jobs[j]) && s1.jobs[j] == s.jobs[j];
    OtherSession(s.cmds, s1.cmds, s.jobs[j]);
  }

  lemma StartNew(s: State, kind: Kind, count: nat)
    requires Inv(s) && Enabled(s, Start(kind, count))
    ensures var s1 := StartSession(s, kind, count);
      SessionInv(s1.cmds, s1.jobs[|s.jobs|]) && QueueInv(s1.queue, s1.jobs[|s.jobs|])
  {
    var s1 := StartSession(s, kind, count);
    DoneCountNone(s1.cmds, |s.cmds|, |s1.cmds|);
    assert s1.jobs[|s.jobs|] == NewJob(s, kind, count);
  }

  lemma StartEach(s: State, kind: Kind, count: nat, j: nat)
    requires Inv(s) && Enabled(s, Start(kind, count)) && j <= |s.jobs|
    ensures var s1 := StartSession(s, kind, count);
      SessionInv(s1.cmds, s1.jobs[j]) && QueueInv(s1.queue, s1.jobs[j]) && Waiting(s1.queue, s1.jobs[j])
  {
    if j < |s.jobs| { StartOld(s, kind, count, j); } else { StartNew(s, kind, count); }
  }

  lemma StartWellFormed(s: State, kind: Kind, count: nat)
    requires WellFormed(s) && Enabled(s, Start(kind, count))
    ensures WellFormed(StartSession(s, kind, count))
  {
    StartStructure(s, kind, count);
  }

  lemma StartKeeps(s: State, kind: Kind, count: nat)
    requires Inv(s) && Enabled(s, Start(kind, count))
    ensures Inv(StartSession(s, kind, count))
  {
    var s1 := StartSession(s, kind, count);
    StartWellFormed(s, kind, count);
    StartAgrees(s, count);
    forall j | 0 <= j < |s1.jobs|
      ensures SessionInv(s1.cmds, s1.jobs[j]) && QueueInv(s1.queue, s1.jobs[j]) && Waiting(s1.queue, s1.jobs[j])
    {
      StartEach(s, kind, count, j);
    }
  }

  lemma ResolveCmdInv(s: State, j: nat, k: nat, r: Outcome<Reply>)
    requires Inv(s) && j < |s.jobs| && s.jobs[j].Has(k)
    ensures Inv(Put(s, j, ResolveCmd(LocalTo(s, j), k, r)))
  {
    ResolveCmdKeeps(LocalTo(s, j), k, r);
    PutKeeps(s, j, ResolveCmd(LocalTo(s, j), k, r));
  }

  /** Only the sends and the history of one session change. */
  function Marked(s: State, j: nat, job1: Session): State
    requires j < |s.jobs|
  {
    s.(jobs := s.jobs[j := job1])
  }

  predicate OnlyMarked(job: Session, job1: Session) {
    job1 == job.(sends := job1.sends, touched := job1.touched) && SendsInside(job1)
  }

  lemma MarkedKeeps(s: State, j: nat, job1: Session)
    requires Inv(s) && j < |s.jobs| && OnlyMarked(s.jobs[j], job1) && QueueInv(s.queue, job1)
    ensures Inv(Marked(s, j, job1))
  {
    var s1 := Marked(s, j, job1);
    StepStructure(s.cmds, s.jobs, s1.cmds, s1.jobs);
    assert SessionInv(s.cmds, s.jobs[j]) && SessionInv(s.cmds, job1);
    assert Waiting(s.queue, s.jobs[j]);
  }

  lemma ReplyKeeps(s: State, j: nat, k: nat, r: Reply, sends: bool)
    requires Inv(s) && j < |s.jobs| && s.jobs[j].Has(k) && !s.cmds[k].Done()
    ensures Inv(Put(s, j, OnReply(LocalTo(s, j), k, r, sends)))
  {
    var w1 := Touch(Sending(LocalTo(s, j), k, sends));
    assert SessionInv(s.cmds, s.jobs[j]) && QueueInv(s.queue, s.jobs[j]) && SendsInside(s.jobs[j]);
    RunningMarked(s.queue, s.jobs[j], w1.job);
    if s.jobs[j].kind.Transfer? && r.good && r.more {
      MarkedPut(s, j, w1);
    } else {
      var s2 := MarkedResolve(s, j, w1, k, ToOutcome(r));
    }
  }

  /** While a session runs its sends are free to change. */
  lemma RunningMarked(queue: seq<Task<nat>>, job: Session, job1: Session)
    requires QueueInv(queue, job) && job.calls == [] && job1 == job.(sends := job1.sends, touched := !job.alive)
    ensures QueueInv(queue, job1)
  {}

  lemma MarkedPut(s: State, j: nat, w1: Local)
    requires Inv(s) && j < |s.jobs| && OnlyMarked(s.jobs[j], w1.job) && QueueInv(s.queue, w1.job)
    requires w1 == LocalTo(s, j).(job := w1.job)
    ensures Put(s, j, w1) == Marked(s, j, w1.job) && Inv(Put(s, j, w1))
  {
    MarkedKeeps(s, j, w1.job);
  }

  lemma MarkedResolve(s: State, j: nat, w1: Local, k: nat, r: Outcome<Reply>) returns (s2: State)
    requires Inv(s) && j < |s.jobs| && OnlyMarked(s.jobs[j], w1.job) && QueueInv(s.queue, w1.job)
    requires w1 == LocalTo(s, j).(job := w1.job) && w1.Valid() && w1.job.Has(k)
    ensures Inv(s2) && s2 == Put(s, j, ResolveCmd(w1, k, r))
  {
    s2 := Put(s, j, ResolveCmd(w1, k, r));
    var s1 := Marked(s, j, w1.job);
    MarkedPut(s, j, w1);
    assert LocalTo(s1, j) == w1;
    ResolveCmdInv(s1, j, k, r);
    PutTwice(s, j, w1.job, ResolveCmd(w1, k, r));
  }

  lemma PutTwice(s: State, j: nat, job1: Session, w: Local)
    requires j < |s.jobs|
    ensures Put(Marked(s, j, job1), j, w) == Put(s, j, w)
  {}

  lemma ReceiveKeeps(s: State, r: Reply, sends: bool)
    requires Inv(s)
    ensures Inv(Receive(s, r, sends))
  {
    var id := IdOf(r.origin);
    if id in s.table {
      ReplyKeeps(s, s.cmds[s.table[id]].owner, s.table[id], r, sends);
    }
  }

  /** A handler of session `t.job` is queued, and the session is then `job1`. */
  function Append(s: State, t: Task<nat>, job1: Session): State
    requires t.job < |s.jobs|
  {
    s.(jobs := s.jobs[t.job := job1], queue := s.queue + [t])
  }

  /** A wait that completes is queued as such; any other handler changes nothing but the sends. */
  predicate Queues(t: Task<nat>, job: Session, job1: Session) {
    && job1 == job.(sends := job1.sends, timer := job1.timer) && SendsInside(job1)
    && (job1.timer == job.timer || (t.TimerDone? && !t.code.Cancelled? && job.calls == []))
  }

  lemma AppendEach(s: State, t: Task<nat>, job1: Session, i: nat)
    requires Inv(s) && TaskInRange(s.jobs, t) && i < |s.jobs|
    requires Queues(t, s.jobs[t.job], job1) && QueueInv(s.queue + [t], job1)
    ensures var s1 := Append(s, t, job1);
      SessionInv(s1.cmds, s1.jobs[i]) && QueueInv(s1.queue, s1.jobs[i]) && Waiting(s1.queue, s1.jobs[i])
  {
    assert SessionInv(s.cmds, s.jobs[i]) && Waiting(s.queue, s.jobs[i]) && [t][0] == t;
    if i != t.job {
      QueueAppendOther(s.queue, [t], s.jobs[i]);
    }
    AppendWaiting(s.queue, t, s.jobs[i], if i == t.job then job1 else s.jobs[i]);
  }

  lemma AppendWaiting(queue: seq<Task<nat>>, t: Task<nat>, job: Session, job1: Session)
    requires Waiting(queue, job) && (job1 == job || (t.job == job.self && Queues(t, job, job1)))
    ensures Waiting(queue + [t], job1)
  {
    assert [t][0] == t;
    if WaitQueued(queue, job.self) || WaitQueued([t], job.self) {
      WaitQueuedAppend(queue, [t], job.self);
    }
  }

  lemma AppendKeeps(s: State, t: Task<nat>, job1: Session)
    requires Inv(s) && TaskInRange(s.jobs, t)
    requires Queues(t, s.jobs[t.job], job1) && QueueInv(s.queue + [t], job1)
    ensures Inv(Append(s, t, job1))
  {
    var s1 := Append(s, t, job1);
    StepStructure(s.cmds, s.jobs, s1.cmds, s1.jobs);
    forall i | 0 <= i < |s1.jobs|
      ensures SessionInv(s1.cmds, s1.jobs[i]) && QueueInv(s1.queue, s1.jobs[i]) && Waiting(s1.queue, s1.jobs[i])
    {
      AppendEach(s, t, job1, i);
    }
  }

  lemma SentKeeps(s: State, j: nat, k: nat, failed: bool)
    requires Inv(s) && Enabled(s, Step.Sent(j, k, failed))
    ensures Inv(Next(s, Step.Sent(j, k, failed)))
  {
    var t: Task<nat> := SendDone(j, k, failed);
    var job: Session := s.jobs[j];
    assert QueueInv(s.queue, job);
    QueueAppendSend(s.queue, job, k, failed);
    AppendKeeps(s, t, job.(sends := job.sends - multiset{k}));
  }

  /** Taking the oldest handler from the queue can only disturb the session whose wait it was. */
  lemma PopKeeps(s: State)
    requires Inv(s) && s.queue != [] && !s.queue[0].Release?
    ensures InvBut(Pop(s))
    ensures forall i :: 0 <= i < |s.jobs| ==>
      Waiting(Pop(s).queue, s.jobs[i]) || (s.queue[0].TimerDone? && s.queue[0].job == i && !s.queue[0].code.Cancelled?)
  {
    var s1 := Pop(s);
    forall i | 0 <= i < |s.jobs| ensures QueueInv(s1.queue, s.jobs[i]) {
      PopQueue(s.queue, s.jobs[i]);
    }
    forall i | 0 <= i < |s.jobs|
      ensures Waiting(s1.queue, s1.jobs[i])
        || (s.queue[0].TimerDone? && s.queue[0].job == i && !s.queue[0].code.Cancelled?)
    {
      assert Waiting(s.queue, s.jobs[i]);
      if WaitQueued(s.queue, i) {
        var p :| 0 <= p < |s.queue| && s.queue[p].TimerDone? && s.queue[p].job == i && !s.queue[p].code.Cancelled?;
        assert p > 0 ==> s1.queue[p - 1] == s.queue[p];
      }
    }
  }

  lemma PopQueue(queue: seq<Task<nat>>, job: Session)
    requires queue != [] && QueueInv(queue, job) && queue[0] != Release(job.self)
    ensures QueueInv(queue[1..], job)
  {
    forall p | 0 <= p < |queue[1..]| && queue[1..][p] == Release(job.self)
      ensures OnlySends(queue[1..][p + 1..], job.self)
    {
      assert queue[p + 1] == Release(job.self);
      assert queue[1..][p + 1..] == queue[p + 2..];
    }
    if Release(job.self) in queue {
      var p :| 0 <= p < |queue| && queue[p] == Release(job.self);
      assert queue[1..][p - 1] == Release(job.self);
    }
  }

  lemma RunTimer(s: State)
    requires Inv(s) && s.queue != [] && s.queue[0].TimerDone?
    ensures Inv(RunTask(s))
  {
    var s1, j, code := Pop(s), s.queue[0].job, s.queue[0].code;
    PopKeeps(s);
    assert QueueInv(s.queue, s.jobs[j]);
    assert Touch(LocalTo(s1, j)) == LocalTo(s1, j);
    TimerHandlerKeeps(LocalTo(s1, j), code);
    PutKeeps(s1, j, TimerHandler(LocalTo(s1, j), code));
  }

  /** A send that failed resolves its command, or finds it done; after the release only a late one can do so. */
  lemma RunSend(s: State)
    requires Inv(s) && s.queue != [] && s.queue[0].SendDone?
    ensures Inv(RunTask(s))
  {
    var t, s1 := s.queue[0], Pop(s);
    PopSend(s);
    if t.failed {
      var s2 := MarkedResolve(s1, t.job, Touch(LocalTo(s1, t.job)), t.cmd, Failed(SendFailed));
      assert s2 == RunTask(s);
    } else {
      assert s1 == RunTask(s);
    }
  }

  lemma PopSend(s: State)
    requires Inv(s) && s.queue != [] && s.queue[0].SendDone?
    ensures var j := s.queue[0].job;
      && j < |s.jobs| && s.jobs[j].Has(s.queue[0].cmd) && Inv(Pop(s))
      && OnlyMarked(s.jobs[j], Touch(LocalTo(Pop(s), j)).job) && QueueInv(Pop(s).queue, Touch(LocalTo(Pop(s), j)).job)
  {
    var j := s.queue[0].job;
    PopKeeps(s);
    assert QueueInv(s.queue, s.jobs[j]) && QueueInv(Pop(s).queue, s.jobs[j]) && SendsInside(s.jobs[j]);
    TouchedByLate(s.queue, s.jobs[j], Touch(LocalTo(Pop(s), j)).job);
  }

  lemma TouchedByLate(queue: seq<Task<nat>>, job: Session, job1: Session)
    requires queue != [] && queue[0].SendDone? && queue[0].job == job.self
    requires QueueInv(queue, job) && QueueInv(queue[1..], job) && job1 == job.(touched := job.touched || !job.alive)
    ensures QueueInv(queue[1..], job1)
  {}

  lemma RunRelease(s: State)
    requires Inv(s) && s.queue != [] && s.queue[0].Release?
    ensures Inv(RunTask(s))
  {
    var s1, j := RunTask(s), s.queue[0].job;
    assert s.queue[0 + 1..] == s1.queue && QueueInv(s.queue, s.jobs[j]);
    StepStructure(s.cmds, s.jobs, s1.cmds, s1.jobs);
    assert OnlySends(s1.queue, j) && SendsIn(s1.queue, j) == Behind(s.queue, j);
    forall i | 0 <= i < |s1.jobs|
      ensures SessionInv(s1.cmds, s1.jobs[i]) && QueueInv(s1.queue, s1.jobs[i]) && Waiting(s1.queue, s1.jobs[i])
    {
      assert Waiting(s.queue, s.jobs[i]);
      if i != j { OtherReleased(s.queue, s.jobs[i]); }
    }
  }

  lemma OtherReleased(queue: seq<Task<nat>>, job: Session)
    requires queue != [] && queue[0].Release? && queue[0].job != job.self
    requires QueueInv(queue, job) && Waiting(queue, job)
    ensures QueueInv(queue[1..], job) && Waiting(queue[1..], job)
  {
    PopQueue(queue, job);
    if WaitQueued(queue, job.self) {
      var p :| 0 <= p < |queue| && queue[p].TimerDone? && queue[p].job == job.self && !queue[p].code.Cancelled?;
      assert queue[1..][p - 1] == queue[p];
    }
  }

  lemma ExpireKeeps(s: State, j: nat, code: Code)
    requires Inv(s) && Enabled(s, Expire(j, code))
    ensures Inv(Next(s, Expire(j, code)))
  {
    var t: Task<nat> := TimerDone(j, code);
    var job: Session := s.jobs[j];
    assert SessionInv(s.cmds, job) && QueueInv(s.queue, job);
    FifoAppendOwn(s.queue, [t], job, job.(timer := false));
    AppendKeeps(s, t, job.(timer := false));
  }

  lemma CancelKeeps(s: State, j: nat, why: Failure<Reply>)
    requires Inv(s) && Enabled(s, Cancel(j, why))
    ensures Inv(Next(s, Cancel(j, why)))
  {
    ResolveTopKeeps(LocalTo(s, j), why);
    PutKeeps(s, j, ResolveTop(LocalTo(s, j), why));
  }

  /** Every step keeps the invariant. */
  lemma NextKeeps(s: State, step: Step)
    requires Inv(s) && Enabled(s, step)
    ensures Inv(Next(s, step))
  {
    match step
    case Start(kind, count) => StartKeeps(s, kind, count);
    case Answer(r) =>
    case Lose(r) =>
    case Deliver(r, sends) => ReceiveKeeps(s.(flight := s.flight - multiset{r}), r, sends);
    case Sent(j, k, failed) => SentKeeps(s, j, k, failed);
    case Expire(j, code) => ExpireKeeps(s, j, code);
    case Cancel(j, why) => CancelKeeps(s, j, why);
    case RunNext =>
      match s.queue[0] {
        case TimerDone(_, _) => RunTimer(s);
        case SendDone(_, _, _) => RunSend(s);
        case Release(_) => RunRelease(s);
      }
  }
}
