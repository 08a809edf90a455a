/**
 The RPC server: it polls one byte register per service over a request channel and a reply channel, runs a
 service when its register says `requested`, and writes `idle` or `error` back when the service is done.

 `Server` is the state of the `RpcServer` object; the functions on it are its methods (module RpcObjects
 proves the methods against them).  `State` adds the robot, the two channels and the requests raised so far.
 Every command that the server ever sends stays in `sent`; the channels are first-in first-out, so two
 positions say everything about them: commands before `delivered` are over, commands before |snapshots| have
 been carried out by the robot, the others are still on their way to it.
 */
module Rpc {
  import opened Common

  const IDLE: Byte := 0
  const REQUESTED: Byte := 1
  const ERROR: Byte := 2

  datatype Command = Read(count: Byte) | Write(service: nat, status: Byte)

  /** `busy` is the flag of the source; the rest is history: executions that have begun and not resolved, the
      status write whose session is open, and the number of executions so far. */
  datatype Service = Service(busy: bool, active: nat, writing: Option<nat>, served: nat)

  /**
   `open` maps each read whose session is open to the number of services it was made for.  `armed` says that
   the wait of `read_commands_timer_` is pending, `expired` counts waits that completed whose handlers are
   queued.  `starts` counts the calls of `start` that returned true, `issued` the reads.
   */
  datatype Server = Server(
    base: Byte, zeroDelay: bool, services: seq<Service>, started: bool,
    sent: seq<Command>, open: map<nat, nat>, armed: bool, expired: nat, starts: nat, issued: nat)

  /** `std::uint8_t count = (size + 1) / 2 * 2` */
  function Count(size: nat): Byte { (size + 1) / 2 * 2 % 256 }

  /**
   The number of registers read is even, as the robot demands.  It covers all services exactly up to 254 of them, and
   then with at most one register too many.
   */
  lemma CountCovers(size: nat)
    ensures Count(size) % 2 == 0
    ensures size <= Count(size) <==> size <= 254
    ensures size <= 254 ==> Count(size) <= size + 1
  {
    EvenRemainder((size + 1) / 2);
  }

  lemma EvenRemainder(k: nat)
    ensures k * 2 % 256 == k % 128 * 2
  {
    var q, r := k / 128, k % 128;
    assert k * 2 == 256 * q + 2 * r;
  }

  function ReadCommands(v: Server): Server {
    v.(sent := v.sent + [Read(Count(|v.services|))], open := v.open[|v.sent| := |v.services|], issued := v.issued + 1)
  }

  /** Without a delay the registers are read at once; with one the wait is armed, replacing a pending one. */
  function StartTimer(v: Server): Server {
    if v.zeroDelay then ReadCommands(v) else v.(armed := true)
  }

  function Again(v: Server): Server { if v.started then StartTimer(v) else v }

  function StartServer(v: Server): Server {
    if v.started then v else ReadCommands(v.(started := true, starts := v.starts + 1))
  }

  function StopServer(v: Server): Server { v.(started := false) }

  function AddService(v: Server): Server { v.(services := v.services + [Service(false, 0, None, 0)]) }

  function Execute(s: Service): Service {
    if s.busy then s else s.(busy := true, active := s.active + 1, served := s.served + 1)
  }

  /** Services whose register was read as `requested` are executed, up to service `upTo`. */
  function ExecuteRequested(services: seq<Service>, values: seq<Byte>, upTo: nat): (r: seq<Service>)
    requires upTo <= |services| && upTo <= |values|
    ensures |r| == |services|
    ensures forall i :: 0 <= i < |services| ==>
      r[i] == if i < upTo && values[i] == REQUESTED then Execute(services[i]) else services[i]
  {
    seq(|services|, i requires 0 <= i < |services| =>
      if i < upTo && values[i] == REQUESTED then Execute(services[i]) else services[i])
  }

  /** The service calls `resolve`: the status is always written, also after an error. */
  function Resolved(v: Server, i: nat, failed: bool): Server
    requires i < |v.services| && v.services[i].active > 0
  {
    var s := v.services[i];
    v.(sent := v.sent + [Write(i, if failed then ERROR else IDLE)],
       services := v.services[i := s.(active := s.active - 1, writing := Some(|v.sent|))])
  }

  /** An execution that resolves. */
  datatype Resolution = Resolution(service: nat, failed: bool)

  /** Each of them is running when its turn comes. */
  predicate CanResolve(v: Server, now: seq<Resolution>)
    decreases |now|
  {
    now == [] ||
      (now[0].service < |v.services| && v.services[now[0].service].active > 0
       && CanResolve(Resolved(v, now[0].service, now[0].failed), now[1..]))
  }

  function ResolveAll(v: Server, now: seq<Resolution>): Server
    requires CanResolve(v, now)
    decreases |now|
  {
    if now == [] then v else ResolveAll(Resolved(v, now[0].service, now[0].failed), now[1..])
  }

  /** The callback of a read has executed what is requested. */
  function Seen(v: Server, read: nat, values: seq<Byte>): Server
    requires read in v.open && v.open[read] <= |v.services| && v.open[read] <= |values|
  {
    v.(services := ExecuteRequested(v.services, values, v.open[read]), open := v.open - {read})
  }

  /**
   The callback of a read that succeeded.  A service may call `resolve` before its `execute` returns, so some
   executions resolve before the next read is sent.
   */
  function Statuses(v: Server, read: nat, values: seq<Byte>, now: seq<Resolution>): Server
    requires read in v.open && v.open[read] <= |v.services| && v.open[read] <= |values|
    requires CanResolve(Seen(v, read, values), now)
  {
    Again(ResolveAll(Seen(v, read, values), now))
  }

  /** The callback of a read that failed or timed out; the user may resolve executions when told of the error. */
  function ReadFailed(v: Server, read: nat, now: seq<Resolution>): Server
    requires CanResolve(v.(open := v.open - {read}), now)
  {
    Again(ResolveAll(v.(open := v.open - {read}), now))
  }

  /** The callback of a status write, whatever its result. */
  function WriteDone(v: Server, i: nat): Server
    requires i < |v.services|
  {
    v.(services := v.services[i := v.services[i].(busy := false, writing := None)])
  }

  function WaitExpired(v: Server): Server { v.(armed := false, expired := v.expired + 1) }

  function TimerHandler(v: Server): Server
    requires v.expired > 0
  {
    ReadCommands(v.(expired := v.expired - 1))
  }

  /** The wait itself failed: the error is reported and the wait armed again. */
  function TimerError(v: Server): Server { StartTimer(v.(armed := false)) }

  // ----- Robot and channels -----

  datatype State = State(
    server: Server, regs: seq<Byte>, snapshots: seq<seq<Byte>>, delivered: nat, raised: seq<nat>)

  datatype Step =
    | Add
    | Start
    | Stop
    | Expire                                // the pending wait completes
    | RunTimer                              // the handler of a completed wait runs
    | FailTimer
    | Raise(register: Byte)                 // the robot requests the service of a register
    | Handle                                // the robot carries out the next command
    | Deliver(now: seq<Resolution>)         // the reply to the next command arrives
    | ReadFails(read: nat, now: seq<Resolution>)   // the session of a read times out or fails
    | WriteFails(service: nat)              // the session of a status write times out or fails
    | Resolve(service: nat, failed: bool)   // an execution calls `resolve`

  /** Register of service `i`; `status_var` is an 8-bit sum in the source. */
  function Register(base: Byte, i: nat): Byte { (base + i) % 256 }

  /** The state is such that the next reply can be handled: a read is as long as was asked for. */
  predicate Replies(s: State) {
    && s.delivered < |s.snapshots| && s.delivered < |s.server.sent|
    && (match s.server.sent[s.delivered]
        case Read(_) => s.delivered in s.server.open ==>
          s.server.open[s.delivered] <= |s.server.services| && s.server.open[s.delivered] <= |s.snapshots[s.delivered]|
        case Write(i, _) => i < |s.server.services|)
  }

  /** The server when it has the reply, before it asks for more.  A reply whose session is not open is dropped. */
  function Replied(s: State): Server
    requires Replies(s)
  {
    var v, k := s.server, s.delivered;
    match v.sent[k]
    case Read(_) => if k in v.open then Seen(v, k, s.snapshots[k]) else v
    case Write(i, _) => if v.services[i].writing == Some(k) then WriteDone(v, i) else v
  }

  predicate Enabled(s: State, step: Step) {
    var v := s.server;
    match step
    case Add => |v.services| < 254 && v.base + Count(|v.services| + 1) <= 256
    case Start => true
    case Stop => true
    case Expire => v.armed
    case RunTimer => v.expired > 0
    case FailTimer => v.armed
    case Raise(r) => r < |s.regs| && s.regs[r] != REQUESTED
    case Handle => |s.snapshots| < |v.sent|
    case Deliver(now) => s.delivered < |s.snapshots| && (Replies(s) ==> CanResolve(Replied(s), now))
    case ReadFails(k, now) => k in v.open && CanResolve(v.(open := v.open - {k}), now)
    case WriteFails(i) => i < |v.services| && v.services[i].writing.Some?
    case Resolve(i, _) => i < |v.services| && v.services[i].active > 0
  }

  /** Registers and channels fit together; nothing is said about busy flags or requests. */
  predicate WellFormed(s: State) {
    var v := s.server;
    && |s.regs| == 256 && |s.raised| == |v.services| <= 254 && v.base + Count(|v.services|) <= 256
    && s.delivered <= |s.snapshots| <= |v.sent|
    && (forall k :: 0 <= k < |v.sent| ==> CommandOk(v, v.sent[k]))
    && (forall k :: 0 <= k < |s.snapshots| ==> v.sent[k].Read? ==> |s.snapshots[k]| == v.sent[k].count)
    && (forall k :: k in v.open ==>
          s.delivered <= k < |v.sent| && v.sent[k].Read? && v.open[k] <= v.sent[k].count && v.open[k] <= |v.services|)
  }

  predicate CommandOk(v: Server, c: Command) {
    match c
    case Read(count) => v.base + count <= 256
    case Write(i, status) => i < |v.services| && status != REQUESTED
  }

  function RobotHandles(s: State): State
    requires WellFormed(s) && Enabled(s, Handle)
  {
    match s.server.sent[|s.snapshots|]
    case Read(count) => s.(snapshots := s.snapshots + [s.regs[s.server.base..s.server.base + count]])
    case Write(i, status) => s.(regs := s.regs[Register(s.server.base, i) := status], snapshots := s.snapshots + [[]])
  }

  /** The callback of a read asks for more; there is none for a reply that is dropped. */
  function DeliverReply(s: State, now: seq<Resolution>): State
    requires WellFormed(s) && Enabled(s, Deliver(now))
  {
    var v := ResolveAll(Replied(s), now);
    s.(server := if s.delivered in s.server.open then Again(v) else v, delivered := s.delivered + 1)
  }

  function Next(s: State, step: Step): State
    requires WellFormed(s) && Enabled(s, step)
  {
    var v := s.server;
    match step
    case Add =>
      var r := Register(v.base, |v.services|);
      s.(server := AddService(v), raised := s.raised + [if s.regs[r] == REQUESTED then 1 else 0])
    case Start => s.(server := StartServer(v))
    case Stop => s.(server := StopServer(v))
    case Expire => s.(server := WaitExpired(v))
    case RunTimer => s.(server := TimerHandler(v))
    case FailTimer => s.(server := TimerError(v))
    case Raise(r) =>
      s.(regs := s.regs[r := REQUESTED],
         raised := if v.base <= r < v.base + |s.raised|
           then s.raised[r - v.base := s.raised[r - v.base] + 1] else s.raised)
    case Handle => RobotHandles(s)
    case Deliver(now) => DeliverReply(s, now)
    case ReadFails(k, now) => s.(server := ReadFailed(v, k, now))
    case WriteFails(i) => s.(server := WriteDone(v, i))
    case Resolve(i, failed) => s.(server := Resolved(v, i, failed))
  }

  /** A new server; the registers may hold anything. */
  function Initial(base: Byte, zeroDelay: bool, regs: seq<Byte>): State {
    State(Server(base, zeroDelay, [], false, [], map[], false, 0, 0, 0), regs, [], 0, [])
  }

  // ----- Invariant -----

  predicate IsWrite(c: Command, i: nat) { c.Write? && c.service == i }

  /** What the invariant of service `i` is about. */
  datatype Facts = Facts(
    me: Service, held: bool, raised: nat,
    sent: seq<Command>, open: map<nat, nat>, snapshots: seq<seq<Byte>>, delivered: nat)
  {
    /** The register holds a request that no execution has been started for. */
    predicate Unserved() { raised == me.served + 1 }

    /** A status write for the service is on its way to the robot. */
    ghost predicate Due(i: nat) {
      exists k :: |snapshots| <= k < |sent| && IsWrite(sent[k], i)
    }

    /** Read `k` is open and will look at the register of the service. */
    predicate Watches(k: nat, i: nat) { k in open && i < open[k] }

    /** The reply to read `k` shows the register as requested. */
    predicate Shows(k: nat, i: nat) {
      k < |snapshots| && i < |snapshots[k]| && snapshots[k][i] == REQUESTED
    }
  }

  function FactsOf(s: State, i: nat): Facts
    requires WellFormed(s) && i < |s.server.services|
  {
    var v := s.server;
    Facts(v.services[i], s.regs[Register(v.base, i)] == REQUESTED, s.raised[i], v.sent, v.open, s.snapshots,
      s.delivered)
  }

  /** The busy flag spans the execution and the status write, and there is at most one of the two. */
  ghost predicate BusyInv(f: Facts, i: nat) {
    && f.me.active <= 1 && !(f.me.active == 1 && f.me.writing.Some?)
    && (f.me.busy <==> f.me.active == 1 || f.me.writing.Some?)
    && (f.me.writing.Some? ==>
          f.delivered <= f.me.writing.value < |f.sent| && IsWrite(f.sent[f.me.writing.value], i))
  }

  /** While a request is served its register keeps holding it; otherwise raised and served differ by it. */
  ghost predicate ServeInv(f: Facts, i: nat) {
    if f.me.active == 1 || f.Due(i) then f.held && f.raised == f.me.served
    else f.raised == f.me.served + if f.held then 1 else 0
  }

  /** At most one status write is on its way, and none while the service is executed. */
  ghost predicate WriteInv(f: Facts, i: nat) {
    && (forall k :: |f.snapshots| <= k < |f.sent| && IsWrite(f.sent[k], i) ==>
          f.me.active == 0 && (f.me.writing == None || f.me.writing == Some(k)))
    && (forall k, m :: |f.snapshots| <= k < m < |f.sent| && IsWrite(f.sent[k], i) ==> !IsWrite(f.sent[m], i))
  }

  /** Evidence of a request in a reply that a read will still look at is true, or the service stays busy until
      after that reply. */
  ghost predicate ReplyInv(f: Facts, i: nat) {
    && (forall k: nat :: f.Watches(k, i) && f.Shows(k, i) ==>
          f.Unserved() || f.me.active == 1 || (f.me.writing.Some? && k < f.me.writing.value))
    && (forall k: nat, m: nat :: f.Watches(k, i) && |f.snapshots| <= k < m < |f.sent| && IsWrite(f.sent[m], i) ==>
          f.me.writing == Some(m))
    && (forall k: nat :: f.Watches(k, i) ==> f.delivered <= k < |f.sent| && f.sent[k].Read?)
    && |f.snapshots| <= |f.sent| && f.delivered <= |f.snapshots|
  }

  ghost predicate ServiceInv(f: Facts, i: nat) {
    BusyInv(f, i) && ServeInv(f, i) && WriteInv(f, i) && ReplyInv(f, i)
  }

  ghost predicate Inv(s: State) {
    WellFormed(s) && forall i :: 0 <= i < |s.server.services| ==> ServiceInv(FactsOf(s, i), i)
  }

  /**
   The session of a status write may end before its acknowledgement arrives without harm: no open read that
   was sent before the write shows the request that has just been served, or will show it.
   */
  ghost predicate Harmless(f: Facts, i: nat) {
    f.me.writing.Some? ==>
      forall k: nat :: f.Watches(k, i) && k < f.me.writing.value ==>
        k < |f.snapshots| && (f.Shows(k, i) ==> f.Unserved())
  }

  /** Timeouts of status writes are harmless; everything else may happen at any time. */
  ghost predicate Timely(s: State, step: Step)
    requires WellFormed(s) && Enabled(s, step)
  {
    step.WriteFails? ==> Harmless(FactsOf(s, step.service), step.service)
  }

  // ----- What each event does to one service -----

  lemma DueAppend(f: Facts, c: Command, i: nat)
    requires |f.snapshots| <= |f.sent|
    ensures f.(sent := f.sent + [c]).Due(i) <==> f.Due(i) || IsWrite(c, i)
  {
    var sent1 := f.sent + [c];
    if f.Due(i) {
      var k :| |f.snapshots| <= k < |f.sent| && IsWrite(f.sent[k], i);
      assert IsWrite(sent1[k], i);
    }
    assert sent1[|f.sent|] == c;
  }

  lemma ReadSent(f: Facts, count: Byte, size: nat, i: nat)
    requires ServiceInv(f, i)
    ensures ServiceInv(f.(sent := f.sent + [Read(count)], open := f.open[|f.sent| := size]), i)
  {
    var f1 := f.(sent := f.sent + [Read(count)], open := f.open[|f.sent| := size]);
    DueAppend(f, Read(count), i);
    assert f1.Due(i) <==> f.(sent := f.sent + [Read(count)]).Due(i);
    assert forall k: nat :: f1.Watches(k, i) ==> k == |f.sent| || f.Watches(k, i);
  }

  lemma ReadClosed(f: Facts, k: nat, i: nat)
    requires ServiceInv(f, i)
    ensures ServiceInv(f.(open := f.open - {k}), i)
  {
    var f1 := f.(open := f.open - {k});
    assert f1.Due(i) <==> f.Due(i);
    assert forall m: nat :: f1.Watches(m, i) ==> f.Watches(m, i);
  }

  /** The status of the service was read: it is executed if it was requested. */
  lemma StatusRead(f: Facts, k: nat, i: nat)
    requires ServiceInv(f, i) && f.Watches(k, i) && f.Shows(k, i)
    ensures ServiceInv(f.(me := Execute(f.me), open := f.open - {k}), i)
  {
    var f1 := f.(me := Execute(f.me), open := f.open - {k});
    assert f1.Due(i) <==> f.Due(i);
    assert forall m: nat :: f1.Watches(m, i) ==> f.Watches(m, i);
    assert forall m: nat :: f1.Shows(m, i) <==> f.Shows(m, i);
  }

  lemma Passed(f: Facts, i: nat)
    requires ServiceInv(f, i) && f.delivered < |f.snapshots| && !f.Watches(f.delivered, i)
    requires f.me.writing != Some(f.delivered)
    ensures ServiceInv(f.(delivered := f.delivered + 1), i)
  {
    var f1 := f.(delivered := f.delivered + 1);
    assert f1.Due(i) <==> f.Due(i);
    assert forall m: nat :: f1.Watches(m, i) <==> f.Watches(m, i);
    assert forall m: nat :: f1.Shows(m, i) <==> f.Shows(m, i);
  }

  lemma WriteEnded(f: Facts, i: nat)
    requires ServiceInv(f, i) && f.me.writing.Some? && Harmless(f, i)
    ensures ServiceInv(f.(me := f.me.(busy := false, writing := None)), i)
  {
    var f1 := f.(me := f.me.(busy := false, writing := None));
    assert f1.Due(i) <==> f.Due(i);
    assert forall m: nat :: f1.Watches(m, i) <==> f.Watches(m, i);
    assert forall m: nat :: f1.Shows(m, i) <==> f.Shows(m, i);
  }

  lemma ReadHandled(f: Facts, values: seq<Byte>, i: nat)
    requires ServiceInv(f, i) && |f.snapshots| < |f.sent| && f.sent[|f.snapshots|].Read?
    requires i < |values| ==> (values[i] == REQUESTED <==> f.held)
    ensures ServiceInv(f.(snapshots := f.snapshots + [values]), i)
  {
    var f1 := f.(snapshots := f.snapshots + [values]);
    assert f1.Due(i) <==> f.Due(i);
    assert forall m: nat :: f1.Watches(m, i) <==> f.Watches(m, i);
    assert forall m: nat :: f1.Shows(m, i) ==> f.Shows(m, i) || (m == |f.snapshots| && f.held);
  }

  lemma WriteHandled(f: Facts, i: nat)
    requires ServiceInv(f, i) && |f.snapshots| < |f.sent| && IsWrite(f.sent[|f.snapshots|], i)
    ensures f.held && f.raised == f.me.served
    ensures ServiceInv(f.(snapshots := f.snapshots + [[]], held := false), i)
  {
    var f1 := f.(snapshots := f.snapshots + [[]], held := false);
    assert f.Due(i) && !f1.Due(i);
    assert forall m: nat :: f1.Watches(m, i) <==> f.Watches(m, i);
    assert forall m: nat :: f1.Shows(m, i) <==> f.Shows(m, i);
  }

  lemma OtherWriteHandled(f: Facts, i: nat)
    requires ServiceInv(f, i) && |f.snapshots| < |f.sent|
    requires f.sent[|f.snapshots|].Write? && !IsWrite(f.sent[|f.snapshots|], i)
    ensures ServiceInv(f.(snapshots := f.snapshots + [[]]), i)
  {
    var f1 := f.(snapshots := f.snapshots + [[]]);
    assert f1.Due(i) <==> f.Due(i);
    assert forall m: nat :: f1.Watches(m, i) <==> f.Watches(m, i);
    assert forall m: nat :: f1.Shows(m, i) <==> f.Shows(m, i);
  }

  lemma StatusWritten(f: Facts, status: Byte, i: nat)
    requires ServiceInv(f, i) && f.me.active > 0
    ensures ServiceInv(f.(sent := f.sent + [Write(i, status)],
                          me := f.me.(active := f.me.active - 1, writing := Some(|f.sent|))), i)
  {
    var me1 := f.me.(active := f.me.active - 1, writing := Some(|f.sent|));
    var f1 := f.(sent := f.sent + [Write(i, status)], me := me1);
    assert f1.sent[|f.sent|] == Write(i, status);
    assert f1.Due(i);
    assert forall m: nat :: f1.Watches(m, i) <==> f.Watches(m, i);
    assert forall m: nat :: f1.Shows(m, i) <==> f.Shows(m, i);
  }

  lemma OtherStatusWritten(f: Facts, j: nat, status: Byte, i: nat)
    requires ServiceInv(f, i) && i != j
    ensures ServiceInv(f.(sent := f.sent + [Write(j, status)]), i)
  {
    var f1 := f.(sent := f.sent + [Write(j, status)]);
    DueAppend(f, Write(j, status), i);
    assert forall m: nat :: f1.Watches(m, i) <==> f.Watches(m, i);
    assert forall m: nat :: f1.Shows(m, i) <==> f.Shows(m, i);
  }

  lemma RequestRaised(f: Facts, i: nat)
    requires ServiceInv(f, i) && !f.held
    ensures ServiceInv(f.(held := true, raised := f.raised + 1), i)
  {
    var f1 := f.(held := true, raised := f.raised + 1);
    assert f1.Due(i) <==> f.Due(i);
    assert forall m: nat :: f1.Watches(m, i) <==> f.Watches(m, i);
    assert forall m: nat :: f1.Shows(m, i) <==> f.Shows(m, i);
  }

  // ----- Every step keeps the invariant -----

  lemma CountStep(n: nat)
    requires n <= 254
    ensures n <= Count(n) <= n + 1
  {
    CountCovers(n);
  }

  lemma RegisterIndex(s: State, i: nat)
    requires WellFormed(s) && i < |s.server.services|
    ensures Register(s.server.base, i) == s.server.base + i
  {
    CountStep(|s.server.services|);
  }

  predicate SameCore(v: Server, v1: Server) {
    v1.base == v.base && v1.services == v.services && v1.sent == v.sent && v1.open == v.open
  }

  /** A read may have been sent, or not; the rest concerns the polling only. */
  predicate Polled(v: Server, v1: Server) {
    SameCore(v, v1) || SameCore(ReadCommands(v), v1)
  }

  lemma PolledWellFormed(s: State, v1: Server)
    requires WellFormed(s) && Polled(s.server, v1)
    ensures WellFormed(s.(server := v1))
  {
    CountStep(|s.server.services|);
  }

  lemma PolledKeeps(s: State, v1: Server, i: nat)
    requires WellFormed(s) && Polled(s.server, v1) && i < |s.server.services| && ServiceInv(FactsOf(s, i), i)
    ensures WellFormed(s.(server := v1)) && ServiceInv(FactsOf(s.(server := v1), i), i)
  {
    PolledWellFormed(s, v1);
    ReadSent(FactsOf(s, i), Count(|s.server.services|), |s.server.services|, i);
  }

  lemma SeenWellFormed(s: State, k: nat)
    requires WellFormed(s) && k in s.server.open && k < |s.snapshots|
    ensures WellFormed(s.(server := Seen(s.server, k, s.snapshots[k])))
  {}

  lemma SeenKeeps(s: State, k: nat, i: nat)
    requires WellFormed(s) && k in s.server.open && k < |s.snapshots|
    requires i < |s.server.services| && ServiceInv(FactsOf(s, i), i)
    ensures var s1 := s.(server := Seen(s.server, k, s.snapshots[k])); WellFormed(s1) && ServiceInv(FactsOf(s1, i), i)
  {
    SeenWellFormed(s, k);
    var f := FactsOf(s, i);
    if f.Watches(k, i) && f.Shows(k, i) {
      StatusRead(f, k, i);
    } else {
      ReadClosed(f, k, i);
    }
  }

  /** Every state in which there is a reply can handle it. */
  lemma WellFormedReplies(s: State)
    requires WellFormed(s) && s.delivered < |s.snapshots|
    ensures Replies(s)
  {
    assert CommandOk(s.server, s.server.sent[s.delivered]);
  }

  /** The state with the reply to command `s.delivered`, before that command is counted as delivered. */
  function AfterReply(s: State): State
    requires Replies(s)
  {
    s.(server := Replied(s))
  }

  lemma AfterReplyWellFormed(s: State)
    requires WellFormed(s) && Replies(s)
    ensures WellFormed(AfterReply(s)) && s.delivered !in AfterReply(s).server.open
  {
    var v, k := s.server, s.delivered;
    if v.sent[k].Read? && k in v.open {
      SeenWellFormed(s, k);
    }
  }

  lemma AfterReadKeeps(s: State, i: nat)
    requires WellFormed(s) && Replies(s) && i < |s.server.services| && ServiceInv(FactsOf(s, i), i)
    requires s.delivered in s.server.open && WellFormed(AfterReply(s))
    ensures ServiceInv(FactsOf(AfterReply(s), i), i)
    ensures FactsOf(AfterReply(s), i).me.writing != Some(s.delivered)
  {
    SeenKeeps(s, s.delivered, i);
  }

  lemma AfterAckKeeps(s: State, i: nat)
    requires WellFormed(s) && Replies(s) && i < |s.server.services| && ServiceInv(FactsOf(s, i), i)
    requires s.delivered !in s.server.open && WellFormed(AfterReply(s))
    ensures ServiceInv(FactsOf(AfterReply(s), i), i)
    ensures FactsOf(AfterReply(s), i).me.writing != Some(s.delivered)
  {
    var f, f1 := FactsOf(s, i), FactsOf(AfterReply(s), i);
    if f.me.writing == Some(s.delivered) {
      WriteEnded(f, i);
      assert f1 == f.(me := f.me.(busy := false, writing := None));
    } else {
      assert f1 == f;
    }
  }

  /** The reply counts as delivered, and nothing has been resolved or asked for yet. */
  function Noted(s: State): State
    requires Replies(s)
  {
    AfterReply(s).(delivered := s.delivered + 1)
  }

  lemma NotedWellFormed(s: State)
    requires WellFormed(s) && Replies(s)
    ensures WellFormed(Noted(s)) && |Noted(s).server.services| == |s.server.services|
  {
    AfterReplyWellFormed(s);
  }

  lemma NotedKeeps(s: State, i: nat)
    requires WellFormed(s) && Replies(s) && i < |s.server.services| && ServiceInv(FactsOf(s, i), i)
    ensures WellFormed(Noted(s)) && i < |Noted(s).server.services| && ServiceInv(FactsOf(Noted(s), i), i)
  {
    NotedWellFormed(s);
    var f := AfterReplyFacts(s, i);
    Passed(f, i);
  }

  /** The facts about a service after the reply, before it is counted as delivered. */
  lemma AfterReplyFacts(s: State, i: nat) returns (f: Facts)
    requires WellFormed(s) && Replies(s) && i < |s.server.services| && ServiceInv(FactsOf(s, i), i)
    requires WellFormed(Noted(s))
    ensures i < |Noted(s).server.services| && FactsOf(Noted(s), i) == f.(delivered := f.delivered + 1)
    ensures ServiceInv(f, i) && f.me.writing != Some(f.delivered)
    ensures f.delivered < |f.snapshots| && f.delivered !in f.open
  {
    AfterReplyWellFormed(s);
    f := FactsOf(AfterReply(s), i);
    if s.delivered in s.server.open { AfterReadKeeps(s, i); } else { AfterAckKeeps(s, i); }
  }

  /** Resolving changes neither the reads nor the polling. */
  lemma {:induction false} ResolveAllSame(v: Server, now: seq<Resolution>)
    requires CanResolve(v, now)
    ensures var v1 := ResolveAll(v, now);
      && v1 == v.(services := v1.services, sent := v1.sent)
      && |v1.services| == |v.services| && v.sent <= v1.sent
    decreases |now|
  {
    if now != [] { ResolveAllSame(Resolved(v, now[0].service, now[0].failed), now[1..]); }
  }

  lemma {:induction false} ResolveAllWellFormed(s: State, now: seq<Resolution>)
    requires WellFormed(s) && CanResolve(s.server, now)
    ensures WellFormed(s.(server := ResolveAll(s.server, now)))
    decreases |now|
  {
    if now != [] {
      ResolvedWellFormed(s, now[0].service, now[0].failed);
      ResolveAllWellFormed(s.(server := Resolved(s.server, now[0].service, now[0].failed)), now[1..]);
    }
  }

  lemma ResolvedWellFormed(s: State, j: nat, failed: bool)
    requires WellFormed(s) && j < |s.server.services| && s.server.services[j].active > 0
    ensures WellFormed(s.(server := Resolved(s.server, j, failed)))
  {}

  lemma {:induction false} ResolveAllKeeps(s: State, now: seq<Resolution>, i: nat)
    requires WellFormed(s) && CanResolve(s.server, now) && i < |s.server.services| && ServiceInv(FactsOf(s, i), i)
    ensures var s1 := s.(server := ResolveAll(s.server, now));
      WellFormed(s1) && i < |s1.server.services| && ServiceInv(FactsOf(s1, i), i)
    decreases |now|
  {
    if now != [] {
      ResolvedWellFormed(s, now[0].service, now[0].failed);
      ResolveKeeps(s, now[0].service, now[0].failed, i);
      ResolveAllKeeps(s.(server := Resolved(s.server, now[0].service, now[0].failed)), now[1..], i);
    }
  }

  lemma DeliverKeeps(s: State, now: seq<Resolution>, i: nat)
    requires WellFormed(s) && Enabled(s, Deliver(now)) && i < |s.server.services| && ServiceInv(FactsOf(s, i), i)
    ensures WellFormed(Next(s, Deliver(now))) && i < |Next(s, Deliver(now)).server.services|
    ensures ServiceInv(FactsOf(Next(s, Deliver(now)), i), i)
  {
    WellFormedReplies(s);
    var s1 := NotedResolved(s, now, i);
    OnlyPolled(s, now, s1);
    PolledKeeps(s1, Next(s, Deliver(now)).server, i);
  }

  lemma NotedResolved(s: State, now: seq<Resolution>, i: nat) returns (s1: State)
    requires WellFormed(s) && Replies(s) && CanResolve(Replied(s), now)
    requires i < |s.server.services| && ServiceInv(FactsOf(s, i), i)
    ensures s1 == Noted(s).(server := ResolveAll(Replied(s), now))
    ensures WellFormed(s1) && i < |s1.server.services| && ServiceInv(FactsOf(s1, i), i)
  {
    NotedKeeps(s, i);
    ResolveAllKeeps(Noted(s), now, i);
    s1 := Noted(s).(server := ResolveAll(Replied(s), now));
  }

  lemma OnlyPolled(s: State, now: seq<Resolution>, s1: State)
    requires WellFormed(s) && Replies(s) && Enabled(s, Deliver(now))
    requires s1 == Noted(s).(server := ResolveAll(Replied(s), now))
    ensures Polled(s1.server, Next(s, Deliver(now)).server)
    ensures Next(s, Deliver(now)) == s1.(server := Next(s, Deliver(now)).server)
  {}

  lemma DeliverWellFormed(s: State, now: seq<Resolution>)
    requires WellFormed(s) && Enabled(s, Deliver(now))
    ensures WellFormed(Next(s, Deliver(now))) && |Next(s, Deliver(now)).server.services| == |s.server.services|
  {
    WellFormedReplies(s);
    NotedWellFormed(s);
    ResolveAllWellFormed(Noted(s), now);
    ResolveAllSame(Replied(s), now);
    PolledWellFormed(Noted(s).(server := ResolveAll(Replied(s), now)), Next(s, Deliver(now)).server);
  }

  lemma HandleKeeps(s: State, i: nat)
    requires WellFormed(s) && Enabled(s, Handle) && i < |s.server.services| && ServiceInv(FactsOf(s, i), i)
    ensures WellFormed(RobotHandles(s)) && ServiceInv(FactsOf(RobotHandles(s), i), i)
  {
    var f := FactsOf(s, i);
    RegisterIndex(s, i);
    match s.server.sent[|s.snapshots|]
    case Read(count) => ReadHandled(f, RobotHandles(s).snapshots[|s.snapshots|], i);
    case Write(j, status) =>
      RegisterIndex(s, j);
      if i == j { WriteHandled(f, i); } else { OtherWriteHandled(f, i); }
  }

  lemma ResolveKeeps(s: State, j: nat, failed: bool, i: nat)
    requires WellFormed(s) && Enabled(s, Resolve(j, failed)) && i < |s.server.services| && ServiceInv(FactsOf(s, i), i)
    ensures WellFormed(Next(s, Resolve(j, failed))) && ServiceInv(FactsOf(Next(s, Resolve(j, failed)), i), i)
  {
    var status := if failed then ERROR else IDLE;
    if i == j {
      StatusWritten(FactsOf(s, i), status, i);
    } else {
      OtherStatusWritten(FactsOf(s, i), j, status, i);
    }
  }

  lemma RaiseKeeps(s: State, r: Byte, i: nat)
    requires WellFormed(s) && Enabled(s, Raise(r)) && i < |s.server.services| && ServiceInv(FactsOf(s, i), i)
    ensures WellFormed(Next(s, Raise(r))) && ServiceInv(FactsOf(Next(s, Raise(r)), i), i)
  {
    RegisterIndex(s, i);
    if r == s.server.base + i {
      RequestRaised(FactsOf(s, i), i);
    }
  }

  lemma AddKeeps(s: State)
    requires Inv(s) && Enabled(s, Add)
    ensures Inv(Next(s, Add))
  {
    var s1, n := Next(s, Add), |s.server.services|;
    CountStep(n);
    CountStep(n + 1);
    forall i | 0 <= i < n + 1 ensures ServiceInv(FactsOf(s1, i), i) {
      if i < n {
        assert FactsOf(s1, i) == FactsOf(s, i);
      } else {
        assert !FactsOf(s1, n).Due(n);
      }
    }
  }

  lemma ReadFailsKeeps(s: State, k: nat, now: seq<Resolution>, i: nat)
    requires WellFormed(s) && Enabled(s, ReadFails(k, now)) && i < |s.server.services| && ServiceInv(FactsOf(s, i), i)
    ensures WellFormed(Next(s, ReadFails(k, now))) && i < |Next(s, ReadFails(k, now)).server.services|
    ensures ServiceInv(FactsOf(Next(s, ReadFails(k, now)), i), i)
  {
    var s1 := s.(server := s.server.(open := s.server.open - {k}));
    assert WellFormed(s1);
    ReadClosed(FactsOf(s, i), k, i);
    ResolveAllKeeps(s1, now, i);
    PolledKeeps(s1.(server := ResolveAll(s1.server, now)), ReadFailed(s.server, k, now), i);
  }

  lemma WriteFailsKeeps(s: State, j: nat, i: nat)
    requires WellFormed(s) && Enabled(s, WriteFails(j)) && i < |s.server.services| && ServiceInv(FactsOf(s, i), i)
    requires Harmless(FactsOf(s, j), j)
    ensures WellFormed(Next(s, WriteFails(j))) && ServiceInv(FactsOf(Next(s, WriteFails(j)), i), i)
  {
    var s1 := Next(s, WriteFails(j));
    assert WellFormed(s1);
    if i == j {
      WriteEnded(FactsOf(s, i), i);
    } else {
      assert FactsOf(s1, i) == FactsOf(s, i);
    }
  }

  predicate PollStep(step: Step) {
    step.Start? || step.Stop? || step.Expire? || step.RunTimer? || step.FailTimer?
  }

  lemma PollKeeps(s: State, step: Step, i: nat)
    requires WellFormed(s) && i < |s.server.services| && ServiceInv(FactsOf(s, i), i)
    requires Enabled(s, step) && PollStep(step)
    ensures WellFormed(Next(s, step)) && ServiceInv(FactsOf(Next(s, step), i), i)
  {
    PolledKeeps(s, Next(s, step).server, i);
  }

  lemma ServiceKeeps(s: State, step: Step, i: nat)
    requires WellFormed(s) && i < |s.server.services| && ServiceInv(FactsOf(s, i), i)
    requires Enabled(s, step) && Timely(s, step) && !step.Add?
    requires WellFormed(Next(s, step)) && |Next(s, step).server.services| == |s.server.services|
    ensures ServiceInv(FactsOf(Next(s, step), i), i)
  {
    if PollStep(step) {
      PollKeeps(s, step, i);
    } else {
      match step
      case Raise(r) => RaiseKeeps(s, r, i);
      case Handle => HandleKeeps(s, i);
      case Deliver(now) => DeliverKeeps(s, now, i);
      case ReadFails(k, now) => ReadFailsKeeps(s, k, now, i);
      case WriteFails(j) => WriteFailsKeeps(s, j, i);
      case Resolve(j, failed) => ResolveKeeps(s, j, failed, i);
    }
  }

  lemma ReadFailsWellFormed(s: State, k: nat, now: seq<Resolution>)
    requires WellFormed(s) && Enabled(s, ReadFails(k, now))
    ensures WellFormed(Next(s, ReadFails(k, now)))
    ensures |Next(s, ReadFails(k, now)).server.services| == |s.server.services|
  {
    var s1 := s.(server := s.server.(open := s.server.open - {k}));
    ResolveAllWellFormed(s1, now);
    ResolveAllSame(s1.server, now);
    PolledWellFormed(s1.(server := ResolveAll(s1.server, now)), ReadFailed(s.server, k, now));
  }

  /** Without any assumption the state stays well-formed. */
  lemma NextWellFormed(s: State, step: Step)
    requires WellFormed(s) && Enabled(s, step)
    ensures WellFormed(Next(s, step))
    ensures |Next(s, step).server.services| == |s.server.services| + if step.Add? then 1 else 0
  {
    if PollStep(step) {
      PolledWellFormed(s, Next(s, step).server);
    } else {
      match step
      case Add => CountStep(|s.server.services| + 1);
      case Raise(r) =>
      case Handle =>
      case Deliver(now) => DeliverWellFormed(s, now);
      case ReadFails(k, now) => ReadFailsWellFormed(s, k, now);
      case WriteFails(j) =>
      case Resolve(j, failed) =>
    }
  }

  /** Every step keeps the invariant, if the sessions of status writes only time out harmlessly. */
  lemma NextKeeps(s: State, step: Step)
    requires Inv(s) && Enabled(s, step) && Timely(s, step)
    ensures Inv(Next(s, step))
  {
    if step.Add? {
      AddKeeps(s);
    } else {
      NextWellFormed(s, step);
      forall i | 0 <= i < |s.server.services| ensures ServiceInv(FactsOf(Next(s, step), i), i) {
        ServiceKeeps(s, step, i);
      }
    }
  }
}
