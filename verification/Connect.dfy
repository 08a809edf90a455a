/**
 A connection attempt: resolving, connecting and a timeout race for the right to call the callback.  The handlers may
 run on different threads, so each access to the atomic flag `finished`, and each other action, is a step of its own.
 */
module Connect {
  import opened Common

  /** 0 is success; the codes are those of `std::error_code`. */
  type ErrorCode = nat

  datatype Outcome = Result(code: ErrorCode) | TimedOut

  /** How far `start` is: before `async_resolve`, before the timer, done. */
  datatype Start = Resolving | Arming | Started

  /** The resolve operation and its handler, by the next action. */
  datatype Resolve =
    | NotResolving | ResolvePending | Exchange(code: ErrorCode) | Call(code: ErrorCode) | Load | AsyncConnect
    | Resolved

  datatype Connection =
    | NotConnecting | ConnectPending | Exchange(code: ErrorCode) | Close | Store(code: ErrorCode)
    | CancelTimer(code: ErrorCode)
    | Call(code: ErrorCode) | Connected

  datatype Timer =
    | NotArmed | TimerPending | Exchange(code: ErrorCode) | CancelResolver(code: ErrorCode)
    | CancelSocket(code: ErrorCode)
    | Call(code: ErrorCode) | Expired

  datatype State = State(
    timeout: bool,
    start: Start,
    resolve: Resolve,
    connection: Connection,
    timer: Timer,
    finished: bool,
    open: bool,             // the socket is connected
    timerCancelled: bool,
    resolverCancelled: bool,
    socketCancelled: bool,
    calls: seq<Outcome>)    // the arguments of the callback so far

  /**
   Operations complete with any code at any time, cancelled or not; every other step is the next action of a
   thread.
   */
  datatype Step =
    | StartStep | ResolveCompletes(code: ErrorCode) | ResolveStep | ConnectCompletes(code: ErrorCode) | ConnectStep
    | TimerCompletes(code: ErrorCode) | TimerStep

  function Initial(timeout: bool): State {
    State(timeout, Resolving, NotResolving, NotConnecting, NotArmed, false, false, false, false, false, [])
  }

  predicate Enabled(s: State, step: Step) {
    match step
    case StartStep => s.start != Started
    case ResolveCompletes(_) => s.resolve == ResolvePending
    case ResolveStep => s.resolve != NotResolving && s.resolve != ResolvePending && s.resolve != Resolved
    case ConnectCompletes(_) => s.connection == ConnectPending
    case ConnectStep => s.connection != NotConnecting && s.connection != ConnectPending && s.connection != Connected
    case TimerCompletes(_) => s.timer == TimerPending
    case TimerStep => s.timer != NotArmed && s.timer != TimerPending && s.timer != Expired
  }

  function Next(s: State, step: Step): State
    requires Enabled(s, step)
  {
    match step
    case StartStep =>
      if s.start == Resolving then s.(start := Arming, resolve := ResolvePending)
      else s.(start := Started, timer := if s.timeout then TimerPending else NotArmed)
    case ResolveCompletes(code) => s.(resolve := if code != 0 then Resolve.Exchange(code) else Load)
    case ResolveStep => NextResolve(s)
    case ConnectCompletes(code) => s.(connection := Connection.Exchange(code), open := code == 0)
    case ConnectStep => NextConnect(s)
    case TimerCompletes(code) => s.(timer := Timer.Exchange(code))
    case TimerStep => NextTimer(s)
  }

  /** `onResolve`; after reporting an error it goes on to the load. */
  function NextResolve(s: State): State
    requires Enabled(s, ResolveStep)
  {
    match s.resolve
    case Exchange(code) =>
      if s.finished then s.(resolve := Resolved) else s.(finished := true, resolve := Resolve.Call(code))
    case Call(code) => s.(calls := s.calls + [Result(code)], resolve := Load)
    case Load => s.(resolve := if s.finished then Resolved else AsyncConnect)
    case AsyncConnect => s.(connection := ConnectPending, resolve := Resolved)
  }

  /** `onConnect` */
  function NextConnect(s: State): State
    requires Enabled(s, ConnectStep)
  {
    match s.connection
    case Exchange(code) =>
      if s.finished then s.(connection := Close) else s.(finished := true, connection := Store(code))
    case Close => s.(open := false, connection := Connected)
    case Store(code) => s.(finished := true, connection := CancelTimer(code))
    case CancelTimer(code) => s.(timerCancelled := true, connection := Connection.Call(code))
    case Call(code) => s.(calls := s.calls + [Result(code)], connection := Connected)
  }

  /** `onConnectTimeout` */
  function NextTimer(s: State): State
    requires Enabled(s, TimerStep)
  {
    match s.timer
    case Exchange(code) =>
      if s.finished then s.(timer := Expired) else s.(finished := true, timer := CancelResolver(code))
    case CancelResolver(code) => s.(resolverCancelled := true, timer := CancelSocket(code))
    case CancelSocket(code) => s.(socketCancelled := true, timer := Timer.Call(code))
    case Call(code) => s.(calls := s.calls + [if code != 0 then Result(code) else TimedOut], timer := Expired)
  }

  // ----- What every step keeps -----

  /** Handlers that have won the exchange and not called back yet. */
  function ResolveOwes(r: Resolve): nat { if r.Call? then 1 else 0 }
  function ConnectOwes(c: Connection): nat { if c.Store? || c.CancelTimer? || c.Call? then 1 else 0 }
  function TimerOwes(t: Timer): nat { if t.CancelResolver? || t.CancelSocket? || t.Call? then 1 else 0 }

  /** The flag is set exactly if somebody has called back or is about to, and that is never more than one. */
  predicate OneWinner(r: Resolve, c: Connection, t: Timer, finished: bool, calls: nat) {
    calls + ResolveOwes(r) + ConnectOwes(c) + TimerOwes(t) == if finished then 1 else 0
  }

  /** Operations are started in order, and whoever gives up has seen the flag set. */
  predicate Order(timeout: bool, start: Start, r: Resolve, c: Connection, t: Timer, finished: bool) {
    && (start == Resolving <==> r == NotResolving)
    && (t != NotArmed <==> start == Started && timeout)
    && (c != NotConnecting ==> r == Resolved)
    && (r == Resolved ==> finished || c != NotConnecting)
    && (c == Close || c == Connected || t == Expired ==> finished)
  }

  /** The callback has been called, first of all with `o`. */
  predicate Reported(calls: seq<Outcome>, o: Outcome) {
    calls != [] && calls[0] == o
  }

  /** The socket is connected from a successful connect on, unless the connect came too late. */
  predicate SocketInv(c: Connection, open: bool, success: bool) {
    match c
    case NotConnecting => !open && !success
    case ConnectPending => !open && !success
    case Exchange(code) => open == (code == 0) && !success
    case Close => !success
    case Store(code) => open == (code == 0)
    case CancelTimer(code) => open == (code == 0)
    case Call(code) => open == (code == 0)
    case Connected => open == success
  }

  /** An error code that a resolve handler is going to report is an error. */
  predicate Codes(r: Resolve) {
    (r.Exchange? ==> r.code != 0) && (r.Call? ==> r.code != 0)
  }

  /** A timeout is reported only after everything was cancelled, and success only after the timer was. */
  predicate Cancelled(s: State) {
    && (Reported(s.calls, TimedOut) || s.timer.Call? ==> s.resolverCancelled && s.socketCancelled)
    && (s.timer.CancelSocket? ==> s.resolverCancelled)
    && (Reported(s.calls, Result(0)) || s.connection.Call? ==> s.timerCancelled)
  }

  predicate Inv(s: State) {
    && OneWinner(s.resolve, s.connection, s.timer, s.finished, |s.calls|)
    && Order(s.timeout, s.start, s.resolve, s.connection, s.timer, s.finished)
    && SocketInv(s.connection, s.open, Reported(s.calls, Result(0)))
    && Codes(s.resolve) && Cancelled(s)
  }

  /** One step keeps the invariant, never takes back a call and leaves less to do. */
  ghost predicate Keeps(s: State, t: State) {
    Inv(t) && s.calls <= t.calls && t.timeout == s.timeout && Rank(t) < Rank(s)
  }

  lemma NextKeeps(s: State, step: Step)
    requires Inv(s) && Enabled(s, step)
    ensures Keeps(s, Next(s, step))
  {
    match step
    case ResolveStep => if s.resolve.Exchange? || s.resolve.Call? { ResolveFails(s); } else { ResolveGoesOn(s); }
    case ConnectStep => if s.connection.Call? || s.connection == Close { ConnectEnds(s); } else { ConnectGoesOn(s); }
    case TimerStep => if s.timer.Call? { TimerReports(s); } else { TimerGoesOn(s); }
    case StartStep => StartKeeps(s);
    case ResolveCompletes(code) => ResolveArrives(s, code);
    case ConnectCompletes(code) => ConnectArrives(s, code);
    case TimerCompletes(code) => TimerArrives(s, code);
  }

  lemma StartKeeps(s: State)
    requires Inv(s) && s.start != Started
    ensures Keeps(s, Next(s, StartStep))
  {}

  lemma ResolveArrives(s: State, code: ErrorCode)
    requires Inv(s) && s.resolve == ResolvePending
    ensures Keeps(s, Next(s, ResolveCompletes(code)))
  {
    var r := Next(s, ResolveCompletes(code)).resolve;
    assert r == if code != 0 then Resolve.Exchange(code) else Load;
  }

  lemma ConnectArrives(s: State, code: ErrorCode)
    requires Inv(s) && s.connection == ConnectPending
    ensures Keeps(s, Next(s, ConnectCompletes(code)))
  {}

  lemma TimerArrives(s: State, code: ErrorCode)
    requires Inv(s) && s.timer == TimerPending
    ensures Keeps(s, Next(s, TimerCompletes(code)))
  {}

  lemma ResolveFails(s: State)
    requires Inv(s) && (s.resolve.Exchange? || s.resolve.Call?)
    ensures Keeps(s, NextResolve(s))
  {}

  lemma ResolveGoesOn(s: State)
    requires Inv(s) && (s.resolve == Load || s.resolve == AsyncConnect)
    ensures Keeps(s, NextResolve(s))
  {}

  lemma ConnectGoesOn(s: State)
    requires Inv(s) && (s.connection.Exchange? || s.connection.Store? || s.connection.CancelTimer?)
    ensures Keeps(s, NextConnect(s))
  {}

  lemma ConnectEnds(s: State)
    requires Inv(s) && (s.connection.Call? || s.connection == Close)
    ensures Keeps(s, NextConnect(s))
  {}

  lemma TimerGoesOn(s: State)
    requires Inv(s) && (s.timer.Exchange? || s.timer.CancelResolver? || s.timer.CancelSocket?)
    ensures Keeps(s, NextTimer(s))
  {}

  lemma TimerReports(s: State)
    requires Inv(s) && s.timer.Call?
    ensures Keeps(s, NextTimer(s))
  {}

  /** How many steps are left at most. */
  function Rank(s: State): nat {
    StartRank(s.start) + ResolveRank(s.resolve) + ConnectRank(s.connection) + TimerRank(s.timer)
  }

  function StartRank(s: Start): nat {
    match s
    case Resolving => 20
    case Arming => 8
    case Started => 0
  }

  function ResolveRank(r: Resolve): nat {
    match r
    case NotResolving => 0
    case ResolvePending => 11
    case Exchange(_) => 10
    case Call(_) => 9
    case Load => 8
    case AsyncConnect => 7
    case Resolved => 0
  }

  function ConnectRank(c: Connection): nat {
    match c
    case NotConnecting => 0
    case ConnectPending => 6
    case Exchange(_) => 5
    case Store(_) => 4
    case CancelTimer(_) => 3
    case Call(_) => 2
    case Close => 1
    case Connected => 0
  }

  function TimerRank(t: Timer): nat {
    match t
    case NotArmed => 0
    case TimerPending => 6
    case Exchange(_) => 5
    case CancelResolver(_) => 3
    case CancelSocket(_) => 2
    case Call(_) => 1
    case Expired => 0
  }

  // ----- Runs -----

  predicate Legal(s: State, steps: seq<Step>)
    decreases |steps|
  {
    steps == [] || (Enabled(s, steps[0]) && Legal(Next(s, steps[0]), steps[1..]))
  }

  function Exec(s: State, steps: seq<Step>): State
    requires Legal(s, steps)
    decreases |steps|
  {
    if steps == [] then s else Exec(Next(s, steps[0]), steps[1..])
  }

  lemma {:induction false} RunKeeps(s: State, steps: seq<Step>)
    requires Inv(s) && Legal(s, steps)
    ensures Inv(Exec(s, steps)) && s.calls <= Exec(s, steps).calls && Exec(s, steps).timeout == s.timeout
    ensures |steps| + Rank(Exec(s, steps)) <= Rank(s)
    decreases |steps|
  {
    if steps != [] {
      NextKeeps(s, steps[0]);
      RunKeeps(Next(s, steps[0]), steps[1..]);
    }
  }

  /** Nothing is left to do. */
  ghost predicate Complete(s: State) {
    forall step :: !Enabled(s, step)
  }

  lemma CompleteMeans(s: State)
    requires Inv(s)
    ensures Complete(s) <==>
      && s.start == Started && s.resolve == Resolved && s.timer == (if s.timeout then Expired else NotArmed)
      && (s.connection == NotConnecting || s.connection == Connected)
  {
    if Complete(s) {
      assert !Enabled(s, StartStep) && !Enabled(s, ResolveCompletes(0)) && !Enabled(s, ResolveStep);
      assert !Enabled(s, ConnectCompletes(0)) && !Enabled(s, ConnectStep);
      assert !Enabled(s, TimerCompletes(0)) && !Enabled(s, TimerStep);
    }
  }

  /** In every interleaving the callback is called at most once, and no run has more than 20 steps. */
  lemma AtMostOnce(timeout: bool, steps: seq<Step>)
    requires Legal(Initial(timeout), steps)
    ensures |Exec(Initial(timeout), steps).calls| <= 1 && |steps| <= 20
  {
    RunKeeps(Initial(timeout), steps);
  }

  /**
   When a run is complete the callback has been called exactly once, and the socket is connected exactly if it was
   called with success; a timeout is reported only if there is one.
   */
  lemma ExactlyOnce(timeout: bool, steps: seq<Step>)
    requires Legal(Initial(timeout), steps) && Complete(Exec(Initial(timeout), steps))
    ensures var s := Exec(Initial(timeout), steps);
      && |s.calls| == 1 && (s.open <==> s.calls == [Result(0)])
      && (s.calls == [TimedOut] ==> timeout && s.resolverCancelled && s.socketCancelled)
      && (s.calls == [Result(0)] ==> s.timerCancelled)
  {
    RunKeeps(Initial(timeout), steps);
    var s := Exec(Initial(timeout), steps);
    CompleteMeans(s);
    TimeoutNeeded(Initial(timeout), steps);
  }

  /** Without a timeout the timer never runs. */
  lemma {:induction false} TimeoutNeeded(s: State, steps: seq<Step>)
    requires Inv(s) && Legal(s, steps) && (Reported(s.calls, TimedOut) ==> s.timeout)
    ensures Reported(Exec(s, steps).calls, TimedOut) ==> s.timeout
    decreases |steps|
  {
    if steps != [] {
      NextKeeps(s, steps[0]);
      TimeoutNeeded(Next(s, steps[0]), steps[1..]);
    }
  }

  /**
   The first to exchange the flag decides: after a timer that found it unset, every complete run ends with the
   timer's outcome and, however the connect ended, with a socket that is not connected.
   */
  lemma TimeoutWins(timeout: bool, before: seq<Step>, code: ErrorCode, after: seq<Step>)
    requires Legal(Initial(timeout), before)
    requires var s := Exec(Initial(timeout), before);
      && s.timer == Timer.Exchange(code) && !s.finished
      && Legal(Next(s, TimerStep), after) && Complete(Exec(Next(s, TimerStep), after))
    ensures var s := Exec(Next(Exec(Initial(timeout), before), TimerStep), after);
      s.calls == [if code != 0 then Result(code) else TimedOut] && !s.open
  {
    RunKeeps(Initial(timeout), before);
    var s := Exec(Initial(timeout), before);
    NextKeeps(s, TimerStep);
    TimerDecides(Next(s, TimerStep), code, after);
  }

  /** The timer has the flag and is about to report `code`, or has done so. */
  predicate TimerHas(s: State, code: ErrorCode) {
    || (s.calls == []
        && (s.timer == CancelResolver(code) || s.timer == CancelSocket(code) || s.timer == Timer.Call(code)))
    || (s.calls == [if code != 0 then Result(code) else TimedOut] && s.timer == Expired)
  }

  lemma {:induction false} TimerDecides(s: State, code: ErrorCode, steps: seq<Step>)
    requires Inv(s) && TimerHas(s, code) && Legal(s, steps) && Complete(Exec(s, steps))
    ensures Exec(s, steps).calls == [if code != 0 then Result(code) else TimedOut] && !Exec(s, steps).open
    decreases |steps|
  {
    if steps == [] {
      CompleteMeans(s);
    } else {
      NextKeeps(s, steps[0]);
      TimerHasStill(s, code, steps[0]);
      TimerDecides(Next(s, steps[0]), code, steps[1..]);
    }
  }

  lemma TimerHasStill(s: State, code: ErrorCode, step: Step)
    requires Inv(s) && TimerHas(s, code) && Enabled(s, step)
    ensures TimerHas(Next(s, step), code)
  {}

  /**
   The same for a connect: once its handler found the flag unset, every complete run ends with the code of the connect,
   and the socket is connected exactly if that is success.
   */
  lemma ConnectWins(timeout: bool, before: seq<Step>, code: ErrorCode, after: seq<Step>)
    requires Legal(Initial(timeout), before)
    requires var s := Exec(Initial(timeout), before);
      && s.connection == Connection.Exchange(code) && !s.finished
      && Legal(Next(s, ConnectStep), after) && Complete(Exec(Next(s, ConnectStep), after))
    ensures var s := Exec(Next(Exec(Initial(timeout), before), ConnectStep), after);
      s.calls == [Result(code)] && (s.open <==> code == 0)
  {
    RunKeeps(Initial(timeout), before);
    var s := Exec(Initial(timeout), before);
    NextKeeps(s, ConnectStep);
    ConnectTakes(s, code);
    ConnectDecides(Next(s, ConnectStep), code, after);
  }

  lemma ConnectTakes(s: State, code: ErrorCode)
    requires Inv(s) && s.connection == Connection.Exchange(code) && !s.finished
    ensures ConnectHas(Next(s, ConnectStep), code)
  {}

  /** The handler of the connect has the flag and is about to report `code`, or has done so. */
  predicate ConnectHas(s: State, code: ErrorCode) {
    || (s.calls == []
        && (s.connection == Store(code) || s.connection == CancelTimer(code) || s.connection == Connection.Call(code)))
    || (s.calls == [Result(code)] && s.connection == Connected)
  }

  lemma {:induction false} ConnectDecides(s: State, code: ErrorCode, steps: seq<Step>)
    requires Inv(s) && ConnectHas(s, code) && Legal(s, steps) && Complete(Exec(s, steps))
    ensures Exec(s, steps).calls == [Result(code)] && (Exec(s, steps).open <==> code == 0)
    decreases |steps|
  {
    if steps == [] {
      CompleteMeans(s);
    } else {
      NextKeeps(s, steps[0]);
      ConnectHasStill(s, code, steps[0]);
      ConnectDecides(Next(s, steps[0]), code, steps[1..]);
    }
  }

  lemma ConnectHasStill(s: State, code: ErrorCode, step: Step)
    requires Inv(s) && ConnectHas(s, code) && Enabled(s, step)
    ensures ConnectHas(Next(s, step), code)
  {}

  /** And for a resolve that failed before anything else: its error is reported, and no connect is ever begun. */
  lemma ResolveWins(timeout: bool, before: seq<Step>, code: ErrorCode, after: seq<Step>)
    requires Legal(Initial(timeout), before)
    requires var s := Exec(Initial(timeout), before);
      && s.resolve == Resolve.Exchange(code) && !s.finished
      && Legal(Next(s, ResolveStep), after) && Complete(Exec(Next(s, ResolveStep), after))
    ensures var s := Exec(Next(Exec(Initial(timeout), before), ResolveStep), after);
      s.calls == [Result(code)] && code != 0 && s.connection == NotConnecting && !s.open
  {
    RunKeeps(Initial(timeout), before);
    var s := Exec(Initial(timeout), before);
    NextKeeps(s, ResolveStep);
    ResolveDecides(Next(s, ResolveStep), code, after);
  }

  predicate ResolveHas(s: State, code: ErrorCode) {
    && code != 0 && s.finished && s.connection == NotConnecting
    && ((s.calls == [] && s.resolve == Resolve.Call(code))
        || (s.calls == [Result(code)] && (s.resolve == Load || s.resolve == Resolved)))
  }

  lemma {:induction false} ResolveDecides(s: State, code: ErrorCode, steps: seq<Step>)
    requires Inv(s) && ResolveHas(s, code) && Legal(s, steps) && Complete(Exec(s, steps))
    ensures var t := Exec(s, steps);
      t.calls == [Result(code)] && t.connection == NotConnecting && !t.open
    decreases |steps|
  {
    if steps == [] {
      CompleteMeans(s);
    } else {
      NextKeeps(s, steps[0]);
      ResolveHasStill(s, code, steps[0]);
      ResolveDecides(Next(s, steps[0]), code, steps[1..]);
    }
  }

  lemma ResolveHasStill(s: State, code: ErrorCode, step: Step)
    requires Inv(s) && ResolveHas(s, code) && Enabled(s, step)
    ensures ResolveHas(Next(s, step), code)
  {}

  // ----- Which codes are reported -----

  /** What must have happened before the callback gets `o`. */
  predicate Because(past: set<Step>, o: Outcome) {
    match o
    case TimedOut => TimerCompletes(0) in past
    case Result(code) =>
      || ConnectCompletes(code) in past
      || (code != 0 && (ResolveCompletes(code) in past || TimerCompletes(code) in past))
  }

  /** Every code that a handler carries is the one its operation completed with. */
  predicate Carried(past: set<Step>, s: State) {
    ByResolve(past, s.resolve) && ByConnection(past, s.connection) && ByTimer(past, s.timer)
  }

  predicate ByResolve(past: set<Step>, r: Resolve) { r.Exchange? || r.Call? ==> ResolveCompletes(r.code) in past }

  predicate ByConnection(past: set<Step>, c: Connection) {
    match ConnectionCode(c) case None => true case Some(code) => ConnectCompletes(code) in past
  }

  predicate ByTimer(past: set<Step>, t: Timer) {
    match TimerCode(t) case None => true case Some(code) => TimerCompletes(code) in past
  }

  function ConnectionCode(c: Connection): Option<ErrorCode> {
    match c
    case Exchange(code) => Some(code)
    case Store(code) => Some(code)
    case CancelTimer(code) => Some(code)
    case Call(code) => Some(code)
    case _ => None
  }

  function TimerCode(t: Timer): Option<ErrorCode> {
    match t
    case Exchange(code) => Some(code)
    case CancelResolver(code) => Some(code)
    case CancelSocket(code) => Some(code)
    case Call(code) => Some(code)
    case _ => None
  }

  predicate Explained(past: set<Step>, s: State) {
    && Carried(past, s)
    && forall k :: 0 <= k < |s.calls| ==> Because(past, s.calls[k])
  }

  lemma ResolveCarries(past: set<Step>, s: State, step: Step, now: set<Step>)
    requires ByResolve(past, s.resolve) && Enabled(s, step)
    requires step in now && past <= now
    ensures ByResolve(now, Next(s, step).resolve)
  {
    match step
    case ResolveCompletes(code) => assert Next(s, step).resolve == if code != 0 then Resolve.Exchange(code) else Load;
    case _ =>
  }

  lemma ConnectionGoesOn(s: State)
    requires Enabled(s, ConnectStep)
    ensures ConnectionCode(NextConnect(s).connection) in {None, ConnectionCode(s.connection)}
  {}

  lemma WaitGoesOn(s: State)
    requires Enabled(s, TimerStep)
    ensures TimerCode(NextTimer(s).timer) in {None, TimerCode(s.timer)}
  {}

  lemma ConnectionCarries(past: set<Step>, s: State, step: Step, now: set<Step>)
    requires ByConnection(past, s.connection) && Enabled(s, step)
    requires step in now && past <= now
    ensures ByConnection(now, Next(s, step).connection)
  {
    match step
    case ConnectCompletes(code) => assert Next(s, step).connection == Connection.Exchange(code);
    case ConnectStep => ConnectionGoesOn(s);
    case _ =>
  }

  lemma TimerCarries(past: set<Step>, s: State, step: Step, now: set<Step>)
    requires ByTimer(past, s.timer) && Enabled(s, step)
    requires step in now && past <= now
    ensures ByTimer(now, Next(s, step).timer)
  {
    match step
    case TimerCompletes(code) => assert Next(s, step).timer == Timer.Exchange(code);
    case TimerStep => WaitGoesOn(s);
    case _ =>
  }

  lemma StepCalls(past: set<Step>, s: State, step: Step)
    requires Codes(s.resolve) && Carried(past, s) && Enabled(s, step)
    ensures var t := Next(s, step);
      t.calls == s.calls || exists o :: t.calls == s.calls + [o] && Because(past, o)
  {
    if step == ResolveStep && s.resolve.Call? {
      assert Because(past, Result(s.resolve.code));
    } else if step == ConnectStep && s.connection.Call? {
      assert Because(past, Result(s.connection.code));
    } else if step == TimerStep && s.timer.Call? {
      assert Because(past, if s.timer.code != 0 then Result(s.timer.code) else TimedOut);
    }
  }

  lemma StepExplained(past: set<Step>, s: State, step: Step)
    requires Codes(s.resolve) && Explained(past, s) && Enabled(s, step)
    ensures Explained(past + {step}, Next(s, step))
  {
    var t, now := Next(s, step), past + {step};
    ResolveCarries(past, s, step, now);
    ConnectionCarries(past, s, step, now);
    TimerCarries(past, s, step, now);
    StepCalls(past, s, step);
    CallsExplained(past, now, s.calls, t.calls);
  }

  lemma CallsExplained(past: set<Step>, now: set<Step>, calls: seq<Outcome>, after: seq<Outcome>)
    requires past <= now
    requires forall k :: 0 <= k < |calls| ==> Because(past, calls[k])
    requires after == calls || exists o :: after == calls + [o] && Because(past, o)
    ensures forall k :: 0 <= k < |after| ==> Because(now, after[k])
  {
    forall k | 0 <= k < |after| ensures Because(now, after[k]) {
      assert Because(past, after[k]);
    }
  }

  function Happened(steps: seq<Step>): set<Step> {
    set step | step in steps
  }

  lemma HappenedFirst(steps: seq<Step>)
    requires steps != []
    ensures Happened(steps) == {steps[0]} + Happened(steps[1..])
  {
    assert steps == [steps[0]] + steps[1..];
  }

  lemma {:induction false} RunExplained(past: set<Step>, s: State, steps: seq<Step>)
    requires Inv(s) && Explained(past, s) && Legal(s, steps)
    ensures Explained(past + Happened(steps), Exec(s, steps))
    decreases |steps|
  {
    if steps == [] {
      assert past + Happened(steps) == past;
    } else {
      NextKeeps(s, steps[0]);
      StepExplained(past, s, steps[0]);
      RunExplained(past + {steps[0]}, Next(s, steps[0]), steps[1..]);
      HappenedFirst(steps);
      assert past + {steps[0]} + Happened(steps[1..]) == past + Happened(steps);
    }
  }

  /**
   The callback gets the code of an operation that completed: success only from a connect, an error only if the resolve,
   the connect or the wait ended with that error, and a timeout only if the wait ran out.
   */
  lemma CodesHaveCauses(timeout: bool, steps: seq<Step>)
    requires Legal(Initial(timeout), steps)
    ensures forall k :: 0 <= k < |Exec(Initial(timeout), steps).calls| ==>
      Because(Happened(steps), Exec(Initial(timeout), steps).calls[k])
  {
    RunExplained({}, Initial(timeout), steps);
    assert {} + Happened(steps) == Happened(steps);
  }
}
