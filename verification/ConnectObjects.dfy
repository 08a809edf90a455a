/**
 The class `ConnectionAttempt`.  Each handler is run here as a whole; its effect is that of its steps in
 `Connect`.
 */
module ConnectObjects {
  import opened Connect

  /** At most `n` steps of one handler without any other step in between. */
  function Handler(s: State, step: Step, n: nat): State
    decreases n
  {
    if n == 0 || !Enabled(s, step) then s else Handler(Next(s, step), step, n - 1)
  }

  lemma {:induction false} HandlerKeeps(s: State, step: Step, n: nat)
    requires Inv(s)
    ensures Inv(Handler(s, step, n))
    decreases n
  {
    if n > 0 && Enabled(s, step) {
      NextKeeps(s, step);
      HandlerKeeps(Next(s, step), step, n - 1);
    }
  }

  class ConnectionAttempt {
    const timeout: bool
    var start: Start
    var resolve: Resolve
    var connection: Connection
    var timer: Timer
    var finished: bool
    var open: bool
    var timerCancelled: bool
    var resolverCancelled: bool
    var socketCancelled: bool
    var calls: seq<Outcome>

    ghost function View(): State
      reads this
    {
      State(timeout, start, resolve, connection, timer, finished, open, timerCancelled, resolverCancelled,
        socketCancelled, calls)
    }

    constructor (timeout: bool)
      ensures View() == Initial(timeout) && Inv(View())
    {
      this.timeout := timeout;
      start, resolve, connection, timer := Resolving, NotResolving, NotConnecting, NotArmed;
      finished, open, calls := false, false, [];
      timerCancelled, resolverCancelled, socketCancelled := false, false, false;
    }

    /** `finished.exchange(true)` */
    method Exchange() returns (before: bool)
      modifies this`finished
      ensures before == old(finished) && finished
    {
      before := finished;
      finished := true;
    }

    method Begin()
      requires start == Resolving && Inv(View())
      modifies this
      ensures Inv(View()) && View() == Next(Next(old(View()), StartStep), StartStep)
    {
      StartKeeps(View());
      StartKeeps(Next(View(), StartStep));
      resolve := ResolvePending;
      if timeout { timer := TimerPending; }
      start := Started;
    }

    method OnResolve(error: ErrorCode)
      requires resolve == ResolvePending && Inv(View())
      modifies this
      ensures resolve == Resolved && Inv(View())
        && View() == Handler(Next(old(View()), ResolveCompletes(error)), ResolveStep, 4)
    {
      ghost var s := Next(View(), ResolveCompletes(error));
      ResolveArrives(View(), error);
      HandlerKeeps(s, ResolveStep, 4);
      ResolveSteps(s);
      resolve := Resolved;
      if error != 0 {
        var before := Exchange();
        if before { return; }
        calls := calls + [Result(error)];
      }
      if finished { return; }
      connection := ConnectPending;
    }

    method OnConnect(error: ErrorCode)
      requires connection == ConnectPending && Inv(View())
      modifies this
      ensures connection == Connected && Inv(View())
        && View() == Handler(Next(old(View()), ConnectCompletes(error)), ConnectStep, 4)
      ensures old(finished) ==> !open && calls == old(calls)
    {
      ghost var s := Next(View(), ConnectCompletes(error));
      ConnectArrives(View(), error);
      HandlerKeeps(s, ConnectStep, 4);
      ConnectSteps(s);
      open, connection := error == 0, Connected;
      var before := Exchange();
      if before {
        open := false;
        return;
      }
      finished := true;
      timerCancelled := true;
      calls := calls + [Result(error)];
    }

    method OnConnectTimeout(error: ErrorCode)
      requires timer == TimerPending && Inv(View())
      modifies this
      ensures timer == Expired && Inv(View())
        && View() == Handler(Next(old(View()), TimerCompletes(error)), TimerStep, 4)
    {
      ghost var s := Next(View(), TimerCompletes(error));
      TimerArrives(View(), error);
      HandlerKeeps(s, TimerStep, 4);
      TimerSteps(s);
      timer := Expired;
      var before := Exchange();
      if before { return; }
      resolverCancelled := true;
      socketCancelled := true;
      if error != 0 {
        calls := calls + [Result(error)];
      } else {
        calls := calls + [TimedOut];
      }
    }
  }

  // ----- What the steps of a handler come to -----

  lemma ResolveSteps(s: State)
    requires s.resolve.Exchange? || s.resolve == Load
    ensures Handler(s, ResolveStep, 4) ==
      if s.finished then s.(resolve := Resolved)
      else if s.resolve == Load then s.(connection := ConnectPending, resolve := Resolved)
      else s.(finished := true, calls := s.calls + [Result(s.resolve.code)], resolve := Resolved)
  {
    if s.finished {
      Last(s, s.(resolve := Resolved), ResolveStep, 4);
    } else if s.resolve == Load {
      var t := s.(resolve := AsyncConnect);
      Unfold(s, t, ResolveStep, 4);
      Last(t, t.(connection := ConnectPending, resolve := Resolved), ResolveStep, 3);
    } else {
      var t := s.(finished := true, resolve := Resolve.Call(s.resolve.code));
      var u := t.(calls := t.calls + [Result(s.resolve.code)], resolve := Load);
      Unfold(s, t, ResolveStep, 4);
      Unfold(t, u, ResolveStep, 3);
      Last(u, u.(resolve := Resolved), ResolveStep, 2);
    }
  }

  lemma ConnectSteps(s: State)
    requires s.connection.Exchange?
    ensures Handler(s, ConnectStep, 4) ==
      if s.finished then s.(open := false, connection := Connected)
      else s.(finished := true, timerCancelled := true, calls := s.calls + [Result(s.connection.code)],
        connection := Connected)
  {
    var code := s.connection.code;
    if s.finished {
      var t := s.(connection := Close);
      Unfold(s, t, ConnectStep, 4);
      Last(t, t.(open := false, connection := Connected), ConnectStep, 3);
    } else {
      var t := s.(finished := true, connection := Store(code));
      var u := t.(connection := CancelTimer(code));
      var v := u.(timerCancelled := true, connection := Connection.Call(code));
      Unfold(s, t, ConnectStep, 4);
      Unfold(t, u, ConnectStep, 3);
      Unfold(u, v, ConnectStep, 2);
      Last(v, v.(calls := v.calls + [Result(code)], connection := Connected), ConnectStep, 1);
    }
  }

  lemma TimerSteps(s: State)
    requires s.timer.Exchange?
    ensures Handler(s, TimerStep, 4) ==
      if s.finished then s.(timer := Expired)
      else s.(finished := true, resolverCancelled := true, socketCancelled := true, timer := Expired,
              calls := s.calls + [if s.timer.code != 0 then Result(s.timer.code) else TimedOut])
  {
    var code := s.timer.code;
    if s.finished {
      Last(s, s.(timer := Expired), TimerStep, 4);
    } else {
      var t := s.(finished := true, timer := CancelResolver(code));
      var u := t.(resolverCancelled := true, timer := CancelSocket(code));
      var v := u.(socketCancelled := true, timer := Timer.Call(code));
      Unfold(s, t, TimerStep, 4);
      Unfold(t, u, TimerStep, 3);
      Unfold(u, v, TimerStep, 2);
      Last(v, v.(calls := v.calls + [if code != 0 then Result(code) else TimedOut], timer := Expired), TimerStep, 1);
    }
  }

  lemma Unfold(s: State, t: State, step: Step, n: nat)
    requires n >= 1 && Enabled(s, step) && t == Next(s, step)
    ensures Handler(s, step, n) == Handler(t, step, n - 1)
  {}

  lemma Last(s: State, t: State, step: Step, n: nat)
    requires n >= 1 && Enabled(s, step) && t == Next(s, step) && !Enabled(t, step)
    ensures Handler(s, step, n) == t
  {}
}
