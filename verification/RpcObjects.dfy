/** The `RpcServer` object, updated in place; every method is proved against its function in module Rpc. */
module RpcObjects {
  import opened Common
  import opened Rpc

  /** The executions that begin and resolve in the loop over the first `n` services, in order. */
  function AtOnce(services: seq<Service>, values: seq<Byte>, now: map<nat, bool>, n: nat): (r: seq<Resolution>)
    requires n <= |services| && n <= |values|
    ensures forall i :: 0 <= i < |r| ==> r[i].service < n
  {
    if n == 0 then []
    else
      var r := AtOnce(services, values, now, n - 1);
      if values[n - 1] == REQUESTED && !services[n - 1].busy && n - 1 in now
      then r + [Resolution(n - 1, now[n - 1])] else r
  }

  function Begun(v: Server, values: seq<Byte>, n: nat): Server
    requires n <= |v.services| && n <= |values|
  {
    v.(services := ExecuteRequested(v.services, values, n))
  }

  /** Resolving some services does not notice what becomes of another one. */
  lemma {:induction false} ResolveOthers(v: Server, list: seq<Resolution>, i: nat, sv: Service)
    requires CanResolve(v, list) && i < |v.services| && forall k :: 0 <= k < |list| ==> list[k].service != i
    ensures CanResolve(v.(services := v.services[i := sv]), list)
    ensures var v1 := ResolveAll(v, list);
      && |v1.services| == |v.services| && v1.services[i] == v.services[i]
      && ResolveAll(v.(services := v.services[i := sv]), list) == v1.(services := v1.services[i := sv])
    decreases |list|
  {
    if list != [] {
      var j, failed := list[0].service, list[0].failed;
      var v0, v1 := Resolved(v, j, failed), v.(services := v.services[i := sv]);
      assert v0.(services := v0.services[i := sv]) == Resolved(v1, j, failed);
      ResolveOthers(v0, list[1..], i, sv);
    }
  }

  lemma {:induction false} ResolveLast(v: Server, list: seq<Resolution>, r: Resolution)
    requires CanResolve(v, list) && r.service < |ResolveAll(v, list).services|
    requires ResolveAll(v, list).services[r.service].active > 0
    ensures CanResolve(v, list + [r])
    ensures ResolveAll(v, list + [r]) == Resolved(ResolveAll(v, list), r.service, r.failed)
    decreases |list|
  {
    if list == [] {
      assert list + [r] == [r] && [r][1..] == [];
    } else {
      assert (list + [r])[1..] == list[1..] + [r];
      ResolveLast(Resolved(v, list[0].service, list[0].failed), list[1..], r);
    }
  }

  /** One round of the loop: the service is executed if it is requested and not busy, and may resolve at once. */
  function Round(v: Server, values: seq<Byte>, now: map<nat, bool>, i: nat): Server
    requires i < |v.services| && i < |values|
  {
    if values[i] != REQUESTED || v.services[i].busy then v
    else
      var v1 := v.(services := v.services[i := Execute(v.services[i])]);
      if i in now then Resolved(v1, i, now[i]) else v1
  }

  /** The server `v` after `n` rounds: all executions first and what resolves at once after them. */
  predicate AfterRounds(v: Server, values: seq<Byte>, now: map<nat, bool>, n: nat, v1: Server)
    requires n <= |v.services| && n <= |values|
  {
    && CanResolve(Begun(v, values, n), AtOnce(v.services, values, now, n))
    && v1 == ResolveAll(Begun(v, values, n), AtOnce(v.services, values, now, n))
  }

  lemma NoRounds(v: Server, values: seq<Byte>, now: map<nat, bool>)
    ensures AfterRounds(v, values, now, 0, v)
  {
    assert Begun(v, values, 0) == v;
  }

  lemma RoundNext(v: Server, values: seq<Byte>, now: map<nat, bool>, i: nat, v1: Server)
    requires i < |v.services| && i < |values| && AfterRounds(v, values, now, i, v1)
    ensures |v1.services| == |v.services| && AfterRounds(v, values, now, i + 1, Round(v1, values, now, i))
  {
    var list, v0 := AtOnce(v.services, values, now, i), Begun(v, values, i);
    BegunNext(v, values, i);
    if values[i] == REQUESTED && !v.services[i].busy {
      ResolveOthers(v0, list, i, Execute(v.services[i]));
      if i in now { ResolveLast(Begun(v, values, i + 1), list, Resolution(i, now[i])); }
    } else {
      ResolveOthers(v0, list, i, v.services[i]);
    }
  }

  lemma RoundsSeen(v: Server, read: nat, values: seq<Byte>, now: map<nat, bool>, v1: Server)
    requires read in v.open && v.open[read] <= |v.services| && v.open[read] <= |values|
    requires AfterRounds(v.(open := v.open - {read}), values, now, v.open[read], v1)
    ensures var list := AtOnce(v.services, values, now, v.open[read]);
      CanResolve(Seen(v, read, values), list) && Statuses(v, read, values, list) == Again(v1)
  {
    assert Seen(v, read, values) == Begun(v.(open := v.open - {read}), values, v.open[read]);
  }

  lemma BegunNext(v: Server, values: seq<Byte>, i: nat)
    requires i < |v.services| && i < |values|
    ensures Begun(v, values, i).services[i] == v.services[i]
    ensures Begun(v, values, i + 1) ==
      if values[i] != REQUESTED || v.services[i].busy then Begun(v, values, i)
      else Begun(v, values, i).(services := Begun(v, values, i).services[i := Execute(v.services[i])])
  {
    var v0 := Begun(v, values, i);
    assert Begun(v, values, i + 1).services ==
      if values[i] == REQUESTED then v0.services[i := Execute(v.services[i])] else v0.services;
  }

  /** The ghost fields are history: executions begun and not resolved, the open status write, all executions. */
  class RpcService {
    var busy: bool
    ghost var active: nat
    ghost var writing: Option<nat>
    ghost var served: nat

    constructor ()
      ensures State() == Service(false, 0, None, 0)
    {
      busy, active, writing, served := false, 0, None, 0;
    }

    ghost function State(): Service
      reads this
    {
      Service(busy, active, writing, served)
    }
  }

  /**
   `sent` stands for the commands given to the client; the position of a command identifies its session.
   `openReads` holds the local variable `size` of each `readCommands` call whose callback is outstanding.
   */
  class RpcServer {
    const base: Byte
    const zeroDelay: bool
    var services: seq<RpcService>
    var started: bool
    var sent: seq<Command>
    var openReads: map<nat, nat>
    var armed: bool
    var expired: nat
    ghost var starts: nat
    ghost var issued: nat

    constructor (base: Byte, zeroDelay: bool)
      ensures Valid() && this.base == base && this.zeroDelay == zeroDelay
      ensures View() == Server(base, zeroDelay, [], false, [], map[], false, 0, 0, 0)
    {
      this.base, this.zeroDelay := base, zeroDelay;
      services, started, sent, openReads, armed, expired, starts, issued := [], false, [], map[], false, 0, 0, 0;
    }

    ghost predicate Valid()
      reads this
    {
      forall i, k :: 0 <= i < k < |services| ==> services[i] != services[k]
    }

    ghost function Flags(): (r: seq<Service>)
      reads this, services
      ensures |r| == |services| && forall i :: 0 <= i < |services| ==> r[i] == services[i].State()
    {
      seq(|services|, i requires 0 <= i < |services| reads this, services => services[i].State())
    }

    ghost function View(): Server
      reads this, services
    {
      Server(base, zeroDelay, Flags(), started, sent, openReads, armed, expired, starts, issued)
    }

    method AddService()
      requires Valid()
      modifies this`services
      ensures Valid() && View() == Rpc.AddService(old(View()))
      ensures |services| == |old(services)| + 1 && fresh(services[|old(services)|])
        && services[..|old(services)|] == old(services)
    {
      var s := new RpcService();
      services := services + [s];
      assert Flags() == old(Flags()) + [s.State()];
    }

    method Start() returns (ok: bool)
      requires Valid()
      modifies this
      ensures Valid() && services == old(services) && ok == !old(started)
      ensures View() == StartServer(old(View()))
    {
      if started { return false; }
      started := true;
      starts := starts + 1;
      ReadCommands();
      return true;
    }

    method Stop() returns (ok: bool)
      requires Valid()
      modifies this`started
      ensures ok == old(started) && View() == StopServer(old(View()))
    {
      ok := started;
      started := false;
    }

    method ReadCommands()
      requires Valid()
      modifies this`sent, this`openReads, this`issued
      ensures View() == Rpc.ReadCommands(old(View()))
    {
      var size := |services|;
      openReads := openReads[|sent| := size];
      sent := sent + [Read(Count(size))];
      issued := issued + 1;
    }

    method StartReadCommandsTimer()
      requires Valid()
      modifies this`sent, this`openReads, this`issued, this`armed
      ensures View() == StartTimer(old(View()))
    {
      if zeroDelay {
        ReadCommands();
      } else {
        armed := true;
      }
    }

    /** The handler of `read_commands_timer_` with a completion code other than `operation_aborted`. */
    method OnTimer(error: bool)
      requires Valid() && (if error then armed else expired > 0)
      modifies this`sent, this`openReads, this`issued, this`armed, this`expired
      ensures View() == if error then TimerError(old(View())) else TimerHandler(old(View()))
    {
      if error {
        armed := false;
        StartReadCommandsTimer();
      } else {
        expired := expired - 1;
        ReadCommands();
      }
    }

    /**
     The callback of a read; `None` is an error.  `now` are the services that call `resolve` before their `execute`
     returns, with their error or not.
     */
    method OnStatuses(read: nat, statuses: Option<seq<Byte>>, now: map<nat, bool>)
      requires Valid() && read in openReads && openReads[read] <= |services|
      requires statuses.Some? ==> openReads[read] <= |statuses.value|
      modifies this`sent, this`openReads, this`issued, this`armed, services
      ensures Valid()
      ensures match statuses
        case Some(values) =>
          var v, list := old(View()), AtOnce(old(View()).services, values, now, old(openReads)[read]);
          CanResolve(Seen(v, read, values), list) && View() == Statuses(v, read, values, list)
        case None => View() == ReadFailed(old(View()), read, [])
    {
      ghost var v := View();
      var size := openReads[read];
      openReads := openReads - {read};
      assert View() == v.(open := v.open - {read});
      match statuses {
        case None =>
        case Some(values) =>
          ExecuteAll(size, values, now);
          RoundsSeen(v, read, values, now, View());
      }
      PollAgain();
    }

    method PollAgain()
      requires Valid()
      modifies this`sent, this`openReads, this`issued, this`armed
      ensures View() == Again(old(View()))
    {
      if started {
        StartReadCommandsTimer();
      }
    }

    /** The loop over the statuses. */
    method ExecuteAll(size: nat, values: seq<Byte>, now: map<nat, bool>)
      requires Valid() && size <= |services| && size <= |values|
      modifies this`sent, services
      ensures AfterRounds(old(View()), values, now, size, View())
    {
      ghost var v := View();
      NoRounds(v, values, now);
      var i := 0;
      while i < size
        invariant i <= size && AfterRounds(v, values, now, i, View())
      {
        RoundNext(v, values, now, i, View());
        ExecuteOne(i, values, now);
        i := i + 1;
      }
    }

    method ExecuteOne(i: nat, values: seq<Byte>, now: map<nat, bool>)
      requires Valid() && i < |services| && i < |values|
      modifies this`sent, services[i]
      ensures View() == Round(old(View()), values, now, i)
    {
      if values[i] == REQUESTED {
        var begun := Execute(i);
        if begun && i in now {
          OnResolved(i, now[i]);
        }
      }
    }

    /** False, and nothing happens, if the service is busy. */
    method Execute(index: nat) returns (begun: bool)
      requires Valid() && index < |services|
      modifies services[index]
      ensures begun == !old(services[index].busy)
      ensures Flags() == old(Flags())[index := Rpc.Execute(old(services[index].State()))]
    {
      if services[index].busy { return false; }
      services[index].busy := true;
      services[index].active := services[index].active + 1;
      services[index].served := services[index].served + 1;
      return true;
    }

    /** The service calls `resolve`: the status is written, also after an error. */
    method OnResolved(index: nat, error: bool)
      requires Valid() && index < |services| && services[index].active > 0
      modifies this`sent, services[index]
      ensures View() == Resolved(old(View()), index, error)
    {
      services[index].active := services[index].active - 1;
      services[index].writing := Some(|sent|);
      sent := sent + [Write(index, if error then ERROR else IDLE)];
      assert Flags() == old(Flags())[index := services[index].State()];
    }

    /** The callback of a status write, whatever its result. */
    method OnStatusWritten(index: nat)
      requires Valid() && index < |services|
      modifies services[index]
      ensures View() == WriteDone(old(View()), index)
    {
      services[index].busy := false;
      services[index].writing := None;
      assert Flags() == old(Flags())[index := services[index].State()];
    }
  }
}
