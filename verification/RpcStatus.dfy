/** Which status the server writes for which execution, and where it ends up. */
module RpcStatus {
  import opened Common
  import opened Rpc
  import opened RpcRuns

  /** The executions that an event resolves. */
  function ResolvedBy(step: Step): seq<Resolution> {
    match step
    case Resolve(i, failed) => [Resolution(i, failed)]
    case Deliver(now) => now
    case ReadFails(_, now) => now
    case _ => []
  }

  function Resolutions(steps: seq<Step>): seq<Resolution> {
    if steps == [] then [] else ResolvedBy(steps[0]) + Resolutions(steps[1..])
  }

  /** The status writes among the commands, in order. */
  function Writes(sent: seq<Command>): seq<Command> {
    if sent == [] then []
    else
      var n := |sent| - 1;
      Writes(sent[..n]) + if sent[n].Write? then [sent[n]] else []
  }

  /** What has to be written: 2 after an error, 0 otherwise. */
  function StatusWrites(list: seq<Resolution>): (r: seq<Command>)
    ensures |r| == |list|
    ensures forall i :: 0 <= i < |list| ==> r[i] == Write(list[i].service, if list[i].failed then 2 else 0)
  {
    seq(|list|, i requires 0 <= i < |list| => Write(list[i].service, if list[i].failed then 2 else 0))
  }

  lemma StatusWritesJoin(before: seq<Command>, a: seq<Resolution>, b: seq<Resolution>)
    ensures before + StatusWrites(a) + StatusWrites(b) == before + StatusWrites(a + b)
  {
    assert StatusWrites(a + b) == StatusWrites(a) + StatusWrites(b);
  }

  lemma WritesSnoc(sent: seq<Command>, c: Command)
    ensures Writes(sent + [c]) == Writes(sent) + if c.Write? then [c] else []
  {
    assert (sent + [c])[..|sent|] == sent;
  }

  lemma {:induction false} WritesOfAll(v: Server, now: seq<Resolution>)
    requires CanResolve(v, now)
    ensures Writes(ResolveAll(v, now).sent) == Writes(v.sent) + StatusWrites(now)
    decreases |now|
  {
    if now == [] {
      assert StatusWrites(now) == [];
    } else {
      var r, rest := now[0], now[1..];
      OneWrite(v, r);
      WritesOfAll(Resolved(v, r.service, r.failed), rest);
      StatusWritesJoin(Writes(v.sent), [r], rest);
      assert [r] + rest == now;
    }
  }

  lemma OneWrite(v: Server, r: Resolution)
    requires r.service < |v.services| && v.services[r.service].active > 0
    ensures Writes(Resolved(v, r.service, r.failed).sent) == Writes(v.sent) + StatusWrites([r])
  {
    WritesSnoc(v.sent, Write(r.service, if r.failed then 2 else 0));
    assert StatusWrites([r]) == [Write(r.service, if r.failed then 2 else 0)];
  }

  lemma WritesAgain(v: Server)
    ensures Writes(Again(v).sent) == Writes(v.sent) && Writes(StartTimer(v).sent) == Writes(v.sent)
    ensures Writes(ReadCommands(v).sent) == Writes(v.sent)
  {
    WritesSnoc(v.sent, Read(Count(|v.services|)));
  }

  lemma StepWrites(s: State, step: Step)
    requires WellFormed(s) && Enabled(s, step)
    ensures Writes(Next(s, step).server.sent) == Writes(s.server.sent) + StatusWrites(ResolvedBy(step))
  {
    var v := s.server;
    assert StatusWrites([]) == [];
    match step
    case Resolve(i, failed) => OneWrite(v, Resolution(i, failed));
    case Deliver(now) =>
      WellFormedReplies(s);
      WritesOfAll(Replied(s), now);
      WritesAgain(ResolveAll(Replied(s), now));
    case ReadFails(k, now) =>
      WritesOfAll(v.(open := v.open - {k}), now);
      WritesAgain(ResolveAll(v.(open := v.open - {k}), now));
    case Start => WritesAgain(v.(started := true, starts := v.starts + 1));
    case RunTimer => WritesAgain(v.(expired := v.expired - 1));
    case FailTimer => WritesAgain(v.(armed := false));
    case _ =>
  }

  lemma {:induction false} RunWrites(s: State, steps: seq<Step>)
    requires WellFormed(s) && Legal(s, steps)
    ensures Writes(Exec(s, steps).server.sent) == Writes(s.server.sent) + StatusWrites(Resolutions(steps))
    decreases |steps|
  {
    if steps == [] {
      assert StatusWrites(Resolutions(steps)) == [];
    } else {
      var s1, rest := Next(s, steps[0]), steps[1..];
      NextWellFormed(s, steps[0]);
      StepWrites(s, steps[0]);
      RunWrites(s1, rest);
      StatusWritesJoin(Writes(s.server.sent), ResolvedBy(steps[0]), Resolutions(rest));
    }
  }

  /** In every run the status writes are those of the resolved executions, in their order: 2 after an error, else 0. */
  lemma WritesAreResolutions(base: Byte, zeroDelay: bool, regs: seq<Byte>, steps: seq<Step>)
    requires |regs| == 256 && Legal(Initial(base, zeroDelay, regs), steps)
    ensures Writes(Exec(Initial(base, zeroDelay, regs), steps).server.sent) == StatusWrites(Resolutions(steps))
  {
    RunWrites(Initial(base, zeroDelay, regs), steps);
  }

  lemma {:induction false} WriteIndex(sent: seq<Command>, k: nat)
    requires k < |sent| && sent[k].Write?
    ensures |Writes(sent[..k])| < |Writes(sent)| && Writes(sent)[|Writes(sent[..k])|] == sent[k]
    decreases |sent|
  {
    var n := |sent| - 1;
    if k < n {
      WriteIndex(sent[..n], k);
      assert sent[..n][..k] == sent[..k];
    }
  }

  /**
   When the robot has handled a status write, the register of its service holds 2 if the execution that it belongs to
   resolved with an error, and 0 if not.  The execution is the one that comes after as many resolutions as there were
   status writes before.
   */
  lemma StatusLands(base: Byte, zeroDelay: bool, regs: seq<Byte>, steps: seq<Step>, s: State)
    requires |regs| == 256 && Leads(Initial(base, zeroDelay, regs), steps, s)
    requires Enabled(s, Handle) && s.server.sent[|s.snapshots|].Write?
    ensures var n, list := |Writes(s.server.sent[..|s.snapshots|])|, Resolutions(steps);
      && n < |list| && s.server.base + list[n].service < |Next(s, Handle).regs|
      && Next(s, Handle).regs[s.server.base + list[n].service] == if list[n].failed then 2 else 0
  {
    var k := |s.snapshots|;
    WritesAreResolutions(base, zeroDelay, regs, steps);
    WriteIndex(s.server.sent, k);
    RegisterIndex(s, s.server.sent[k].service);
  }

  /** It keeps that value until the robot requests the service again or handles another status write for it. */
  lemma StatusStays(s: State, step: Step, i: nat)
    requires WellFormed(s) && Enabled(s, step) && i < |s.server.services|
    requires step != Raise(Register(s.server.base, i))
    requires step.Handle? ==> !IsWrite(s.server.sent[|s.snapshots|], i)
    ensures Next(s, step).regs[s.server.base + i] == s.regs[s.server.base + i]
  {
    RegisterIndex(s, i);
    if step.Handle? && s.server.sent[|s.snapshots|].Write? {
      RegisterIndex(s, s.server.sent[|s.snapshots|].service);
    }
  }
}
