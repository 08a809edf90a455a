/**
 What one session does to the state it shares with its client, as functions on values.

 A session is a `DeadlineSession` around a `CommandSession` (Single) or a `MultiCommandSession` (Multi),
 or one of the two file sessions (Transfer).  The source resolves a session by a re-entrant recursion:
 `MultiCommandSession::resolve` stops every sub-session, each of which calls back into
 `MultiCommandSession::resolve`.  The functions here are the closed form of that recursion: no function
 below is recursive.  Module SessionObjects proves that the recursive methods compute exactly this.
 */
module Sessions {
  import opened Common

  /** Why a session failed.  `Refused` carries the reply that could not be used. */
  datatype Failure<V> = Aborted | TimedOut | TimerFailed | SendFailed | Refused(reply: V)

  /** The id that an allocation counter at `first` hands out after `n` others. */
  function IdAt(first: Byte, n: nat): Byte { (first + n) % 256 }

  /** What is passed to `CommandSession::resolve`. */
  datatype Outcome<V> = Ok(value: V) | Failed(why: Failure<V>)

  /** What the user's callback receives. */
  datatype Verdict<V> = Success(values: seq<Option<V>>) | Failure(why: Failure<V>)

  datatype Kind = Single | Multi | Transfer

  /** A `CommandSession`: its `done_` flag is set exactly when it has an outcome. */
  datatype Cmd<V, J> = Cmd(id: Byte, owner: J, outcome: Option<Outcome<V>>) {
    predicate Done() { outcome.Some? }
  }

  /** Completion code of a timer wait. */
  datatype Code = Fired | Errored | Cancelled

  /** Handlers waiting in the executor. */
  datatype Task<J> =
    | TimerDone(job: J, code: Code)
    | SendDone(job: J, cmd: nat, failed: bool)
    | Release(job: J)

  /**
   A whole session.  Its commands are the `count` entries of the command list from `first` on.
   `done`, `finished` and `results` are the fields of `MultiCommandSession`; `timer` says that a wait is
   pending; `sends` are the commands of the session with a send that is outstanding, its handler not yet queued.
   The rest is history: `calls` are the verdicts the user's callback was run with, `seen` and `late` the handler
   table and the number of outstanding sends at the last of these calls, and `touched` says that a handler has
   used the session after its release.
   */
  datatype Job<V, H, J> = Job(
    self: J, kind: Kind, first: nat, count: nat,
    done: bool, finished: nat, results: seq<Option<V>>,
    timer: bool, alive: bool, sends: multiset<nat>,
    calls: seq<Verdict<V>>, seen: map<Byte, H>, late: nat, touched: bool)
  {
    predicate Has(k: nat) { first <= k < first + count }
  }

  /** The part of the state that a handler of one session may read or change. */
  datatype World<V, H, J> = World(
    cmds: seq<Cmd<V, J>>, table: map<Byte, H>, job: Job<V, H, J>, queue: seq<Task<J>>)
  {
    predicate Valid() {
      && job.first + job.count <= |cmds|
      && |job.results| == job.count
      && (!job.kind.Multi? ==> job.count == 1)
    }
  }

  function Lift<V>(r: Outcome<V>): Verdict<V> {
    match r
    case Ok(v) => Success([Some(v)])
    case Failed(why) => Failure(why)
  }

  /**
   The callback that `sendCommand` and `sendMultipleCommands` install: cancel the wait (which queues it
   as aborted), run the user's callback, post the release.  File sessions post no release.
   */
  function Complete<V, H, J>(w: World<V, H, J>, v: Verdict<V>): World<V, H, J> {
    var aborted := if w.job.timer then [TimerDone(w.job.self, Cancelled)] else [];
    var release := if w.job.kind.Transfer? then [] else [Release(w.job.self)];
    w.(job := w.job.(calls := w.job.calls + [v], timer := false, seen := w.table, late := |w.job.sends|),
       queue := w.queue + aborted + release)
  }

  /** Every unfinished command of the session ends as aborted. */
  function Stopped<V, J>(cmds: seq<Cmd<V, J>>, lo: nat, hi: nat): (r: seq<Cmd<V, J>>)
    ensures |r| == |cmds|
    ensures forall k :: 0 <= k < |cmds| ==> r[k] == StopOne(cmds[k], lo <= k < hi)
  {
    seq(|cmds|, k requires 0 <= k < |cmds| => StopOne(cmds[k], lo <= k < hi))
  }

  function StopOne<V, J>(c: Cmd<V, J>, inside: bool): Cmd<V, J> {
    if inside && !c.Done() then c.(outcome := Some(Failed(Aborted))) else c
  }

  /** The ids of the commands in `lo..hi` that are not done. */
  function OpenIds<V, J>(cmds: seq<Cmd<V, J>>, lo: nat, hi: nat): set<Byte>
    requires hi <= |cmds|
  {
    set k | lo <= k < hi && !cmds[k].Done() :: cmds[k].id
  }

  function StopAll<V, H, J>(w: World<V, H, J>): World<V, H, J>
    requires w.Valid()
  {
    var lo, hi := w.job.first, w.job.first + w.job.count;
    w.(cmds := Stopped(w.cmds, lo, hi), table := w.table - OpenIds(w.cmds, lo, hi))
  }

  /** The numbers of `count` commands, each once. */
  function Serials(first: nat, count: nat): (r: multiset<nat>)
    ensures |r| == count && forall k: nat :: k in r <==> first <= k < first + count
  {
    if count == 0 then multiset{} else Serials(first, count - 1) + multiset{first + count - 1}
  }

  /** Closed form of `MultiCommandSession::resolve`. */
  function ResolveJob<V, H, J>(w: World<V, H, J>, v: Verdict<V>): World<V, H, J>
    requires w.Valid()
  {
    if w.job.done then w
    else
      var w1 := w.(job := w.job.(done := true));
      if v.Failure? then Complete(StopAll(w1), v) else Complete(w1, v)
  }

  /** Closed form of the callback that `MultiCommandSession::callback<I>` makes for command `i`. */
  function PartDone<V, H, J>(w: World<V, H, J>, i: nat, r: Outcome<V>): World<V, H, J>
    requires w.Valid() && i < w.job.count
  {
    match r
    case Failed(why) => ResolveJob(w, Failure(why))
    case Ok(v) =>
      var results := w.job.results[i := Some(v)];
      var w1 := w.(job := w.job.(results := results, finished := w.job.finished + 1));
      if w1.job.finished == w1.job.count then ResolveJob(w1, Success(results)) else w1
  }

  /** Closed form of `CommandSession::resolve` (and of `stopSession` of the file sessions). */
  function ResolveCmd<V, H, J>(w: World<V, H, J>, k: nat, r: Outcome<V>): World<V, H, J>
    requires w.Valid() && w.job.Has(k)
  {
    if w.cmds[k].Done() then w
    else
      var w1 := w.(cmds := w.cmds[k := w.cmds[k].(outcome := Some(r))], table := w.table - {w.cmds[k].id});
      if w.job.kind.Multi? then PartDone(w1, k - w.job.first, r) else Complete(w1, Lift(r))
  }

  /** `work_.resolve(error)` as the deadline timer and a cancelling user call it. */
  function ResolveTop<V, H, J>(w: World<V, H, J>, why: Failure<V>): World<V, H, J>
    requires w.Valid()
  {
    if w.job.kind.Multi? then ResolveJob(w, Failure(why)) else ResolveCmd(w, w.job.first, Failed(why))
  }

  /** The timer handler; a wait that failed resolves the command sessions twice, the file sessions once. */
  function TimerHandler<V, H, J>(w: World<V, H, J>, code: Code): World<V, H, J>
    requires w.Valid()
  {
    match code
    case Cancelled => w
    case Fired => ResolveTop(w, TimedOut)
    case Errored =>
      var w1 := ResolveTop(w, TimerFailed);
      if w.job.kind.Transfer? then w1 else ResolveTop(w1, TimedOut)
  }

  /** A handler uses the session.  The memory of a released session is taken to be as it was. */
  function Touch<V, H, J>(w: World<V, H, J>): World<V, H, J> {
    w.(job := w.job.(touched := w.job.touched || !w.job.alive))
  }

  /** An outstanding send completes: its handler is queued. */
  function Sent<V, H, J>(w: World<V, H, J>, k: nat, failed: bool): World<V, H, J> {
    w.(job := w.job.(sends := w.job.sends - multiset{k}), queue := w.queue + [SendDone(w.job.self, k, failed)])
  }

  /**
   A queued handler of the session runs; `w.queue` no longer holds it.  The handlers of a cancelled wait and of a
   send that succeeded return without using the session.
   */
  function RunHandler<V, H, J>(w: World<V, H, J>, t: Task<J>): World<V, H, J>
    requires w.Valid() && (t.SendDone? ==> w.job.Has(t.cmd))
  {
    match t
    case TimerDone(_, code) => if code.Cancelled? then w else TimerHandler(Touch(w), code)
    case SendDone(_, k, failed) => if failed then ResolveCmd(Touch(w), k, Failed(SendFailed)) else w
    case Release(_) => w.(job := w.job.(alive := false))
  }
}
