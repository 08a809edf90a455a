/**
 The two file sessions are sessions of the client.  Module Engine only knows of a reply to a file session whether it
 is good and whether the session goes on after it; here these flags get the values that the sessions compute, and the
 sessions follow the engine step by step.
 */
module FileSessions {
  import opened Common
  import Sessions
  import Engine
  import FileTransfer

  /** Both have ended or both have not, with as many calls, successes at the same places, and no stray wait. */
  predicate Mirrors(done: bool, registered: bool, timer: bool, successes: seq<bool>, w: Engine.Local, k: nat)
    requires w.Valid() && w.job.Has(k)
  {
    && w.job.kind.Transfer? && done == w.cmds[k].Done() && registered == !done
    && (w.job.timer ==> timer)
    && |successes| == |w.job.calls| && forall i :: 0 <= i < |successes| ==> successes[i] == w.job.calls[i].Success?
  }

  // ----- Reading -----

  function ReaderSuccesses(calls: seq<FileTransfer.Outcome>): seq<bool> {
    seq(|calls|, i requires 0 <= i < |calls| => calls[i].Success?)
  }

  predicate ReaderMirrors(d: FileTransfer.Download, w: Engine.Local, k: nat)
    requires w.Valid() && w.job.Has(k)
  {
    Mirrors(d.done, d.registered, d.timer, ReaderSuccesses(d.calls), w, k)
  }

  /** The reply of the engine that stands for a block. */
  function BlockReply(d: FileTransfer.Download, k: nat, status: Byte, b: FileTransfer.Block): Engine.Reply {
    Engine.Reply(k, status == 0 && b.Index() == d.received + 1, !b.Last(), b.data)
  }

  /** A block does to the reader what its reply does to the session, and each acknowledgement is a send. */
  lemma BlockIsReply(d: FileTransfer.Download, w: Engine.Local, k: nat, status: Byte, b: FileTransfer.Block)
    requires Engine.LocalInv(w) && w.job.Has(k) && ReaderMirrors(d, w, k) && !d.done
    ensures var r := BlockReply(d, k, status, b);
      var d1, w1 := FileTransfer.OnBlock(d, status, b), Engine.OnReply(w, k, r, r.good);
      && w1.Valid() && w1.job.Has(k) && ReaderMirrors(d1, w1, k)
      && |d1.acks| - |d.acks| == |w1.job.sends| - |w.job.sends|
  {
    var r := BlockReply(d, k, status, b);
    var d1, w1 := FileTransfer.OnBlock(d, status, b), Engine.OnReply(w, k, r, r.good);
    if r.good && r.more {
      assert d1.calls == d.calls && w1.job.calls == w.job.calls;
    } else {
      assert w1.job.calls == w.job.calls + [Sessions.Lift(Engine.ToOutcome(r))];
      assert d1.calls[..|d.calls|] == d.calls;
    }
  }

  /** A wait that ends or a send that fails does the same to both, also after the end. */
  lemma ReaderFailure(d: FileTransfer.Download, w: Engine.Local, k: nat, why: FileTransfer.Error,
    e: Sessions.Failure<Engine.Reply>)
    requires Engine.LocalInv(w) && w.job.Has(k) && ReaderMirrors(d, w, k)
    ensures var w1 := Sessions.ResolveCmd(w, k, Sessions.Failed(e));
      && w1.Valid() && w1.job.Has(k)
      && ReaderMirrors(FileTransfer.StopDownload(d, FileTransfer.Failure(why)), w1, k)
  {}

  // ----- Writing -----

  function WriterSuccesses(calls: seq<Option<FileTransfer.Error>>): seq<bool> {
    seq(|calls|, i requires 0 <= i < |calls| => calls[i].None?)
  }

  predicate WriterMirrors(u: FileTransfer.Upload, w: Engine.Local, k: nat)
    requires w.Valid() && w.job.Has(k)
  {
    Mirrors(u.done, u.registered, u.timer, WriterSuccesses(u.calls), w, k)
  }

  /** The reply of the engine that stands for an acknowledgement. */
  function AckReply(u: FileTransfer.Upload, k: nat, e: FileTransfer.UploadEvent): Engine.Reply
    requires e.Ack?
  {
    Engine.Reply(k, e.status == 0 && e.size == 0 && e.ack && ToInt32(e.number) == u.sentBlocks,
                 FileTransfer.BytesSent(u.sentBlocks, |u.data|) < |u.data|, [])
  }

  /** An acknowledgement does to the writer what its reply does to the session, and each block is a send. */
  lemma AckIsReply(u: FileTransfer.Upload, w: Engine.Local, k: nat, e: FileTransfer.UploadEvent)
    requires Engine.LocalInv(w) && w.job.Has(k) && WriterMirrors(u, w, k) && !u.done
    requires e.Ack? && FileTransfer.UploadInv(u)
    ensures var r := AckReply(u, k, e);
      var u1, w1 := FileTransfer.OnAck(u, e), Engine.OnReply(w, k, r, u.continues && r.good && r.more);
      && w1.Valid() && w1.job.Has(k) && WriterMirrors(u1, w1, k)
      && |u1.sent| - |u.sent| == |w1.job.sends| - |w.job.sends|
  {
    var r := AckReply(u, k, e);
    var u1, w1 := FileTransfer.OnAck(u, e), Engine.OnReply(w, k, r, u.continues && r.good && r.more);
    FileTransfer.SentAll(|u.data|, u.sentBlocks);
    if r.good && r.more {
      assert u1.calls == u.calls && w1.job.calls == w.job.calls;
    } else {
      assert w1.job.calls == w.job.calls + [Sessions.Lift(Engine.ToOutcome(r))];
      assert u1.calls[..|u.calls|] == u.calls;
    }
  }

  lemma WriterFailure(u: FileTransfer.Upload, w: Engine.Local, k: nat, why: FileTransfer.Error,
    e: Sessions.Failure<Engine.Reply>)
    requires Engine.LocalInv(w) && w.job.Has(k) && WriterMirrors(u, w, k)
    ensures var w1 := Sessions.ResolveCmd(w, k, Sessions.Failed(e));
      && w1.Valid() && w1.job.Has(k) && WriterMirrors(FileTransfer.StopUpload(u, Some(why)), w1, k)
  {}
}
