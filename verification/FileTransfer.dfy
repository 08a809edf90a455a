/**
 The two file sessions.  A file travels in numbered blocks; the last block has an extra bit set in its number.

 Three things in the source differ from what its own names and checks are evidently for, and each is a
 parameter here: whether the reader counts the blocks it accepts (`counts`; the source never increments
 `blocks_received_`), whether the writer goes on to the next block after an acknowledgement (`continues`;
 the source never calls `writeNextBlock`), and whether the writer puts the last-block bit of the reader into
 the header (`flags`; the source computes another bit and does not pass it on).  With all three false the
 functions are the source as written.
 */
module FileTransfer {
  import opened Common

  /** The bit that the reader tests. */
  const LAST_BLOCK := 0x8000_0000

  datatype Block = Block(number: Word, data: seq<Byte>) {
    /** `header.block_number & 0x7fffffff` */
    function Index(): nat { number % LAST_BLOCK }
    predicate Last() { number >= LAST_BLOCK }
  }

  datatype Error = CommandFailed | Malformed | TimedOut | SendFailed
  datatype Outcome = Success(data: seq<Byte>) | Failure(why: Error)

  /** All payloads, one after the other. */
  function Payloads(blocks: seq<Block>): seq<Byte> {
    if blocks == [] then [] else Payloads(blocks[..|blocks| - 1]) + blocks[|blocks| - 1].data
  }

  // ----- Download -----

  /**
   `received` is `blocks_received_`, `buffer` is `read_buffer_`; `registered` and `timer` say that the handler
   is in the client's table and that the wait is pending.  `acks` are the block numbers acknowledged,
   `accepted` the blocks accepted, `calls` the results given to `on_done_`.
   */
  datatype Download = Download(
    counts: bool, received: nat, buffer: seq<Byte>, done: bool, registered: bool, timer: bool,
    acks: seq<nat>, accepted: seq<Block>, calls: seq<Outcome>)

  datatype Event =
    | Arrive(status: Byte, block: Block)   // a reply with this header status
    | Fail(why: Error)                     // the wait ends, or a send fails

  function NewDownload(counts: bool): Download {
    Download(counts, 0, [], false, true, true, [], [], [])
  }

  function StopDownload(d: Download, r: Outcome): Download {
    if d.done then d else d.(done := true, timer := false, registered := false, calls := d.calls + [r])
  }

  function Accept(d: Download, b: Block): Download {
    d.(acks := d.acks + [b.Index()], buffer := d.buffer + b.data, accepted := d.accepted + [b],
       received := d.received + if d.counts then 1 else 0)
  }

  function OnBlock(d: Download, status: Byte, b: Block): Download {
    if d.done then d
    else if status != 0 then StopDownload(d, Failure(CommandFailed))
    else if b.Index() != d.received + 1 then StopDownload(d, Failure(Malformed))
    else
      var d1 := Accept(d, b);
      if b.Last() then StopDownload(d1, Success(d1.buffer)) else d1
  }

  function DownloadStep(d: Download, e: Event): Download {
    match e
    case Arrive(status, block) => OnBlock(d, status, block)
    case Fail(why) => StopDownload(d, Failure(why))
  }

  function DownloadRun(d: Download, events: seq<Event>): Download {
    if events == [] then d else DownloadStep(DownloadRun(d, events[..|events| - 1]), events[|events| - 1])
  }

  /** Blocks numbered 1, 2, 3, ... or, without counting, 1, 1, 1, ..., each acknowledged once, in order. */
  ghost predicate Numbered(accepted: seq<Block>, acks: seq<nat>, counts: bool) {
    && |acks| == |accepted|
    && forall i :: 0 <= i < |accepted| ==> accepted[i].Index() == acks[i] == 1 + if counts then i else 0
  }

  /** No block but the final one has the last-block bit. */
  ghost predicate OnlyLast(accepted: seq<Block>) {
    forall i :: 0 <= i < |accepted| - 1 ==> !accepted[i].Last()
  }

  /** What every run keeps. */
  ghost predicate DownloadInv(d: Download) {
    && d.received == (if d.counts then |d.accepted| else 0)
    && Numbered(d.accepted, d.acks, d.counts)
    && d.buffer == Payloads(d.accepted)
    && OnlyLast(d.accepted)
    && (if d.calls == [] then
          !d.done && d.registered && d.timer && (d.accepted != [] ==> !d.accepted[|d.accepted| - 1].Last())
        else
          && |d.calls| == 1 && d.done && !d.registered && !d.timer
          && (d.calls[0].Success? <==> d.accepted != [] && d.accepted[|d.accepted| - 1].Last())
          && (d.calls[0].Success? ==> d.calls[0].data == d.buffer))
  }

  lemma AcceptKeeps(d: Download, b: Block)
    requires DownloadInv(d) && !d.done && b.Index() == d.received + 1
    ensures DownloadInv(OnBlock(d, 0, b))
  {
    var accepted1 := d.accepted + [b];
    assert accepted1[..|d.accepted|] == d.accepted;
    assert Numbered(accepted1, d.acks + [b.Index()], d.counts);
    assert OnlyLast(accepted1);
  }

  lemma DownloadStepKeeps(d: Download, e: Event)
    requires DownloadInv(d)
    ensures DownloadInv(DownloadStep(d, e)) && DownloadStep(d, e).counts == d.counts
  {
    if e.Arrive? && !d.done && e.status == 0 && e.block.Index() == d.received + 1 {
      AcceptKeeps(d, e.block);
    }
  }

  /**
   In every run of replies, failures and timeouts: the accepted blocks are numbered 1, 2, 3, ... if the reader
   counts and all 1 if it does not; the buffer holds their payloads in order; each was acknowledged once, in
   order; the callback runs at most once, with success exactly when the last block was accepted.
   */
  lemma {:induction false} DownloadKeeps(counts: bool, events: seq<Event>)
    ensures DownloadInv(DownloadRun(NewDownload(counts), events))
    ensures DownloadRun(NewDownload(counts), events).counts == counts
  {
    if events != [] {
      DownloadKeeps(counts, events[..|events| - 1]);
      DownloadStepKeeps(DownloadRun(NewDownload(counts), events[..|events| - 1]), events[|events| - 1]);
    }
  }

  /** The replies of a robot that sends these blocks. */
  function Arrivals(blocks: seq<Block>): (r: seq<Event>)
    ensures |r| == |blocks|
  {
    seq(|blocks|, i requires 0 <= i < |blocks| => Arrive(0, blocks[i]))
  }

  /** The reader has accepted all that came, and waits for more. */
  ghost predicate Waiting(d: Download, events: seq<Event>) {
    d.calls == [] && events == Arrivals(d.accepted)
  }

  lemma {:induction false} WaitsForMore(counts: bool, events: seq<Event>)
    requires DownloadRun(NewDownload(counts), events).calls == []
    ensures Waiting(DownloadRun(NewDownload(counts), events), events)
  {
    if events != [] {
      var n := |events| - 1;
      DownloadKeeps(counts, events[..n]);
      WaitsForMore(counts, events[..n]);
      var d, d1 := DownloadRun(NewDownload(counts), events[..n]), DownloadRun(NewDownload(counts), events);
      assert events == events[..n] + [events[n]];
      assert d1.accepted == d.accepted + [events[n].block];
      assert Arrivals(d1.accepted) == Arrivals(d.accepted) + [events[n]];
    }
  }

  /**
   The verdict on the next event.  As long as the callback has not run everything that arrived was accepted; then a
   failure is reported as it is, a status other than 0 as a failed command, and a number out of turn as malformed;
   any other block is acknowledged, and is the end exactly if its number has the top bit.
   */
  lemma ReaderVerdict(counts: bool, before: seq<Event>, e: Event)
    requires DownloadRun(NewDownload(counts), before).calls == []
    ensures var d, d1 := DownloadRun(NewDownload(counts), before), DownloadRun(NewDownload(counts), before + [e]);
      && before == Arrivals(d.accepted)
      && ReaderDecides(d, d1, if counts then |before| + 1 else 1, e)
  {
    var d := DownloadRun(NewDownload(counts), before);
    DownloadKeeps(counts, before);
    WaitsForMore(counts, before);
    assert (before + [e])[..|before|] == before;
    NextDecides(d, e);
    assert |before| == |d.accepted|;
  }

  lemma NextDecides(d: Download, e: Event)
    requires DownloadInv(d) && d.calls == []
    ensures ReaderDecides(d, DownloadStep(d, e), d.received + 1, e)
  {}

  ghost predicate ReaderDecides(d: Download, d1: Download, expected: nat, e: Event) {
    match e
    case Fail(why) => d1.calls == [Failure(why)] && d1.acks == d.acks
    case Arrive(status, block) =>
      if status != 0 then d1.calls == [Failure(CommandFailed)] && d1.acks == d.acks
      else if block.number % 0x8000_0000 != expected then d1.calls == [Failure(Malformed)] && d1.acks == d.acks
      else
        && d1.acks == d.acks + [expected]
        && d1.calls == if block.number >= 0x8000_0000 then [Success(Payloads(d.accepted) + block.data)] else []
  }

  /** Nothing changes after the callback. */
  lemma {:induction false} ReaderStays(counts: bool, events: seq<Event>, rest: seq<Event>)
    requires DownloadRun(NewDownload(counts), events).calls != []
    ensures DownloadRun(NewDownload(counts), events + rest) == DownloadRun(NewDownload(counts), events)
  {
    if rest == [] {
      assert events + rest == events;
    } else {
      var n := |rest| - 1;
      ReaderStays(counts, events, rest[..n]);
      DownloadKeeps(counts, events);
      assert (events + rest)[..|events| + n] == events + rest[..n];
    }
  }

  // ----- Upload -----

  /** `bytesSent()` */
  function BytesSent(blocks: nat, size: nat): nat {
    if blocks * MAX_PAYLOAD < size then blocks * MAX_PAYLOAD else size
  }

  /** `remaining`, an unsigned 64-bit difference in the source. */
  function Remaining(blocks: nat, size: nat): nat { (size - blocks * MAX_PAYLOAD) % 0x1_0000_0000_0000_0000 }

  /** The difference does not wrap around exactly as long as not more than the file has been sent. */
  lemma RemainingIff(blocks: nat, size: nat)
    requires size < 0x1_0000_0000_0000_0000 && blocks * MAX_PAYLOAD < 0x1_0000_0000_0000_0000
    ensures Remaining(blocks, size) == size - blocks * MAX_PAYLOAD <==> blocks * MAX_PAYLOAD <= size
  {}

  function BlockSize(blocks: nat, size: nat): nat
    requires blocks * MAX_PAYLOAD <= size
  {
    if size - blocks * MAX_PAYLOAD < MAX_PAYLOAD then size - blocks * MAX_PAYLOAD else MAX_PAYLOAD
  }

  /** The test for the last block in `writeNextBlock`. */
  predicate LastTest(blocks: nat, size: nat)
    requires blocks * MAX_PAYLOAD <= size
  {
    blocks * MAX_PAYLOAD + BlockSize(blocks, size) == size
  }

  /** The block that `writeNextBlock` sends after `blocks` others. */
  function UploadBlock(flags: bool, data: seq<Byte>, blocks: nat): Block
    requires blocks * MAX_PAYLOAD <= |data| && blocks + 1 < LAST_BLOCK
  {
    var start := blocks * MAX_PAYLOAD;
    Block(blocks + 1 + (if flags && LastTest(blocks, |data|) then LAST_BLOCK else 0),
          data[start..start + BlockSize(blocks, |data|)])
  }

  /** Number of calls of `writeNextBlock` that cover the data. */
  function BlockCount(size: nat): nat { (size + MAX_PAYLOAD - 1) / MAX_PAYLOAD }

  /** Files whose block numbers do not reach the last-block bit. */
  predicate Fits(data: seq<Byte>) { BlockCount(|data|) + 1 < LAST_BLOCK }

  lemma CountBounds(size: nat)
    ensures (BlockCount(size) - 1) * MAX_PAYLOAD < size <= BlockCount(size) * MAX_PAYLOAD
      || size == BlockCount(size) == 0
  {
    var n := BlockCount(size);
    assert n * MAX_PAYLOAD <= size + MAX_PAYLOAD - 1 < (n + 1) * MAX_PAYLOAD;
  }

  /** The first `n` blocks of an upload. */
  function UploadBlocks(flags: bool, data: seq<Byte>, n: nat): (r: seq<Block>)
    requires n <= BlockCount(|data|) && Fits(data)
    ensures |r| == n
  {
    CountBounds(|data|);
    if n == 0 then [] else UploadBlocks(flags, data, n - 1) + [UploadBlock(flags, data, n - 1)]
  }

  lemma {:induction false} UploadAt(flags: bool, data: seq<Byte>, n: nat, k: nat)
    requires k < n <= BlockCount(|data|) && Fits(data)
    ensures k * MAX_PAYLOAD < |data| && UploadBlocks(flags, data, n)[k] == UploadBlock(flags, data, k)
  {
    CountBounds(|data|);
    if k < n - 1 {
      UploadAt(flags, data, n - 1, k);
    }
  }

  lemma BytesStep(size: nat, n: nat)
    requires 0 < n <= BlockCount(size)
    ensures BytesSent(n - 1, size) == (n - 1) * MAX_PAYLOAD < size
    ensures BytesSent(n, size) == (n - 1) * MAX_PAYLOAD + BlockSize(n - 1, size) <= size
  {
    CountBounds(size);
  }

  lemma {:induction false} UploadPayloads(flags: bool, data: seq<Byte>, n: nat)
    requires n <= BlockCount(|data|) && Fits(data)
    ensures Payloads(UploadBlocks(flags, data, n)) == data[..BytesSent(n, |data|)]
  {
    if n > 0 {
      BytesStep(|data|, n);
      UploadPayloads(flags, data, n - 1);
      var blocks, from, to := UploadBlocks(flags, data, n), BytesSent(n - 1, |data|), BytesSent(n, |data|);
      assert blocks[..n - 1] == UploadBlocks(flags, data, n - 1);
      assert blocks[n - 1].data == data[from..to];
      assert data[..to] == data[..from] + data[from..to];
    }
  }

  lemma LastTestIff(size: nat, k: nat)
    requires k < BlockCount(size)
    ensures k * MAX_PAYLOAD < size && (LastTest(k, size) <==> k == BlockCount(size) - 1)
  {
    CountBounds(size);
  }

  /**
   Segmentation: the payloads of the first `n` blocks are the first `bytesSent()` bytes, all of the data once
   all calls were made.  Block `k` is the next 479 bytes, or what is left, under number `k + 1`, with the top bit on the
   one that ends the data, if there are flags; only that one passes the last-block test.
   */
  lemma Segmentation(flags: bool, data: seq<Byte>, n: nat)
    requires n <= BlockCount(|data|) && Fits(data)
    ensures Payloads(UploadBlocks(flags, data, n)) == data[..BytesSent(n, |data|)]
    ensures BytesSent(n, |data|) == |data| <==> n == BlockCount(|data|)
    ensures forall k :: 0 <= k < n ==>
      && IsBlock(flags, data, k, UploadBlocks(flags, data, n)[k])
      && (LastTest(k, |data|) <==> k == BlockCount(|data|) - 1)
  {
    CountBounds(|data|);
    UploadPayloads(flags, data, n);
    forall k | 0 <= k < n
      ensures IsBlock(flags, data, k, UploadBlocks(flags, data, n)[k])
      ensures LastTest(k, |data|) <==> k == BlockCount(|data|) - 1
    {
      UploadAt(flags, data, n, k);
      LastTestIff(|data|, k);
      BlockIs(flags, data, k);
    }
  }

  lemma BlockIs(flags: bool, data: seq<Byte>, k: nat)
    requires k * MAX_PAYLOAD < |data| && k + 1 < LAST_BLOCK
    ensures IsBlock(flags, data, k, UploadBlock(flags, data, k))
  {}

  predicate IsBlock(flags: bool, data: seq<Byte>, k: nat, b: Block) {
    && 479 * k < |data|
    && b.data == data[479 * k..if 479 * k + 479 < |data| then 479 * k + 479 else |data|]
    && b.number == k + 1 + if flags && 479 * k + 479 >= |data| then 0x8000_0000 else 0
  }

  // ----- From upload to download -----

  /** All blocks of a file as the reader expects them; an empty file is one empty last block. */
  function FileBlocks(data: seq<Byte>): (r: seq<Block>)
    requires Fits(data)
    ensures |r| == if data == [] then 1 else BlockCount(|data|)
  {
    if data == [] then [UploadBlock(true, data, 0)] else UploadBlocks(true, data, BlockCount(|data|))
  }

  lemma FileBlockAt(data: seq<Byte>, k: nat)
    requires Fits(data) && k < |FileBlocks(data)|
    ensures FileBlocks(data)[k].Index() == k + 1
    ensures FileBlocks(data)[k].Last() <==> k == |FileBlocks(data)| - 1
  {
    if data != [] {
      UploadAt(true, data, BlockCount(|data|), k);
      LastTestIff(|data|, k);
    }
  }

  lemma FilePayloads(data: seq<Byte>)
    requires Fits(data)
    ensures Payloads(FileBlocks(data)) == data
  {
    if data == [] {
      assert FileBlocks(data)[..0] == [];
    } else {
      UploadPayloads(true, data, BlockCount(|data|));
      CountBounds(|data|);
    }
  }

  /** The datagrams of a network that repeats, reorders and loses the blocks of a file. */
  function Deliveries(data: seq<Byte>, order: seq<nat>): (r: seq<Event>)
    requires Fits(data) && forall i :: 0 <= i < |order| ==> order[i] < |FileBlocks(data)|
    ensures |r| == |order|
  {
    seq(|order|, i requires 0 <= i < |order| => Arrive(0, FileBlocks(data)[order[i]]))
  }

  /** Length of the longest part of `order`, from its start, that reads 0, 1, 2, ... up to `n` entries. */
  function InOrder(order: seq<nat>, n: nat): (r: nat)
    ensures r <= n && r <= |order|
    ensures forall i :: 0 <= i < r ==> order[i] == i
    ensures r < n && r < |order| ==> order[r] != r
  {
    if n == 0 then 0
    else
      var m := InOrder(order, n - 1);
      if m == n - 1 && m < |order| && order[m] == m then n else m
  }

  /** The intended reader after any delivery of the blocks of a file. */
  lemma {:induction false} DeliverAny(data: seq<Byte>, order: seq<nat>)
    requires Fits(data) && forall i :: 0 <= i < |order| ==> order[i] < |FileBlocks(data)|
    ensures var m := InOrder(order, |FileBlocks(data)|);
      Delivered(data, DownloadRun(NewDownload(true), Deliveries(data, order)), m, |order|)
  {
    var blocks := FileBlocks(data);
    var n := |blocks|;
    if order != [] {
      var last := |order| - 1;
      var before := order[..last];
      DeliverAny(data, before);
      InOrderPrefix(order, n);
      assert Deliveries(data, order)[..last] == Deliveries(data, before);
      DeliverOne(data, DownloadRun(NewDownload(true), Deliveries(data, before)), InOrder(before, n), last, order[last]);
    }
  }

  /** The intended reader after `m` accepted blocks of a file out of `count` that arrived. */
  ghost predicate Delivered(data: seq<Byte>, d: Download, m: nat, count: nat)
    requires Fits(data) && m <= |FileBlocks(data)|
  {
    && d.counts && d.accepted == FileBlocks(data)[..m]
    && d.received == m && d.buffer == Payloads(d.accepted)
    && d.done == (d.calls != [])
    && d.calls == if m == |FileBlocks(data)| then [Success(data)] else if m < count then [Failure(Malformed)] else []
  }

  lemma DeliverOne(data: seq<Byte>, d: Download, m: nat, count: nat, k: nat)
    requires Fits(data) && m <= |FileBlocks(data)| && m <= count && k < |FileBlocks(data)|
      && Delivered(data, d, m, count)
    ensures Delivered(data, DownloadStep(d, Arrive(0, FileBlocks(data)[k])),
                      if m == count && m < |FileBlocks(data)| && k == m then m + 1 else m, count + 1)
  {
    var blocks := FileBlocks(data);
    FileBlockAt(data, k);
    if m == count && m < |blocks| && k == m {
      assert blocks[..m + 1] == blocks[..m] + [blocks[m]];
      assert (d.accepted + [blocks[m]])[..m] == d.accepted;
      FilePayloads(data);
      assert m + 1 == |blocks| ==> blocks[..m + 1] == blocks;
    }
  }

  lemma {:induction false} InOrderPrefix(order: seq<nat>, n: nat)
    requires order != []
    ensures var last := |order| - 1; var m := InOrder(order[..last], n);
      InOrder(order, n) == if m == last && m < n && order[last] == m then m + 1 else m
  {
    if n > 0 {
      InOrderPrefix(order, n - 1);
    }
  }

  /**
   Round trip.  Whatever order the blocks of a file arrive in, repeated or not and complete or not, the
   intended reader ends in success exactly when they start with the whole file in order, and then with exactly
   the data; as soon as a block arrives out of turn before that, it ends in an error.
   */
  lemma RoundTrip(data: seq<Byte>, order: seq<nat>)
    requires Fits(data) && forall i :: 0 <= i < |order| ==> order[i] < |FileBlocks(data)|
    ensures var d, n := DownloadRun(NewDownload(true), Deliveries(data, order)), |FileBlocks(data)|;
      && ((exists x :: d.calls == [Success(x)]) <==> n <= |order| && forall i :: 0 <= i < n ==> order[i] == i)
      && (forall x :: d.calls == [Success(x)] ==> x == data)
      && (d.calls == [Failure(Malformed)] <==> exists i :: 0 <= i < n && i < |order| && order[i] != i)
      && |d.calls| <= 1
  {
    DeliverAny(data, order);
    var n := |FileBlocks(data)|;
    var m := InOrder(order, n);
    var d := DownloadRun(NewDownload(true), Deliveries(data, order));
    if m == n {
      assert d.calls == [Success(data)];
    } else if m < |order| {
      assert order[m] != m;
    }
  }

  // ----- The reader as written -----

  lemma {:induction false} OneBlockAsWritten(data: seq<Byte>, order: seq<nat>)
    requires Fits(data) && |FileBlocks(data)| == 1 && forall i :: 0 <= i < |order| ==> order[i] == 0
    ensures var d := DownloadRun(NewDownload(false), Deliveries(data, order));
      (d.done <==> order != []) && d.calls == (if order == [] then [] else [Success(data)]) &&
      (order == [] ==> d == NewDownload(false))
  {
    if order != [] {
      var last := |order| - 1;
      OneBlockAsWritten(data, order[..last]);
      assert Deliveries(data, order)[..last] == Deliveries(data, order[..last]);
      FileBlockAt(data, 0);
      FilePayloads(data);
      assert [] + FileBlocks(data)[0].data == FileBlocks(data)[0].data == Payloads(FileBlocks(data)) by {
        assert FileBlocks(data)[..0] == [] && Payloads([]) == [];
      }
    }
  }

  lemma {:induction false} MoreBlocksAsWritten(data: seq<Byte>, order: seq<nat>)
    requires Fits(data) && |FileBlocks(data)| > 1 && forall i :: 0 <= i < |order| ==> order[i] < |FileBlocks(data)|
    ensures var d := DownloadRun(NewDownload(false), Deliveries(data, order));
      !d.counts && d.received == 0 && (d.done <==> d.calls != []) &&
      d.calls == if forall i :: 0 <= i < |order| ==> order[i] == 0 then [] else [Failure(Malformed)]
  {
    if order != [] {
      var last := |order| - 1;
      MoreBlocksAsWritten(data, order[..last]);
      assert Deliveries(data, order)[..last] == Deliveries(data, order[..last]);
      OneOfMoreAsWritten(data, DownloadRun(NewDownload(false), Deliveries(data, order[..last])), order[last]);
      assert forall i :: 0 <= i < last ==> order[..last][i] == order[i];
    }
  }

  lemma OneOfMoreAsWritten(data: seq<Byte>, d: Download, k: nat)
    requires Fits(data) && |FileBlocks(data)| > 1 && k < |FileBlocks(data)|
    requires !d.counts && d.received == 0 && (d.done <==> d.calls != [])
    ensures var d1 := DownloadStep(d, Arrive(0, FileBlocks(data)[k]));
      && !d1.counts && d1.received == 0 && (d1.done <==> d1.calls != [])
      && d1.calls == if d.calls == [] && k != 0 then [Failure(Malformed)] else d.calls
  {
    FileBlockAt(data, k);
  }

  /**
   As written, the reader only ever accepts block number 1.  So a file of a single block is read correctly; a
   file of more blocks never is: the reader waits while only the first block arrives, again and again, and
   ends in an error at any other.
   */
  lemma ReaderAsWritten(data: seq<Byte>, order: seq<nat>)
    requires Fits(data) && forall i :: 0 <= i < |order| ==> order[i] < |FileBlocks(data)|
    ensures DownloadRun(NewDownload(false), Deliveries(data, order)).calls ==
      if |data| <= MAX_PAYLOAD then (if order == [] then [] else [Success(data)])
      else if forall i :: 0 <= i < |order| ==> order[i] == 0 then [] else [Failure(Malformed)]
  {
    CountBounds(|data|);
    if |FileBlocks(data)| == 1 { OneBlockAsWritten(data, order); } else { MoreBlocksAsWritten(data, order); }
  }

  lemma TwoEvents(d: Download, a: Event, b: Event)
    ensures DownloadRun(d, [a, b]) == DownloadStep(DownloadStep(d, a), b)
  {
    assert [a, b][..1] == [a] && [a][..0] == [];
    assert DownloadRun(d, [a]) == DownloadStep(DownloadRun(d, []), a);
  }

  /** As written, a first block that arrives twice is taken twice, and the result is not the file. */
  lemma DuplicateTaken(x: seq<Byte>, y: seq<Byte>)
    ensures var events := [Arrive(0, Block(1, x)), Arrive(0, Block(1 + LAST_BLOCK, y))];
      && DownloadRun(NewDownload(false), events).calls == [Success(x + y)]
      && DownloadRun(NewDownload(true), events).calls == [Failure(Malformed)]
  {
    TwoEvents(NewDownload(false), Arrive(0, Block(1, x)), Arrive(0, Block(1 + LAST_BLOCK, y)));
    TwoEvents(NewDownload(true), Arrive(0, Block(1, x)), Arrive(0, Block(1 + LAST_BLOCK, y)));
    assert [] + x == x;
  }

  /** Without the last-block bit no download ends in success, whatever else arrives. */
  lemma {:induction false} NoFlagNoSuccess(counts: bool, events: seq<Event>)
    requires forall e :: e in events && e.Arrive? ==> !e.block.Last()
    ensures forall x :: DownloadRun(NewDownload(counts), events).calls != [Success(x)]
    ensures forall b :: b in DownloadRun(NewDownload(counts), events).accepted ==> !b.Last()
  {
    DownloadKeeps(counts, events);
    if events != [] {
      NoFlagNoSuccess(counts, events[..|events| - 1]);
    }
  }

  // ----- Upload session -----

  /** `sentBlocks` is `blocks_sent_`; `sent` lists the blocks handed to the socket; `None` is success. */
  datatype Upload = Upload(
    continues: bool, flags: bool, data: seq<Byte>, sentBlocks: nat, done: bool, registered: bool, timer: bool,
    sent: seq<Block>, calls: seq<Option<Error>>)

  datatype UploadEvent =
    | Ack(status: Byte, ack: bool, number: Word, size: nat)
    | UploadFail(why: Error)

  function NewUpload(continues: bool, flags: bool, data: seq<Byte>): Upload {
    Upload(continues, flags, data, 0, false, true, true, [], [])
  }

  function StopUpload(u: Upload, r: Option<Error>): Upload {
    if u.done then u else u.(done := true, timer := false, registered := false, calls := u.calls + [r])
  }

  /** `writeNextBlock` needs that not more than the file has been sent; the source does not check it. */
  function WriteNextBlock(u: Upload): Upload
    requires u.sentBlocks * MAX_PAYLOAD <= |u.data| && u.sentBlocks + 1 < LAST_BLOCK
  {
    u.(sent := u.sent + [UploadBlock(u.flags, u.data, u.sentBlocks)], sentBlocks := u.sentBlocks + 1)
  }

  function OnAck(u: Upload, e: UploadEvent): Upload
    requires Fits(u.data) && u.sentBlocks <= BlockCount(|u.data|) && e.Ack?
  {
    if u.done then u
    else if e.status != 0 then StopUpload(u, Some(CommandFailed))
    else if e.size != 0 then StopUpload(u, Some(Malformed))
    else if !e.ack then StopUpload(u, Some(Malformed))
    else if ToInt32(e.number) != u.sentBlocks then StopUpload(u, Some(Malformed))
    else
      SentAll(|u.data|, u.sentBlocks);
      if BytesSent(u.sentBlocks, |u.data|) >= |u.data| then StopUpload(u, None)
      else if u.continues then WriteNextBlock(u)
      else u
  }

  ghost predicate UploadInv(u: Upload) {
    && Fits(u.data) && u.sentBlocks <= BlockCount(|u.data|)
    && u.sent == UploadBlocks(u.flags, u.data, u.sentBlocks)
    && (!u.continues ==> u.sentBlocks == 0)
    && (if u.calls == [] then !u.done && u.registered && u.timer
        else
          && |u.calls| == 1 && u.done && !u.registered && !u.timer
          && (u.calls[0].None? ==> u.sentBlocks == BlockCount(|u.data|)))
  }

  function UploadStep(u: Upload, e: UploadEvent): Upload
    requires Fits(u.data) && u.sentBlocks <= BlockCount(|u.data|)
  {
    match e
    case Ack(_, _, _, _) => OnAck(u, e)
    case UploadFail(why) => StopUpload(u, Some(why))
  }

  lemma SentAll(size: nat, n: nat)
    requires n <= BlockCount(size)
    ensures BytesSent(n, size) >= size <==> n == BlockCount(size)
    ensures n < BlockCount(size) ==> n * MAX_PAYLOAD <= size
  {
    CountBounds(size);
    if n < BlockCount(size) {
      BytesStep(size, n + 1);
    }
  }

  lemma UploadStepKeeps(u: Upload, e: UploadEvent)
    requires UploadInv(u)
    ensures UploadInv(UploadStep(u, e))
    ensures var u1 := UploadStep(u, e); u1.data == u.data && u1.flags == u.flags && u1.continues == u.continues
  {
    if u.continues && !u.done && u.sentBlocks < BlockCount(|u.data|) { WriteNextKeeps(u); }
    SentAll(|u.data|, u.sentBlocks);
  }

  lemma WriteNextKeeps(u: Upload)
    requires UploadInv(u) && u.continues && !u.done && u.sentBlocks < BlockCount(|u.data|)
    ensures u.sentBlocks * MAX_PAYLOAD <= |u.data| && UploadInv(WriteNextBlock(u))
  {
    SentAll(|u.data|, u.sentBlocks);
  }

  ghost function UploadRun(u: Upload, events: seq<UploadEvent>): (r: Upload)
    requires UploadInv(u)
    ensures UploadInv(r) && r.data == u.data && r.flags == u.flags && r.continues == u.continues
    decreases |events|
  {
    if events == [] then u else (UploadStepKeeps(u, events[0]); UploadRun(UploadStep(u, events[0]), events[1..]))
  }

  /**
   In every run: the blocks sent are the first `blocks_sent_` blocks of the file, in order; the callback runs
   at most once; and success means that the whole file was sent and acknowledged.
   */
  lemma UploadKeeps(continues: bool, flags: bool, data: seq<Byte>, events: seq<UploadEvent>)
    requires Fits(data)
    ensures UploadInv(NewUpload(continues, flags, data))
    ensures var u := UploadRun(NewUpload(continues, flags, data), events);
      && u.sent == UploadBlocks(flags, data, u.sentBlocks) && |u.calls| <= 1
      && (u.calls == [None] ==> Payloads(u.sent) == data)
  {
    var u := UploadRun(NewUpload(continues, flags, data), events);
    Segmentation(flags, data, u.sentBlocks);
  }

  lemma {:induction false} UploadSnoc(u: Upload, before: seq<UploadEvent>, e: UploadEvent)
    requires UploadInv(u)
    ensures UploadRun(u, before + [e]) == UploadStep(UploadRun(u, before), e)
    decreases |before|
  {
    if before == [] {
      assert before + [e] == [e] && [e][1..] == [];
    } else {
      UploadStepKeeps(u, before[0]);
      UploadSnoc(UploadStep(u, before[0]), before[1..], e);
      assert (before + [e])[1..] == before[1..] + [e];
    }
  }

  /** A writer that goes on has sent a block for each event, as long as the callback has not run. */
  lemma {:induction false} SentForEach(u: Upload, events: seq<UploadEvent>)
    requires UploadInv(u) && UploadRun(u, events).calls == []
    ensures u.calls == [] && UploadRun(u, events).sentBlocks == if u.continues then u.sentBlocks + |events| else 0
    decreases |events|
  {
    if events != [] {
      UploadStepKeeps(u, events[0]);
      SentForEach(UploadStep(u, events[0]), events[1..]);
    }
  }

  /**
   The verdict on the next acknowledgement.  As long as the callback has not run, one block was sent for each event;
   then a failure is reported as it is, a status other than 0 as a failed command, and a payload, a missing
   acknowledgement or another number than that of the last block as malformed; with a proper acknowledgement it
   is a success exactly if all bytes were sent.
   */
  lemma WriterVerdict(continues: bool, flags: bool, data: seq<Byte>, before: seq<UploadEvent>, e: UploadEvent)
    requires Fits(data)
    ensures UploadInv(NewUpload(continues, flags, data))
    ensures var u, u1 := UploadRun(NewUpload(continues, flags, data), before),
                         UploadRun(NewUpload(continues, flags, data), before + [e]);
      u.calls == [] ==> WriterDecides(u, u1, if continues then |before| else 0, e)
  {
    var u := UploadRun(NewUpload(continues, flags, data), before);
    UploadSnoc(NewUpload(continues, flags, data), before, e);
    CountBounds(|data|);
    if u.calls == [] {
      SentForEach(NewUpload(continues, flags, data), before);
      if e.Ack? { AckDecides(u, e); }
    }
  }

  lemma AckDecides(u: Upload, e: UploadEvent)
    requires UploadInv(u) && u.calls == [] && e.Ack?
    ensures WriterDecides(u, OnAck(u, e), u.sentBlocks, e)
  {
    SentAll(|u.data|, u.sentBlocks);
    CountBounds(|u.data|);
    if u.sentBlocks < BlockCount(|u.data|) {
      LastTestIff(|u.data|, u.sentBlocks);
      BlockIs(u.flags, u.data, u.sentBlocks);
    }
  }

  ghost predicate WriterDecides(u: Upload, u1: Upload, expected: nat, e: UploadEvent) {
    match e
    case UploadFail(why) => u1.calls == [Some(why)] && u1.sent == u.sent
    case Ack(status, ack, number, size) =>
      if status != 0 then u1.calls == [Some(CommandFailed)] && u1.sent == u.sent
      else if size != 0 || !ack || number != expected then u1.calls == [Some(Malformed)] && u1.sent == u.sent
      else if 479 * expected >= |u.data| then u1.calls == [None] && u1.sent == u.sent
      else
        && u1.calls == [] && |u1.sent| == |u.sent| + (if u.continues then 1 else 0) && u.sent <= u1.sent
        && (u.continues ==> IsBlock(u.flags, u.data, expected, u1.sent[|u.sent|]))
  }

  /** Nothing changes after the callback. */
  lemma {:induction false} WriterStays(u: Upload, events: seq<UploadEvent>)
    requires UploadInv(u) && u.calls != []
    ensures UploadRun(u, events) == u
    decreases |events|
  {
    if events != [] { WriterStays(u, events[1..]); }
  }

  /** As written, an upload can succeed exactly when the file is empty: no block is ever sent. */
  lemma WriterAsWritten(flags: bool, data: seq<Byte>)
    requires Fits(data)
    ensures (exists events :: UploadRun(NewUpload(false, flags, data), events).calls == [None]) <==> data == []
    ensures forall events :: UploadRun(NewUpload(false, flags, data), events).sent == []
  {
    CountBounds(|data|);
    if data == [] {
      var events := [Ack(0, true, 0, 0)];
      assert events[1..] == [];
      assert UploadRun(NewUpload(false, flags, data), events).calls == [None];
    }
  }

  /** The acknowledgements `from` to `n`. */
  function Acks(from: nat, n: nat): seq<UploadEvent>
    requires from <= n + 1 && n < LAST_BLOCK
    decreases n - from + 1
  {
    if from == n + 1 then [] else [Ack(0, true, from, 0)] + Acks(from + 1, n)
  }

  lemma UploadOne(u: Upload)
    requires UploadInv(u) && u.continues && u.calls == []
    ensures var n := BlockCount(|u.data|); var u1 := UploadStep(u, Ack(0, true, u.sentBlocks, 0));
      && UploadInv(u1) && u1.data == u.data && u1.flags == u.flags && u1.continues
      && (if u.sentBlocks < n then u1.calls == [] && u1.sentBlocks == u.sentBlocks + 1
          else u1.calls == [None] && u1.sentBlocks == n)
  {
    SentAll(|u.data|, u.sentBlocks);
    UploadStepKeeps(u, Ack(0, true, u.sentBlocks, 0));
  }

  lemma {:induction false} UploadGoesOn(u: Upload)
    requires UploadInv(u) && u.continues && u.calls == []
    ensures var n := BlockCount(|u.data|); var u1 := UploadRun(u, Acks(u.sentBlocks, n));
      u1.calls == [None] && u1.sentBlocks == n
    decreases BlockCount(|u.data|) - u.sentBlocks
  {
    var n, e := BlockCount(|u.data|), Ack(0, true, u.sentBlocks, 0);
    var u1 := UploadStep(u, e);
    UploadOne(u);
    assert Acks(u.sentBlocks, n)[1..] == Acks(u.sentBlocks + 1, n);
    if u.sentBlocks < n {
      UploadGoesOn(u1);
    } else {
      assert Acks(n + 1, n) == [];
    }
  }

  /**
   The intended writer, acknowledged block by block, ends in success for every file.  What it sent, delivered in order
   to the intended reader, ends in success with exactly the file, unless the file is empty: then the writer sends no
   block, and the reader waits for one.
   */
  lemma EndToEnd(data: seq<Byte>)
    requires Fits(data)
    ensures UploadInv(NewUpload(true, true, data))
    ensures var u := UploadRun(NewUpload(true, true, data), Acks(0, BlockCount(|data|)));
      && u.calls == [None]
      && DownloadRun(NewDownload(true), Arrivals(u.sent)).calls == if data == [] then [] else [Success(data)]
  {
    UploadGoesOn(NewUpload(true, true, data));
    var u := UploadRun(NewUpload(true, true, data), Acks(0, BlockCount(|data|)));
    if data != [] {
      var order := seq(|u.sent|, i => i);
      RoundTripInOrder(data, order);
      assert Deliveries(data, order) == Arrivals(u.sent);
    }
  }

  /** The reader needs the empty last block that the writer leaves out. */
  lemma EmptyFile()
    ensures Fits([]) && UploadBlocks(true, [], BlockCount(0)) == [] && FileBlocks([]) == [Block(1 + LAST_BLOCK, [])]
    ensures DownloadRun(NewDownload(true), Arrivals(FileBlocks([]))).calls == [Success([])]
  {
    RoundTripInOrder([], [0]);
    assert Deliveries([], [0]) == Arrivals(FileBlocks([]));
  }

  lemma RoundTripInOrder(data: seq<Byte>, order: seq<nat>)
    requires Fits(data) && |order| == |FileBlocks(data)| && forall i :: 0 <= i < |order| ==> order[i] == i
    ensures DownloadRun(NewDownload(true), Deliveries(data, order)).calls == [Success(data)]
  {
    RoundTrip(data, order);
  }
}
