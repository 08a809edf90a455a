/** The blocks of files as datagrams: a header of 32 bytes and the payload. */
module FileWire {
  import opened Common
  import opened Wire
  import opened FileTransfer

  const READ_FILE: Byte := 0x16
  const WRITE_FILE: Byte := 0x15

  // ----- What the reader receives and sends -----

  /** What the robot may put into the header of a block as it likes. */
  datatype Free = Free(service: Byte, extraStatus: Half, reserved: seq<Byte>, added: Byte, padding: seq<Byte>) {
    predicate Valid() { |reserved| == 8 && |padding| == 3 }
  }

  /** The reply with a block to request `id`. */
  function BlockReply(b: Block, id: Byte, free: Free): seq<Byte>
    requires free.Valid() && |b.data| < 0x1_0000
  {
    EncodeResponse(ResponseHeader(|b.data|, FILE_DIVISION, true, id, b.number, free.service, 0, free.extraStatus),
                   free.reserved, free.added, free.padding, b.data)
  }

  /** What `Client::onReceive` hands to the session of request `id`, if anything. */
  function Received(id: Byte, datagram: seq<Byte>): Option<Event> {
    if GoodResponse(datagram) && ResponseAt(datagram).requestId == id then
      Some(Arrive(ResponseAt(datagram).status, Block(ResponseAt(datagram).blockNumber, datagram[HEADER_SIZE..])))
    else None
  }

  /** A block arrives as it was sent, exactly if it fits into a reply. */
  lemma BlockArrives(b: Block, id: Byte, free: Free)
    requires free.Valid() && |b.data| < 0x1_0000
    ensures Received(id, BlockReply(b, id, free)) == if |b.data| <= MAX_PAYLOAD then Some(Arrive(0, b)) else None
  {
    var h := ResponseHeader(|b.data|, FILE_DIVISION, true, id, b.number, free.service, 0, free.extraStatus);
    ResponseRoundTrip(h, free.reserved, free.added, free.padding, b.data);
  }

  /** The events of a session, from all datagrams that the client receives. */
  function Events(id: Byte, datagrams: seq<seq<Byte>>): seq<Event> {
    if datagrams == [] then []
    else
      var n := |datagrams| - 1;
      Events(id, datagrams[..n]) + (match Received(id, datagrams[n]) case None => [] case Some(e) => [e])
  }

  /** Entries that are there. */
  function Present(sent: seq<Option<nat>>): seq<nat> {
    if sent == [] then []
    else
      var n := |sent| - 1;
      Present(sent[..n]) + (match sent[n] case None => [] case Some(k) => [k])
  }

  /** Each datagram is the block of the file that `sent` says, or none for this session. */
  ghost predicate Carries(data: seq<Byte>, id: Byte, datagrams: seq<seq<Byte>>, sent: seq<Option<nat>>)
    requires Fits(data)
  {
    |datagrams| == |sent| && forall i :: 0 <= i < |sent| ==> CarriesOne(data, id, datagrams[i], sent[i])
  }

  ghost predicate CarriesOne(data: seq<Byte>, id: Byte, datagram: seq<Byte>, sent: Option<nat>)
    requires Fits(data)
  {
    match sent
    case None => Received(id, datagram) == None
    case Some(k) =>
      && k < |FileBlocks(data)| && |FileBlocks(data)[k].data| < 0x1_0000
      && exists free: Free :: free.Valid() && datagram == BlockReply(FileBlocks(data)[k], id, free)
  }

  lemma FileBlockSize(data: seq<Byte>, k: nat)
    requires Fits(data) && k < |FileBlocks(data)|
    ensures |FileBlocks(data)[k].data| <= MAX_PAYLOAD
  {
    if data != [] { UploadAt(true, data, BlockCount(|data|), k); }
  }

  lemma {:induction false} PresentInRange(data: seq<Byte>, id: Byte, datagrams: seq<seq<Byte>>, sent: seq<Option<nat>>)
    requires Fits(data) && Carries(data, id, datagrams, sent)
    ensures forall i :: 0 <= i < |Present(sent)| ==> Present(sent)[i] < |FileBlocks(data)|
    decreases |sent|
  {
    if sent != [] {
      var n := |sent| - 1;
      PresentInRange(data, id, datagrams[..n], sent[..n]);
      assert CarriesOne(data, id, datagrams[n], sent[n]);
    }
  }

  lemma {:induction false} EventsAreDeliveries(data: seq<Byte>, id: Byte, datagrams: seq<seq<Byte>>,
    sent: seq<Option<nat>>)
    requires Fits(data) && Carries(data, id, datagrams, sent)
    requires forall i :: 0 <= i < |Present(sent)| ==> Present(sent)[i] < |FileBlocks(data)|
    ensures Events(id, datagrams) == Deliveries(data, Present(sent))
    decreases |sent|
  {
    if sent != [] {
      var n := |sent| - 1;
      PresentInRange(data, id, datagrams[..n], sent[..n]);
      EventsAreDeliveries(data, id, datagrams[..n], sent[..n]);
      assert CarriesOne(data, id, datagrams[n], sent[n]);
      if sent[n].Some? {
        var k := sent[n].value;
        var free: Free :| free.Valid() && datagrams[n] == BlockReply(FileBlocks(data)[k], id, free);
        FileBlockSize(data, k);
        BlockArrives(FileBlocks(data)[k], id, free);
      }
    }
  }

  /**
   The round trip in bytes: among any other datagrams that the client receives, the intended reader ends in success
   exactly if the blocks for it begin with the whole file in order, and then with exactly the file.
   */
  lemma BytesRoundTrip(data: seq<Byte>, id: Byte, datagrams: seq<seq<Byte>>, sent: seq<Option<nat>>)
    requires Fits(data) && Carries(data, id, datagrams, sent)
    ensures var d, order, n := DownloadRun(NewDownload(true), Events(id, datagrams)), Present(sent), |FileBlocks(data)|;
      && ((exists x :: d.calls == [Success(x)]) <==> n <= |order| && forall i :: 0 <= i < n ==> order[i] == i)
      && (forall x :: d.calls == [Success(x)] ==> x == data)
      && (d.calls == [Failure(Malformed)] <==> exists i :: 0 <= i < n && i < |order| && order[i] != i)
      && |d.calls| <= 1
  {
    PresentInRange(data, id, datagrams, sent);
    EventsAreDeliveries(data, id, datagrams, sent);
    RoundTrip(data, Present(sent));
  }

  /** `writeAck`: the acknowledgement of a block. */
  function AckRequest(number: Word, id: Byte): seq<Byte> {
    EncodeHeader(RequestHeader(0, FILE_DIVISION, true, id, number, 0, 0, 0, READ_FILE))
  }

  // ----- What the writer sends and receives -----

  /** The datagram of `writeNextBlock`. */
  function BlockRequest(b: Block, id: Byte): seq<Byte>
    requires |b.data| < 0x1_0000
  {
    EncodeHeader(RequestHeader(|b.data|, FILE_DIVISION, false, id, b.number, 0, 0, 0, WRITE_FILE)) + b.data
  }

  /** How the robot finds a block in a datagram, by the places of the fields. */
  function BlockIn(datagram: seq<Byte>): Block
    requires |datagram| >= HEADER_SIZE
  {
    PowValues();
    UnsignedBound(datagram[12..16]);
    Block(Unsigned(datagram[12..16]), datagram[HEADER_SIZE..])
  }

  /**
   The robot gets the block that was sent, in a request of the file division to write; the acknowledgement of the reader
   has the number of the block and no payload, and belongs to the service that reads.
   */
  lemma BlockSent(b: Block, id: Byte)
    requires |b.data| <= MAX_PAYLOAD
    ensures var d := BlockRequest(b, id);
      && HeaderIs(d, |b.data|, 2, 0, id, b.number, 0, 0, 0, 0x15)
      && |d| == 32 + |b.data| && d[32..] == b.data && BlockIn(d) == b
    ensures var a := AckRequest(b.number, id);
      && HeaderIs(a, 0, 2, 1, id, b.number, 0, 0, 0, 0x16) && |a| == 32 && BlockIn(a) == Block(b.number, [])
  {
    HeaderLayout(RequestHeader(0, FILE_DIVISION, true, id, b.number, 0, 0, 0, READ_FILE));
    var d := HeaderInPlace(RequestHeader(|b.data|, FILE_DIVISION, false, id, b.number, 0, 0, 0, WRITE_FILE), b.data);
  }

  /** An acknowledgement of the robot as `onResponse` of the writer sees it. */
  function Acknowledged(id: Byte, datagram: seq<Byte>): Option<UploadEvent> {
    if GoodResponse(datagram) && ResponseAt(datagram).requestId == id then
      var h := ResponseAt(datagram);
      Some(Ack(h.status, h.ack, h.blockNumber, |datagram| - HEADER_SIZE))
    else None
  }

  lemma AckArrives(number: Word, id: Byte, free: Free)
    requires free.Valid()
    ensures Acknowledged(id, BlockReply(Block(number, []), id, free)) == Some(Ack(0, true, number, 0))
  {
    var h := ResponseHeader(0, FILE_DIVISION, true, id, number, free.service, 0, free.extraStatus);
    ResponseRoundTrip(h, free.reserved, free.added, free.padding, []);
  }

  /** Both sessions see every good response with their id, and find its fields in the same places. */
  lemma FieldsReceived(id: Byte, d: seq<Byte>)
    ensures Received(id, d).Some? <==> GoodResponse(d) && d[11] == id
    ensures Acknowledged(id, d).Some? <==> GoodResponse(d) && d[11] == id
    ensures GoodResponse(d) && d[11] == id ==> var e, a := Received(id, d).value, Acknowledged(id, d).value;
      && e.Arrive? && e.status == d[25] && e.block.number == Unsigned(d[12..16]) && e.block.data == d[32..]
      && a.Ack? && a.status == d[25] && a.ack && a.number == Unsigned(d[12..16]) && a.size == |d| - 32
  {
    ResponseLayout(d);
  }

  // ----- From writer to reader -----

  function Requests(blocks: seq<Block>, id: Byte): (r: seq<seq<Byte>>)
    requires forall i :: 0 <= i < |blocks| ==> |blocks[i].data| < 0x1_0000
    ensures |r| == |blocks|
  {
    seq(|blocks|, i requires 0 <= i < |blocks| => BlockRequest(blocks[i], id))
  }

  /** The robot sends what it got, to request `id`. */
  function Replies(requests: seq<seq<Byte>>, id: Byte, free: Free): (r: seq<seq<Byte>>)
    requires free.Valid()
    requires forall i :: 0 <= i < |requests| ==> HEADER_SIZE <= |requests[i]| < 0x1_0000
    ensures |r| == |requests|
  {
    seq(|requests|, i requires 0 <= i < |requests| => BlockReply(BlockIn(requests[i]), id, free))
  }

  predicate Small(blocks: seq<Block>) {
    forall i :: 0 <= i < |blocks| ==> |blocks[i].data| <= MAX_PAYLOAD
  }

  /** The writer's blocks are those of the file, and small. */
  lemma UploadSmall(data: seq<Byte>)
    requires Fits(data)
    ensures UploadInv(NewUpload(true, true, data))
    ensures Small(UploadRun(NewUpload(true, true, data), Acks(0, BlockCount(|data|))).sent)
  {
    UploadGoesOn(NewUpload(true, true, data));
    var n := BlockCount(|data|);
    forall k | 0 <= k < n ensures |UploadBlocks(true, data, n)[k].data| <= MAX_PAYLOAD { UploadAt(true, data, n, k); }
  }

  /** A robot that reads the requests by the places of their fields, and sends back what it stored. */
  lemma StoredAndSent(blocks: seq<Block>, writer: Byte, reader: Byte, free: Free)
    requires Small(blocks) && free.Valid()
    ensures forall i :: 0 <= i < |blocks| ==> HEADER_SIZE <= |Requests(blocks, writer)[i]| < 0x1_0000
    ensures Events(reader, Replies(Requests(blocks, writer), reader, free)) == Arrivals(blocks)
  {
    var requests := Requests(blocks, writer);
    forall i | 0 <= i < |blocks| ensures HEADER_SIZE <= |requests[i]| < 0x1_0000 && BlockIn(requests[i]) == blocks[i] {
      BlockSent(blocks[i], writer);
    }
    SentBack(blocks, Replies(requests, reader, free), reader, free);
  }

  /**
   A file sent block by block by the intended writer, stored by the robot and sent back by it, is read by the intended
   reader as exactly the file; an empty file is not sent at all.
   */
  lemma EndToEndInBytes(data: seq<Byte>, writer: Byte, reader: Byte, free: Free)
    requires Fits(data) && free.Valid()
    ensures UploadInv(NewUpload(true, true, data))
    ensures var u := UploadRun(NewUpload(true, true, data), Acks(0, BlockCount(|data|)));
      && u.calls == [None] && Small(u.sent)
      && (forall i :: 0 <= i < |u.sent| ==> HEADER_SIZE <= |Requests(u.sent, writer)[i]| < 0x1_0000)
      && DownloadRun(NewDownload(true), Events(reader, Replies(Requests(u.sent, writer), reader, free))).calls
         == if data == [] then [] else [Success(data)]
  {
    EndToEnd(data);
    UploadSmall(data);
    StoredAndSent(UploadRun(NewUpload(true, true, data), Acks(0, BlockCount(|data|))).sent, writer, reader, free);
  }

  lemma {:induction false} SentBack(blocks: seq<Block>, datagrams: seq<seq<Byte>>, id: Byte, free: Free)
    requires free.Valid() && |datagrams| == |blocks|
    requires forall i :: 0 <= i < |blocks| ==>
      |blocks[i].data| <= MAX_PAYLOAD && datagrams[i] == BlockReply(blocks[i], id, free)
    ensures Events(id, datagrams) == Arrivals(blocks)
  {
    if blocks != [] {
      var n := |blocks| - 1;
      SentBack(blocks[..n], datagrams[..n], id, free);
      BlockArrives(blocks[n], id, free);
    }
  }
}
