/** The two file session objects, updated in place and proved against the functions of module FileTransfer. */
module FileObjects {
  import opened Common
  import opened FileTransfer

  class ReadFileSession {
    /** False in the source; see module FileTransfer. */
    const counts: bool
    var blocksReceived: nat
    var readBuffer: seq<Byte>
    var done: bool
    var registered: bool
    var timer: bool
    var acks: seq<nat>
    var calls: seq<Outcome>
    ghost var accepted: seq<Block>

    /** Constructed and started. */
    constructor (counts: bool)
      ensures this.counts == counts && View() == NewDownload(counts)
    {
      this.counts := counts;
      blocksReceived, readBuffer, done, registered, timer := 0, [], false, true, true;
      acks, calls, accepted := [], [], [];
    }

    ghost function View(): Download
      reads this
    {
      Download(counts, blocksReceived, readBuffer, done, registered, timer, acks, accepted, calls)
    }

    method StopSession(result: Outcome)
      modifies this
      ensures View() == StopDownload(old(View()), result)
    {
      if done { return; }
      done := true;
      timer := false;
      registered := false;
      calls := calls + [result];
    }

    method OnResponse(status: Byte, block: Block)
      modifies this
      ensures View() == OnBlock(old(View()), status, block)
    {
      if done { return; }
      if status != 0 {
        StopSession(Failure(CommandFailed));
        return;
      }
      var number, lastBlock := block.number % LAST_BLOCK, block.number >= LAST_BLOCK;
      if number != blocksReceived + 1 {
        StopSession(Failure(Malformed));
        return;
      }
      acks := acks + [number];
      accepted := accepted + [block];
      if counts {
        blocksReceived := blocksReceived + 1;
      }
      readBuffer := readBuffer + block.data;
      if lastBlock {
        StopSession(Success(readBuffer));
      }
    }
  }

  class WriteFileSession {
    /** Both false in the source; see module FileTransfer. */
    const continues: bool
    const flags: bool
    const data: seq<Byte>
    var blocksSent: nat
    var done: bool
    var registered: bool
    var timer: bool
    var sent: seq<Block>
    var calls: seq<Option<Error>>

    /** Constructed and started. */
    constructor (continues: bool, flags: bool, data: seq<Byte>)
      ensures this.data == data && View() == NewUpload(continues, flags, data)
    {
      this.continues, this.flags, this.data := continues, flags, data;
      blocksSent, done, registered, timer, sent, calls := 0, false, true, true, [], [];
    }

    ghost function View(): Upload
      reads this
    {
      Upload(continues, flags, data, blocksSent, done, registered, timer, sent, calls)
    }

    /** Bytes of the file covered by the blocks sent: never more than the file. */
    method BytesSent() returns (n: nat)
      ensures n == FileTransfer.BytesSent(blocksSent, |data|)
      ensures n <= |data| && n <= blocksSent * MAX_PAYLOAD && (n == |data| || n == blocksSent * MAX_PAYLOAD)
    {
      var bytes := blocksSent * MAX_PAYLOAD;
      n := if bytes < |data| then bytes else |data|;
    }

    method WriteNextBlock()
      requires blocksSent * MAX_PAYLOAD <= |data| && blocksSent + 1 < LAST_BLOCK
      modifies this`sent, this`blocksSent
      ensures View() == FileTransfer.WriteNextBlock(old(View()))
    {
      var bytesSent := blocksSent * MAX_PAYLOAD;
      var remaining := |data| - bytesSent;
      var blockSize := if remaining < MAX_PAYLOAD then remaining else MAX_PAYLOAD;
      var number := blocksSent + 1;
      if flags && bytesSent + blockSize == |data| {
        number := number + LAST_BLOCK;
      }
      sent := sent + [Block(number, data[bytesSent..bytesSent + blockSize])];
      blocksSent := blocksSent + 1;
    }

    method StopSession(result: Option<Error>)
      modifies this
      ensures View() == StopUpload(old(View()), result)
    {
      if done { return; }
      done := true;
      timer := false;
      registered := false;
      calls := calls + [result];
    }

    method OnResponse(status: Byte, ack: bool, number: Word, size: nat)
      requires UploadInv(View())
      modifies this
      ensures UploadInv(View()) && View() == OnAck(old(View()), Ack(status, ack, number, size))
    {
      UploadStepKeeps(View(), Ack(status, ack, number, size));
      SentAll(|data|, blocksSent);
      if done { return; }
      if status != 0 { StopSession(Some(CommandFailed)); return; }
      if size != 0 { StopSession(Some(Malformed)); return; }
      if !ack { StopSession(Some(Malformed)); return; }
      if ToInt32(number) != blocksSent { StopSession(Some(Malformed)); return; }
      var bytes := BytesSent();
      if bytes >= |data| {
        StopSession(None);
      } else if continues {
        WriteNextBlock();
      }
    }
  }
}
