/** The requests: a header of 32 bytes and the payload it announces. */
module Commands {
  import opened Common
  import opened Wire
  import opened Positions
  import opened Variables

  /** `enum class CoordinateSystemType` */
  datatype SystemType = RobotPulse | BasePulse | StationPulse | RobotCartesian

  /** `enum class SpeedType` */
  datatype SpeedType = Joint | Translation | Rotation

  datatype Command =
    | ReadStatus
    | ReadCurrentPosition(group: int, system: SystemType)
    | MoveL(group: int, target: Position, speedType: SpeedType, speed: Word)
    | ReadVar(t: Type, index: Byte)
    | ReadVars(t: Type, index: Byte, count: Byte)
    | WriteVar(t: Type, index: Byte, value: Value)
    | WriteVars(t: Type, index: Byte, values: seq<Value>)
    | ReadFileList(name: seq<Byte>)
    | ReadFile(name: seq<Byte>)
    | WriteFile(name: seq<Byte>)
    | DeleteFile(name: seq<Byte>)

  /** Arguments that the types of the source can hold. */
  predicate Sendable(c: Command) {
    match c
    case MoveL(group, target, _, _) => Int32(group + 1) && target.Cartesian? && Valid(target)
    case WriteVar(t, _, value) => HasType(value, t)
    case WriteVars(t, _, values) => AllOfType(values, t)
    case _ => true
  }

  const GET_ALL: Byte := 0x01
  const SET_ALL: Byte := 0x02
  const READ_MULTIPLE: Byte := 0x33
  const WRITE_MULTIPLE: Byte := 0x34
  const READ_STATUS: Half := 0x72
  const READ_POSITION: Half := 0x75

  /** `udp_command` of the commands for one variable and for many */
  function SingleCommand(t: Type): Half {
    match t
    case U8 => 0x7a
    case I16 => 0x7b
    case I32 => 0x7c
    case F32 => 0x7d
    case PositionType => 0x7f
  }

  function MultipleCommand(t: Type): Half {
    match t
    case U8 => 0x302
    case I16 => 0x303
    case I32 => 0x304
    case F32 => 0x305
    case PositionType => 0x307
  }

  function Instance(system: SystemType): int {
    match system
    case RobotPulse => 1
    case BasePulse => 11
    case StationPulse => 21
    case RobotCartesian => 101
  }

  /** `makeRobotRequestHeader`; sizes and instances are cut to 16 bits. */
  function RobotHeader(
    payloadSize: nat, command: Half, instance: int, attribute: Byte, service: Byte, id: Byte): RequestHeader
  {
    RequestHeader(payloadSize % 0x1_0000, ROBOT_DIVISION, false, id, 0,
                  command, instance % 0x1_0000, attribute, service)
  }

  /** `makeFileRequestHeader` for the first message of a file command */
  function FileHeader(payloadSize: nat, service: Byte, id: Byte): RequestHeader {
    RequestHeader(payloadSize % 0x1_0000, FILE_DIVISION, false, id, 0, 0, 0, 0, service)
  }

  function ReadHeader(t: Type, index: Byte, count: Byte, id: Byte): RequestHeader {
    if count == 1 then RobotHeader(0, SingleCommand(t), index, 0, GET_ALL, id)
    else RobotHeader(4, MultipleCommand(t), index, 0, READ_MULTIPLE, id)
  }

  function WriteHeader(t: Type, index: Byte, count: nat, id: Byte): RequestHeader {
    if count == 1 then RobotHeader(Size(t), SingleCommand(t), index, 0, SET_ALL, id)
    else RobotHeader(4 + count * Size(t), MultipleCommand(t), index, 0, WRITE_MULTIPLE, id)
  }

  function HeaderOf(c: Command, id: Byte): RequestHeader {
    match c
    case ReadStatus => RobotHeader(0, READ_STATUS, 1, 0, GET_ALL, id)
    case ReadCurrentPosition(group, system) => RobotHeader(0, READ_POSITION, group + Instance(system), 0, GET_ALL, id)
    case MoveL(_, _, _, _) => RobotHeader(26 * 4, READ_POSITION, 2, 1, GET_ALL, id)
    case ReadVar(t, index) => RobotHeader(0, SingleCommand(t), index, 0, GET_ALL, id)
    case ReadVars(t, index, count) => ReadHeader(t, index, count, id)
    case WriteVar(t, index, _) => RobotHeader(Size(t), SingleCommand(t), index, 0, SET_ALL, id)
    case WriteVars(t, index, values) => WriteHeader(t, index, |values|, id)
    case ReadFileList(name) => FileHeader(|name|, 0x32, id)
    case ReadFile(name) => FileHeader(|name|, 0x16, id)
    case WriteFile(name) => FileHeader(|name|, 0x15, id)
    case DeleteFile(name) => FileHeader(|name|, 0x09, id)
  }

  /** `systemToMoveLSystem`: not the numbers that positions use; user frames and the tool frame are exchanged. */
  function MoveFrame(frame: int): Option<Word> {
    if frame == BASE then Some(16)
    else if frame == ROBOT then Some(17)
    else if IsUser(frame) then Some(18)
    else if frame == TOOL then Some(19)
    else None
  }

  function SpeedNumber(speedType: SpeedType): Word {
    match speedType
    case Joint => 0
    case Translation => 1
    case Rotation => 2
  }

  function MoveWords(c: Command): (r: Option<seq<int>>)
    requires c.MoveL? && Sendable(c)
    ensures r.Some? ==> |r.value| == 26
  {
    match MoveFrame(c.target.frame)
    case None => None
    case Some(kind) =>
      Some([c.group + 1, 0, SpeedNumber(c.speedType), c.speed, kind] + WireCoords(c.target.coords)
           + [0, 0, c.target.configuration, 0, c.target.tool, UserNumber(c.target.frame)] + Zeros(9))
  }

  /** What follows the header; `None` if the source throws. */
  function Payload(c: Command): Option<seq<Byte>>
    requires Sendable(c)
  {
    match c
    case ReadStatus => Some([])
    case ReadCurrentPosition(_, _) => Some([])
    case MoveL(_, _, _, _) => (match MoveWords(c) case None => None case Some(words) => Some(Bytes(words)))
    case ReadVar(_, _) => Some([])
    case ReadVars(_, _, count) => Some(if count == 1 then [] else LittleEndian(4, count))
    case WriteVar(t, _, value) => EncodeValue(t, value)
    case WriteVars(t, _, values) => WritePayload(t, values)
    case ReadFileList(name) => Some(name)
    case ReadFile(name) => Some(name)
    case WriteFile(name) => Some(name)
    case DeleteFile(name) => Some(name)
  }

  function Encoding(c: Command, id: Byte): Option<seq<Byte>>
    requires Sendable(c)
  {
    match Payload(c)
    case None => None
    case Some(payload) => Some(EncodeHeader(HeaderOf(c, id)) + payload)
  }

  /** The only requests that throw are those with a position in the master frame. */
  lemma ThrowsIff(c: Command, id: Byte)
    requires Sendable(c)
    ensures Encoding(c, id) == None <==>
      (c.MoveL? && c.target.frame == MASTER)
      || (c.WriteVar? && c.t == PositionType && c.value.position.Cartesian? && c.value.position.frame == MASTER)
      || (c.WriteVars? && c.t == PositionType &&
          exists i :: 0 <= i < |c.values| && c.values[i].position.Cartesian? && c.values[i].position.frame == MASTER)
  {
    if c.WriteVars? && WritePayload(c.t, c.values) == None {
      var i :| 0 <= i < |c.values| && EncodeValue(c.t, c.values[i]) == None;
      assert HasType(c.values[i], c.t) && c.values[i].position.frame == MASTER;
    }
  }

  /** Every header carries the request id and the size of the payload, cut to 16 bits. */
  lemma SizeDeclared(c: Command, id: Byte)
    requires Sendable(c) && Payload(c).Some?
    ensures HeaderOf(c, id).requestId == id && HeaderOf(c, id).payloadSize == |Payload(c).value| % 0x1_0000
  {}

  /**
   The request is a header and the payload it announces: the size in it is right exactly if the payload is
   smaller than 65536 bytes.
   */
  lemma Framing(c: Command, id: Byte)
    requires Sendable(c) && Encoding(c, id).Some?
    ensures var data, payload := Encoding(c, id).value, Payload(c).value;
      && |data| == HEADER_SIZE + |payload| && data[HEADER_SIZE..] == payload
      && data[..4] == MAGIC && data[11] == id
      && Unsigned(data[6..8]) == |payload| % 0x1_0000
      && (|data| == HEADER_SIZE + Unsigned(data[6..8]) <==> |payload| < 0x1_0000)
  {
    var header := Framed(c, id);
  }

  lemma Framed(c: Command, id: Byte) returns (header: seq<Byte>)
    requires Sendable(c) && Encoding(c, id).Some?
    ensures Encoding(c, id).value == header + Payload(c).value && |header| == HEADER_SIZE
    ensures var data := Encoding(c, id).value;
      data[..4] == MAGIC && data[11] == id && Unsigned(data[6..8]) == |Payload(c).value| % 0x1_0000
  {
    var h := HeaderOf(c, id);
    SizeDeclared(c, id);
    header := EncodeHeader(h);
    var data := HeaderInPlace(h, Payload(c).value);
    assert data[..4] == data[0..4];
  }

  /** Reads and writes of any number of variables that the protocol can count fit in 16 bits. */
  lemma PayloadFits(c: Command)
    requires Sendable(c) && Payload(c).Some?
    requires c.WriteVars? ==> |c.values| < 256
    requires c.ReadFileList? || c.ReadFile? || c.WriteFile? || c.DeleteFile? ==> |c.name| < 0x1_0000
    ensures |Payload(c).value| < 0x1_0000
  {
    if c.WriteVars? {
      assert |c.values| * Size(c.t) <= |c.values| * 52;
    }
  }

  // ----- Different requests differ -----

  lemma HeaderInjective(a: RequestHeader, b: RequestHeader)
    requires EncodeHeader(a) == EncodeHeader(b)
    ensures a == b
  {
    HeaderLayout(a);
    HeaderLayout(b);
  }

  lemma SplitsAlike(a: seq<Byte>, x: seq<Byte>, b: seq<Byte>, y: seq<Byte>)
    requires |a| == |b| && a + x == b + y
    ensures a == b && x == y
  {
    assert (a + x)[..|a|] == a && (b + y)[..|b|] == b;
    assert (a + x)[|a|..] == x && (b + y)[|b|..] == y;
  }

  /** Equal requests have equal headers and payloads. */
  lemma SameRequest(a: RequestHeader, x: seq<Byte>, b: RequestHeader, y: seq<Byte>)
    requires EncodeHeader(a) + x == EncodeHeader(b) + y
    ensures a == b && x == y
  {
    SplitsAlike(EncodeHeader(a), x, EncodeHeader(b), y);
    HeaderInjective(a, b);
  }

  lemma SameWriteHeader(t: Type, index: Byte, count: nat, id: Byte, t': Type, index': Byte, count': nat, id': Byte)
    requires WriteHeader(t, index, count, id) == WriteHeader(t', index', count', id')
    ensures t == t' && index == index' && id == id' && (count == 1 <==> count' == 1)
  {}

  /** Equal writes have equal headers and payloads, hence the same type, index and form. */
  lemma WriteHeaders(a: Command, b: Command, ida: Byte, idb: Byte)
    requires a.WriteVars? && b.WriteVars? && Sendable(a) && Sendable(b)
    requires Encoding(a, ida).Some? && Encoding(a, ida) == Encoding(b, idb)
    ensures ida == idb && a.t == b.t && a.index == b.index && (|a.values| == 1 <==> |b.values| == 1)
    ensures WritePayload(a.t, a.values).Some? && WritePayload(a.t, a.values) == WritePayload(b.t, b.values)
  {
    var ha, hb := WriteHeader(a.t, a.index, |a.values|, ida), WriteHeader(b.t, b.index, |b.values|, idb);
    SameRequest(ha, WritePayload(a.t, a.values).value, hb, WritePayload(b.t, b.values).value);
    SameWriteHeader(a.t, a.index, |a.values|, ida, b.t, b.index, |b.values|, idb);
  }

  /** A write determines the request id, the type, the index and, up to their canonical form, all values. */
  lemma WritesDiffer(a: Command, b: Command, ida: Byte, idb: Byte)
    requires a.WriteVars? && b.WriteVars? && Sendable(a) && Sendable(b)
    requires Encoding(a, ida).Some? && Encoding(a, ida) == Encoding(b, idb)
    ensures ida == idb && a.t == b.t && a.index == b.index
    ensures CanonicalValues(a.t, a.values) == CanonicalValues(b.t, b.values)
  {
    WriteHeaders(a, b, ida, idb);
    SameForm(a.t, a.values, b.values);
  }

  lemma MoveFrameInjective(a: int, b: int)
    requires MoveFrame(a).Some? && MoveFrame(a) == MoveFrame(b) && UserNumber(a) == UserNumber(b)
    ensures a == b
  {}

  /** Equal movements are made of equal words. */
  lemma SameMoveWords(a: Command, b: Command, ida: Byte, idb: Byte)
    requires a.MoveL? && b.MoveL? && Sendable(a) && Sendable(b)
    requires Encoding(a, ida).Some? && Encoding(a, ida) == Encoding(b, idb)
    ensures ida == idb && MoveWords(a).Some? && MoveWords(a) == MoveWords(b)
  {
    var wa, wb := MoveWords(a).value, MoveWords(b).value;
    SameRequest(HeaderOf(a, ida), Bytes(wa), HeaderOf(b, idb), Bytes(wb));
    MoveWordsInRange(a);
    MoveWordsInRange(b);
    forall i: nat | i < 26 ensures wa[i] == wb[i] {
      SameWord(wa, wb, i);
    }
    assert wa == wb;
  }

  lemma SameMove(a: Command, b: Command)
    requires a.MoveL? && b.MoveL? && Sendable(a) && Sendable(b)
    requires MoveWords(a).Some? && MoveWords(a) == MoveWords(b)
    ensures a.group == b.group && a.speedType == b.speedType && a.speed == b.speed
    ensures Canonical(a.target) == Canonical(b.target)
  {
    var wa, wb := MoveWords(a).value, MoveWords(b).value;
    assert wa[0] == wb[0] && wa[2] == wb[2] && wa[3] == wb[3] && wa[4] == wb[4];
    assert wa[13] == wb[13] && wa[15] == wb[15] && wa[16] == wb[16];
    MoveFrameInjective(a.target.frame, b.target.frame);
    forall i | 0 <= i < 6 ensures ToWire(a.target.coords[i], i) == ToWire(b.target.coords[i], i) {
      assert wa[5 + i] == WireCoords(a.target.coords)[i] && wb[5 + i] == WireCoords(b.target.coords)[i];
    }
    assert Canonical(a.target).coords == Canonical(b.target).coords;
  }

  /**
   A movement determines its group, its speed and its target up to whole wire units, in all 19 frames that it can
   have.
   */
  lemma MovesDiffer(a: Command, b: Command, ida: Byte, idb: Byte)
    requires a.MoveL? && b.MoveL? && Sendable(a) && Sendable(b)
    requires Encoding(a, ida).Some? && Encoding(a, ida) == Encoding(b, idb)
    ensures ida == idb && a.group == b.group && a.speedType == b.speedType && a.speed == b.speed
    ensures Canonical(a.target) == Canonical(b.target)
  {
    SameMoveWords(a, b, ida, idb);
    SameMove(a, b);
  }

  /** Words that are always signed or always unsigned. */
  predicate WordInRange(words: seq<int>, i: nat)
    requires i < |words|
  {
    if i == 0 || 5 <= i < 13 || i == 15 then Int32(words[i]) else 0 <= words[i] < 0x1_0000_0000
  }

  lemma MoveWordsInRange(c: Command)
    requires c.MoveL? && Sendable(c) && MoveWords(c).Some?
    ensures forall i: nat :: i < 26 ==> WordInRange(MoveWords(c).value, i)
  {
    assert |WireCoords(c.target.coords)| == 6;
  }

  lemma SameWord(a: seq<int>, b: seq<int>, i: nat)
    requires |a| == |b| && i < |a| && Bytes(a) == Bytes(b) && WordInRange(a, i) && WordInRange(b, i)
    ensures a[i] == b[i]
  {
    WordRoundTrip(a, [], i);
    WordRoundTrip(b, [], i);
  }

  /**
   Positions of different groups are not told apart: the request for the pulses of group 10 is that for the base
   pulses of group 0.  In general two requests agree exactly if group and offset add up to the same 16-bit number.
   */
  lemma PositionRequestsAgree(a: Command, b: Command, id: Byte)
    requires a.ReadCurrentPosition? && b.ReadCurrentPosition?
    ensures Encoding(a, id) == Encoding(b, id) <==>
      (a.group + Instance(a.system)) % 0x1_0000 == (b.group + Instance(b.system)) % 0x1_0000
  {
    if Encoding(a, id) == Encoding(b, id) {
      SameRequest(HeaderOf(a, id), [], HeaderOf(b, id), []);
    }
  }

  // ----- Buffers -----

  /** A request has been appended to `out` if nothing was thrown; the earlier content stays in any case. */
  twostate predicate Appended(out: Output, c: Command, id: Byte, thrown: bool)
    requires Sendable(c)
    reads out
  {
    && (thrown <==> Encoding(c, id) == None)
    && (if thrown then old(out.bytes) <= out.bytes else out.bytes == old(out.bytes) + Encoding(c, id).value)
  }

  /** `encode(output, request_id, MoveL)`; an invalid frame is noticed after the header and four words. */
  method EncodeMoveL(out: Output, c: Command, id: Byte) returns (thrown: bool)
    requires c.MoveL? && Sendable(c)
    modifies out
    ensures Appended(out, c, id, thrown)
  {
    out.WriteHeader(HeaderOf(c, id));
    ghost var start := out.bytes;
    WriteMotion(out, c);
    var kind := MoveFrame(c.target.frame);
    if kind == None { return true; }
    ghost var words := MoveWords(c).value;
    assert words[..4] == [c.group + 1, 0, SpeedNumber(c.speedType), c.speed];
    WriteWord(out, kind.value, start, words, 4);
    WriteTarget(out, c, start, words);
    for i := 17 to 26
      invariant out.bytes == start + Bytes(words[..i])
    {
      WriteWord(out, 0, start, words, i);
    }
    assert words[..26] == words;
    return false;
  }

  /** Group and speed. */
  method WriteMotion(out: Output, c: Command)
    requires c.MoveL?
    modifies out
    ensures out.bytes == old(out.bytes) + Bytes([c.group + 1, 0, SpeedNumber(c.speedType), c.speed])
  {
    ghost var start, words := out.bytes, [c.group + 1, 0, SpeedNumber(c.speedType), c.speed];
    WriteWord(out, c.group + 1, start, words, 0);
    WriteWord(out, 0, start, words, 1);
    WriteWord(out, SpeedNumber(c.speedType), start, words, 2);
    WriteWord(out, c.speed, start, words, 3);
    assert words[..4] == words;
  }

  /** Coordinates, configuration, tool and user frame. */
  method WriteTarget(out: Output, c: Command, ghost start: seq<Byte>, ghost words: seq<int>)
    requires c.MoveL? && Sendable(c) && MoveWords(c) == Some(words) && out.bytes == start + Bytes(words[..5])
    modifies out
    ensures out.bytes == start + Bytes(words[..17])
  {
    for i := 0 to 6
      invariant out.bytes == start + Bytes(words[..5 + i])
    {
      WriteWord(out, ToWire(c.target.coords[i], i), start, words, 5 + i);
    }
    WriteWord(out, 0, start, words, 11);
    WriteWord(out, 0, start, words, 12);
    WriteWord(out, c.target.configuration, start, words, 13);
    WriteWord(out, 0, start, words, 14);
    WriteWord(out, c.target.tool, start, words, 15);
    WriteWord(out, UserNumber(c.target.frame), start, words, 16);
  }

  /** `encodeReadVars` */
  method EncodeReadVars(out: Output, t: Type, index: Byte, count: Byte, id: Byte)
    modifies out
    ensures out.bytes == old(out.bytes) + Encoding(ReadVars(t, index, count), id).value
  {
    out.WriteHeader(ReadHeader(t, index, count, id));
    if count != 1 { out.WriteLittleEndian(4, count); }
  }

  /** `encodeWriteVars` */
  method EncodeWriteVars(out: Output, t: Type, index: Byte, values: seq<Value>, id: Byte) returns (thrown: bool)
    requires AllOfType(values, t)
    modifies out
    ensures Appended(out, WriteVars(t, index, values), id, thrown)
  {
    out.WriteHeader(WriteHeader(t, index, |values|, id));
    thrown := WriteBody(out, t, values);
  }

  /** The value, or the count and the values. */
  method WriteBody(out: Output, t: Type, values: seq<Value>) returns (thrown: bool)
    requires AllOfType(values, t)
    modifies out
    ensures thrown <==> WritePayload(t, values) == None
    ensures if thrown then old(out.bytes) <= out.bytes else out.bytes == old(out.bytes) + WritePayload(t, values).value
  {
    if |values| == 1 {
      thrown := WriteValue(out, t, values[0]);
    } else {
      out.WriteLittleEndian(4, |values|);
      thrown := WriteValues(out, t, values);
    }
  }

  /** The loop over the values; it stops at the first one that cannot be encoded. */
  method WriteValues(out: Output, t: Type, values: seq<Value>) returns (thrown: bool)
    requires AllOfType(values, t)
    modifies out
    ensures thrown <==> EncodeValues(t, values) == None
    ensures if thrown then old(out.bytes) <= out.bytes else out.bytes == old(out.bytes) + EncodeValues(t, values).value
  {
    ghost var start, written := out.bytes, [];
    var i := 0;
    while i < |values|
      invariant 0 <= i <= |values| && EncodeValues(t, values[..i]) == Some(written)
      invariant out.bytes == start + written
    {
      thrown, written := WriteNext(out, t, values, i, start, written);
      if thrown { return; }
      i := i + 1;
    }
    assert values[..i] == values;
    thrown := false;
  }

  /** One round of the loop. */
  method WriteNext(out: Output, t: Type, values: seq<Value>, i: nat, ghost start: seq<Byte>, ghost before: seq<Byte>)
    returns (thrown: bool, ghost written: seq<Byte>)
    requires AllOfType(values, t) && i < |values| && EncodeValues(t, values[..i]) == Some(before)
    requires out.bytes == start + before
    modifies out
    ensures thrown ==> EncodeValues(t, values) == None && start <= out.bytes
    ensures !thrown ==> EncodeValues(t, values[..i + 1]) == Some(written) && out.bytes == start + written
  {
    ghost var more := EncodeNext(t, values, i, before);
    thrown := WriteValue(out, t, values[i]);
    written := before + more;
  }

  lemma EncodeNext(t: Type, values: seq<Value>, i: nat, written: seq<Byte>) returns (more: seq<Byte>)
    requires AllOfType(values, t) && i < |values| && EncodeValues(t, values[..i]) == Some(written)
    ensures EncodeValue(t, values[i]) == None ==> EncodeValues(t, values) == None
    ensures EncodeValue(t, values[i]).Some? ==>
      EncodeValue(t, values[i]) == Some(more) && EncodeValues(t, values[..i + 1]) == Some(written + more)
  {
    more := [];
    if EncodeValue(t, values[i]).Some? {
      more := EncodeValue(t, values[i]).value;
      EncodeSnoc(t, values[..i], values[i]);
      assert values[..i] + [values[i]] == values[..i + 1];
    }
  }

  /** `encode(output, request_id, command)` for every command. */
  method Encode(out: Output, c: Command, id: Byte) returns (thrown: bool)
    requires Sendable(c)
    modifies out
    ensures Appended(out, c, id, thrown)
  {
    thrown := false;
    match c {
      case MoveL(_, _, _, _) => thrown := EncodeMoveL(out, c, id);
      case ReadVars(t, index, count) => EncodeReadVars(out, t, index, count, id);
      case WriteVars(t, index, values) => thrown := EncodeWriteVars(out, t, index, values, id);
      case WriteVar(t, _, value) =>
        out.WriteHeader(HeaderOf(c, id));
        thrown := WriteValue(out, t, value);
      case ReadFileList(_) | ReadFile(_) | WriteFile(_) | DeleteFile(_) =>
        out.WriteHeader(HeaderOf(c, id));
        out.Push(c.name);
      case _ => out.WriteHeader(HeaderOf(c, id));
    }
  }
}
