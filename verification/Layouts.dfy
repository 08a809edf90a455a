/**
 Every request, byte by byte.  The numbers here are those of the protocol; nothing refers to how the encoders arrive at
 them.
 */
module Layouts {
  import opened Common
  import opened Wire
  import Positions
  import opened Variables
  import opened Commands

  /** A request of the robot division. */
  predicate RobotRequest(
    data: seq<Byte>, payloadSize: int, id: int, command: int, instance: int, attribute: int, service: int)
  {
    HeaderIs(data, payloadSize, 1, 0, id, 0, command, instance, attribute, service)
  }

  /** The first request of a file command: the payload is the name. */
  predicate FileRequest(data: seq<Byte>, id: int, service: int, name: seq<Byte>) {
    && HeaderIs(data, |name| % 0x1_0000, 2, 0, id, 0, 0, 0, 0, service)
    && |data| == 32 + |name| && data[32..] == name
  }

  // ----- Variables -----

  /** The command number for one variable of a type, and for any other number of them. */
  function VariableCommand(t: Type, one: bool): int {
    match t
    case U8 => if one then 0x7a else 0x302
    case I16 => if one then 0x7b else 0x303
    case I32 => if one then 0x7c else 0x304
    case F32 => if one then 0x7d else 0x305
    case PositionType => if one then 0x7f else 0x307
  }

  function Width(t: Type): nat {
    match t
    case U8 => 1
    case I16 => 2
    case I32 => 4
    case F32 => 4
    case PositionType => 52
  }

  predicate ValueIs(t: Type, v: Value, r: seq<Byte>)
    requires HasType(v, t)
  {
    && |r| == Width(t)
    && (match t
        case U8 => Unsigned(r) == v.n
        case I16 => Signed(r) == v.n
        case I32 => Signed(r) == v.n
        case F32 => Unsigned(r) == v.bits
        case PositionType => Positions.LaidOut(v.position, r))
  }

  lemma ValueLayout(t: Type, v: Value)
    requires HasType(v, t) && EncodeValue(t, v).Some?
    ensures ValueIs(t, v, EncodeValue(t, v).value)
  {
    PowValues();
    match t
    case U8 => UnsignedRoundTrip(1, v.n);
    case I16 => SignedRoundTrip(2, v.n);
    case I32 => SignedRoundTrip(4, v.n);
    case F32 => UnsignedRoundTrip(4, v.bits);
    case PositionType => Positions.PositionLayout(v.position);
  }

  /** The values one after the other. */
  predicate ValuesAre(t: Type, values: seq<Value>, r: seq<Byte>)
    requires AllOfType(values, t)
  {
    && |r| == |values| * Width(t)
    && forall k :: 0 <= k < |values| ==> ValueAt(t, values[k], r, k)
  }

  predicate ValueAt(t: Type, v: Value, r: seq<Byte>, k: nat)
    requires HasType(v, t)
  {
    k * Width(t) <= (k + 1) * Width(t) <= |r| && ValueIs(t, v, r[k * Width(t)..(k + 1) * Width(t)])
  }

  lemma ValuesLayout(t: Type, values: seq<Value>)
    requires AllOfType(values, t) && EncodeValues(t, values).Some?
    ensures ValuesAre(t, values, EncodeValues(t, values).value)
  {
    var r := EncodeValues(t, values).value;
    assert Width(t) == Size(t);
    forall k | 0 <= k < |values| ensures ValueAt(t, values[k], r, k) {
      SlotBound(t, |values|, k);
      EncodedSlot(t, values, k);
      ValueLayout(t, values[k]);
    }
  }

  lemma CountBack(n: nat)
    ensures Unsigned(LittleEndian(4, n)) == n % 0x1_0000_0000
  {
    PowValues();
    SameBytes(4, n % 0x1_0000_0000, n / 0x1_0000_0000);
    UnsignedRoundTrip(4, n % 0x1_0000_0000);
  }

  /** What bytes mean as a value; `Positions.PositionReads` says it for positions. */
  predicate Means(t: Type, r: seq<Byte>, v: Option<Value>)
    requires |r| == Width(t)
  {
    match t
    case U8 => v == Some(Integer(Unsigned(r)))
    case I16 => v == Some(Integer(Signed(r)))
    case I32 => v == Some(Integer(Signed(r)))
    case F32 => v.Some? && v.value.Float? && v.value.bits == Unsigned(r)
    case PositionType =>
      v == match Positions.PositionAt(r) case None => None case Some(p) => Some(PositionValue(p))
  }

  /** What value number `k` of data becomes. */
  predicate MeansAt(t: Type, data: seq<Byte>, k: nat, v: Option<Value>) {
    && k * Width(t) <= (k + 1) * Width(t) <= |data|
    && Means(t, data[k * Width(t)..(k + 1) * Width(t)], v)
  }

  /** A good response with status 0, the size of `count` values, and the count in front unless it is 1. */
  predicate IsReply(t: Type, count: Byte, data: seq<Byte>) {
    && GoodResponse(data) && data[25] == 0
    && |data| == (if count == 1 then 32 else 36) + count * Width(t)
    && (count != 1 ==> Unsigned(data[32..36]) == count)
  }

  /**
   Which replies to `ReadVars` are accepted, and that the values are read in their order from the places behind the
   header and the count.
   */
  lemma ReplyReads(t: Type, count: Byte, data: seq<Byte>)
    ensures ReadReply(t, count, data).Some? ==> IsReply(t, count, data)
    ensures IsReply(t, count, data) ==>
      var body, r := data[if count == 1 then 32 else 36..], ReadReply(t, count, data);
      && (r == None <==> exists k :: 0 <= k < count && MeansAt(t, body, k, None))
      && (r.Some? ==> |r.value| == count && forall k :: 0 <= k < count ==> MeansAt(t, body, k, Some(r.value[k])))
  {
    ResponseLayout(data);
    if GoodResponse(data) && data[25] == 0 {
      ShapeOfReply(t, count, data);
      if IsReply(t, count, data) { BodyReads(t, count, data[if count == 1 then 32 else 36..]); }
    }
  }

  lemma ShapeOfReply(t: Type, count: Byte, data: seq<Byte>)
    requires GoodResponse(data) && data[25] == 0
    ensures IsReply(t, count, data) ==> var body := data[if count == 1 then 32 else 36..];
      |body| == count * Size(t) && ReadPayload(t, count, data[32..]) == DecodeValues(t, body, count)
    ensures !IsReply(t, count, data) ==> ReadPayload(t, count, data[32..]) == None
  {
    var payload := data[32..];
    if |data| >= 36 {
      assert payload[..4] == data[32..36] && payload[4..] == data[36..];
    }
    if IsReply(t, count, data) && count == 1 { OneValue(t, payload); }
  }

  lemma OneValue(t: Type, payload: seq<Byte>)
    requires |payload| == Size(t)
    ensures ReadPayload(t, 1, payload) == DecodeValues(t, payload, 1)
  {
    assert Slot(t, payload, 1, 0) == payload;
    var r, v := DecodeValues(t, payload, 1), DecodeValue(t, payload);
    if v.Some? { assert r.value == [v.value]; }
  }

  lemma BodyReads(t: Type, n: nat, body: seq<Byte>)
    requires |body| == n * Size(t)
    ensures var r := DecodeValues(t, body, n);
      && (r == None <==> exists k :: 0 <= k < n && MeansAt(t, body, k, None))
      && (r.Some? ==> |r.value| == n && forall k :: 0 <= k < n ==> MeansAt(t, body, k, Some(r.value[k])))
  {
    forall k: nat | k < n ensures MeansAt(t, body, k, DecodeValue(t, Slot(t, body, n, k))) {
      SlotMeans(t, n, body, k, DecodeValue(t, Slot(t, body, n, k)));
    }
    if k: nat :| k < n && MeansAt(t, body, k, None) {
      SlotMeans(t, n, body, k, None);
    }
  }

  lemma SlotMeans(t: Type, n: nat, body: seq<Byte>, k: nat, v: Option<Value>)
    requires |body| == n * Size(t) && k < n
    ensures MeansAt(t, body, k, v) <==> DecodeValue(t, Slot(t, body, n, k)) == v
  {
    assert Width(t) == Size(t);
    SlotBound(t, n, k);
    DecodeMeans(t, Slot(t, body, n, k), v);
  }

  lemma DecodeMeans(t: Type, r: seq<Byte>, v: Option<Value>)
    requires |r| == Width(t)
    ensures Means(t, r, v) <==> DecodeValue(t, r) == v
  {
    assert r[0..|r|] == r;
    assert t == F32 ==> Positions.WordAt(r, 0) == Unsigned(r);
    PowValues();
    UnsignedBound(r);
  }

  // ----- Movements -----

  function Word(r: seq<Byte>, k: nat): int
    requires 4 * k + 4 <= |r|
  {
    Unsigned(r[4 * k..4 * k + 4])
  }

  function SignedWord(r: seq<Byte>, k: nat): int
    requires 4 * k + 4 <= |r|
  {
    Signed(r[4 * k..4 * k + 4])
  }

  /** The 26 words behind the header. */
  predicate MovementIs(c: Command, r: seq<Byte>)
    requires c.MoveL? && Sendable(c)
  {
    var target, frame := c.target, c.target.frame;
    && |r| == 104
    && SignedWord(r, 0) == c.group + 1 && Word(r, 1) == 0
    && Word(r, 2) == (match c.speedType case Joint => 0 case Translation => 1 case Rotation => 2)
    && Word(r, 3) == c.speed
    && Word(r, 4) == (if frame == 0 then 16 else if frame == 1 then 17 else if frame == 18 then 19 else 18)
    && (forall i :: 0 <= i < 6 ==>
          MovementCoordinate(r, i) == Positions.Trunc(target.coords[i] * if i < 3 then 1000.0 else 10000.0))
    && Word(r, 11) == 0 && Word(r, 12) == 0 && Word(r, 13) == target.configuration && Word(r, 14) == 0
    && SignedWord(r, 15) == target.tool && Word(r, 16) == (if 2 <= frame <= 17 then frame - 1 else 0)
    && (forall k: nat :: 17 <= k < 26 ==> Word(r, k) == 0)
  }

  function MovementCoordinate(r: seq<Byte>, i: nat): int
    requires i < 6 && |r| == 104
  {
    SignedWord(r, 5 + i)
  }

  lemma MoveWord(words: seq<int>, k: nat)
    requires |words| == 26 && k < 26
    ensures Positions.Int32(words[k]) ==> SignedWord(Positions.Bytes(words), k) == words[k]
    ensures 0 <= words[k] < 0x1_0000_0000 ==> Word(Positions.Bytes(words), k) == words[k]
  {
    assert Positions.Bytes(words) + [] == Positions.Bytes(words);
    Positions.WordRoundTrip(words, [], k);
    assert Positions.SignedAt(Positions.Bytes(words), k) == SignedWord(Positions.Bytes(words), k);
    assert Positions.WordAt(Positions.Bytes(words), k) == Word(Positions.Bytes(words), k);
  }

  lemma MoveWordsMean(c: Command) returns (words: seq<int>)
    requires c.MoveL? && Sendable(c) && MoveWords(c).Some?
    ensures |words| == 26 && Payload(c) == Some(Positions.Bytes(words))
    ensures words[0] == c.group + 1 && words[1] == 0 && words[3] == c.speed
    ensures words[2] == (match c.speedType case Joint => 0 case Translation => 1 case Rotation => 2)
    ensures var frame := c.target.frame;
      && words[4] == (if frame == 0 then 16 else if frame == 1 then 17 else if frame == 18 then 19 else 18)
      && words[16] == (if 2 <= frame <= 17 then frame - 1 else 0)
    ensures forall k :: 5 <= k < 11 ==>
      && words[k] == Positions.Trunc(c.target.coords[k - 5] * if k < 8 then 1000.0 else 10000.0)
      && Positions.Int32(words[k])
    ensures words[11] == words[12] == words[14] == 0
    ensures words[13] == c.target.configuration && words[15] == c.target.tool
    ensures forall k :: 17 <= k < 26 ==> words[k] == 0
  {
    words := MoveWords(c).value;
    forall k | 5 <= k < 11 ensures words[k] == Positions.ToWire(c.target.coords[k - 5], k - 5) {
      assert words[k] == Positions.WireCoords(c.target.coords)[k - 5];
    }
  }

  lemma MovementLayout(c: Command)
    requires c.MoveL? && Sendable(c) && Payload(c).Some?
    ensures MovementIs(c, Payload(c).value)
  {
    var words := MoveWordsMean(c);
    var r := Positions.Bytes(words);
    forall k: nat | k < 26
      ensures Positions.Int32(words[k]) ==> SignedWord(r, k) == words[k]
      ensures 0 <= words[k] < 0x1_0000_0000 ==> Word(r, k) == words[k]
    {
      MoveWord(words, k);
    }
    forall i | 0 <= i < 6
      ensures MovementCoordinate(r, i) == Positions.Trunc(c.target.coords[i] * if i < 3 then 1000.0 else 10000.0)
    {
      var k := 5 + i;
      assert Positions.Int32(words[k]);
    }
  }

  // ----- All requests -----

  predicate RequestIs(c: Command, id: Byte, data: seq<Byte>)
    requires Sendable(c)
  {
    match c
    case ReadStatus => |data| == 32 && RobotRequest(data, 0, id, 0x72, 1, 0, 0x01)
    case ReadCurrentPosition(group, system) =>
      |data| == 32 && RobotRequest(data, 0, id, 0x75, (group + SystemOffset(system)) % 0x1_0000, 0, 0x01)
    case MoveL(_, _, _, _) =>
      |data| == 136 && RobotRequest(data, 104, id, 0x75, 2, 1, 0x01) && MovementIs(c, data[32..])
    case ReadVar(t, index) => ReadOneIs(t, index, id, data)
    case ReadVars(t, index, count) =>
      if count == 1 then ReadOneIs(t, index, id, data) else ReadManyIs(t, index, count, id, data)
    case WriteVar(t, index, value) => WriteOneIs(t, index, value, id, data)
    case WriteVars(t, index, values) =>
      if |values| == 1 then WriteOneIs(t, index, values[0], id, data) else WriteManyIs(t, index, values, id, data)
    case ReadFileList(name) => FileRequest(data, id, 0x32, name)
    case ReadFile(name) => FileRequest(data, id, 0x16, name)
    case WriteFile(name) => FileRequest(data, id, 0x15, name)
    case DeleteFile(name) => FileRequest(data, id, 0x09, name)
  }

  function SystemOffset(system: SystemType): int {
    match system
    case RobotPulse => 1
    case BasePulse => 11
    case StationPulse => 21
    case RobotCartesian => 101
  }

  predicate ReadOneIs(t: Type, index: Byte, id: Byte, data: seq<Byte>) {
    |data| == 32 && RobotRequest(data, 0, id, VariableCommand(t, true), index, 0, 0x01)
  }

  predicate ReadManyIs(t: Type, index: Byte, count: Byte, id: Byte, data: seq<Byte>) {
    && |data| == 36 && RobotRequest(data, 4, id, VariableCommand(t, false), index, 0, 0x33)
    && Unsigned(data[32..36]) == count
  }

  predicate WriteOneIs(t: Type, index: Byte, value: Value, id: Byte, data: seq<Byte>)
    requires HasType(value, t)
  {
    && |data| == 32 + Width(t) && RobotRequest(data, Width(t), id, VariableCommand(t, true), index, 0, 0x02)
    && ValueIs(t, value, data[32..])
  }

  predicate WriteManyIs(t: Type, index: Byte, values: seq<Value>, id: Byte, data: seq<Byte>)
    requires AllOfType(values, t)
  {
    && |data| == 36 + |values| * Width(t)
    && RobotRequest(data, (4 + |values| * Width(t)) % 0x1_0000, id, VariableCommand(t, false), index, 0, 0x34)
    && Unsigned(data[32..36]) == |values| % 0x1_0000_0000 && ValuesAre(t, values, data[36..])
  }

  /** Every request has its layout. */
  lemma RequestLayout(c: Command, id: Byte)
    requires Sendable(c) && Encoding(c, id).Some?
    ensures RequestIs(c, id, Encoding(c, id).value)
  {
    var data := HeaderInPlace(HeaderOf(c, id), Payload(c).value);
    if c.ReadVar? || c.ReadVars? || c.WriteVar? || c.WriteVars? {
      VariablesLayout(c, id, data);
    } else {
      OtherLayout(c, id, data);
    }
  }

  lemma OtherLayout(c: Command, id: Byte, data: seq<Byte>)
    requires Sendable(c) && !c.ReadVar? && !c.ReadVars? && !c.WriteVar? && !c.WriteVars?
    requires Payload(c).Some? && |data| == 32 + |Payload(c).value| && data[32..] == Payload(c).value
    requires HasHeader(data, HeaderOf(c, id))
    ensures RequestIs(c, id, data)
  {
    if c.MoveL? { MovementLayout(c); }
  }

  lemma VariablesLayout(c: Command, id: Byte, data: seq<Byte>)
    requires Sendable(c) && (c.ReadVar? || c.ReadVars? || c.WriteVar? || c.WriteVars?)
    requires Payload(c).Some? && |data| == 32 + |Payload(c).value| && data[32..] == Payload(c).value
    requires HasHeader(data, HeaderOf(c, id))
    ensures RequestIs(c, id, data)
  {
    match c
    case ReadVar(t, index) =>
    case ReadVars(t, index, count) => if count != 1 { ReadManyLayout(t, index, count, id, data); }
    case WriteVar(t, index, value) => WriteOneLayout(t, index, value, id, data);
    case WriteVars(t, index, values) =>
      if |values| == 1 {
        WriteOneLayout(t, index, values[0], id, data);
      } else {
        WriteManyLayout(t, index, values, id, data);
      }
  }

  lemma WriteOneLayout(t: Type, index: Byte, value: Value, id: Byte, data: seq<Byte>)
    requires HasType(value, t) && EncodeValue(t, value).Some?
    requires |data| >= 32 && data[32..] == EncodeValue(t, value).value && HasHeader(data, WriteHeader(t, index, 1, id))
    ensures WriteOneIs(t, index, value, id, data)
  {
    ValueLayout(t, value);
  }

  lemma ReadManyLayout(t: Type, index: Byte, count: Byte, id: Byte, data: seq<Byte>)
    requires count != 1 && |data| == 36 && data[32..] == LittleEndian(4, count)
    requires HasHeader(data, ReadHeader(t, index, count, id))
    ensures ReadManyIs(t, index, count, id, data)
  {
    CountBack(count);
    assert data[32..36] == data[32..];
  }

  lemma WriteManyLayout(t: Type, index: Byte, values: seq<Value>, id: Byte, data: seq<Byte>)
    requires |values| != 1 && AllOfType(values, t) && EncodeValues(t, values).Some?
    requires |data| >= 32 && data[32..] == LittleEndian(4, |values|) + EncodeValues(t, values).value
    requires HasHeader(data, WriteHeader(t, index, |values|, id))
    ensures WriteManyIs(t, index, values, id, data)
  {
    WriteManyHeader(t, index, |values|, id, data);
    CountBack(|values|);
    ValuesLayout(t, values);
    BehindCount(data, LittleEndian(4, |values|), EncodeValues(t, values).value);
  }

  lemma WriteManyHeader(t: Type, index: Byte, count: nat, id: Byte, data: seq<Byte>)
    requires count != 1 && HasHeader(data, WriteHeader(t, index, count, id))
    ensures RobotRequest(
      data, (4 + count * Width(t)) % 0x1_0000, id, VariableCommand(t, false), index, 0, 0x34)
  {
    assert Width(t) == Size(t);
  }

  lemma BehindCount(data: seq<Byte>, count: seq<Byte>, rest: seq<Byte>)
    requires |data| >= 32 && |count| == 4 && data[32..] == count + rest
    ensures |data| == 36 + |rest| && data[32..36] == count && data[36..] == rest
  {
    assert data[32..36] == data[32..][..4] && data[36..] == data[32..][4..];
  }
}
