/** Little-endian integers and the 32-byte message headers. */
module Wire {
  import opened Common

  type Half = x: int | 0 <= x < 0x1_0000

  const HEADER_SIZE := 0x20

  function Pow256(n: nat): nat
    ensures Pow256(n) > 0
  {
    if n == 0 then 1 else 256 * Pow256(n - 1)
  }

  /** The `width` low-order bytes of a value, least significant first; negative values in two's complement. */
  function LittleEndian(width: nat, value: int): (r: seq<Byte>)
    ensures |r| == width
  {
    if width == 0 then [] else [value % 256] + LittleEndian(width - 1, value / 256)
  }

  /** The unsigned number that bytes, least significant first, stand for. */
  function Unsigned(bytes: seq<Byte>): nat {
    if bytes == [] then 0 else bytes[0] + 256 * Unsigned(bytes[1..])
  }

  /** The same bytes read as a two's complement number. */
  function Signed(bytes: seq<Byte>): int {
    var u := Unsigned(bytes);
    if 2 * u < Pow256(|bytes|) then u else u - Pow256(|bytes|)
  }

  lemma {:induction false} UnsignedBound(bytes: seq<Byte>)
    ensures Unsigned(bytes) < Pow256(|bytes|)
  {
    if bytes != [] {
      UnsignedBound(bytes[1..]);
    }
  }

  lemma {:induction false} UnsignedSnoc(bytes: seq<Byte>, b: Byte)
    ensures Unsigned(bytes + [b]) == Unsigned(bytes) + b * Pow256(|bytes|)
  {
    if bytes == [] {
      assert [b][1..] == [];
    } else {
      UnsignedSnoc(bytes[1..], b);
      assert (bytes + [b])[1..] == bytes[1..] + [b];
      assert 256 * (b * Pow256(|bytes| - 1)) == b * Pow256(|bytes|);
    }
  }

  /** Reading what was written gives the value modulo 256^width. */
  lemma {:induction false} ReadsBack(width: nat, value: int)
    ensures exists q: int :: value == Unsigned(LittleEndian(width, value)) + q * Pow256(width)
  {
    if width == 0 {
      assert value == 0 + value * Pow256(0);
    } else {
      ReadsBack(width - 1, value / 256);
      var q: int :| value / 256 == Unsigned(LittleEndian(width - 1, value / 256)) + q * Pow256(width - 1);
      assert LittleEndian(width, value)[1..] == LittleEndian(width - 1, value / 256);
      assert 256 * (q * Pow256(width - 1)) == q * Pow256(width);
    }
  }

  lemma MultipleInRange(m: int, q: int, x: int)
    requires -m < x < m && x == q * m
    ensures x == 0
  {
    assert q >= 1 ==> (q - 1) * m >= 0;
    assert q <= -1 ==> (-q - 1) * m >= 0;
  }

  /** Unsigned values that fit survive a round trip. */
  lemma UnsignedRoundTrip(width: nat, value: nat)
    requires value < Pow256(width)
    ensures Unsigned(LittleEndian(width, value)) == value
  {
    ReadsBack(width, value);
    UnsignedBound(LittleEndian(width, value));
    var q: int :| value == Unsigned(LittleEndian(width, value)) + q * Pow256(width);
    MultipleInRange(Pow256(width), q, value - Unsigned(LittleEndian(width, value)));
  }

  /** Signed values that fit survive a round trip. */
  lemma SignedRoundTrip(width: nat, value: int)
    requires width > 0 && 0 <= 2 * value + Pow256(width) < 2 * Pow256(width)
    ensures Signed(LittleEndian(width, value)) == value
  {
    ReadsBack(width, value);
    var u, m := Unsigned(LittleEndian(width, value)), Pow256(width);
    UnsignedBound(LittleEndian(width, value));
    var q: int :| value == u + q * m;
    assert m == 2 * (128 * Pow256(width - 1));
    if 2 * u < m {
      MultipleInRange(m, q, value - u);
    } else {
      assert (q + 1) * m == q * m + m;
      MultipleInRange(m, q + 1, value - u + m);
    }
  }

  /** Bytes survive the round trip in the other direction. */
  lemma {:induction false} BytesRoundTrip(bytes: seq<Byte>)
    ensures LittleEndian(|bytes|, Unsigned(bytes)) == bytes
  {
    if bytes != [] {
      BytesRoundTrip(bytes[1..]);
      assert Unsigned(bytes) % 256 == bytes[0] && Unsigned(bytes) / 256 == Unsigned(bytes[1..]);
    }
  }

  /** Values that are equal modulo 256^width are written alike. */
  lemma {:induction false} SameBytes(width: nat, value: int, q: int)
    ensures LittleEndian(width, value + q * Pow256(width)) == LittleEndian(width, value)
  {
    if width > 0 {
      var m := Pow256(width - 1);
      assert q * Pow256(width) == 256 * (q * m);
      assert (value + 256 * (q * m)) % 256 == value % 256;
      assert (value + 256 * (q * m)) / 256 == value / 256 + q * m;
      SameBytes(width - 1, value / 256, q);
    }
  }

  /** The low byte comes first, and signed numbers are in two's complement. */
  lemma LowByteFirst(bytes: seq<Byte>)
    ensures |bytes| == 1 ==> Unsigned(bytes) == bytes[0]
    ensures |bytes| == 2 ==> Unsigned(bytes) == bytes[0] + bytes[1] as int * 0x100
    ensures |bytes| == 4 ==>
      Unsigned(bytes) == bytes[0] + bytes[1] as int * 0x100 + bytes[2] as int * 0x1_0000 + bytes[3] as int * 0x100_0000
    ensures |bytes| == 2 ==> Signed(bytes) == Unsigned(bytes) - if bytes[1] >= 128 then 0x1_0000 else 0
    ensures |bytes| == 4 ==> Signed(bytes) == Unsigned(bytes) - if bytes[3] >= 128 then 0x1_0000_0000 else 0
  {
    PowValues();
    if |bytes| == 1 {
      OneByte(bytes);
    } else if |bytes| == 2 {
      TwoBytes(bytes);
    } else if |bytes| == 4 {
      TwoBytes(bytes[2..]);
      assert Unsigned(bytes) == bytes[0] + 0x100 * Unsigned(bytes[1..]);
      assert Unsigned(bytes[1..]) == bytes[1] + 0x100 * Unsigned(bytes[1..][1..]);
      assert bytes[1..][1..] == bytes[2..];
    }
  }

  lemma OneByte(bytes: seq<Byte>)
    requires |bytes| == 1
    ensures Unsigned(bytes) == bytes[0]
  {
    assert bytes[1..] == [];
  }

  lemma TwoBytes(bytes: seq<Byte>)
    requires |bytes| == 2
    ensures Unsigned(bytes) == bytes[0] + bytes[1] as int * 0x100
  {
    OneByte(bytes[1..]);
  }

  // ----- Headers -----

  datatype RequestHeader = RequestHeader(
    payloadSize: Half, division: Byte, ack: bool, requestId: Byte, blockNumber: Word,
    command: Half, instance: Half, attribute: Byte, service: Byte)

  datatype ResponseHeader = ResponseHeader(
    payloadSize: Half, division: Byte, ack: bool, requestId: Byte, blockNumber: Word,
    service: Byte, status: Byte, extraStatus: Half)

  const ROBOT_DIVISION: Byte := 1
  const FILE_DIVISION: Byte := 2

  /** `YERC` */
  const MAGIC: seq<Byte> := [0x59, 0x45, 0x52, 0x43]
  /** Eight times the character 9. */
  const RESERVED: seq<Byte> := [0x39, 0x39, 0x39, 0x39, 0x39, 0x39, 0x39, 0x39]

  function Flag(b: bool): Byte { if b then 1 else 0 }

  function EncodeHeader(h: RequestHeader): (r: seq<Byte>)
    ensures |r| == HEADER_SIZE
  {
    Sizes(h.payloadSize) + Routing(h) + Subrequest(h)
  }

  function Sizes(payloadSize: Half): (r: seq<Byte>)
    ensures |r| == 8
  {
    MAGIC + LittleEndian(2, HEADER_SIZE) + LittleEndian(2, payloadSize)
  }

  function Routing(h: RequestHeader): (r: seq<Byte>)
    ensures |r| == 16
  {
    [3, h.division, Flag(h.ack), h.requestId] + LittleEndian(4, h.blockNumber) + RESERVED
  }

  function Subrequest(h: RequestHeader): (r: seq<Byte>)
    ensures |r| == 8
  {
    LittleEndian(2, h.command) + LittleEndian(2, h.instance) + [h.attribute, h.service, 0, 0]
  }

  /** Data that begins with a request header: every field at its place. */
  predicate HeaderIs(
    data: seq<Byte>, payloadSize: int, division: int, ack: int, id: int, blockNumber: int,
    command: int, instance: int, attribute: int, service: int)
  {
    && |data| >= 32
    && data[0..4] == [0x59, 0x45, 0x52, 0x43] && Unsigned(data[4..6]) == 32 && Unsigned(data[6..8]) == payloadSize
    && data[8] == 3 && data[9] == division && data[10] == ack && data[11] == id
    && Unsigned(data[12..16]) == blockNumber && data[16..24] == [0x39, 0x39, 0x39, 0x39, 0x39, 0x39, 0x39, 0x39]
    && Unsigned(data[24..26]) == command && Unsigned(data[26..28]) == instance
    && data[28] == attribute && data[29] == service && data[30..32] == [0, 0]
  }

  predicate HasHeader(data: seq<Byte>, h: RequestHeader) {
    HeaderIs(data, h.payloadSize, h.division, if h.ack then 1 else 0, h.requestId, h.blockNumber,
             h.command, h.instance, h.attribute, h.service)
  }

  /** Layout of a request header. */
  lemma HeaderLayout(h: RequestHeader)
    ensures HasHeader(EncodeHeader(h), h)
  {
    SizesLayout(h.payloadSize);
    RoutingLayout(h);
    SubrequestLayout(h);
    ThreeParts(Sizes(h.payloadSize), Routing(h), Subrequest(h));
  }

  /** A header and the payload behind it. */
  lemma HeaderInPlace(h: RequestHeader, payload: seq<Byte>) returns (data: seq<Byte>)
    ensures data == EncodeHeader(h) + payload && |data| == 32 + |payload| && data[32..] == payload
    ensures HasHeader(data, h)
  {
    data := EncodeHeader(h) + payload;
    HeaderLayout(h);
    InFront(EncodeHeader(h), payload);
  }

  lemma InFront(a: seq<Byte>, b: seq<Byte>)
    requires |a| == 32
    ensures var r := a + b;
      && r[0..4] == a[0..4] && r[4..6] == a[4..6] && r[6..8] == a[6..8] && r[12..16] == a[12..16]
      && r[16..24] == a[16..24] && r[24..26] == a[24..26] && r[26..28] == a[26..28] && r[30..32] == a[30..32]
      && r[32..] == b
  {}

  lemma ThreeParts(sizes: seq<Byte>, routing: seq<Byte>, subrequest: seq<Byte>)
    requires |sizes| == 8 && |routing| == 16 && |subrequest| == 8
    ensures var r := sizes + routing + subrequest;
      && r[0..4] == sizes[0..4] && r[4..6] == sizes[4..6] && r[6..8] == sizes[6..8]
      && r[8] == routing[0] && r[9] == routing[1] && r[10] == routing[2] && r[11] == routing[3]
      && r[12..16] == routing[4..8] && r[16..24] == routing[8..16]
      && r[24..26] == subrequest[0..2] && r[26..28] == subrequest[2..4]
      && r[28] == subrequest[4] && r[29] == subrequest[5] && r[30..32] == subrequest[6..8]
  {}

  lemma SizesLayout(payloadSize: Half)
    ensures var r := Sizes(payloadSize);
      r[0..4] == MAGIC && Unsigned(r[4..6]) == HEADER_SIZE && Unsigned(r[6..8]) == payloadSize
  {
    PowValues();
    UnsignedRoundTrip(2, HEADER_SIZE);
    UnsignedRoundTrip(2, payloadSize);
    assert Sizes(payloadSize)[4..6] == LittleEndian(2, HEADER_SIZE);
    assert Sizes(payloadSize)[6..8] == LittleEndian(2, payloadSize);
  }

  lemma RoutingLayout(h: RequestHeader)
    ensures var r := Routing(h);
      && r[0] == 3 && r[1] == h.division && r[2] == Flag(h.ack) && r[3] == h.requestId
      && Unsigned(r[4..8]) == h.blockNumber && r[8..16] == RESERVED
  {
    PowValues();
    UnsignedRoundTrip(4, h.blockNumber);
    assert Routing(h)[4..8] == LittleEndian(4, h.blockNumber);
  }

  lemma SubrequestLayout(h: RequestHeader)
    ensures var r := Subrequest(h);
      && Unsigned(r[0..2]) == h.command && Unsigned(r[2..4]) == h.instance
      && r[4] == h.attribute && r[5] == h.service && r[6..8] == [0, 0]
  {
    PowValues();
    UnsignedRoundTrip(2, h.command);
    UnsignedRoundTrip(2, h.instance);
    assert Subrequest(h)[0..2] == LittleEndian(2, h.command) && Subrequest(h)[2..4] == LittleEndian(2, h.instance);
  }

  lemma PowValues()
    ensures Pow256(0) == 1 && Pow256(1) == 0x100 && Pow256(2) == 0x1_0000 && Pow256(4) == 0x1_0000_0000
  {
    assert Pow256(3) == 0x100_0000;
  }

  predicate GoodSizes(data: seq<Byte>)
    requires |data| >= HEADER_SIZE
  {
    data[0..4] == MAGIC && Unsigned(data[4..6]) == HEADER_SIZE && Unsigned(data[6..8]) <= MAX_PAYLOAD
  }

  /** What `decodeResponseHeader` accepts. */
  predicate GoodResponse(data: seq<Byte>) {
    && |data| >= HEADER_SIZE && GoodSizes(data)
    && data[10] == 1
    && |data| == HEADER_SIZE + Unsigned(data[6..8])
  }

  /** The fields of a response, by their places behind the sizes. */
  function FieldsAt(payloadSize: Half, rest: seq<Byte>): ResponseHeader
    requires |rest| >= 24
  {
    PowValues();
    UnsignedBound(rest[4..8]);
    UnsignedBound(rest[20..22]);
    ResponseHeader(payloadSize, rest[1], rest[2] == 1, rest[3], Unsigned(rest[4..8]),
                   rest[16], rest[17], Unsigned(rest[20..22]))
  }

  function ResponseAt(data: seq<Byte>): ResponseHeader
    requires |data| >= HEADER_SIZE
  {
    PowValues();
    UnsignedBound(data[6..8]);
    FieldsAt(Unsigned(data[6..8]), data[8..])
  }

  /** Which responses are accepted, and where their fields are. */
  lemma ResponseLayout(data: seq<Byte>)
    ensures GoodResponse(data) <==>
      && |data| >= 32 && data[0..4] == [0x59, 0x45, 0x52, 0x43] && Unsigned(data[4..6]) == 32
      && Unsigned(data[6..8]) <= 479 && data[10] == 1 && |data| == 32 + Unsigned(data[6..8])
    ensures |data| >= 32 ==> var h := ResponseAt(data);
      && h.payloadSize == Unsigned(data[6..8]) && h.division == data[9] && (h.ack <==> data[10] == 1)
      && h.requestId == data[11] && h.blockNumber == Unsigned(data[12..16])
      && h.service == data[24] && h.status == data[25] && h.extraStatus == Unsigned(data[28..30])
  {
    if |data| >= 32 {
      assert data[8..][4..8] == data[12..16] && data[8..][20..22] == data[28..30];
    }
  }

  /**
   A response as the robot sends it; `added` and `padding` are what the client ignores in the last eight bytes of
   the header.
   */
  function EncodeResponse(h: ResponseHeader, reserved: seq<Byte>, added: Byte, padding: seq<Byte>,
    payload: seq<Byte>): seq<Byte>
    requires |reserved| == 8 && |padding| == 3
  {
    Sizes(h.payloadSize) + ResponseRouting(h, reserved) + ResponseStatus(h, added, padding) + payload
  }

  function ResponseRouting(h: ResponseHeader, reserved: seq<Byte>): (r: seq<Byte>)
    requires |reserved| == 8
    ensures |r| == 16
  {
    [3, h.division, Flag(h.ack), h.requestId] + LittleEndian(4, h.blockNumber) + reserved
  }

  function ResponseStatus(h: ResponseHeader, added: Byte, padding: seq<Byte>): (r: seq<Byte>)
    requires |padding| == 3
    ensures |r| == 8
  {
    [h.service, h.status, added, padding[0]] + LittleEndian(2, h.extraStatus) + padding[1..]
  }

  lemma ResponseRoutingLayout(h: ResponseHeader, reserved: seq<Byte>)
    requires |reserved| == 8
    ensures var r := ResponseRouting(h, reserved);
      r[1] == h.division && r[2] == Flag(h.ack) && r[3] == h.requestId && Unsigned(r[4..8]) == h.blockNumber
  {
    PowValues();
    UnsignedRoundTrip(4, h.blockNumber);
    assert ResponseRouting(h, reserved)[4..8] == LittleEndian(4, h.blockNumber);
  }

  lemma ResponseStatusLayout(h: ResponseHeader, added: Byte, padding: seq<Byte>)
    requires |padding| == 3
    ensures var r := ResponseStatus(h, added, padding);
      r[0] == h.service && r[1] == h.status && Unsigned(r[4..6]) == h.extraStatus
  {
    PowValues();
    UnsignedRoundTrip(2, h.extraStatus);
    assert ResponseStatus(h, added, padding)[4..6] == LittleEndian(2, h.extraStatus);
  }

  /** Every response of the robot comes back, whatever its reserved bytes, exactly when it is an
      acknowledgement whose payload has the declared size of at most 479 bytes. */
  lemma ResponseRoundTrip(h: ResponseHeader, reserved: seq<Byte>, added: Byte, padding: seq<Byte>, payload: seq<Byte>)
    requires |reserved| == 8 && |padding| == 3
    ensures var data := EncodeResponse(h, reserved, added, padding, payload);
      && (GoodResponse(data) <==> h.ack && |payload| == h.payloadSize <= MAX_PAYLOAD)
      && |data| >= HEADER_SIZE && ResponseAt(data) == h && data[HEADER_SIZE..] == payload
  {
    SizesLayout(h.payloadSize);
    ResponseRoutingLayout(h, reserved);
    ResponseStatusLayout(h, added, padding);
    PartsBack(h, Sizes(h.payloadSize), ResponseRouting(h, reserved), ResponseStatus(h, added, padding), payload);
  }

  lemma PartsBack(h: ResponseHeader, sizes: seq<Byte>, routing: seq<Byte>, status: seq<Byte>, payload: seq<Byte>)
    requires |sizes| == 8 && sizes[0..4] == MAGIC && Unsigned(sizes[4..6]) == HEADER_SIZE
      && Unsigned(sizes[6..8]) == h.payloadSize
    requires |routing| == 16 && routing[1] == h.division && routing[2] == Flag(h.ack) && routing[3] == h.requestId
    requires Unsigned(routing[4..8]) == h.blockNumber
    requires |status| == 8 && status[0] == h.service && status[1] == h.status && Unsigned(status[4..6]) == h.extraStatus
    ensures var data := sizes + routing + status + payload;
      && (GoodResponse(data) <==> h.ack && |payload| == h.payloadSize <= MAX_PAYLOAD)
      && |data| >= HEADER_SIZE && ResponseAt(data) == h && data[HEADER_SIZE..] == payload
  {
    var data := sizes + routing + status + payload;
    assert data[0..4] == sizes[0..4] && data[4..6] == sizes[4..6] && data[6..8] == sizes[6..8];
    assert data[8..][4..8] == routing[4..8] && data[8..][20..22] == status[4..6];
  }

  // ----- Buffers -----

  /** `std::vector<std::uint8_t> & out` */
  class Output {
    var bytes: seq<Byte>

    constructor ()
      ensures bytes == []
    {
      bytes := [];
    }

    method Push(more: seq<Byte>)
      modifies this
      ensures bytes == old(bytes) + more
    {
      bytes := bytes + more;
    }

    /** `writeLittleEndian<T>` for a type of `width` bytes. */
    method WriteLittleEndian(width: nat, value: int)
      modifies this
      ensures bytes == old(bytes) + LittleEndian(width, value)
    {
      var i, rest := 0, value;
      while i < width
        invariant 0 <= i <= width
        invariant old(bytes) + LittleEndian(width, value) == bytes + LittleEndian(width - i, rest)
      {
        bytes := bytes + [rest % 256];
        rest := rest / 256;
        i := i + 1;
      }
    }

    method WriteHeader(h: RequestHeader)
      modifies this
      ensures bytes == old(bytes) + EncodeHeader(h)
    {
      WriteSizes(h.payloadSize);
      WriteRouting(h);
      WriteSubrequest(h);
    }

    /** Magic bytes, header size, payload size. */
    method WriteSizes(payloadSize: Half)
      modifies this
      ensures bytes == old(bytes) + Sizes(payloadSize)
    {
      Push(MAGIC);
      WriteLittleEndian(2, HEADER_SIZE);
      WriteLittleEndian(2, payloadSize);
    }

    method WriteRouting(h: RequestHeader)
      modifies this
      ensures bytes == old(bytes) + Routing(h)
    {
      Push([3]);
      Push([h.division]);
      Push([Flag(h.ack)]);
      Push([h.requestId]);
      assert bytes == old(bytes) + [3, h.division, Flag(h.ack), h.requestId];
      WriteLittleEndian(4, h.blockNumber);
      Push(RESERVED);
    }

    method WriteSubrequest(h: RequestHeader)
      modifies this
      ensures bytes == old(bytes) + Subrequest(h)
    {
      WriteLittleEndian(2, h.command);
      WriteLittleEndian(2, h.instance);
      Push([h.attribute]);
      Push([h.service]);
      Push([0, 0]);
    }
  }

  /** `std::string_view & data`; what has been decoded is removed from the front. */
  class Input {
    var data: seq<Byte>

    constructor (data: seq<Byte>)
      ensures this.data == data
    {
      this.data := data;
    }

    method RemovePrefix(n: nat)
      requires n <= |data|
      modifies this
      ensures data == old(data)[n..]
    {
      data := data[n..];
    }

    /** `readLittleEndian<T>` for an unsigned type of `width` bytes; like the source it needs that many bytes. */
    method ReadUnsigned(width: nat) returns (r: nat)
      requires width <= |data|
      modifies this
      ensures r == Unsigned(old(data)[..width]) && data == old(data)[width..]
      ensures width == 1 ==> r == old(data)[0]
    {
      var bytes := data[..width];
      RemovePrefix(width);
      r := 0;
      var i, shift: nat := 0, 1;
      while i < width
        invariant 0 <= i <= width && shift == Pow256(i)
        invariant r == Unsigned(bytes[..i]) && data == old(data)[width..]
      {
        UnsignedSnoc(bytes[..i], bytes[i]);
        assert bytes[..i] + [bytes[i]] == bytes[..i + 1];
        r := r + bytes[i] * shift;
        shift := 256 * shift;
        i := i + 1;
      }
      assert bytes[..width] == bytes;
    }

    method ReadSigned(width: nat) returns (r: int)
      requires width <= |data|
      modifies this
      ensures r == Signed(old(data)[..width]) && data == old(data)[width..]
    {
      var u := ReadUnsigned(width);
      r := if 2 * u < Pow256(width) then u else u - Pow256(width);
    }

    /** Magic bytes, header size, payload size. */
    method DecodeSizes() returns (r: Option<nat>)
      requires |data| >= HEADER_SIZE
      modifies this
      ensures r.Some? <==> GoodSizes(old(data))
      ensures r.Some? ==> r.value == Unsigned(old(data)[6..8]) && data == old(data)[8..]
    {
      ghost var original := data;
      assert original[0..4] == data[..4];
      if data[..4] != MAGIC { return None; }
      RemovePrefix(4);
      assert data[..2] == original[4..6];
      var headerSize := ReadUnsigned(2);
      if headerSize != HEADER_SIZE { return None; }
      assert data[..2] == original[6..8];
      var payloadSize := ReadUnsigned(2);
      if payloadSize > MAX_PAYLOAD { return None; }
      return Some(payloadSize);
    }

    /** The fields behind the sizes; `None` if the reply is not marked as an acknowledgement. */
    method DecodeFields(payloadSize: Half) returns (r: Option<ResponseHeader>)
      requires |data| >= 24
      modifies this
      ensures r.Some? <==> old(data)[2] == 1
      ensures r.Some? ==> data == old(data)[24..] && r.value == FieldsAt(payloadSize, old(data))
    {
      ghost var original := data;
      var ack, division, requestId, blockNumber := DecodeRouting();
      if !ack { return None; }
      var service, status, extraStatus := DecodeStatus();
      assert original[16..][4..6] == original[20..22];
      r := Some(ResponseHeader(payloadSize, division, true, requestId, blockNumber, service, status, extraStatus));
    }

    /** Division, acknowledgement, request id and block number, and eight reserved bytes. */
    method DecodeRouting() returns (ok: bool, division: Byte, requestId: Byte, blockNumber: Word)
      requires |data| >= 16
      modifies this
      ensures ok <==> old(data)[2] == 1
      ensures ok ==> division == old(data)[1] && requestId == old(data)[3] && blockNumber == Unsigned(old(data)[4..8])
      ensures ok ==> data == old(data)[16..]
    {
      ghost var original := data;
      RemovePrefix(1);
      division := ReadUnsigned(1);
      var ack := ReadUnsigned(1);
      if ack != 1 { return false, 0, 0, 0; }
      requestId := ReadUnsigned(1);
      assert data == original[4..] && data[..4] == original[4..8];
      UnsignedBound(original[4..8]);
      PowValues();
      blockNumber := ReadUnsigned(4);
      RemovePrefix(8);
      ok := true;
    }

    /** The last eight bytes of the header. */
    method DecodeStatus() returns (service: Byte, status: Byte, extraStatus: Half)
      requires |data| >= 8
      modifies this
      ensures service == old(data)[0] && status == old(data)[1] && extraStatus == Unsigned(old(data)[4..6])
      ensures data == old(data)[8..]
    {
      ghost var original := data;
      service := ReadUnsigned(1);
      status := ReadUnsigned(1);
      RemovePrefix(2);
      assert data == original[4..] && data[..2] == original[4..6];
      UnsignedBound(original[4..6]);
      PowValues();
      extraStatus := ReadUnsigned(2);
      RemovePrefix(2);
    }

    /** `decodeResponseHeader`; `None` is the source's `malformed_response`. */
    method DecodeResponseHeader() returns (r: Option<ResponseHeader>)
      modifies this
      ensures r.Some? <==> GoodResponse(old(data))
      ensures r.Some? ==> r.value == ResponseAt(old(data)) && data == old(data)[HEADER_SIZE..]
    {
      var original := data;
      if |data| < HEADER_SIZE { return None; }
      var payloadSize := DecodeSizes();
      if payloadSize == None { return None; }
      assert data == original[8..] && data[2] == original[10];
      r := DecodeFields(payloadSize.value);
      if r == None || |original| != HEADER_SIZE + payloadSize.value { return None; }
    }
  }
}
