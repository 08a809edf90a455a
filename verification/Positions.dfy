/**
 Positions on the wire: 13 words of 32 bits.  Coordinates are exact real numbers here; the source computes
 with `double`.
 */
module Positions {
  import opened Common
  import opened Wire

  // `enum class CoordinateSystem`
  const BASE := 0
  const ROBOT := 1
  const USER1 := 2
  const USER16 := 17
  const TOOL := 18
  const MASTER := 19

  datatype Position =
    | Pulse(joints: seq<int>, tool: int)
    | Cartesian(coords: seq<real>, frame: int, configuration: nat, tool: int)

  predicate Int32(x: int) { -0x8000_0000 <= x < 0x8000_0000 }

  /** Conversion of a floating point number to an integer: the fraction is dropped. */
  function Trunc(x: real): int { if x >= 0.0 then x.Floor else -((-x).Floor) }

  /** Lengths in micrometers, angles in 0.0001 degrees. */
  function Scale(i: nat): real { if i < 3 then 1000.0 else 10000.0 }

  function ToWire(x: real, i: nat): int { Trunc(x * Scale(i)) }
  function FromWire(n: int, i: nat): real { n as real / Scale(i) }

  /** Values the types of the source can hold and, for coordinates, convert to 32-bit integers. */
  predicate Valid(p: Position) {
    Int32(p.tool) &&
    match p
    case Pulse(joints, _) => |joints| <= 8 && forall i :: 0 <= i < |joints| ==> Int32(joints[i])
    case Cartesian(coords, frame, configuration, _) =>
      && |coords| == 6 && (forall i :: 0 <= i < 6 ==> Int32(ToWire(coords[i], i)))
      && BASE <= frame <= MASTER && configuration < 64
  }

  predicate IsUser(frame: int) { USER1 <= frame <= USER16 }

  /** `userCoordinateNumber` */
  function UserNumber(frame: int): int { if IsUser(frame) then frame - USER1 + 1 else 0 }

  /** `userCoordinateSystem` */
  function UserFrame(number: int): int { USER1 + number - 1 }

  /** `None` stands for the exception that the source throws. */
  function EncodeFrameType(frame: int): Option<Word> {
    if IsUser(frame) then Some(19)
    else if frame == BASE then Some(16)
    else if frame == ROBOT then Some(17)
    else if frame == TOOL then Some(18)
    else None
  }

  function DecodeFrame(kind: int, user: int): Option<int> {
    if kind == 16 then Some(BASE)
    else if kind == 17 then Some(ROBOT)
    else if kind == 18 then Some(TOOL)
    else if kind == 19 then (if user <= 15 then Some(UserFrame(user)) else None)
    else None
  }

  /**
   Frames come back exactly for base, robot, tool and user frames 1 to 15; user frame 16 is encoded but then
   rejected, and the master frame is not encoded.
   */
  lemma FrameRoundTrip(frame: int)
    requires BASE <= frame <= MASTER
    ensures EncodeFrameType(frame).Some? <==> frame != MASTER
    ensures EncodeFrameType(frame).Some? ==>
      DecodeFrame(EncodeFrameType(frame).value, UserNumber(frame)) == if frame == USER16 then None else Some(frame)
  {}

  /**
   The decoder only bounds the user frame number from above.  What it accepts is that user frame exactly for
   the numbers 1 to 15: number 0 becomes the robot frame, and a negative number none at all.
   */
  lemma UserFrameAccepted(user: int)
    ensures DecodeFrame(19, user).Some? <==> user <= 15
    ensures user <= 15 ==>
      var frame := DecodeFrame(19, user).value;
      && (IsUser(frame) && UserNumber(frame) == user <==> 1 <= user)
      && (frame == ROBOT <==> user == 0)
      && (BASE <= frame <= MASTER <==> -1 <= user)
  {}

  // ----- Words -----

  function Bytes(words: seq<int>): (r: seq<Byte>)
    ensures |r| == 4 * |words|
  {
    if words == [] then [] else Bytes(words[..|words| - 1]) + LittleEndian(4, words[|words| - 1])
  }

  function WordAt(data: seq<Byte>, i: nat): Word
    requires 4 * i + 4 <= |data|
  {
    UnsignedBound(data[4 * i..4 * i + 4]);
    PowValues();
    Unsigned(data[4 * i..4 * i + 4])
  }

  function SignedAt(data: seq<Byte>, i: nat): (r: int)
    requires 4 * i + 4 <= |data|
    ensures Int32(r)
  {
    UnsignedBound(data[4 * i..4 * i + 4]);
    PowValues();
    Signed(data[4 * i..4 * i + 4])
  }

  lemma {:induction false} BytesAt(words: seq<int>, rest: seq<Byte>, i: nat)
    requires i < |words|
    ensures (Bytes(words) + rest)[4 * i..4 * i + 4] == LittleEndian(4, words[i])
  {
    var n := |words| - 1;
    if i < n {
      BytesAt(words[..n], LittleEndian(4, words[n]) + rest, i);
      assert Bytes(words) + rest == Bytes(words[..n]) + (LittleEndian(4, words[n]) + rest);
    }
  }

  /** Words come back: as they were if they are in range, signed or unsigned. */
  lemma WordRoundTrip(words: seq<int>, rest: seq<Byte>, i: nat)
    requires i < |words|
    ensures 0 <= words[i] < 0x1_0000_0000 ==> WordAt(Bytes(words) + rest, i) == words[i]
    ensures Int32(words[i]) ==> SignedAt(Bytes(words) + rest, i) == words[i]
  {
    BytesAt(words, rest, i);
    PowValues();
    if 0 <= words[i] < 0x1_0000_0000 { UnsignedRoundTrip(4, words[i]); }
    if Int32(words[i]) { SignedRoundTrip(4, words[i]); }
  }

  lemma BytesAppend(words: seq<int>, w: int)
    ensures Bytes(words + [w]) == Bytes(words) + LittleEndian(4, w)
  {
    assert (words + [w])[..|words|] == words;
  }

  // ----- Encoding -----

  function Zeros(n: nat): seq<int> { seq(n, i => 0) }

  function WireCoords(coords: seq<real>): (r: seq<int>)
    ensures |r| == |coords| && forall i :: 0 <= i < |coords| ==> r[i] == ToWire(coords[i], i)
  {
    seq(|coords|, i requires 0 <= i < |coords| => ToWire(coords[i], i))
  }

  function PositionWords(p: Position): (r: Option<seq<int>>)
    requires Valid(p)
    ensures r.Some? ==> |r.value| == 13
  {
    match p
    case Pulse(joints, tool) => Some([0, 0, tool, 0, 0] + joints + Zeros(8 - |joints|))
    case Cartesian(coords, frame, configuration, tool) =>
      match EncodeFrameType(frame)
      case None => None
      case Some(kind) => Some([kind, configuration, tool, UserNumber(frame), 0] + WireCoords(coords) + [0, 0])
  }

  function EncodePosition(p: Position): (r: Option<seq<Byte>>)
    requires Valid(p)
    ensures r.Some? ==> |r.value| == 52
  {
    match PositionWords(p)
    case None => None
    case Some(words) => Some(Bytes(words))
  }

  // ----- Decoding -----

  /** The position that 52 bytes stand for, by the places of its words. */
  function PositionAt(data: seq<Byte>): Option<Position>
    requires |data| >= 52
  {
    var tool := SignedAt(data, 2);
    if WordAt(data, 0) == 0 then
      Some(Pulse(seq(8, i requires 0 <= i < 8 => SignedAt(data, 5 + i)), tool))
    else
      match DecodeFrame(WordAt(data, 0), SignedAt(data, 3))
      case None => None
      case Some(frame) =>
        Some(Cartesian(seq(6, i requires 0 <= i < 6 => FromWire(SignedAt(data, 5 + i), i)), frame,
                       WordAt(data, 1) % 64, tool))
  }

  /** What a position looks like after a round trip: eight joints, coordinates in whole wire units. */
  function Canonical(p: Position): Position
    requires Valid(p)
  {
    match p
    case Pulse(joints, tool) => Pulse(joints + Zeros(8 - |joints|), tool)
    case Cartesian(coords, frame, configuration, tool) =>
      Cartesian(seq(6, i requires 0 <= i < 6 => FromWire(ToWire(coords[i], i), i)), frame, configuration, tool)
  }

  predicate Decodable(p: Position) {
    p.Pulse? || (p.frame != USER16 && p.frame != MASTER)
  }

  /** Every pulse position comes back with its tool and zero-padded to eight joints. */
  lemma PulseRoundTrip(p: Position, rest: seq<Byte>)
    requires Valid(p) && p.Pulse?
    ensures EncodePosition(p).Some? && PositionAt(EncodePosition(p).value + rest) == Some(Canonical(p))
  {
    var words := PositionWords(p).value;
    var data := Bytes(words) + rest;
    WordRoundTrip(words, rest, 0);
    WordRoundTrip(words, rest, 2);
    var padded := p.joints + Zeros(8 - |p.joints|);
    forall i | 0 <= i < 8 ensures SignedAt(data, 5 + i) == padded[i] {
      WordRoundTrip(words, rest, 5 + i);
      assert words[5 + i] == padded[i];
    }
    assert seq(8, i requires 0 <= i < 8 => SignedAt(data, 5 + i)) == padded;
  }

  /** A cartesian position is encoded except in the master frame, and comes back except in user frame 16. */
  lemma CartesianRoundTrip(p: Position, rest: seq<Byte>)
    requires Valid(p) && p.Cartesian?
    ensures EncodePosition(p).Some? <==> p.frame != MASTER
    ensures p.frame != MASTER ==>
      PositionAt(EncodePosition(p).value + rest) == if Decodable(p) then Some(Canonical(p)) else None
  {
    if p.frame != MASTER {
      var words := PositionWords(p).value;
      var data := Bytes(words) + rest;
      WordRoundTrip(words, rest, 0);
      WordRoundTrip(words, rest, 1);
      WordRoundTrip(words, rest, 2);
      WordRoundTrip(words, rest, 3);
      FrameRoundTrip(p.frame);
      forall i | 0 <= i < 6 ensures SignedAt(data, 5 + i) == ToWire(p.coords[i], i) {
        WordRoundTrip(words, rest, 5 + i);
        assert words[5 + i] == WireCoords(p.coords)[i];
      }
      if Decodable(p) {
        assert PositionAt(data).value.coords == Canonical(p).coords;
      }
    }
  }

  /** Truncation: whole numbers stay, others lose less than one. */
  lemma TruncWhole(n: int)
    ensures Trunc(n as real) == n
  {
    if n < 0 {
      assert -(n as real) == (-n) as real;
    }
  }

  lemma TruncError(x: real)
    ensures -1.0 < x - Trunc(x) as real < 1.0
  {}

  lemma WireUnit(x: real, i: nat)
    ensures ToWire(FromWire(ToWire(x, i), i), i) == ToWire(x, i)
    ensures -1.0 < (x - FromWire(ToWire(x, i), i)) * Scale(i) < 1.0
  {
    TruncWhole(ToWire(x, i));
    TruncError(x * Scale(i));
  }

  /**
   A round trip changes each coordinate by less than one wire unit, and changes nothing when done again: the
   position that comes back is encoded in exactly the same bytes.
   */
  lemma CanonicalIsStable(p: Position)
    requires Valid(p)
    ensures Valid(Canonical(p)) && Canonical(Canonical(p)) == Canonical(p)
    ensures EncodePosition(Canonical(p)) == EncodePosition(p)
    ensures p.Cartesian? ==> forall i :: 0 <= i < 6 ==> -1.0 < (p.coords[i] - Canonical(p).coords[i]) * Scale(i) < 1.0
  {
    match p
    case Pulse(joints, tool) =>
      assert Canonical(p).joints + Zeros(0) == Canonical(p).joints;
      assert [0, 0, tool, 0, 0] + joints + Zeros(8 - |joints|) == [0, 0, tool, 0, 0] + Canonical(p).joints + Zeros(0);
    case Cartesian(coords, frame, configuration, tool) =>
      forall i | 0 <= i < 6
        ensures ToWire(Canonical(p).coords[i], i) == ToWire(coords[i], i)
        ensures -1.0 < (coords[i] - Canonical(p).coords[i]) * Scale(i) < 1.0
      {
        WireUnit(coords[i], i);
      }
      assert WireCoords(Canonical(p).coords) == WireCoords(coords);
      assert Canonical(Canonical(p)).coords == Canonical(p).coords;
  }

  lemma SameWords(a: seq<int>, b: seq<int>)
    requires |a| == |b| && Bytes(a) == Bytes(b)
    requires forall i :: 0 <= i < |a| ==> Int32(a[i]) && Int32(b[i])
    ensures a == b
  {
    forall i | 0 <= i < |a| ensures a[i] == b[i] {
      WordRoundTrip(a, [], i);
      WordRoundTrip(b, [], i);
    }
  }

  /** All words of a position are signed numbers of 32 bits. */
  lemma PositionWordsInRange(p: Position)
    requires Valid(p) && PositionWords(p).Some?
    ensures forall i :: 0 <= i < 13 ==> Int32(PositionWords(p).value[i])
  {
    if p.Cartesian? { assert |WireCoords(p.coords)| == 6; }
  }

  /**
   The bytes determine the position up to its canonical form, in every frame that can be encoded, user frame 16
   too.
   */
  lemma PositionInjective(p: Position, q: Position)
    requires Valid(p) && Valid(q) && EncodePosition(p).Some? && EncodePosition(p) == EncodePosition(q)
    ensures Canonical(p) == Canonical(q)
  {
    var a, b := PositionWords(p).value, PositionWords(q).value;
    PositionWordsInRange(p);
    PositionWordsInRange(q);
    SameWords(a, b);
    assert a[0] == b[0];
    if p.Pulse? { SamePulse(p, q); } else { SameCartesian(p, q); }
  }

  lemma SamePulse(p: Position, q: Position)
    requires Valid(p) && Valid(q) && p.Pulse? && q.Pulse? && PositionWords(p) == PositionWords(q)
    ensures Canonical(p) == Canonical(q)
  {
    var a, b := PositionWords(p).value, PositionWords(q).value;
    assert a[2] == b[2] && Canonical(p).joints == a[5..] && Canonical(q).joints == b[5..];
  }

  lemma SameCartesian(p: Position, q: Position)
    requires Valid(p) && Valid(q) && p.Cartesian? && q.Cartesian?
    requires PositionWords(p).Some? && PositionWords(p) == PositionWords(q)
    ensures Canonical(p) == Canonical(q)
  {
    var a, b := PositionWords(p).value, PositionWords(q).value;
    assert a[0] == b[0] && a[1] == b[1] && a[2] == b[2] && a[3] == b[3];
    forall i | 0 <= i < 6 ensures ToWire(p.coords[i], i) == ToWire(q.coords[i], i) {
      assert a[5 + i] == WireCoords(p.coords)[i] && b[5 + i] == WireCoords(q.coords)[i];
    }
    assert Canonical(p).coords == Canonical(q).coords;
  }

  /** The other way round fails: user frame 0 is decoded as the robot frame and encoded as that. */
  lemma UserFrameZeroIsLost(tool: int)
    requires Int32(tool)
    ensures var data := Bytes([19, 0, tool, 0, 0] + Zeros(8));
      && PositionAt(data).Some? && Valid(PositionAt(data).value)
      && PositionAt(data).value.Cartesian? && PositionAt(data).value.frame == ROBOT
      && EncodePosition(PositionAt(data).value).Some? && EncodePosition(PositionAt(data).value).value != data
  {
    var words := [19, 0, tool, 0, 0] + Zeros(8);
    var data := Bytes(words);
    assert data + [] == data;
    WordRoundTrip(words, [], 0);
    WordRoundTrip(words, [], 2);
    WordRoundTrip(words, [], 3);
    forall i | 0 <= i < 6 ensures SignedAt(data, 5 + i) == 0 && ToWire(FromWire(0, i), i) == 0 {
      WordRoundTrip(words, [], 5 + i);
    }
    var p := PositionAt(data).value;
    WordRoundTrip(PositionWords(p).value, [], 0);
    assert EncodePosition(p).value + [] == EncodePosition(p).value;
  }

  // ----- Layout -----

  /** Truncation drops the fraction, towards zero. */
  lemma TruncMeans(x: real)
    ensures x >= 0.0 ==> Trunc(x) as real <= x < (Trunc(x) + 1) as real
    ensures x < 0.0 ==> (Trunc(x) - 1) as real < x <= Trunc(x) as real
  {}

  /** Number `i` of the eight numbers at the end. */
  function Coordinate(r: seq<Byte>, i: nat): int
    requires 24 + 4 * i <= |r|
  {
    Signed(r[20 + 4 * i..24 + 4 * i])
  }

  /** The bytes of a position, field by field; frames have the numbers of `enum class CoordinateSystem`. */
  predicate LaidOut(p: Position, r: seq<Byte>) {
    && |r| == 52 && Signed(r[8..12]) == p.tool && Unsigned(r[16..20]) == 0
    && (match p
        case Pulse(joints, _) =>
          && Unsigned(r[0..4]) == 0 && Unsigned(r[4..8]) == 0 && Unsigned(r[12..16]) == 0
          && forall i :: 0 <= i < 8 ==> Coordinate(r, i) == if i < |joints| then joints[i] else 0
        case Cartesian(coords, frame, configuration, _) =>
          && Unsigned(r[0..4]) == (if frame == 0 then 16 else if frame == 1 then 17 else if frame == 18 then 18 else 19)
          && Unsigned(r[4..8]) == configuration
          && Unsigned(r[12..16]) == (if 2 <= frame <= 17 then frame - 1 else 0)
          && |coords| == 6
          && (forall i :: 0 <= i < 6 ==>
                Coordinate(r, i) == Trunc(coords[i] * if i < 3 then 1000.0 else 10000.0))
          && Coordinate(r, 6) == 0 && Coordinate(r, 7) == 0)
  }

  /** A word, read back unsigned and signed. */
  lemma WordBack(words: seq<int>, i: nat)
    requires |words| == 13 && i < 13 && Int32(words[i])
    ensures Signed(Bytes(words)[4 * i..4 * i + 4]) == words[i]
    ensures words[i] >= 0 ==> Unsigned(Bytes(words)[4 * i..4 * i + 4]) == words[i]
  {
    assert Bytes(words) + [] == Bytes(words);
    WordRoundTrip(words, [], i);
    assert SignedAt(Bytes(words), i) == words[i];
    assert words[i] >= 0 ==> WordAt(Bytes(words), i) == words[i];
  }

  lemma WordsBack(words: seq<int>) returns (r: seq<Byte>)
    requires |words| == 13 && forall i :: 0 <= i < 13 ==> Int32(words[i])
    requires words[0] >= 0 && words[1] >= 0 && words[3] >= 0 && words[4] >= 0
    ensures r == Bytes(words) && |r| == 52
    ensures Unsigned(r[0..4]) == words[0] && Unsigned(r[4..8]) == words[1] && Signed(r[8..12]) == words[2]
    ensures Unsigned(r[12..16]) == words[3] && Unsigned(r[16..20]) == words[4]
    ensures forall i :: 0 <= i < 8 ==> Coordinate(r, i) == words[5 + i]
  {
    r := Bytes(words);
    WordBack(words, 0);
    WordBack(words, 1);
    WordBack(words, 2);
    WordBack(words, 3);
    WordBack(words, 4);
    forall i: nat | i < 8 ensures Coordinate(r, i) == words[5 + i] { WordBack(words, 5 + i); }
  }

  /** Every position is written in this layout. */
  lemma PositionLayout(p: Position)
    requires Valid(p) && EncodePosition(p).Some?
    ensures LaidOut(p, EncodePosition(p).value)
  {
    var words := PositionWords(p).value;
    PositionWordsInRange(p);
    var r := WordsBack(words);
    match p
    case Pulse(joints, tool) => PulseLayout(joints, tool, words);
    case Cartesian(_, _, _, _) => CartesianLayout(p, words);
  }

  lemma PulseLayout(joints: seq<int>, tool: int, words: seq<int>)
    requires Valid(Pulse(joints, tool)) && PositionWords(Pulse(joints, tool)) == Some(words)
    ensures words[0] == words[1] == words[3] == words[4] == 0 && words[2] == tool
    ensures forall i :: 0 <= i < 8 ==> words[5 + i] == if i < |joints| then joints[i] else 0
  {}

  lemma CartesianLayout(p: Position, words: seq<int>)
    requires Valid(p) && p.Cartesian? && PositionWords(p) == Some(words)
    ensures words[0] == (if p.frame == 0 then 16 else if p.frame == 1 then 17 else if p.frame == 18 then 18 else 19)
    ensures words[1] == p.configuration && words[2] == p.tool && words[4] == 0
    ensures words[3] == (if 2 <= p.frame <= 17 then p.frame - 1 else 0)
    ensures forall i :: 0 <= i < 6 ==> words[5 + i] == Trunc(p.coords[i] * if i < 3 then 1000.0 else 10000.0)
    ensures words[11] == 0 && words[12] == 0
  {
    forall i: nat | i < 6 ensures words[5 + i] == ToWire(p.coords[i], i) {
      assert words[5 + i] == WireCoords(p.coords)[i];
    }
  }

  /** And read from it, with the fields at the same places. */
  lemma PositionReads(data: seq<Byte>)
    requires |data| >= 52
    ensures var kind, user, p := Unsigned(data[0..4]), Signed(data[12..16]), PositionAt(data);
      && (p.Some? <==> kind == 0 || kind == 16 || kind == 17 || kind == 18 || (kind == 19 && user <= 15))
      && (p.Some? ==> p.value.tool == Signed(data[8..12]) && (p.value.Pulse? <==> kind == 0))
      && (kind == 0 ==>
            |p.value.joints| == 8 && forall i :: 0 <= i < 8 ==> p.value.joints[i] == Coordinate(data, i))
      && (p.Some? && kind != 0 ==> CartesianRead(data, p.value))
  {
    assert WordAt(data, 0) == Unsigned(data[0..4]) && SignedAt(data, 3) == Signed(data[12..16]);
    assert SignedAt(data, 2) == Signed(data[8..12]);
    forall i: nat | i < 8 ensures SignedAt(data, 5 + i) == Coordinate(data, i) {}
    if WordAt(data, 0) != 0 && PositionAt(data).Some? { CartesianReads(data); }
  }

  predicate CartesianRead(data: seq<Byte>, p: Position)
    requires |data| >= 52 && p.Cartesian?
  {
    var kind := Unsigned(data[0..4]);
    && p.frame == (if kind == 16 then 0 else if kind == 17 then 1 else if kind == 18 then 18
                   else Signed(data[12..16]) + 1)
    && p.configuration == Unsigned(data[4..8]) % 64 && |p.coords| == 6
    && forall i :: 0 <= i < 6 ==> p.coords[i] == Coordinate(data, i) as real / if i < 3 then 1000.0 else 10000.0
  }

  lemma CartesianReads(data: seq<Byte>)
    requires |data| >= 52 && WordAt(data, 0) != 0 && PositionAt(data).Some?
    ensures CartesianRead(data, PositionAt(data).value)
  {
    assert WordAt(data, 0) == Unsigned(data[0..4]) && WordAt(data, 1) == Unsigned(data[4..8]);
    assert SignedAt(data, 3) == Signed(data[12..16]);
    forall i: nat | i < 6 ensures SignedAt(data, 5 + i) == Coordinate(data, i) {}
  }

  // ----- ReadCurrentPosition -----

  /** The reply to `ReadCurrentPosition` may be short: missing bytes count as zero. */
  function CurrentPosition(message: seq<Byte>): Option<Position> {
    if |message| > 52 then None else PositionAt(message + ZeroBytes(52 - |message|))
  }

  function ZeroBytes(n: nat): (r: seq<Byte>)
    ensures |r| == n
  {
    seq(n, i => 0)
  }

  /** More than 52 bytes are rejected; fewer are read with zeros behind them. */
  lemma ShortReply(message: seq<Byte>)
    ensures |message| > 52 ==> CurrentPosition(message) == None
    ensures |message| <= 52 ==> exists data: seq<Byte> ::
      && |data| == 52 && message <= data && (forall i :: |message| <= i < 52 ==> data[i] == 0)
      && CurrentPosition(message) == PositionAt(data)
  {
    if |message| <= 52 {
      var data := message + ZeroBytes(52 - |message|);
      assert |data| == 52 && message <= data;
    }
  }

  /** A robot may leave out any zeros at the end of a position: the same position is read. */
  lemma TrailingZerosOmitted(p: Position, size: nat)
    requires Valid(p) && EncodePosition(p).Some? && size <= 52
    requires EncodePosition(p).value[size..] == ZeroBytes(52 - size)
    ensures CurrentPosition(EncodePosition(p).value[..size]) == if Decodable(p) then Some(Canonical(p)) else None
  {
    var data := EncodePosition(p).value;
    assert data[..size] + ZeroBytes(52 - size) == data + [];
    if p.Pulse? { PulseRoundTrip(p, []); } else { CartesianRoundTrip(p, []); }
  }

  // ----- Buffers -----

  /** Writes the next of a list of words. */
  method WriteWord(out: Output, value: int, ghost start: seq<Byte>, ghost words: seq<int>, ghost i: nat)
    requires i < |words| && words[i] == value && out.bytes == start + Bytes(words[..i])
    modifies out
    ensures out.bytes == start + Bytes(words[..i + 1])
  {
    out.WriteLittleEndian(4, value);
    BytesAppend(words[..i], value);
    assert words[..i] + [value] == words[..i + 1];
  }

  /** The five words in front of the coordinates. */
  method WriteFront(
    out: Output, kind: int, configuration: int, tool: int, user: int, ghost start: seq<Byte>, ghost words: seq<int>)
    requires |words| >= 5 && words[..5] == [kind, configuration, tool, user, 0] && out.bytes == start
    modifies out
    ensures out.bytes == start + Bytes(words[..5])
  {
    ghost var front := words[..5];
    WriteWord(out, kind, start, front, 0);
    WriteWord(out, configuration, start, front, 1);
    WriteWord(out, tool, start, front, 2);
    WriteWord(out, user, start, front, 3);
    WriteWord(out, 0, start, front, 4);
    assert front[..5] == front;
  }

  /** `encode(out, PulsePosition)` */
  method EncodePulse(out: Output, joints: seq<int>, tool: int)
    requires Valid(Pulse(joints, tool))
    modifies out
    ensures out.bytes == old(out.bytes) + EncodePosition(Pulse(joints, tool)).value
  {
    ghost var start := out.bytes;
    ghost var words := PulseWords(joints, tool);
    WriteFront(out, 0, 0, tool, 0, start, words);
    for i := 0 to |joints|
      invariant out.bytes == start + Bytes(words[..5 + i])
    {
      WriteWord(out, joints[i], start, words, 5 + i);
    }
    for i := |joints| to 8
      invariant out.bytes == start + Bytes(words[..5 + i])
    {
      WriteWord(out, 0, start, words, 5 + i);
    }
    assert words[..13] == words;
  }

  lemma PulseWords(joints: seq<int>, tool: int) returns (words: seq<int>)
    requires Valid(Pulse(joints, tool))
    ensures EncodePosition(Pulse(joints, tool)) == Some(Bytes(words))
    ensures |words| == 13 && words[..5] == [0, 0, tool, 0, 0]
    ensures forall k :: 5 <= k < 13 ==> words[k] == if k - 5 < |joints| then joints[k - 5] else 0
  {
    words := PositionWords(Pulse(joints, tool)).value;
  }

  /** `encode(out, CartesianPosition)`; the frame is looked up, and may throw, before anything is written. */
  method EncodeCartesian(out: Output, p: Position) returns (thrown: bool)
    requires Valid(p) && p.Cartesian?
    modifies out
    ensures thrown <==> EncodePosition(p) == None
    ensures out.bytes == if thrown then old(out.bytes) else old(out.bytes) + EncodePosition(p).value
  {
    var kind := EncodeFrameType(p.frame);
    if kind == None { return true; }
    ghost var start, words := out.bytes, PositionWords(p).value;
    WriteFront(out, kind.value, p.configuration, p.tool, UserNumber(p.frame), start, words);
    for i := 0 to 6
      invariant out.bytes == start + Bytes(words[..5 + i])
    {
      WriteWord(out, ToWire(p.coords[i], i), start, words, 5 + i);
    }
    WriteWord(out, 0, start, words, 11);
    WriteWord(out, 0, start, words, 12);
    assert words[..13] == words;
    return false;
  }

  /** Reads the next word. */
  method ReadWord(input: Input, ghost original: seq<Byte>, ghost i: nat) returns (w: Word)
    requires 4 * i + 4 <= |original| && input.data == original[4 * i..]
    modifies input
    ensures w == WordAt(original, i) && input.data == original[4 * (i + 1)..]
  {
    assert input.data[..4] == original[4 * i..4 * i + 4];
    assert WordAt(original, i) == Unsigned(input.data[..4]);
    w := input.ReadUnsigned(4);
  }

  lemma ToInt32Signed(data: seq<Byte>, i: nat)
    requires 4 * i + 4 <= |data|
    ensures ToInt32(WordAt(data, i)) == SignedAt(data, i)
  {
    PowValues();
  }

  /** `decode<Position>`; a rejected frame leaves the reading position behind the first five words. */
  method DecodePosition(input: Input) returns (r: Option<Position>)
    requires |input.data| >= 52
    modifies input
    ensures r == PositionAt(old(input.data))
    ensures input.data == old(input.data)[if r.Some? then 52 else 20..]
  {
    ghost var original := input.data;
    var kind := ReadWord(input, original, 0);
    var configuration := ReadWord(input, original, 1);
    var tool := ReadWord(input, original, 2);
    var user := ReadWord(input, original, 3);
    var _ := ReadWord(input, original, 4);
    ToInt32Signed(original, 2);
    ToInt32Signed(original, 3);
    if kind == 0 {
      var joints := ReadWords(input, original, 8);
      assert joints == PositionAt(original).value.joints;
      return Some(Pulse(joints, ToInt32(tool)));
    }
    var frame := DecodeFrame(kind, ToInt32(user));
    if frame == None { return None; }
    var words := ReadWords(input, original, 6);
    var coords := seq(6, i requires 0 <= i < 6 => FromWire(words[i], i));
    assert coords == PositionAt(original).value.coords;
    input.RemovePrefix(8);
    return Some(Cartesian(coords, frame.value, configuration % 64, ToInt32(tool)));
  }

  /** Reads signed words behind the first five. */
  method ReadWords(input: Input, ghost original: seq<Byte>, n: nat) returns (words: seq<int>)
    requires 20 + 4 * n <= |original| && input.data == original[20..]
    modifies input
    ensures |words| == n && (forall i :: 0 <= i < n ==> words[i] == SignedAt(original, 5 + i))
    ensures input.data == original[20 + 4 * n..]
  {
    words := [];
    for i := 0 to n
      invariant |words| == i && forall k :: 0 <= k < i ==> words[k] == SignedAt(original, 5 + k)
      invariant input.data == original[20 + 4 * i..]
    {
      var w := ReadWord(input, original, 5 + i);
      ToInt32Signed(original, 5 + i);
      words := words + [ToInt32(w)];
    }
  }
}
