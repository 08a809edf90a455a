/**
 Robot variables: the payload of `WriteVars` and of the reply to `ReadVars`.  A single value is sent as it is,
 any other number of values behind a 32-bit count.
 */
module Variables {
  import opened Common
  import opened Wire
  import opened Positions

  /** The types that `ReadVar`, `ReadVars`, `WriteVar` and `WriteVars` exist for. */
  datatype Type = U8 | I16 | I32 | F32 | PositionType

  /** A `float` is the 32-bit pattern that it is sent as. */
  datatype Value = Integer(n: int) | Float(bits: Word) | PositionValue(position: Position)

  /** `encoded_size<T>` */
  function Size(t: Type): nat {
    match t
    case U8 => 1
    case I16 => 2
    case I32 => 4
    case F32 => 4
    case PositionType => 52
  }

  predicate HasType(v: Value, t: Type) {
    match t
    case U8 => v.Integer? && 0 <= v.n < 256
    case I16 => v.Integer? && -0x8000 <= v.n < 0x8000
    case I32 => v.Integer? && Int32(v.n)
    case F32 => v.Float?
    case PositionType => v.PositionValue? && Valid(v.position)
  }

  predicate AllOfType(values: seq<Value>, t: Type) {
    forall i :: 0 <= i < |values| ==> HasType(values[i], t)
  }

  /** `None` if the source throws. */
  function EncodeValue(t: Type, v: Value): (r: Option<seq<Byte>>)
    requires HasType(v, t)
    ensures r.Some? ==> |r.value| == Size(t)
    ensures r == None <==> v.PositionValue? && v.position.Cartesian? && v.position.frame == MASTER
  {
    match v
    case Integer(n) => Some(LittleEndian(Size(t), n))
    case Float(bits) => Some(LittleEndian(4, bits))
    case PositionValue(p) => EncodePosition(p)
  }

  /** `None` if the source reports an error. */
  function DecodeValue(t: Type, data: seq<Byte>): Option<Value>
    requires |data| == Size(t)
  {
    match t
    case U8 => Some(Integer(Unsigned(data)))
    case I16 => Some(Integer(Signed(data)))
    case I32 => Some(Integer(Signed(data)))
    case F32 => Some(Float(WordAt(data, 0)))
    case PositionType =>
      match PositionAt(data)
      case None => None
      case Some(p) => Some(PositionValue(p))
  }

  function CanonicalValue(t: Type, v: Value): Value
    requires HasType(v, t)
  {
    if v.PositionValue? then PositionValue(Canonical(v.position)) else v
  }

  predicate Readable(v: Value) { v.PositionValue? ==> Decodable(v.position) }

  lemma ValueRoundTrip(t: Type, v: Value)
    requires HasType(v, t) && EncodeValue(t, v).Some?
    ensures DecodeValue(t, EncodeValue(t, v).value) == if Readable(v) then Some(CanonicalValue(t, v)) else None
  {
    PowValues();
    var data := EncodeValue(t, v).value;
    match t
    case U8 => UnsignedRoundTrip(1, v.n);
    case I16 => SignedRoundTrip(2, v.n);
    case I32 => SignedRoundTrip(4, v.n);
    case F32 =>
      UnsignedRoundTrip(4, v.bits);
      assert data[0..4] == data;
    case PositionType =>
      assert data + [] == data;
      if v.position.Pulse? { PulseRoundTrip(v.position, []); } else { CartesianRoundTrip(v.position, []); }
  }

  /** For all types but positions, what is read is written in the same bytes. */
  lemma ValueBytes(t: Type, data: seq<Byte>)
    requires |data| == Size(t) && t != PositionType
    ensures DecodeValue(t, data).Some? && HasType(DecodeValue(t, data).value, t)
    ensures EncodeValue(t, DecodeValue(t, data).value) == Some(data)
  {
    PowValues();
    UnsignedBound(data);
    BytesRoundTrip(data);
    assert data[0..|data|] == data;
    SameBytes(Size(t), Unsigned(data), -1);
  }

  // ----- Lists of values -----

  function EncodeValues(t: Type, values: seq<Value>): (r: Option<seq<Byte>>)
    requires AllOfType(values, t)
    ensures r.Some? ==> |r.value| == |values| * Size(t)
    ensures r.Some? <==> forall i :: 0 <= i < |values| ==> EncodeValue(t, values[i]).Some?
  {
    if values == [] then Some([])
    else
      var n := |values| - 1;
      var front := EncodeValues(t, values[..n]);
      var last := EncodeValue(t, values[n]);
      if front == None || last == None then None else Some(front.value + last.value)
  }

  /** The value number `i` in data of `n` values. */
  function Slot(t: Type, data: seq<Byte>, n: nat, i: nat): (r: seq<Byte>)
    requires |data| == n * Size(t) && i < n
    ensures |r| == Size(t)
  {
    SlotBound(t, n, i);
    data[i * Size(t)..(i + 1) * Size(t)]
  }

  lemma SlotBound(t: Type, n: nat, i: nat)
    requires i < n
    ensures 0 <= i * Size(t) <= (i + 1) * Size(t) <= n * Size(t) && (i + 1) * Size(t) - i * Size(t) == Size(t)
  {
    assert (n - i - 1) * Size(t) >= 0;
  }

  /** All values of `data`, or `None` if one of them is malformed. */
  function DecodeValues(t: Type, data: seq<Byte>, n: nat): (r: Option<seq<Value>>)
    requires |data| == n * Size(t)
    ensures r.Some? <==> forall i :: 0 <= i < n ==> DecodeValue(t, Slot(t, data, n, i)).Some?
    ensures r.Some? ==> |r.value| == n && forall i :: 0 <= i < n ==>
      DecodeValue(t, Slot(t, data, n, i)) == Some(r.value[i])
  {
    if forall i :: 0 <= i < n ==> DecodeValue(t, Slot(t, data, n, i)).Some?
    then Some(seq(n, i requires 0 <= i < n => DecodeValue(t, Slot(t, data, n, i)).value))
    else None
  }

  lemma {:induction false} EncodedSlot(t: Type, values: seq<Value>, i: nat)
    requires AllOfType(values, t) && EncodeValues(t, values).Some? && i < |values|
    ensures Slot(t, EncodeValues(t, values).value, |values|, i) == EncodeValue(t, values[i]).value
  {
    var n := |values| - 1;
    var front, last := EncodeValues(t, values[..n]).value, EncodeValue(t, values[n]).value;
    if i < n {
      EncodedSlot(t, values[..n], i);
      SlotInFront(t, front, last, n, i);
    } else {
      LastSlot(t, front, last, n);
    }
  }

  lemma SlotInFront(t: Type, front: seq<Byte>, last: seq<Byte>, n: nat, i: nat)
    requires |front| == n * Size(t) && |last| == Size(t) && i < n
    ensures |front + last| == (n + 1) * Size(t) && Slot(t, front + last, n + 1, i) == Slot(t, front, n, i)
  {
    var a, b := i * Size(t), (i + 1) * Size(t);
    SlotBound(t, n, i);
    SlotBound(t, n + 1, n);
    assert 0 <= a <= b <= |front| && (front + last)[a..b] == front[a..b];
  }

  lemma LastSlot(t: Type, front: seq<Byte>, last: seq<Byte>, n: nat)
    requires |front| == n * Size(t) && |last| == Size(t)
    ensures |front + last| == (n + 1) * Size(t) && Slot(t, front + last, n + 1, n) == last
  {
    SlotBound(t, n + 1, n);
    var a, b := n * Size(t), (n + 1) * Size(t);
    assert a == |front| && b == |front + last| && (front + last)[a..b] == last;
  }

  function CanonicalValues(t: Type, values: seq<Value>): (r: seq<Value>)
    requires AllOfType(values, t)
    ensures |r| == |values| && forall i :: 0 <= i < |values| ==> r[i] == CanonicalValue(t, values[i])
  {
    seq(|values|, i requires 0 <= i < |values| => CanonicalValue(t, values[i]))
  }

  predicate AllReadable(values: seq<Value>) {
    forall i :: 0 <= i < |values| ==> Readable(values[i])
  }

  lemma ListRoundTrip(t: Type, values: seq<Value>)
    requires AllOfType(values, t) && EncodeValues(t, values).Some?
    ensures DecodeValues(t, EncodeValues(t, values).value, |values|) ==
      if AllReadable(values) then Some(CanonicalValues(t, values)) else None
  {
    var data, n := EncodeValues(t, values).value, |values|;
    forall i | 0 <= i < n
      ensures DecodeValue(t, Slot(t, data, n, i)) ==
        if Readable(values[i]) then Some(CanonicalValue(t, values[i])) else None
    {
      EncodedSlot(t, values, i);
      ValueRoundTrip(t, values[i]);
    }
    if AllReadable(values) {
      assert DecodeValues(t, data, n).value == CanonicalValues(t, values);
    } else {
      var i :| 0 <= i < n && !Readable(values[i]);
      assert DecodeValue(t, Slot(t, data, n, i)) == None;
    }
  }

  lemma ValueInjective(t: Type, u: Value, v: Value)
    requires HasType(u, t) && HasType(v, t) && EncodeValue(t, u).Some? && EncodeValue(t, u) == EncodeValue(t, v)
    ensures CanonicalValue(t, u) == CanonicalValue(t, v)
  {
    if t == PositionType {
      PositionInjective(u.position, v.position);
    } else {
      ValueRoundTrip(t, u);
      ValueRoundTrip(t, v);
    }
  }

  /** Equal bytes mean equal lists, up to the canonical form of positions. */
  lemma ListInjective(t: Type, a: seq<Value>, b: seq<Value>)
    requires AllOfType(a, t) && AllOfType(b, t) && |a| == |b|
    requires EncodeValues(t, a).Some? && EncodeValues(t, a) == EncodeValues(t, b)
    ensures CanonicalValues(t, a) == CanonicalValues(t, b)
  {
    forall i | 0 <= i < |a| ensures CanonicalValue(t, a[i]) == CanonicalValue(t, b[i]) {
      EncodedSlot(t, a, i);
      EncodedSlot(t, b, i);
      ValueInjective(t, a[i], b[i]);
    }
  }

  lemma DecodeSnoc(t: Type, front: seq<Byte>, last: seq<Byte>, n: nat)
    requires |front| == n * Size(t) && |last| == Size(t)
    requires DecodeValues(t, front, n).Some? && DecodeValue(t, last).Some?
    ensures |front + last| == (n + 1) * Size(t)
    ensures DecodeValues(t, front + last, n + 1) == Some(DecodeValues(t, front, n).value + [DecodeValue(t, last).value])
  {
    var values := DecodeValues(t, front, n).value + [DecodeValue(t, last).value];
    var data, m := front + last, n + 1;
    LastSlot(t, front, last, n);
    forall i | 0 <= i < m ensures DecodeValue(t, Slot(t, data, m, i)) == Some(values[i]) {
      if i < n { SlotInFront(t, front, last, n, i); }
    }
    assert DecodeValues(t, data, m).value == values;
  }

  lemma EncodeSnoc(t: Type, values: seq<Value>, v: Value)
    requires AllOfType(values, t) && HasType(v, t) && EncodeValues(t, values).Some? && EncodeValue(t, v).Some?
    ensures AllOfType(values + [v], t)
    ensures EncodeValues(t, values + [v]) == Some(EncodeValues(t, values).value + EncodeValue(t, v).value)
  {
    assert (values + [v])[..|values|] == values;
  }

  lemma {:induction false} ListBytes(t: Type, data: seq<Byte>, n: nat)
    requires |data| == n * Size(t) && t != PositionType
    ensures DecodeValues(t, data, n).Some? && AllOfType(DecodeValues(t, data, n).value, t)
    ensures EncodeValues(t, DecodeValues(t, data, n).value) == Some(data)
  {
    if n > 0 {
      var m := n - 1;
      SlotBound(t, n, m);
      var front, last := data[..m * Size(t)], data[m * Size(t)..];
      ListBytes(t, front, m);
      assert data == front + last;
      DecodeSnoc(t, front, last, m);
      ValueBytes(t, last);
      EncodeSnoc(t, DecodeValues(t, front, m).value, DecodeValue(t, last).value);
    }
  }

  // ----- Payloads -----

  /** What `WriteVars` sends behind its header. */
  function WritePayload(t: Type, values: seq<Value>): (r: Option<seq<Byte>>)
    requires AllOfType(values, t)
  {
    if |values| == 1 then EncodeValue(t, values[0])
    else
      match EncodeValues(t, values)
      case None => None
      case Some(data) => Some(LittleEndian(4, |values|) + data)
  }

  /** What `ReadVars` for `count` values makes of its reply. */
  function ReadPayload(t: Type, count: Byte, data: seq<Byte>): Option<seq<Value>> {
    if count == 1 then
      if |data| != Size(t) then None
      else
        match DecodeValue(t, data)
        case None => None
        case Some(v) => Some([v])
    else if |data| != 4 + count * Size(t) || Unsigned(data[..4]) != count then None
    else DecodeValues(t, data[4..], count)
  }

  /** Every list of at most 255 values comes back in full, unless it holds a position that cannot be read. */
  lemma VariablesRoundTrip(t: Type, values: seq<Value>)
    requires AllOfType(values, t) && |values| < 256
    ensures WritePayload(t, values).Some? <==> forall i :: 0 <= i < |values| ==> EncodeValue(t, values[i]).Some?
    ensures WritePayload(t, values).Some? ==>
      ReadPayload(t, |values|, WritePayload(t, values).value) ==
      if AllReadable(values) then Some(CanonicalValues(t, values)) else None
  {
    if WritePayload(t, values).Some? {
      if |values| == 1 {
        ValueRoundTrip(t, values[0]);
        if Readable(values[0]) {
          assert CanonicalValues(t, values) == [CanonicalValue(t, values[0])];
        }
      } else {
        PowValues();
        UnsignedRoundTrip(4, |values|);
        var data := WritePayload(t, values).value;
        assert data[..4] == LittleEndian(4, |values|) && data[4..] == EncodeValues(t, values).value;
        ListRoundTrip(t, values);
      }
    }
  }

  lemma CanonicalValueBytes(t: Type, v: Value)
    requires HasType(v, t)
    ensures HasType(CanonicalValue(t, v), t) && EncodeValue(t, CanonicalValue(t, v)) == EncodeValue(t, v)
  {
    if v.PositionValue? { CanonicalIsStable(v.position); }
  }

  lemma CanonicalTypes(t: Type, values: seq<Value>)
    requires AllOfType(values, t)
    ensures AllOfType(CanonicalValues(t, values), t)
  {
    forall i | 0 <= i < |values| ensures HasType(CanonicalValue(t, values[i]), t) { CanonicalValueBytes(t, values[i]); }
  }

  /** Lists of values that are encoded alike are encoded alike. */
  lemma {:induction false} ElementwiseBytes(t: Type, a: seq<Value>, b: seq<Value>)
    requires AllOfType(a, t) && AllOfType(b, t) && |a| == |b|
    requires forall i :: 0 <= i < |a| ==> EncodeValue(t, a[i]) == EncodeValue(t, b[i])
    ensures EncodeValues(t, a) == EncodeValues(t, b)
  {
    if a != [] {
      var n := |a| - 1;
      ElementwiseBytes(t, a[..n], b[..n]);
      assert EncodeValue(t, a[n]) == EncodeValue(t, b[n]);
    }
  }

  lemma CanonicalListBytes(t: Type, values: seq<Value>)
    requires AllOfType(values, t)
    ensures AllOfType(CanonicalValues(t, values), t)
    ensures EncodeValues(t, CanonicalValues(t, values)) == EncodeValues(t, values)
  {
    CanonicalTypes(t, values);
    forall i | 0 <= i < |values| ensures EncodeValue(t, CanonicalValue(t, values[i])) == EncodeValue(t, values[i]) {
      CanonicalValueBytes(t, values[i]);
    }
    ElementwiseBytes(t, CanonicalValues(t, values), values);
  }

  lemma CanonicalPayload(t: Type, values: seq<Value>)
    requires AllOfType(values, t)
    ensures AllOfType(CanonicalValues(t, values), t)
    ensures WritePayload(t, CanonicalValues(t, values)) == WritePayload(t, values)
  {
    CanonicalListBytes(t, values);
    if |values| == 1 { CanonicalValueBytes(t, values[0]); }
  }

  /** For types of four bytes an empty list and a single zero are the same message. */
  predicate EmptyAndZero(t: Type, a: seq<Value>, b: seq<Value>) {
    Size(t) == 4 && a == [] && (b == [Integer(0)] || b == [Float(0)])
  }

  lemma ZeroBytes(t: Type, v: Value)
    requires HasType(v, t) && Size(t) == 4
    ensures EncodeValue(t, v) == Some(LittleEndian(4, 0)) <==> v == Integer(0) || v == Float(0)
  {
    PowValues();
    match t
    case I32 =>
      SignedRoundTrip(4, v.n);
      SignedRoundTrip(4, 0);
    case F32 =>
      UnsignedRoundTrip(4, v.bits);
      UnsignedRoundTrip(4, 0);
  }

  lemma SameForm(t: Type, a: seq<Value>, b: seq<Value>)
    requires AllOfType(a, t) && AllOfType(b, t) && (|a| == 1 <==> |b| == 1)
    requires WritePayload(t, a).Some? && WritePayload(t, a) == WritePayload(t, b)
    ensures CanonicalValues(t, a) == CanonicalValues(t, b)
  {
    if |a| == 1 {
      ValueInjective(t, a[0], b[0]);
    } else {
      var x, y := EncodeValues(t, a).value, EncodeValues(t, b).value;
      if |a| != |b| { DifferentProducts(|a|, |b|, Size(t)); }
      assert (LittleEndian(4, |a|) + x)[4..] == x && (LittleEndian(4, |b|) + y)[4..] == y;
      ListInjective(t, a, b);
    }
  }

  lemma OtherForm(t: Type, a: seq<Value>, b: seq<Value>)
    requires AllOfType(a, t) && AllOfType(b, t) && |a| != 1 && |b| == 1
    requires WritePayload(t, a).Some? && WritePayload(t, b).Some?
    ensures WritePayload(t, a) == WritePayload(t, b) <==> EmptyAndZero(t, a, b)
  {
    assert |a| > 0 ==> |a| * Size(t) >= Size(t);
    if Size(t) == 4 && a == [] {
      assert WritePayload(t, a).value == LittleEndian(4, 0);
      ZeroBytes(t, b[0]);
    }
  }

  /**
   The payload of a write determines the number of values and, up to the canonical form of positions, all values; with
   the one exception of an empty list and a single zero.
   */
  lemma WriteSameIff(t: Type, a: seq<Value>, b: seq<Value>)
    requires AllOfType(a, t) && AllOfType(b, t) && WritePayload(t, a).Some? && WritePayload(t, b).Some?
    ensures WritePayload(t, a) == WritePayload(t, b) <==>
      CanonicalValues(t, a) == CanonicalValues(t, b) || EmptyAndZero(t, a, b) || EmptyAndZero(t, b, a)
  {
    if |a| != 1 && |b| == 1 {
      OtherForm(t, a, b);
    } else if |a| == 1 && |b| != 1 {
      OtherForm(t, b, a);
    } else {
      if WritePayload(t, a) == WritePayload(t, b) { SameForm(t, a, b); }
      CanonicalPayload(t, a);
      CanonicalPayload(t, b);
    }
  }

  /** For all types but positions every accepted reply is what `WriteVars` would send for the values read. */
  lemma VariablesBytes(t: Type, count: Byte, data: seq<Byte>)
    requires t != PositionType && ReadPayload(t, count, data).Some?
    ensures var values := ReadPayload(t, count, data).value;
      |values| == count && AllOfType(values, t) && WritePayload(t, values) == Some(data)
  {
    if count == 1 {
      ValueBytes(t, data);
    } else {
      ListBytes(t, data[4..], count);
      BytesRoundTrip(data[..4]);
      assert data == data[..4] + data[4..];
    }
  }

  /**
   Reading with another count than was written with is rejected, with one exception: for types of four bytes an
   empty list is the same message as the single value zero.
   */
  lemma OtherCountRejected(t: Type, values: seq<Value>, count: Byte)
    requires AllOfType(values, t) && |values| < 256 && count != |values| && WritePayload(t, values).Some?
    ensures ReadPayload(t, count, WritePayload(t, values).value).Some? <==>
      Size(t) == 4 && ((values == [] && count == 1)
                       || (count == 0 && |values| == 1 && (values[0] == Integer(0) || values[0] == Float(0))))
  {
    PowValues();
    var data := WritePayload(t, values).value;
    if |values| == 1 {
      assert |data| == Size(t) && (count >= 1 ==> count * Size(t) >= Size(t));
      if count == 0 && Size(t) == 4 {
        assert data[..4] == data && data[0..4] == data;
        ValueRoundTrip(t, values[0]);
        ZeroUnsigned(data);
      }
    } else if count != 1 {
      DifferentProducts(count, |values|, Size(t));
    } else {
      assert |values| > 1 ==> |values| * Size(t) >= Size(t);
    }
  }

  lemma DifferentProducts(a: nat, b: nat, m: nat)
    requires a != b && m > 0
    ensures a * m != b * m
  {
    assert (a - b) * m == a * m - b * m;
    if a > b { assert (a - b) * m > 0; } else { assert (b - a) * m > 0; }
  }

  lemma ZeroUnsigned(data: seq<Byte>)
    requires |data| == 4
    ensures Unsigned(data) == 0 <==> Signed(data) == 0
  {
    UnsignedBound(data);
  }

  /** A whole datagram as `receive` and the session decode it; a status other than 0 is a failure of the command. */
  function ReadReply(t: Type, count: Byte, data: seq<Byte>): Option<seq<Value>> {
    if GoodResponse(data) && ResponseAt(data).status == 0 then ReadPayload(t, count, data[HEADER_SIZE..]) else None
  }

  /**
   A reply with any header of an acknowledgement brings all values if its status is 0, except when one of them cannot
   be read, or when there are more than fit into a reply: 475 bytes, 237 words of 16 bits, 118 of 32 bits or
   9 positions.
   */
  lemma ReplyRoundTrip(t: Type, values: seq<Value>, h: ResponseHeader, reserved: seq<Byte>, added: Byte,
    padding: seq<Byte>)
    requires AllOfType(values, t) && |values| < 256 && WritePayload(t, values).Some?
    requires h.ack && h.payloadSize == |WritePayload(t, values).value| && |reserved| == 8 && |padding| == 3
    ensures ReadReply(t, |values|, EncodeResponse(h, reserved, added, padding, WritePayload(t, values).value)) ==
      if h.status == 0 && AllReadable(values) && |values| <= MostValues(t) then Some(CanonicalValues(t, values))
      else None
  {
    VariablesRoundTrip(t, values);
    ResponseRoundTrip(h, reserved, added, padding, WritePayload(t, values).value);
  }

  function MostValues(t: Type): nat {
    match t
    case U8 => 475
    case I16 => 237
    case I32 => 118
    case F32 => 118
    case PositionType => 9
  }

  // ----- Buffers -----

  /** `encode(out, value)` for the type `t` */
  method WriteValue(out: Output, t: Type, v: Value) returns (thrown: bool)
    requires HasType(v, t)
    modifies out
    ensures thrown <==> EncodeValue(t, v) == None
    ensures out.bytes == if thrown then old(out.bytes) else old(out.bytes) + EncodeValue(t, v).value
  {
    thrown := false;
    match v
    case Integer(n) => out.WriteLittleEndian(Size(t), n);
    case Float(bits) => out.WriteLittleEndian(4, bits);
    case PositionValue(p) =>
      match p
      case Pulse(joints, tool) => EncodePulse(out, joints, tool);
      case Cartesian(_, _, _, _) => thrown := EncodeCartesian(out, p);
  }

  /** `decode<T>(data)` */
  method ReadValue(input: Input, t: Type) returns (r: Option<Value>)
    requires |input.data| >= Size(t)
    modifies input
    ensures r == DecodeValue(t, old(input.data)[..Size(t)])
    ensures r.Some? ==> input.data == old(input.data)[Size(t)..]
  {
    ghost var own := input.data[..Size(t)];
    match t
    case U8 =>
      var n := input.ReadUnsigned(1);
      r := Some(Integer(n));
    case I16 =>
      var n := input.ReadSigned(2);
      r := Some(Integer(n));
    case I32 =>
      var n := input.ReadSigned(4);
      r := Some(Integer(n));
    case F32 =>
      assert own[0..4] == own;
      UnsignedBound(own);
      PowValues();
      var n := input.ReadUnsigned(4);
      r := Some(Float(n));
    case PositionType =>
      PositionPrefix(input.data);
      var p := DecodePosition(input);
      r := match p case None => None case Some(position) => Some(PositionValue(position));
  }

  /** A position depends on its own 52 bytes only. */
  lemma PositionPrefix(data: seq<Byte>)
    requires |data| >= 52
    ensures PositionAt(data[..52]) == PositionAt(data)
  {
    forall i: nat | i < 13 ensures data[..52][4 * i..4 * i + 4] == data[4 * i..4 * i + 4] {}
    forall i: nat | i < 13
      ensures SignedAt(data[..52], i) == SignedAt(data, i) && WordAt(data[..52], i) == WordAt(data, i)
    {
      assert data[..52][4 * i..4 * i + 4] == data[4 * i..4 * i + 4];
    }
    var joints := seq(8, i requires 0 <= i < 8 => SignedAt(data, 5 + i));
    assert seq(8, i requires 0 <= i < 8 => SignedAt(data[..52], 5 + i)) == joints;
    var coords := seq(6, i requires 0 <= i < 6 => FromWire(SignedAt(data, 5 + i), i));
    assert seq(6, i requires 0 <= i < 6 => FromWire(SignedAt(data[..52], 5 + i), i)) == coords;
  }

  /** `decodeReadVars`: on success every byte has been consumed. */
  method DecodeReadVars(input: Input, t: Type, count: Byte) returns (r: Option<seq<Value>>)
    modifies input
    ensures r == ReadPayload(t, count, old(input.data))
    ensures r.Some? ==> input.data == []
  {
    if count == 1 {
      if |input.data| != Size(t) { return None; }
      assert input.data[..Size(t)] == input.data;
      var v := ReadValue(input, t);
      return match v case None => None case Some(value) => Some([value]);
    }
    if |input.data| != 4 + count * Size(t) { return None; }
    var actual := input.ReadUnsigned(4);
    if actual != count { return None; }
    r := ReadValues(input, t, count);
  }

  /** The loop over the values. */
  method ReadValues(input: Input, t: Type, n: nat) returns (r: Option<seq<Value>>)
    requires |input.data| == n * Size(t)
    modifies input
    ensures r == DecodeValues(t, old(input.data), n)
    ensures r.Some? ==> input.data == []
  {
    ghost var original := input.data;
    var values := [];
    var i := 0;
    while i < n
      invariant 0 <= i <= n && |values| == i && i * Size(t) <= |original| && input.data == original[i * Size(t)..]
      invariant forall k :: 0 <= k < i ==> DecodeValue(t, Slot(t, original, n, k)) == Some(values[k])
    {
      SlotBound(t, n, i);
      assert input.data[..Size(t)] == Slot(t, original, n, i);
      var v := ReadValue(input, t);
      if v == None { return None; }
      values := values + [v.value];
      i := i + 1;
    }
    assert DecodeValues(t, original, n).value == values;
    return Some(values);
  }
}
