/** A request means one thing: which commands are sent in the same bytes. */
module Meanings {
  import opened Wire
  import opened Common
  import opened Positions
  import opened Variables
  import opened Commands

  /**
   The command that stands for all commands sent in the same bytes: one variable is a list of one, positions have
   their canonical form, and groups and coordinate systems count only by the instance they add up to.
   */
  function Meaning(c: Command): Command
    requires Sendable(c)
  {
    match c
    case ReadCurrentPosition(group, system) =>
      ReadCurrentPosition((group + Instance(system)) % 0x1_0000 - 1, RobotPulse)
    case MoveL(group, target, speedType, speed) => MoveL(group, Canonical(target), speedType, speed)
    case ReadVar(t, index) => ReadVars(t, index, 1)
    case WriteVar(t, index, value) => WriteVars(t, index, [CanonicalValue(t, value)])
    case WriteVars(t, index, values) => WriteVars(t, index, CanonicalValues(t, values))
    case _ => c
  }

  // ----- A command is sent in the bytes of its meaning -----

  lemma CanonicalMove(c: Command)
    requires c.MoveL? && Sendable(c)
    ensures Sendable(Meaning(c)) && MoveWords(Meaning(c)) == MoveWords(c)
  {
    CanonicalIsStable(c.target);
    assert WireCoords(Canonical(c.target).coords) == WireCoords(c.target.coords) by {
      forall i | 0 <= i < 6 ensures ToWire(Canonical(c.target).coords[i], i) == ToWire(c.target.coords[i], i) {
        WireUnit(c.target.coords[i], i);
      }
    }
  }

  lemma MeaningBytes(c: Command, id: Byte)
    requires Sendable(c)
    ensures Sendable(Meaning(c)) && Encoding(Meaning(c), id) == Encoding(c, id)
  {
    match c
    case MoveL(_, _, _, _) => CanonicalMove(c);
    case WriteVar(t, index, value) =>
      CanonicalValueBytes(t, value);
      assert Payload(Meaning(c)) == Payload(c) && HeaderOf(Meaning(c), id) == HeaderOf(c, id);
    case WriteVars(t, index, values) =>
      CanonicalPayload(t, values);
      assert Payload(Meaning(c)) == Payload(c) && HeaderOf(Meaning(c), id) == HeaderOf(c, id);
    case _ =>
  }

  // ----- The bytes determine the meaning -----

  /** Which of the nine kinds of request a command is. */
  function KindOf(c: Command): nat {
    match c
    case ReadStatus => 0
    case ReadCurrentPosition(_, _) => 1
    case MoveL(_, _, _, _) => 2
    case ReadVar(_, _) => 3
    case ReadVars(_, _, _) => 3
    case WriteVar(_, _, _) => 4
    case WriteVars(_, _, _) => 4
    case ReadFileList(_) => 5
    case ReadFile(_) => 6
    case WriteFile(_) => 7
    case DeleteFile(_) => 8
  }

  /** What the header tells: no two kinds of request can be mistaken for each other. */
  lemma HeaderTellsKind(a: Command, b: Command, ida: Byte, idb: Byte)
    requires HeaderOf(a, ida) == HeaderOf(b, idb)
    ensures ida == idb && KindOf(a) == KindOf(b)
  {}

  lemma SameHeaderAndPayload(a: Command, b: Command, ida: Byte, idb: Byte)
    requires Sendable(a) && Sendable(b) && Encoding(a, ida).Some? && Encoding(a, ida) == Encoding(b, idb)
    ensures HeaderOf(a, ida) == HeaderOf(b, idb) && Payload(a).Some? && Payload(a) == Payload(b)
  {
    SameRequest(HeaderOf(a, ida), Payload(a).value, HeaderOf(b, idb), Payload(b).value);
  }

  lemma SameReads(a: Command, b: Command, id: Byte)
    requires a.ReadVars? && b.ReadVars? && HeaderOf(a, id) == HeaderOf(b, id) && Payload(a) == Payload(b)
    ensures a == b
  {
    PowValues();
    UnsignedRoundTrip(4, a.count);
    UnsignedRoundTrip(4, b.count);
  }

  /** Single values as lists; nothing else changes. */
  function AsList(c: Command): Command {
    match c
    case ReadVar(t, index) => ReadVars(t, index, 1)
    case WriteVar(t, index, value) => WriteVars(t, index, [value])
    case _ => c
  }

  lemma AsListSame(c: Command, id: Byte)
    requires Sendable(c)
    ensures Sendable(AsList(c)) && Encoding(AsList(c), id) == Encoding(c, id)
    ensures Meaning(AsList(c)) == Meaning(c)
  {
    if c.WriteVar? {
      assert CanonicalValues(c.t, [c.value]) == [CanonicalValue(c.t, c.value)];
    }
  }

  lemma ListsAgree(a: Command, b: Command, ida: Byte, idb: Byte)
    requires Sendable(a) && Sendable(b) && AsList(a) == a && AsList(b) == b
    requires Encoding(a, ida).Some? && Encoding(a, ida) == Encoding(b, idb)
    ensures ida == idb && Meaning(a) == Meaning(b)
  {
    SameHeaderAndPayload(a, b, ida, idb);
    HeaderTellsKind(a, b, ida, idb);
    match a
    case MoveL(_, _, _, _) => MovesDiffer(a, b, ida, idb);
    case WriteVars(_, _, _) => WritesDiffer(a, b, ida, idb);
    case ReadVars(_, _, _) => SameReads(a, b, ida);
    case ReadCurrentPosition(_, _) => PositionRequestsAgree(a, b, ida);
    case _ =>
  }

  /**
   Two commands are sent in the same bytes exactly if they have the same request id and the same meaning.  So no
   request can be taken for another kind of request, and it carries all of its arguments.
   */
  lemma SameBytesIff(a: Command, b: Command, ida: Byte, idb: Byte)
    requires Sendable(a) && Sendable(b) && Encoding(a, ida).Some?
    ensures Encoding(a, ida) == Encoding(b, idb) <==> ida == idb && Meaning(a) == Meaning(b)
  {
    if Encoding(a, ida) == Encoding(b, idb) {
      AsListSame(a, ida);
      AsListSame(b, idb);
      ListsAgree(AsList(a), AsList(b), ida, idb);
    }
    MeaningBytes(a, ida);
    MeaningBytes(b, idb);
  }
}
