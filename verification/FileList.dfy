/**
 The reply to `ReadFileList`: names, each closed by CR LF.  In the source the loop never moves its `finger`; it is
 modelled with the distance that `finger` moves in each round: 0 as written, 1 with `++finger` added.
 */
module FileList {
  import opened Common
  import FileTransfer

  type Name = seq<Byte>

  const CR: Byte := 13
  const LF: Byte := 10

  predicate LineEndAt(data: seq<Byte>, i: int) {
    0 <= i < |data| - 1 && data[i] == CR && data[i + 1] == LF
  }

  predicate Clean(data: seq<Byte>) {
    forall i :: 0 <= i < |data| ==> !LineEndAt(data, i)
  }

  /** The position of the first line end, or the length of the data if there is none. */
  function FirstEnd(data: seq<Byte>): (r: nat)
    ensures r <= |data| && (r < |data| ==> LineEndAt(data, r))
    ensures forall i :: 0 <= i < r ==> !LineEndAt(data, i)
  {
    if data == [] then 0
    else if LineEndAt(data, 0) then 0
    else
      var r := FirstEnd(data[1..]);
      assert forall i :: 1 <= i < |data| ==> (LineEndAt(data, i) <==> LineEndAt(data[1..], i - 1));
      r + 1
  }

  /** The lines of the data; what follows the last line end is no line. */
  function Lines(data: seq<Byte>): seq<Name>
    decreases |data|
  {
    var end := FirstEnd(data);
    if end == |data| then [] else [data[..end]] + Lines(data[end + 2..])
  }

  /** Every name with its line end CR LF, as the robot sends them. */
  function Join(names: seq<Name>): seq<Byte> {
    if names == [] then [] else names[0] + [13, 10] + Join(names[1..])
  }

  /** What the repaired decoder returns; `None` is the source's `malformedResponse`. */
  function Decoded(data: seq<Byte>): Option<seq<Name>> {
    if |data| == 1 then None else Some(Lines(data))
  }

  lemma FirstEndOf(data: seq<Byte>, end: nat)
    requires LineEndAt(data, end) && forall i :: 0 <= i < end ==> !LineEndAt(data, i)
    ensures FirstEnd(data) == end
  {
    assert end < FirstEnd(data) ==> !LineEndAt(data, end);
  }

  lemma CleanHasNoEnd(data: seq<Byte>)
    ensures FirstEnd(data) == |data| <==> Clean(data)
  {}

  /** No name that is read contains a line end. */
  lemma {:induction false} LinesAreClean(data: seq<Byte>)
    ensures forall k :: 0 <= k < |Lines(data)| ==> Clean(Lines(data)[k])
    decreases |data|
  {
    var end := FirstEnd(data);
    if end < |data| {
      LinesAreClean(data[end + 2..]);
      forall i | 0 <= i < end ensures !LineEndAt(data[..end], i) {
        assert !LineEndAt(data, i);
      }
    }
  }

  lemma {:induction false} CleanNamesBack(names: seq<Name>)
    requires forall k :: 0 <= k < |names| ==> Clean(names[k])
    ensures Lines(Join(names)) == names
  {
    if names != [] {
      var name, data := names[0], Join(names);
      assert data == name + [CR, LF] + Join(names[1..]);
      forall i | 0 <= i < |name| ensures !LineEndAt(data, i) {
        assert !LineEndAt(name, i);
      }
      FirstEndOf(data, |name|);
      assert data[..|name|] == name && data[|name| + 2..] == Join(names[1..]);
      CleanNamesBack(names[1..]);
    }
  }

  /** A list of names comes back exactly if no name contains a line end. */
  lemma NamesRoundTrip(names: seq<Name>)
    ensures Decoded(Join(names)) == Some(names) <==> forall k :: 0 <= k < |names| ==> Clean(names[k])
  {
    if Decoded(Join(names)) == Some(names) {
      LinesAreClean(Join(names));
    }
    if forall k :: 0 <= k < |names| ==> Clean(names[k]) {
      CleanNamesBack(names);
      assert |Join(names)| != 1;
    }
  }

  /** For any data the names read are its beginning, and what is left has no line end. */
  lemma {:induction false} LinesArePrefix(data: seq<Byte>)
    ensures Join(Lines(data)) <= data && Clean(data[|Join(Lines(data))|..])
    decreases |data|
  {
    var end := FirstEnd(data);
    if end == |data| {
      CleanHasNoEnd(data);
      assert data[0..] == data;
    } else {
      var first, rest := FirstSplit(data);
      LinesArePrefix(rest);
      PrefixBehind(first, Join(Lines(rest)), rest);
    }
  }

  /** The first line with its end, and what follows it. */
  lemma FirstSplit(data: seq<Byte>) returns (first: seq<Byte>, rest: seq<Byte>)
    requires FirstEnd(data) < |data|
    ensures data == first + rest && |rest| < |data| && Join(Lines(data)) == first + Join(Lines(rest))
  {
    var end := FirstEnd(data);
    first, rest := data[..end] + [CR, LF], data[end + 2..];
    JoinCons(data[..end], Lines(rest));
  }

  lemma JoinCons(name: Name, names: seq<Name>)
    ensures Join([name] + names) == name + [CR, LF] + Join(names)
  {
    assert ([name] + names)[1..] == names;
  }

  lemma PrefixBehind(first: seq<Byte>, part: seq<Byte>, rest: seq<Byte>)
    requires part <= rest
    ensures first + part <= first + rest && (first + rest)[|first + part|..] == rest[|part|..]
  {}

  /** Hence the names are all of the data exactly if the data is empty or closed by a line end. */
  lemma NothingDropped(data: seq<Byte>)
    ensures Join(Lines(data)) == data <==> data == [] || LineEndAt(data, |data| - 2)
  {
    LinesArePrefix(data);
    if Lines(data) != [] { JoinEnds(Lines(data)); }
    WholeIff(data, Join(Lines(data)));
  }

  lemma WholeIff(data: seq<Byte>, part: seq<Byte>)
    requires part <= data && Clean(data[|part|..]) && (part == [] || LineEndAt(part, |part| - 2))
    ensures part == data <==> data == [] || LineEndAt(data, |data| - 2)
  {
    var rest, i := data[|part|..], |data| - 2 - |part|;
    assert i >= 0 && LineEndAt(data, |data| - 2) ==> LineEndAt(rest, i);
  }

  lemma {:induction false} JoinEnds(names: seq<Name>)
    requires names != []
    ensures LineEndAt(Join(names), |Join(names)| - 2)
  {
    if |names| > 1 {
      JoinEnds(names[1..]);
      var before, after := names[0] + [CR, LF], Join(names[1..]);
      assert Join(names) == before + after;
    }
  }

  /** A list of names that is sent as a file, block by block in order, is the result of `readFileList`. */
  lemma ListEndToEnd(names: seq<Name>, order: seq<nat>)
    requires FileTransfer.Fits(Join(names)) && forall k :: 0 <= k < |names| ==> Clean(names[k])
    requires |order| == |FileTransfer.FileBlocks(Join(names))| && forall i :: 0 <= i < |order| ==> order[i] == i
    ensures var arrivals := FileTransfer.Deliveries(Join(names), order);
      var d := FileTransfer.DownloadRun(FileTransfer.NewDownload(true), arrivals);
      |d.calls| == 1 && d.calls[0].Success? && Decoded(d.calls[0].data) == Some(names)
  {
    FileTransfer.RoundTripInOrder(Join(names), order);
    NamesRoundTrip(names);
  }

  // ----- The loop -----

  datatype Loop = Loop(finger: nat, lineStart: nat, result: seq<Name>)

  /** One round; `None` if the source makes a string from a range whose end is before its start. */
  function Round(data: seq<Byte>, advance: nat, s: Loop): Option<Loop>
    requires s.finger < |data| - 1
  {
    if !LineEndAt(data, s.finger) then Some(s.(finger := s.finger + advance))
    else if s.finger < s.lineStart then None
    else Some(Loop(s.finger + advance, s.finger + 2, s.result + [data[s.lineStart..s.finger]]))
  }

  /** The state after `n` rounds; rounds after the end of the loop change nothing. */
  function Rounds(data: seq<Byte>, advance: nat, n: nat): Option<Loop> {
    if n == 0 then Some(Loop(0, 0, []))
    else
      match Rounds(data, advance, n - 1)
      case None => None
      case Some(s) => if s.finger < |data| - 1 then Round(data, advance, s) else Some(s)
  }

  /**
   As written the loop ends only on data of at most one byte, which never gets there.  On all other data it goes on
   for ever, except that data beginning with a line end makes the second round use an inverted range.
   */
  lemma {:induction false} AsWritten(data: seq<Byte>, n: nat)
    ensures Rounds(data, 0, n) == None <==> n >= 2 && LineEndAt(data, 0)
    ensures Rounds(data, 0, n).Some? ==> (Rounds(data, 0, n).value.finger < |data| - 1 <==> |data| >= 2)
    ensures Rounds(data, 0, n).Some? && !LineEndAt(data, 0) ==> Rounds(data, 0, n).value == Loop(0, 0, [])
    ensures Rounds(data, 0, n).Some? && LineEndAt(data, 0) && n == 1 ==> Rounds(data, 0, n).value == Loop(0, 2, [[]])
  {
    if n > 0 {
      AsWritten(data, n - 1);
    }
  }

  /** With `++finger` the loop ends after |data| - 1 rounds, without an inverted range, with the lines of the data. */
  lemma {:induction false} Repaired(data: seq<Byte>, n: nat)
    requires n < |data|
    ensures Rounds(data, 1, n).Some?
    ensures LoopInv(data, n, Rounds(data, 1, n).value)
    ensures n == |data| - 1 ==> Rounds(data, 1, n).value.result == Lines(data)
  {
    if n > 0 {
      Repaired(data, n - 1);
      RoundKeeps(data, Rounds(data, 1, n - 1).value);
    }
    if n == |data| - 1 {
      LoopEnd(data, Rounds(data, 1, n).value);
    }
  }

  /** The lines found so far are those in front of the current one, in which no line end has been passed. */
  ghost predicate LoopInv(data: seq<Byte>, n: nat, s: Loop) {
    && s.finger == n && s.lineStart <= |data| && s.lineStart <= n + 1
    && (s.lineStart == n + 1 ==> n < |data| && data[n] == LF)
    && Found(data, s.lineStart, s.result) && Passed(data, s.lineStart, n)
  }

  predicate Found(data: seq<Byte>, start: nat, result: seq<Name>)
    requires start <= |data|
  {
    Lines(data) == result + Lines(data[start..])
  }

  predicate Passed(data: seq<Byte>, start: nat, end: nat) {
    forall i :: start <= i < end ==> !LineEndAt(data, i)
  }

  lemma RoundKeeps(data: seq<Byte>, s: Loop)
    requires s.finger < |data| - 1 && LoopInv(data, s.finger, s)
    ensures Round(data, 1, s).Some? && LoopInv(data, s.finger + 1, Round(data, 1, s).value)
  {
    if LineEndAt(data, s.finger) {
      LineFound(data, s.lineStart, s.finger, s.result);
    }
  }

  lemma LineFound(data: seq<Byte>, start: nat, end: nat, result: seq<Name>)
    requires start <= end && LineEndAt(data, end) && Passed(data, start, end) && Found(data, start, result)
    ensures Found(data, end + 2, result + [data[start..end]])
  {
    FirstLine(data, start, end);
    Regroup(result, data[start..end], Lines(data[end + 2..]));
  }

  lemma Regroup(a: seq<Name>, x: Name, b: seq<Name>)
    ensures a + ([x] + b) == a + [x] + b
  {}

  lemma FirstLine(data: seq<Byte>, start: nat, end: nat)
    requires start <= end && LineEndAt(data, end) && Passed(data, start, end)
    ensures Lines(data[start..]) == [data[start..end]] + Lines(data[end + 2..])
  {
    var rest, n := data[start..], end - start;
    forall i | 0 <= i < n ensures !LineEndAt(rest, i) {
      assert !LineEndAt(data, start + i);
    }
    FirstEndOf(rest, n);
    assert rest[..n] == data[start..end] && rest[n + 2..] == data[end + 2..];
  }

  lemma LoopEnd(data: seq<Byte>, s: Loop)
    requires |data| >= 1 && LoopInv(data, |data| - 1, s)
    ensures s.result == Lines(data)
  {
    var rest := data[s.lineStart..];
    forall i | 0 <= i < |rest| ensures !LineEndAt(rest, i) {
      assert s.lineStart + i < |data| - 1 ==> !LineEndAt(data, s.lineStart + i);
    }
    CleanHasNoEnd(rest);
  }

  /** The decoder, with `++finger`. */
  method DecodeFileList(data: seq<Byte>) returns (r: Option<seq<Name>>)
    ensures r == Decoded(data)
  {
    if |data| == 0 { return Some([]); }
    if |data| == 1 { return None; }
    var lineStart: nat, finger: nat := 0, 0;
    var result := [];
    while finger < |data| - 1
      invariant finger <= |data| - 1 && Rounds(data, 1, finger) == Some(Loop(finger, lineStart, result))
    {
      Repaired(data, finger + 1);
      if data[finger] == CR && data[finger + 1] == LF {
        result := result + [data[lineStart..finger]];
        lineStart := finger + 2;
      }
      finger := finger + 1;
    }
    Repaired(data, finger);
    return Some(result);
  }
}
