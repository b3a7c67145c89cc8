/** The serial reader's incremental line splitter: bytes arrive in arbitrary pieces and leave as lines,
    with a fresh start after every lost connection. */
module LineSplitter {

  newtype Byte = n: int | 0 <= n < 256

  const LF: Byte := 10
  const CR: Byte := 13

  // What a reading brings: bytes (none on a timeout), or the loss of the port.
  datatype Read = Chunk(data: seq<Byte>) | Lost

  /** What follows the last line end of a byte stream. */
  function Rest(stream: seq<Byte>): seq<Byte> {
    if stream == [] then []
    else
      var n := |stream| - 1;
      if stream[n] == LF then [] else Rest(stream[..n]) + [stream[n]]
  }

  /** The complete lines of a byte stream. */
  function Lines(stream: seq<Byte>): seq<seq<Byte>> {
    if stream == [] then []
    else
      var n := |stream| - 1;
      if stream[n] == LF then Lines(stream[..n]) + [Rest(stream[..n])] else Lines(stream[..n])
  }

  /** Splitting a stream in two pieces, the second behind what the first left over, is splitting it. */
  lemma {:induction false} SplitInPieces(a: seq<Byte>, b: seq<Byte>)
    ensures Lines(a + b) == Lines(a) + Lines(Rest(a) + b)
    ensures Rest(a + b) == Rest(Rest(a) + b)
    decreases |b|
  {
    if b == [] {
      assert a + b == a && Rest(a) + b == Rest(a);
      RestHasNoLf(a);
      NoLfNoLines(Rest(a));
    } else {
      var n := |b| - 1;
      SplitInPieces(a, b[..n]);
      assert (a + b)[..|a + b| - 1] == a + b[..n];
      assert (Rest(a) + b)[..|Rest(a) + b| - 1] == Rest(a) + b[..n];
    }
  }

  lemma {:induction false} RestHasNoLf(stream: seq<Byte>)
    ensures LF !in Rest(stream)
  {
    if stream != [] { RestHasNoLf(stream[..|stream| - 1]); }
  }

  lemma {:induction false} NoLfNoLines(stream: seq<Byte>)
    requires LF !in stream
    ensures Lines(stream) == [] && Rest(stream) == stream
  {
    if stream != [] {
      var n := |stream| - 1;
      assert stream[n] in stream && stream == stream[..n] + [stream[n]];
      NoLfNoLines(stream[..n]);
    }
  }

  /** Taking the first line off the front. */
  lemma {:induction false} FirstLineOff(stream: seq<Byte>, i: nat)
    requires i < |stream| && stream[i] == LF && LF !in stream[..i]
    ensures Lines(stream) == [stream[..i]] + Lines(stream[i + 1..])
    ensures Rest(stream) == Rest(stream[i + 1..])
  {
    var a, b := stream[..i + 1], stream[i + 1..];
    OneLine(stream[..i]);
    assert a == stream[..i] + [LF];
    SplitInPieces(a, b);
    assert stream == a + b && [] + b == b;
  }

  lemma {:induction false} OneLine(line: seq<Byte>)
    requires LF !in line
    ensures Lines(line + [LF]) == [line] && Rest(line + [LF]) == []
  {
    var a := line + [LF];
    assert a[..|a| - 1] == line;
    NoLfNoLines(line);
  }

  /** The lines put back together. */
  function Joined(lines: seq<seq<Byte>>, rest: seq<Byte>): seq<Byte> {
    if lines == [] then rest
    else Joined(lines[..|lines| - 1], lines[|lines| - 1] + [LF]) + rest
  }

  /** No byte is lost, added or moved. */
  lemma {:induction false} SplitLosesNothing(stream: seq<Byte>)
    ensures Joined(Lines(stream), Rest(stream)) == stream
  {
    if stream != [] {
      var n := |stream| - 1;
      var before := stream[..n];
      SplitLosesNothing(before);
      JoinedExtends(Lines(before), Rest(before), [stream[n]]);
      assert stream == before + [stream[n]];
      if stream[n] == LF {
        assert Lines(stream)[..|Lines(before)|] == Lines(before);
      }
    }
  }

  lemma JoinedExtends(lines: seq<seq<Byte>>, rest: seq<Byte>, more: seq<Byte>)
    ensures Joined(lines, rest + more) == Joined(lines, rest) + more
  {
  }

  /** rstrip("\r"), on the undecoded line. */
  function StripCr(text: seq<Byte>): seq<Byte> {
    if text != [] && text[|text| - 1] == CR then StripCr(text[..|text| - 1]) else text
  }

  /** What is stripped are the carriage returns at the end, all of them, and nothing else. */
  lemma {:induction false} StripCrExactly(text: seq<Byte>)
    ensures StripCr(text) <= text
    ensures StripCr(text) != [] ==> StripCr(text)[|StripCr(text)| - 1] != 13
    ensures forall k :: |StripCr(text)| <= k < |text| ==> text[k] == 13
  {
    if text != [] && text[|text| - 1] == CR {
      StripCrExactly(text[..|text| - 1]);
    }
  }

  /** No line contains a line end. */
  lemma {:induction false} LinesHaveNoLf(stream: seq<Byte>)
    ensures forall i :: 0 <= i < |Lines(stream)| ==> 10 !in Lines(stream)[i]
  {
    if stream != [] {
      LinesHaveNoLf(stream[..|stream| - 1]);
      RestHasNoLf(stream[..|stream| - 1]);
    }
  }

  // ---- The reader -------------------------------------------------------------------------

  function Texts(lines: seq<seq<Byte>>): (texts: seq<seq<Byte>>)
    ensures |texts| == |lines|
  {
    if lines == [] then []
    else
      var n := |lines| - 1;
      Texts(lines[..n]) + [StripCr(lines[n])]
  }

  /** Each line gives one text, in order. */
  lemma {:induction false} TextsExactly(lines: seq<seq<Byte>>)
    ensures forall i :: 0 <= i < |lines| ==> Texts(lines)[i] == StripCr(lines[i])
  {
    if lines != [] { TextsExactly(lines[..|lines| - 1]); }
  }

  lemma {:induction false} TextsJoin(a: seq<seq<Byte>>, b: seq<seq<Byte>>)
    ensures Texts(a + b) == Texts(a) + Texts(b)
    decreases |b|
  {
    if b == [] {
      assert a + b == a;
    } else {
      var n := |b| - 1;
      TextsJoin(a, b[..n]);
      assert (a + b)[..|a + b| - 1] == a + b[..n];
    }
  }

  /** The lines a run of readings yields when each is taken as it comes, behind what the readings
      before it left over. */
  function Yield(partial: seq<Byte>, readings: seq<Read>): seq<seq<Byte>>
    decreases |readings|
  {
    if readings == [] then []
    else match readings[0]
      case Chunk(data) =>
        Texts(Lines(partial + data)) + Yield(Rest(partial + data), readings[1..])
      case Lost => Yield([], readings[1..])
  }

  function LeftOver(partial: seq<Byte>, readings: seq<Read>): seq<Byte>
    decreases |readings|
  {
    if readings == [] then partial
    else match readings[0]
      case Chunk(data) => LeftOver(Rest(partial + data), readings[1..])
      case Lost => LeftOver([], readings[1..])
  }

  /** The byte streams of the successive connections that a run of readings makes up; the first
      continues the stream begun so far. */
  function Streams(begun: seq<Byte>, readings: seq<Read>): (streams: seq<seq<Byte>>)
    ensures streams != []
    decreases |readings|
  {
    if readings == [] then [begun]
    else match readings[0]
      case Chunk(data) => Streams(begun + data, readings[1..])
      case Lost => [begun] + Streams([], readings[1..])
  }

  /** The lines of whole streams, in order. */
  function LinesOf(streams: seq<seq<Byte>>): seq<seq<Byte>> {
    if streams == [] then []
    else Texts(Lines(streams[0])) + LinesOf(streams[1..])
  }

  /** However a connection's stream is cut into readings, the lines are those of the whole stream. */
  lemma {:induction false} ChunksDoNotMatter(begun: seq<Byte>, readings: seq<Read>)
    ensures LinesOf(Streams(begun, readings)) == Texts(Lines(begun)) + Yield(Rest(begun), readings)
    decreases |readings|
  {
    if readings == [] {
      LinesOfFirst(begun, []);
    } else {
      match readings[0] {
        case Chunk(data) =>
          ChunkOfStream(begun, data, Yield(Rest(begun + data), readings[1..]));
          SplitInPieces(begun, data);
          ChunksDoNotMatter(begun + data, readings[1..]);
        case Lost =>
          ChunksDoNotMatter([], readings[1..]);
          LinesOfFirst(begun, Streams([], readings[1..]));
      }
    }
  }

  lemma {:induction false} ChunkOfStream(begun: seq<Byte>, data: seq<Byte>, later: seq<seq<Byte>>)
    ensures Texts(Lines(begun + data)) + later == Texts(Lines(begun)) + (Texts(Lines(Rest(begun) + data)) + later)
  {
    var a, b := Lines(begun), Lines(Rest(begun) + data);
    assert Lines(begun + data) == a + b by { SplitInPieces(begun, data); }
    TextsJoin(a, b);
    Regroup(Texts(a), Texts(b), later);
  }

  lemma Regroup<T>(a: seq<T>, b: seq<T>, c: seq<T>)
    ensures (a + b) + c == a + (b + c)
  {
  }

  lemma LinesOfFirst(first: seq<Byte>, later: seq<seq<Byte>>)
    ensures LinesOf([first] + later) == Texts(Lines(first)) + LinesOf(later)
  {
    assert ([first] + later)[1..] == later;
  }

  /** And what is left over is what follows the last connection's last line end. */
  lemma {:induction false} LeftOverIsTheLastRest(begun: seq<Byte>, readings: seq<Read>)
    ensures LeftOver(Rest(begun), readings) == Rest(Streams(begun, readings)[|Streams(begun, readings)| - 1])
    decreases |readings|
  {
    if readings != [] {
      match readings[0] {
        case Chunk(data) =>
          LeftOverIsTheLastRest(begun + data, readings[1..]);
          SplitInPieces(begun, data);
        case Lost =>
          LeftOverIsTheLastRest([], readings[1..]);
      }
    }
  }

  // ---- What a lost port means -------------------------------------------------------------

  function Bytes(readings: seq<Read>): seq<Byte> {
    if readings == [] then []
    else (if readings[0].Chunk? then readings[0].data else []) + Bytes(readings[1..])
  }

  /** While the port stays, there is one stream: all bytes read. */
  lemma {:induction false} OneConnection(begun: seq<Byte>, readings: seq<Read>)
    requires Lost !in readings
    ensures Streams(begun, readings) == [begun + Bytes(readings)]
    decreases |readings|
  {
    if readings == [] {
      assert begun + [] == begun;
    } else {
      assert readings[0] in readings;
      OneConnection(begun + readings[0].data, readings[1..]);
      assert begun + readings[0].data + Bytes(readings[1..]) == begun + Bytes(readings);
    }
  }

  /** After a loss everything starts afresh: what is read before and after it never meets in a line. */
  lemma {:induction false} LossSeparates(begun: seq<Byte>, a: seq<Read>, b: seq<Read>)
    ensures Streams(begun, a + [Lost] + b) == Streams(begun, a) + Streams([], b)
    decreases |a|
  {
    var all := a + [Lost] + b;
    if a == [] {
      assert all[0] == Lost && all[1..] == b;
    } else {
      assert all[0] == a[0] && all[1..] == a[1..] + [Lost] + b;
      match a[0] {
        case Chunk(data) => LossSeparates(begun + data, a[1..], b);
        case Lost =>
          LossSeparates([], a[1..], b);
          assert [begun] + (Streams([], a[1..]) + Streams([], b)) == [begun] + Streams([], a[1..]) + Streams([], b);
      }
    }
  }

  lemma {:induction false} LinesOfAll(a: seq<seq<Byte>>, b: seq<seq<Byte>>)
    ensures LinesOf(a + b) == LinesOf(a) + LinesOf(b)
  {
    if a == [] {
      assert a + b == b;
    } else {
      assert (a + b)[1..] == a[1..] + b;
      LinesOfAll(a[1..], b);
      Regroup(Texts(Lines(a[0])), LinesOf(a[1..]), LinesOf(b));
    }
  }

  class SerialMonitor {
    var lines: seq<seq<Byte>>

    constructor ()
      ensures lines == []
    {
      lines := [];
    }

    /** The inner loop takes complete lines off the front. */
    method TakeLines(stream: seq<Byte>) returns (partial: seq<Byte>)
      modifies this
      ensures partial == Rest(stream)
      ensures lines == old(lines) + Texts(Lines(stream))
    {
      partial := stream;
      while LF in partial
        invariant Rest(partial) == Rest(stream)
        invariant lines + Texts(Lines(partial)) == old(lines) + Texts(Lines(stream))
        decreases |partial|
      {
        var i := IndexOfLf(partial);
        FirstTextOff(lines, partial, i);
        lines := lines + [StripCr(partial[..i])];
        partial := partial[i + 1..];
      }
      NoLfNoLines(partial);
    }

    /** The read loop: a lost port starts the next connection with nothing left over. */
    method ReadLoop(readings: seq<Read>) returns (partial: seq<Byte>)
      modifies this
      ensures lines == old(lines) + LinesOf(Streams([], readings))
      ensures partial == Rest(Streams([], readings)[|Streams([], readings)| - 1])
    {
      partial := [];
      var i := 0;
      while i < |readings|
        invariant 0 <= i <= |readings|
        invariant LeftOver(partial, readings[i..]) == LeftOver([], readings)
        invariant lines + Yield(partial, readings[i..]) == old(lines) + Yield([], readings)
      {
        assert readings[i..][0] == readings[i] && readings[i..][1..] == readings[i + 1..];
        match readings[i] {
          case Chunk(data) => partial := TakeLines(partial + data);
          case Lost => partial := [];
        }
        i := i + 1;
      }
      LeftOverIsTheLastRest([], readings);
      ChunksDoNotMatter([], readings);
      assert Texts(Lines([])) == [] && readings[i..] == [];
      assert LinesOf(Streams([], readings)) == [] + Yield([], readings) == Yield([], readings);
    }
  }

  /** The first line of a stream is the first text. */
  lemma {:induction false} FirstTextOff(before: seq<seq<Byte>>, stream: seq<Byte>, i: nat)
    requires i < |stream| && stream[i] == LF && LF !in stream[..i]
    ensures before + Texts(Lines(stream)) == before + [StripCr(stream[..i])] + Texts(Lines(stream[i + 1..]))
    ensures Rest(stream) == Rest(stream[i + 1..])
  {
    FirstLineOff(stream, i);
    TextsJoin([stream[..i]], Lines(stream[i + 1..]));
    assert Texts([stream[..i]]) == [StripCr(stream[..i])] by {
      assert Texts([stream[..i]][..0]) == [];
    }
    Regroup(before, [StripCr(stream[..i])], Texts(Lines(stream[i + 1..])));
  }

  method IndexOfLf(bytes: seq<Byte>) returns (i: nat)
    requires LF in bytes
    ensures i < |bytes| && bytes[i] == LF && LF !in bytes[..i]
  {
    i := 0;
    while bytes[i] != LF
      invariant i < |bytes| && LF in bytes[i..] && LF !in bytes[..i]
      decreases |bytes| - i
    {
      i := i + 1;
    }
  }
}
