/** The newline-delimited readers: the two chat streams and the model download. */
module LineStream {
  import opened Prelude
  import opened Delimited
  import opened Framing

  const LF: Byte := 10

  /** Every non-empty line, and the unterminated tail when it is not empty. */
  function LineFormat(): (f: Format<Byte, seq<Byte>>)
    ensures f.delimiter == [LF]
  {
    Format([LF],
           (line: seq<Byte>) => if line == [] then None else Some(line),
           (tail: seq<Byte>) => if tail == [] then None else Some(tail))
  }

  predicate Unbroken(line: seq<Byte>) {
    LF !in line
  }

  lemma UnbrokenIsLeftmost(line: seq<Byte>)
    requires Unbroken(line)
    ensures Leftmost(line, [LF]) && First(line, [LF]).None?
  {
    FirstIsLeftmost(line, [LF]);
    if First(line, [LF]).Some? { OccurrenceStarts(line, [LF], First(line, [LF]).value); }
    forall q | 0 <= q < |line| ensures !OccursAt(line + [LF], [LF], q) {
      OccurrenceStarts(line + [LF], [LF], q);
    }
    FirstIs(line + [LF], [LF], |line|);
  }

  lemma {:induction false} DecodedIsFiltered(decode: seq<Byte> -> Option<seq<Byte>>, keep: seq<Byte> -> bool,
                                             lines: seq<seq<Byte>>)
    requires forall line :: decode(line) == if keep(line) then Some(line) else None
    ensures Decoded(decode, lines) == Filter(lines, keep)
  {
    if lines != [] { DecodedIsFiltered(decode, keep, lines[1..]); }
  }

  /** A text of whole lines and a tail is cut back into them. */
  lemma {:induction false} WholeOfLines(f: Format<Byte, seq<Byte>>, lines: seq<seq<Byte>>, tail: seq<Byte>)
    requires f.delimiter == [LF] && Unbroken(tail) && forall i :: 0 <= i < |lines| ==> Unbroken(lines[i])
    ensures Whole(f, Terminated(lines, [LF]) + tail) == Decoded(f.decode, lines) + OneOrNone(f.last(tail))
  {
    hide Decoded, Unbroken, Leftmost;
    UnbrokenIsLeftmost(tail);
    forall i | 0 <= i < |lines| ensures Leftmost(lines[i], [LF]) { UnbrokenIsLeftmost(lines[i]); }
    SplittingIsUnique(lines, tail, [LF]);
  }

  /** A chat stream read at once: its lines that are not empty, in order, and its tail unless that is empty. */
  lemma {:induction false} ChatLinesAre(lines: seq<seq<Byte>>, tail: seq<Byte>)
    requires Unbroken(tail) && forall i :: 0 <= i < |lines| ==> Unbroken(lines[i])
    ensures Whole(LineFormat(), Terminated(lines, [LF]) + tail) ==
            Filter(lines, (line: seq<Byte>) => |line| > 0) + if |tail| > 0 then [tail] else []
  {
    hide Filter, Decoded;
    WholeOfLines(LineFormat(), lines, tail);
    DecodedIsFiltered(LineFormat().decode, (line: seq<Byte>) => |line| > 0, lines);
  }

  /** The reader shared by the Ollama and llama.cpp chat streams. */
  class LineReader<R> {
    var stream: seq<Item<Byte, R>>
    var buffer: seq<Byte>

    ghost function Remaining(): seq<Result<seq<Byte>, R>>
      reads this
    {
      Transcript(LineFormat(), buffer, stream)
    }

    constructor (stream: seq<Item<Byte, R>>)
      ensures Remaining() == Transcript(LineFormat(), [], stream)
    {
      this.stream, this.buffer := stream, [];
    }

    /** Yields the next line or error; the end only when nothing is left to yield. */
    method Next() returns (out: Option<Result<seq<Byte>, R>>)
      modifies this
      ensures out.None? ==> old(Remaining()) == Remaining() == []
      ensures out.Some? ==> old(Remaining()) == [out.value] + Remaining()
    {
      ghost var f := LineFormat();
      while true
        invariant Remaining() == old(Remaining())
        decreases |stream|, |buffer|
      {
        var cut := First(buffer, [LF]);
        if cut.Some? {
          var line := buffer[..cut.value];
          CutOne(f, buffer, stream);
          YieldOne(f.decode(line), Transcript(f, buffer[cut.value + 1..], stream));
          buffer := buffer[cut.value + 1..];
          if line != [] {
            return Some(Ok(line));
          }
        } else {
          NothingToCut(f, buffer, stream);
          if stream == [] {
            if buffer != [] {
              var tail := buffer;
              buffer := [];
              NothingToCut(f, buffer, stream);
              return Some(Ok(tail));
            }
            return None;
          }
          var item := stream[0];
          stream := stream[1..];
          match item {
            case Chunk(bytes) => buffer := buffer + bytes;
            case Broken(error) => return Some(Err(error));
          }
        }
      }
    }
  }

  /** The download keeps lines that are not blank once trimmed. */
  function StatusFormat(blank: seq<Byte> -> bool): (f: Format<Byte, seq<Byte>>)
    ensures f.delimiter == [LF]
  {
    Format([LF],
           (line: seq<Byte>) => if blank(line) then None else Some(line),
           (tail: seq<Byte>) => if tail == [] || blank(tail) then None else Some(tail))
  }

  /** A download read at once: its lines that are not blank, in order, and its tail unless that is empty or blank. */
  lemma {:induction false} StatusLinesAre(blank: seq<Byte> -> bool, lines: seq<seq<Byte>>, tail: seq<Byte>)
    requires Unbroken(tail) && forall i :: 0 <= i < |lines| ==> Unbroken(lines[i])
    ensures Whole(StatusFormat(blank), Terminated(lines, [LF]) + tail) ==
            Filter(lines, (line: seq<Byte>) => !blank(line)) + if |tail| > 0 && !blank(tail) then [tail] else []
  {
    hide Filter, Decoded;
    WholeOfLines(StatusFormat(blank), lines, tail);
    DecodedIsFiltered(StatusFormat(blank).decode, (line: seq<Byte>) => !blank(line), lines);
  }

  datatype PullError<+R> = ReadFailed(error: R) | StatusFailed(line: seq<Byte>) | NoSuccessStatus

  /** What one status line says: still running, finished, or an error that ends the download. */
  datatype Status = Progress | Success | Failure

  /** The specification: the first error of the transcript wins, else some line must report success. */
  function Verdict<R>(status: seq<Byte> -> Status, out: seq<Result<seq<Byte>, R>>, saw: bool)
      : Result<(), PullError<R>>
  {
    if out == [] then (if saw then Ok(()) else Err(NoSuccessStatus))
    else match out[0]
      case Err(e) => Err(ReadFailed(e))
      case Ok(line) =>
        if status(line) == Failure then Err(StatusFailed(line))
        else Verdict(status, out[1..], saw || status(line) == Success)
  }

  /** The download loop; it may stop at an error with stream and buffer half read. */
  method Pull<R>(items: seq<Item<Byte, R>>, blank: seq<Byte> -> bool, status: seq<Byte> -> Status)
      returns (r: Result<(), PullError<R>>)
    ensures r == Verdict(status, Transcript(StatusFormat(blank), [], items), false)
  {
    hide Transcript, FirstFrom;
    ghost var f := StatusFormat(blank);
    var buffer: seq<Byte>, saw := [], false;
    var next := 0;
    while next < |items|
      invariant 0 <= next <= |items| && First(buffer, [LF]).None?
      invariant Verdict(status, Transcript(f, [], items), false) ==
                Verdict(status, Transcript(f, buffer, items[next..]), saw)
    {
      NothingToCut(f, buffer, items[next..]);
      var item := items[next];
      next := next + 1;
      assert items[next - 1..][1..] == items[next..];
      if item.Broken? {
        return Err(ReadFailed(item.error));
      }
      buffer := buffer + item.piece;
      var cut := First(buffer, [LF]);
      while cut.Some?
        invariant cut == First(buffer, [LF])
        invariant Verdict(status, Transcript(f, [], items), false) ==
                  Verdict(status, Transcript(f, buffer, items[next..]), saw)
        decreases |buffer|
      {
        var line := buffer[..cut.value];
        CutOne(f, buffer, items[next..]);
        YieldOne(f.decode(line), Transcript(f, buffer[cut.value + 1..], items[next..]));
        buffer := buffer[cut.value + 1..];
        ghost var rest := Transcript<Byte, seq<Byte>, R>(f, buffer, items[next..]);
        if blank(line) {
          assert [] + rest == rest;
        } else {
          assert ([Ok(line)] + rest)[1..] == rest;
          if status(line) == Failure {
            return Err(StatusFailed(line));
          }
          saw := saw || status(line) == Success;
        }
        cut := First(buffer, [LF]);
      }
    }
    NothingToCut(f, buffer, items[next..]);
    if buffer != [] && !blank(buffer) {
      if status(buffer) == Failure {
        return Err(StatusFailed(buffer));
      }
      saw := saw || status(buffer) == Success;
    }
    r := if saw then Ok(()) else Err(NoSuccessStatus);
  }

  /** An element of the transcript that does not end the download. */
  predicate Harmless<R>(status: seq<Byte> -> Status, o: Result<seq<Byte>, R>) {
    o.Ok? && status(o.value) != Failure
  }

  /** The first read error or failure decides; without one, whether some line reported success. */
  lemma {:induction false} FirstHarmDecides<R>(status: seq<Byte> -> Status, out: seq<Result<seq<Byte>, R>>, saw: bool,
                                               i: nat)
    requires i <= |out| && forall j :: 0 <= j < i ==> Harmless(status, out[j])
    ensures i < |out| && !Harmless(status, out[i]) ==>
              Verdict(status, out, saw) == match out[i]
                                           case Err(e) => Err(ReadFailed(e))
                                           case Ok(line) => Err(StatusFailed(line))
    ensures i == |out| ==>
              Verdict(status, out, saw) ==
              if saw || exists j :: 0 <= j < |out| && out[j].Ok? && status(out[j].value) == Success
              then Ok(()) else Err(NoSuccessStatus)
    decreases |out|
  {
    if i > 0 {
      var tail, now := out[1..], saw || status(out[0].value) == Success;
      assert Harmless(status, out[0]);
      assert forall j :: 0 <= j < |tail| ==> tail[j] == out[j + 1];
      FirstHarmDecides(status, tail, now, i - 1);
      if i == |out| {
        assert (exists j :: 0 <= j < |tail| && tail[j].Ok? && status(tail[j].value) == Success) ==>
            exists j :: 0 < j < |out| && out[j].Ok? && status(out[j].value) == Success by {
          if j :| 0 <= j < |tail| && tail[j].Ok? && status(tail[j].value) == Success {
            assert out[j + 1].Ok? && status(out[j + 1].value) == Success;
          }
        }
        assert forall j :: 0 < j < |out| ==> out[j] == tail[j - 1];
      }
    }
  }

  lemma {:induction false} VerdictIsOk<R>(status: seq<Byte> -> Status, out: seq<Result<seq<Byte>, R>>, saw: bool)
    ensures Verdict(status, out, saw).Ok? <==>
            && (forall i :: 0 <= i < |out| ==> out[i].Ok? && status(out[i].value) != Failure)
            && (saw || exists i :: 0 <= i < |out| && out[i].Ok? && status(out[i].value) == Success)
    decreases |out|
  {
    if out != [] && out[0].Ok? && status(out[0].value) != Failure {
      var tail, now := out[1..], saw || status(out[0].value) == Success;
      VerdictIsOk(status, tail, now);
      assert forall i :: 0 < i < |out| ==> out[i] == tail[i - 1];
    }
  }

  /**
   * A download without read errors succeeds exactly when no status line of its bytes
   * reports a failure and some line reports success, wherever the stream was cut.
   */
  lemma {:induction false} PullSucceedsIff<R>(items: seq<Item<Byte, R>>, blank: seq<Byte> -> bool,
                                              status: seq<Byte> -> Status)
    requires ReadErrors(items) == []
    ensures var f := StatusFormat(blank);
            var lines := Whole(f, Text(items));
            Verdict(status, Transcript(f, [], items), false).Ok? <==>
              && (forall i :: 0 <= i < |lines| ==> status(lines[i]) != Failure)
              && (exists i :: 0 <= i < |lines| && status(lines[i]) == Success)
  {
    hide Verdict, Transcript, Whole, Text, ReadErrors;
    var f := StatusFormat(blank);
    var lines, out := Whole(f, Text(items)), Transcript(f, [], items);
    SameTextSameEvents(f, items, items);
    VerdictIsOk(status, out, false);
    assert forall i :: 0 <= i < |lines| ==> out[i] == Ok(lines[i]);
  }
}
