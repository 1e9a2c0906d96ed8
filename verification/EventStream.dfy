/** The server-sent-event reader of the Anthropic provider. */
module EventStream {
  import opened Prelude
  import opened Delimited
  import opened Framing

  const BLANK_LINE: string := "\n\n"
  const DATA: string := "data: "

  function WithoutCarriageReturn(line: string): string {
    if line != [] && Last(line) == '\r' then line[..|line| - 1] else line
  }

  function Stripped(lines: seq<string>): (r: seq<string>)
    ensures |r| == |lines|
  {
    seq(|lines|, i requires 0 <= i < |lines| => WithoutCarriageReturn(lines[i]))
  }

  /** The lines of a text; only a terminated line loses its carriage return. */
  function Lines(t: string): seq<string> {
    Stripped(Blocks(t, "\n")) + (if Rest(t, "\n") == "" then [] else [Rest(t, "\n")])
  }

  predicate IsData(line: string) {
    DATA <= line
  }

  /** The payload of the last data line. */
  function LastData(lines: seq<string>): Option<string> {
    if lines == [] then None
    else if IsData(Last(lines)) then Some(Last(lines)[|DATA|..])
    else LastData(lines[..|lines| - 1])
  }

  /** The last data line wins, and only a block without any has no payload. */
  lemma {:induction false} LastDataWins(lines: seq<string>)
    ensures LastData(lines).None? <==> forall i :: 0 <= i < |lines| ==> !IsData(lines[i])
    ensures LastData(lines).Some? ==>
              exists i :: 0 <= i < |lines| && lines[i] == DATA + LastData(lines).value &&
                          forall j :: i < j < |lines| ==> !IsData(lines[j])
    decreases |lines|
  {
    if lines != [] {
      var n := |lines| - 1;
      if IsData(lines[n]) {
        assert lines[n] == DATA + lines[n][|DATA|..];
      } else {
        LastDataWins(lines[..n]);
        assert forall i :: 0 <= i < n ==> lines[..n][i] == lines[i];
      }
    }
  }

  method DataLine(block: string) returns (data: Option<string>)
    ensures data == LastData(Lines(block))
  {
    data := None;
    var lines := Lines(block);
    for i := 0 to |lines|
      invariant data == LastData(lines[..i])
    {
      assert lines[..i + 1][..i] == lines[..i];
      if DATA <= lines[i] {
        data := Some(lines[i][|DATA|..]);
      }
    }
    assert lines[..|lines|] == lines;
  }

  /** A block is the event its last data line parses to, if any; an unterminated block is dropped. */
  function SseFormat<E>(parse: string -> Option<E>): (f: Format<char, E>)
    ensures f.delimiter == BLANK_LINE
  {
    Format(BLANK_LINE,
           (block: string) => (match LastData(Lines(block)) case None => None case Some(data) => parse(data)),
           (tail: string) => None)
  }

  class EventReader<E, R> {
    const parse: string -> Option<E>
    var stream: seq<Item<char, R>>
    var buffer: string

    ghost function Remaining(): seq<Result<E, R>>
      reads this
    {
      Transcript(SseFormat(parse), buffer, stream)
    }

    constructor (parse: string -> Option<E>, stream: seq<Item<char, R>>)
      ensures this.parse == parse && Remaining() == Transcript(SseFormat(parse), "", stream)
    {
      this.parse, this.stream, this.buffer := parse, stream, "";
    }

    /** Yields the next event or error; the end only when nothing is left to yield. */
    method Next() returns (out: Option<Result<E, R>>)
      modifies this
      ensures out.None? ==> old(Remaining()) == Remaining() == []
      ensures out.Some? ==> old(Remaining()) == [out.value] + Remaining()
    {
      ghost var f := SseFormat(parse);
      while true
        invariant Remaining() == old(Remaining())
        decreases |stream|, |buffer|
      {
        var cut := First(buffer, BLANK_LINE);
        if cut.Some? {
          var block := buffer[..cut.value];
          CutOne(f, buffer, stream);
          YieldOne(f.decode(block), Transcript(f, buffer[cut.value + 2..], stream));
          buffer := buffer[cut.value + 2..];
          var data := DataLine(block);
          if data.Some? {
            var event := parse(data.value);
            if event.Some? {
              return Some(Ok(event.value));
            }
          }
        } else {
          NothingToCut(f, buffer, stream);
          if stream == [] {
            assert Remaining() == [];
            return None;
          }
          var item := stream[0];
          stream := stream[1..];
          match item {
            case Chunk(text) => buffer := buffer + text;
            case Broken(error) => return Some(Err(error));
          }
        }
      }
    }
  }

  /** Draining a reader yields exactly the transcript of its stream. */
  method ReadAll<E, R>(parse: string -> Option<E>, items: seq<Item<char, R>>) returns (out: seq<Result<E, R>>)
    ensures out == Transcript(SseFormat(parse), "", items)
  {
    hide Transcript;
    var reader := new EventReader(parse, items);
    out := [];
    var next := reader.Next();
    while next.Some?
      invariant out + (if next.Some? then [next.value] + reader.Remaining() else []) ==
                Transcript(SseFormat(parse), "", items)
      invariant fresh(reader)
      decreases next.Some?, |reader.Remaining()|
    {
      out := out + [next.value];
      next := reader.Next();
    }
  }

  // ------------------------------------------------------------ which streams yield anything

  /** A data line starts at `q`. */
  predicate DataAt(t: string, q: nat) {
    OccursAt(t, DATA, q) && (q == 0 || t[q - 1] == '\n')
  }

  ghost predicate HasDataLine(t: string) {
    exists q: nat :: DataAt(t, q)
  }

  /** Some data line has a blank line behind it. */
  ghost predicate HasTerminatedData(t: string) {
    exists q: nat, p: nat :: DataAt(t, q) && q + |DATA| <= p && OccursAt(t, BLANK_LINE, p)
  }

  function Accept(): string -> Option<string> {
    (data: string) => Some(data)
  }

  /** The payloads of a stream: what a parser that accepts everything makes of it. */
  function Payloads(text: string): seq<string> {
    Whole(SseFormat(Accept()), text)
  }

  /** Whatever the parser, its events are those it makes of the payloads. */
  lemma {:induction false} EventsComeFromPayloads<E>(parse: string -> Option<E>, text: string)
    ensures Whole(SseFormat(parse), text) == Decoded(parse, Payloads(text))
  {
    DecodedTwice(parse, Blocks(text, BLANK_LINE));
    WholeIsBlocks(parse, text);
    WholeIsBlocks(Accept(), text);
  }

  /** The unterminated tail adds nothing. */
  lemma WholeIsBlocks<E>(parse: string -> Option<E>, text: string)
    ensures Whole(SseFormat(parse), text) == Decoded(SseFormat(parse).decode, Blocks(text, BLANK_LINE))
  {
    var events := Decoded(SseFormat(parse).decode, Blocks(text, BLANK_LINE));
    assert Whole(SseFormat(parse), text) == events + [];
    assert events + [] == events;
  }

  lemma {:induction false} DecodedTwice<E>(parse: string -> Option<E>, blocks: seq<string>)
    ensures Decoded(SseFormat(parse).decode, blocks) ==
            Decoded(parse, Decoded(SseFormat(Accept()).decode, blocks))
    decreases |blocks|
  {
    hide Lines, LastData;
    if blocks != [] {
      DecodedTwice(parse, blocks[1..]);
      var rest := Decoded(SseFormat(Accept()).decode, blocks[1..]);
      match LastData(Lines(blocks[0]))
      case None =>
        assert [] + rest == rest;
        assert [] + Decoded(parse, rest) == Decoded(parse, rest);
      case Some(data) =>
        assert ([data] + rest)[1..] == rest;
    }
  }

  lemma LinesStep(t: string)
    ensures var p := First(t, "\n");
            Lines(t) == if p.None? then (if t == "" then [] else [t])
                        else [WithoutCarriageReturn(t[..p.value])] + Lines(t[p.value + 1..])
  {
    hide First, WithoutCarriageReturn;
    var p := First(t, "\n");
    if p.Some? {
      BlocksCut(t, "\n", p.value);
      var tail := t[p.value + 1..];
      assert Stripped([t[..p.value]] + Blocks(tail, "\n")) ==
             [WithoutCarriageReturn(t[..p.value])] + Stripped(Blocks(tail, "\n"));
    } else {
      NoCut(t, "\n");
    }
  }

  /** A carriage return at the end of a line hides no data line and makes none. */
  lemma DataDespiteReturn(line: string)
    ensures IsData(WithoutCarriageReturn(line)) <==> IsData(line)
  {
    assert DATA[5] == ' ';
  }

  lemma NewlineFree(t: string, q: nat, k: nat)
    requires OccursAt(t, DATA, q) && q <= k < q + |DATA|
    ensures t[k] != '\n'
  {
    assert t[k] == t[q..q + |DATA|][k - q] == DATA[k - q];
  }

  lemma OccursInTail(t: string, d: string, n: nat, q: nat)
    requires n <= |t|
    ensures OccursAt(t, d, n + q) <==> OccursAt(t[n..], d, q)
  {
    if n + q + |d| <= |t| { assert t[n..][q..q + |d|] == t[n + q..n + q + |d|]; }
  }

  lemma OccursInHead(t: string, d: string, n: nat, q: nat)
    requires q + |d| <= n <= |t|
    ensures OccursAt(t, d, q) <==> OccursAt(t[..n], d, q)
  {
    assert t[..n][q..q + |d|] == t[q..q + |d|];
  }

  /** The scan of a block finds a payload exactly when a data line starts somewhere in it. */
  lemma {:induction false} PayloadIff(t: string)
    ensures LastData(Lines(t)).Some? <==> HasDataLine(t)
    decreases |t|
  {
    hide First, OccursAt, DataAt, Lines, LastData, IsData;
    var cut := First(t, "\n");
    FirstIsLeftmost(t, "\n");
    LinesStep(t);
    if cut.None? {
      UnbrokenText(t);
      assert t[..|t|] == t;
      DataAtFront(t, |t|);
      forall q: nat ensures DataAt(t, q) ==> q == 0 {
        DataBehindNewline(t, q);
      }
    } else {
      var p := cut.value;
      var tail := t[p + 1..];
      LineInFront(WithoutCarriageReturn(t[..p]), Lines(tail));
      DataDespiteReturn(t[..p]);
      NewlineOccurs(t, p);
      DataAtFront(t, p);
      PayloadIff(tail);
      forall q: nat | DataAt(t, q) && q > 0 ensures q > p && DataAt(tail, q - p - 1) {
        DataBehindNewline(t, q);
        DataShifts(t, p + 1, q - p - 1);
      }
      forall q: nat | DataAt(tail, q) ensures DataAt(t, p + 1 + q) {
        DataShifts(t, p + 1, q);
      }
    }
  }

  /** A data line behind a line break is a data line of what follows the break. */
  lemma DataShifts(t: string, n: nat, q: nat)
    requires 0 < n <= |t| && t[n - 1] == '\n'
    ensures DataAt(t, n + q) <==> DataAt(t[n..], q)
  {
    OccursInTail(t, DATA, n, q);
  }

  lemma DataBehindNewline(t: string, q: nat)
    ensures DataAt(t, q) && q > 0 ==> q < |t| && OccursAt(t, "\n", q - 1)
  {
  }

  lemma NewlineOccurs(t: string, k: nat)
    ensures OccursAt(t, "\n", k) <==> k < |t| && t[k] == '\n'
  {
  }

  /** A data line at the very front of a text lies in front of its first line break. */
  lemma DataAtFront(t: string, p: nat)
    requires p <= |t| && (forall k: nat :: k < p ==> !OccursAt(t, "\n", k)) && (p < |t| ==> t[p] == '\n')
    ensures IsData(t[..p]) <==> DataAt(t, 0)
  {
    if DataAt(t, 0) {
      if p < |DATA| { NewlineFree(t, 0, p); }
    }
  }

  lemma UnbrokenText(t: string)
    ensures LastData(if t == "" then [] else [t]).Some? <==> IsData(t)
  {
  }

  lemma {:induction false} LineInFront(line: string, lines: seq<string>)
    ensures LastData([line] + lines).Some? <==> IsData(line) || LastData(lines).Some?
    decreases |lines|
  {
    hide IsData;
    if lines == [] {
      assert [line] + lines == [line];
      assert LastData([line]).Some? <==> IsData(line);
    } else {
      var n := |lines| - 1;
      assert ([line] + lines)[..n + 1] == [line] + lines[..n];
      LineInFront(line, lines[..n]);
    }
  }

  /**
   * The exact condition: a stream yields an event to some parser exactly when a line
   * starts with the data mark and a blank line of two line feeds comes behind it.
   */
  lemma {:induction false} YieldsIff(text: string)
    ensures (exists parse: string -> Option<string> :: Whole(SseFormat(parse), text) != []) <==> HasTerminatedData(text)
    ensures Payloads(text) != [] <==> HasTerminatedData(text)
  {
    AnyPayload(Blocks(text, BLANK_LINE));
    DataInSomeBlock(text);
    WholeIsBlocks(Accept(), text);
    forall parse: string -> Option<string> | Whole(SseFormat(parse), text) != [] ensures Payloads(text) != [] {
      EventsComeFromPayloads(parse, text);
    }
  }

  /** Some block has a data line. */
  ghost predicate AnyData(blocks: seq<string>) {
    blocks != [] && (HasDataLine(blocks[0]) || AnyData(blocks[1..]))
  }

  lemma {:induction false} AnyPayload(blocks: seq<string>)
    ensures Decoded(SseFormat(Accept()).decode, blocks) != [] <==> AnyData(blocks)
    decreases |blocks|
  {
    hide Lines, LastData, HasDataLine;
    if blocks != [] {
      PayloadIff(blocks[0]);
      AnyPayload(blocks[1..]);
    }
  }

  lemma {:induction false} DataInSomeBlock(t: string)
    ensures AnyData(Blocks(t, BLANK_LINE)) <==> HasTerminatedData(t)
    decreases |t|
  {
    hide First, OccursAt, Blocks;
    var cut := First(t, BLANK_LINE);
    FirstIsLeftmost(t, BLANK_LINE);
    if cut.None? {
      NoCut(t, BLANK_LINE);
      forall q: nat, p: nat | DataAt(t, q) && q + |DATA| <= p && OccursAt(t, BLANK_LINE, p) ensures false {
        OccurrenceStarts(t, BLANK_LINE, p);
      }
    } else {
      var e := cut.value;
      BlocksCut(t, BLANK_LINE, e);
      DataInSomeBlock(t[e + 2..]);
      var rest := Blocks(t[e + 2..], BLANK_LINE);
      assert ([t[..e]] + rest)[0] == t[..e] && ([t[..e]] + rest)[1..] == rest;
      TerminatedHere(t, e);
      TerminatedLater(t, e);
    }
  }

  lemma {:induction false} TerminatedHere(t: string, e: nat)
    requires OccursAt(t, BLANK_LINE, e)
    ensures HasDataLine(t[..e]) <==> exists q: nat :: DataAt(t, q) && q + |DATA| <= e
  {
    hide OccursAt;
    OccurrenceStarts(t, BLANK_LINE, e);
    forall q: nat | q + |DATA| <= e ensures DataAt(t[..e], q) <==> DataAt(t, q) {
      OccursInHead(t, DATA, e, q);
    }
    forall q: nat | DataAt(t[..e], q) ensures q + |DATA| <= e {
      OccursFits(t[..e], DATA, q);
    }
  }

  lemma OccursFits(t: string, d: string, q: nat)
    requires OccursAt(t, d, q)
    ensures q + |d| <= |t|
  {
  }

  lemma BlankLineIs(t: string, e: nat)
    requires OccursAt(t, BLANK_LINE, e)
    ensures e + 2 <= |t| && t[e] == '\n' && t[e + 1] == '\n'
  {
    assert t[e..e + 2][0] == '\n' && t[e..e + 2][1] == '\n';
  }

  /** A terminated data line lies in front of the first blank line, or behind it. */
  lemma {:induction false} TerminatedLater(t: string, e: nat)
    requires OccursAt(t, BLANK_LINE, e) && forall p: nat :: p < e ==> !OccursAt(t, BLANK_LINE, p)
    ensures HasTerminatedData(t) <==>
            (exists q: nat :: DataAt(t, q) && q + |DATA| <= e) || HasTerminatedData(t[e + 2..])
  {
    hide OccursAt;
    BlankLineIs(t, e);
    var tail := t[e + 2..];
    if HasTerminatedData(t) && !exists q: nat :: DataAt(t, q) && q + |DATA| <= e {
      var q: nat, p: nat :| DataAt(t, q) && q + |DATA| <= p && OccursAt(t, BLANK_LINE, p);
      Apart(t, e, q);
      DataShifts(t, e + 2, q - e - 2);
      OccursInTail(t, BLANK_LINE, e + 2, p - e - 2);
      assert DataAt(tail, q - e - 2);
    }
    if HasTerminatedData(tail) {
      var q: nat, p: nat :| DataAt(tail, q) && q + |DATA| <= p && OccursAt(tail, BLANK_LINE, p);
      DataShifts(t, e + 2, q);
      OccursInTail(t, BLANK_LINE, e + 2, p);
      assert DataAt(t, e + 2 + q);
    }
  }

  /** A blank line never reaches into the data mark. */
  lemma {:induction false} Apart(t: string, e: nat, q: nat)
    requires OccursAt(t, BLANK_LINE, e) && OccursAt(t, DATA, q)
    ensures q + |DATA| <= e || e + 2 <= q
  {
    hide OccursAt;
    BlankLineIs(t, e);
    if q <= e < q + |DATA| { NewlineFree(t, q, e); }
    if q <= e + 1 < q + |DATA| { NewlineFree(t, q, e + 1); }
  }

  /** The reader knows only line feeds: a stream whose lines all end in CR LF never yields an event. */
  lemma {:induction false} CrlfStreamsAreSilent<E>(parse: string -> Option<E>, text: string)
    requires forall i :: 0 <= i < |text| && text[i] == '\n' ==> 0 < i && text[i - 1] == '\r'
    ensures Whole(SseFormat(parse), text) == []
  {
    EventsComeFromPayloads(parse, text);
    YieldsIff(text);
    if HasTerminatedData(text) {
      var q: nat, p: nat :| DataAt(text, q) && q + |DATA| <= p && OccursAt(text, BLANK_LINE, p);
      BlankLineIs(text, p);
    }
  }

  /** The same event in three spellings of one standard: only the first is heard. */
  lemma {:induction false} OnlyOneSpellingIsHeard()
    ensures Payloads("data: x\n\n") == ["x"]
    ensures Payloads("data: x\r\n\r\n") == []
    ensures Payloads("data:x\n\n") == []
  {
    hide Whole, Payloads, HasTerminatedData;
    PlainSpelling();
    CrlfSpelling();
    BareSpelling();
  }

  lemma CrlfSpelling()
    ensures Payloads("data: x\r\n\r\n") == []
  {
    hide Whole;
    CrlfStreamsAreSilent(Accept(), "data: x\r\n\r\n");
  }

  lemma BareSpelling()
    ensures Payloads("data:x\n\n") == []
  {
    hide Payloads, HasTerminatedData, DataAt;
    NoBlankInBare();
    YieldsIff("data:x\n\n");
    NoDataWithoutBlank("data:x\n\n");
  }

  lemma NoBlankInBare()
    ensures ' ' !in "data:x\n\n"
  {
  }

  lemma {:induction false} NoDataWithoutBlank(t: string)
    requires ' ' !in t
    ensures !HasTerminatedData(t)
  {
    forall q: nat ensures !DataAt(t, q) {
      MarkEndsInBlank(t, q);
    }
  }

  lemma MarkEndsInBlank(t: string, q: nat)
    ensures OccursAt(t, DATA, q) ==> q + 5 < |t| && t[q + 5] == ' '
  {
    if OccursAt(t, DATA, q) { assert t[q + 5] == t[q..q + 6][5]; }
  }

  lemma PlainSpelling()
    ensures Payloads("data: x\n\n") == ["x"]
  {
    hide First, Lines, LastData, Blocks;
    PlainBlocks();
    PlainLine();
    var line := "data: x";
    assert Decoded(SseFormat(Accept()).decode, [line]) == ["x"] + Decoded(SseFormat(Accept()).decode, [line][1..]);
  }

  lemma PlainBlocks()
    ensures Blocks("data: x\n\n", BLANK_LINE) == ["data: x"]
  {
    hide First;
    var t := "data: x\n\n";
    forall q: nat | q < 7 ensures !OccursAt(t, BLANK_LINE, q) {
      OccurrenceStarts(t, BLANK_LINE, q);
    }
    assert t[7..9] == BLANK_LINE;
    FirstIs(t, BLANK_LINE, 7);
    FirstIsLeftmost("", BLANK_LINE);
    NoCut("", BLANK_LINE);
    hide Blocks, OccursAt;
    BlocksCut(t, BLANK_LINE, 7);
    assert t[9..] == "" && t[..7] == "data: x";
  }

  lemma PlainLine()
    ensures LastData(Lines("data: x")) == Some("x")
  {
    hide First, Lines;
    var line := "data: x";
    LinesStep(line);
    FirstIsLeftmost(line, "\n");
    forall q: nat ensures !OccursAt(line, "\n", q) { NewlineOccurs(line, q); }
    assert line[..6] == DATA && line[6..] == "x";
    assert Last([line]) == line;
  }
}
