/** The lines of a joined text, when the joined elements may hold line breaks themselves. */
module WrittenLines {
  import opened Prelude
  import opened Changelog
  import Delimited

  predicate OneLine(text: string) {
    Lines(text) == [text]
  }

  /** The lines of all elements, one element after the other. */
  function FlatLines(elements: seq<string>): seq<string> {
    if elements == [] then [] else FlatLines(elements[..|elements| - 1]) + Lines(Last(elements))
  }

  lemma FlatOfNone()
    ensures FlatLines([]) == []
  {
  }

  lemma FlatOfOne(text: string)
    ensures FlatLines([text]) == Lines(text)
  {
    hide Lines;
    assert [text][..0] == [];
    assert [] + Lines(text) == Lines(text);
  }

  lemma FlatStep(elements: seq<string>, text: string)
    ensures FlatLines(elements + [text]) == FlatLines(elements) + Lines(text)
  {
    hide Lines;
    assert (elements + [text])[..|elements|] == elements;
  }

  lemma {:induction false} FlatConcat(a: seq<string>, b: seq<string>)
    ensures FlatLines(a + b) == FlatLines(a) + FlatLines(b)
    decreases |b|
  {
    hide FlatLines;
    FlatOfNone();
    if b == [] {
      assert a + b == a;
    } else {
      var front, text := b[..|b| - 1], Last(b);
      FrontAndLast(b);
      FlatConcat(a, front);
      FlatStep(front, text);
      FlatStep(a + front, text);
      Associate(a, front, [text]);
      Associate(FlatLines(a), FlatLines(front), Lines(text));
    }
  }

  lemma BreakEndsLine(line: string, more: string)
    requires Delimited.First(line, NEWLINE).None?
    ensures Delimited.First(line + NEWLINE + more, NEWLINE) == Some(|line|)
  {
    Delimited.FirstIsLeftmost(line, NEWLINE);
    var t := line + NEWLINE + more;
    forall q | 0 <= q < |line| ensures !Delimited.OccursAt(t, NEWLINE, q) {
      assert !Delimited.OccursAt(line, NEWLINE, q);
      assert t[q..q + 1] == line[q..q + 1];
    }
    assert t[|line|..|line| + 1] == NEWLINE;
    Delimited.FirstIs(t, NEWLINE, |line|);
  }

  /** A text that opens with an unbroken line: the line, then the lines of the rest. */
  lemma LineInFront(line: string, more: string)
    requires Delimited.First(line, NEWLINE).None?
    ensures Delimited.Blocks(line + NEWLINE + more, NEWLINE) == [line] + Delimited.Blocks(more, NEWLINE)
    ensures Delimited.Rest(line + NEWLINE + more, NEWLINE) == Delimited.Rest(more, NEWLINE)
  {
    hide Delimited.Blocks, Delimited.Rest;
    var t := line + NEWLINE + more;
    BreakEndsLine(line, more);
    Delimited.BlocksCut(t, NEWLINE, |line|);
    assert t[..|line|] == line && t[|line| + 1..] == more;
  }

  /** A line break between two texts puts their lines one after the other. */
  lemma {:induction false} LinesAround(a: string, b: string)
    ensures Lines(a + NEWLINE + b) == Lines(a) + Lines(b)
  {
    hide Delimited.Blocks, Delimited.Rest, Delimited.First;
    var rest := Delimited.Rest(a, NEWLINE);
    Delimited.SplitInTwo(a, NEWLINE + b, NEWLINE);
    Associate(a, NEWLINE, b);
    Associate(rest, NEWLINE, b);
    LineInFront(rest, b);
    var front, back, last := Delimited.Blocks(a, NEWLINE), Delimited.Blocks(b, NEWLINE), [Delimited.Rest(b, NEWLINE)];
    Associate(front, [rest], back);
    Associate(front + [rest], back, last);
  }

  /** Joining elements and reading the text back gives the lines of each element, in order. */
  lemma {:induction false} LinesOfJoined(elements: seq<string>)
    requires elements != []
    ensures Lines(Joined(elements)) == FlatLines(elements)
    decreases |elements|
  {
    hide Lines, FlatLines;
    var first, more := elements[0], elements[1..];
    FlatOfOne(first);
    if |elements| == 1 {
      assert elements == [first];
    } else {
      LinesAround(first, Joined(more));
      LinesOfJoined(more);
      FlatConcat([first], more);
      assert elements == [first] + more;
    }
  }

  lemma NoBreakIsOneLine(text: string)
    requires Delimited.First(text, NEWLINE).None?
    ensures OneLine(text)
  {
    Delimited.NoCut(text, NEWLINE);
  }

  /** A text without the line break itself is one line. */
  lemma FlatTextIsOneLine(text: string)
    requires NEWLINE[0] !in text
    ensures OneLine(text)
  {
    Delimited.FirstIsLeftmost(text, NEWLINE);
    var p := Delimited.First(text, NEWLINE);
    if p.Some? { Delimited.OccurrenceStarts(text, NEWLINE, p.value); }
    NoBreakIsOneLine(text);
  }

  lemma LeftmostIsOneLine(block: string)
    requires Delimited.Leftmost(block, NEWLINE)
    ensures OneLine(block)
  {
    var p := Delimited.First(block, NEWLINE);
    if p.Some? { Delimited.FirstInPrefix(block, NEWLINE, NEWLINE); }
    NoBreakIsOneLine(block);
  }

  predicate OneLiners(elements: seq<string>) {
    forall i :: 0 <= i < |elements| ==> OneLine(elements[i])
  }

  /** Reading a text leaves no line break inside a line. */
  lemma LinesAreOneLiners(text: string)
    ensures OneLiners(Lines(text))
  {
    hide OneLine, Delimited.Leftmost;
    var blocks, rest := Delimited.Blocks(text, NEWLINE), Delimited.Rest(text, NEWLINE);
    NoBreakIsOneLine(rest);
    forall i | 0 <= i < |blocks| ensures OneLine(blocks[i]) {
      Delimited.BlocksAreLeftmost(text, NEWLINE, i);
      LeftmostIsOneLine(blocks[i]);
    }
  }

  lemma {:induction false} FlatOfOneLiners(elements: seq<string>)
    requires OneLiners(elements)
    ensures FlatLines(elements) == elements
    decreases |elements|
  {
    hide Lines;
    if elements != [] {
      FlatOfOneLiners(elements[..|elements| - 1]);
      FrontAndLast(elements);
    }
  }

  /** Where row `r` of element `i` stands, and what stands before it. */
  lemma {:induction false} FlatAt(elements: seq<string>, i: nat, r: nat)
    requires i < |elements| && r < |Lines(elements[i])|
    ensures var at, written := |FlatLines(elements[..i])| + r, FlatLines(elements);
            && at < |written| && written[at] == Lines(elements[i])[r]
            && written[..at] == FlatLines(elements[..i]) + Lines(elements[i])[..r]
  {
    hide FlatLines, Lines;
    var before, own := FlatLines(elements[..i]), Lines(elements[i]);
    assert elements == elements[..i] + [elements[i]] + elements[i + 1..];
    FlatConcat(elements[..i] + [elements[i]], elements[i + 1..]);
    FlatStep(elements[..i], elements[i]);
    InsideOf(before, own, FlatLines(elements[i + 1..]), r);
  }

  lemma InsideOf<T>(a: seq<T>, b: seq<T>, c: seq<T>, r: nat)
    requires r < |b|
    ensures (a + b + c)[|a| + r] == b[r] && (a + b + c)[..|a| + r] == a + b[..r]
  {
    assert (a + b + c)[..|a| + r] == (a + b)[..|a| + r] == a + b[..r];
  }
}
