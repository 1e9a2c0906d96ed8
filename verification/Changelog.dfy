/** Folding changelog fragments into the unreleased block of a changelog. */
module Changelog {
  import opened Prelude
  import opened PythonText
  import Delimited

  const NEWLINE := "\n"
  const UNRELEASED := "## [Unreleased]"
  const SECTIONS := ["added", "changed", "deprecated", "removed", "fixed", "security"]

  function Title(section: string): string {
    if section == "added" then "Added"
    else if section == "changed" then "Changed"
    else if section == "deprecated" then "Deprecated"
    else if section == "removed" then "Removed"
    else if section == "fixed" then "Fixed"
    else "Security"
  }

  /** The title of a section is its name with a capital: the letters of ASCII are 32 apart. */
  lemma TitlesAreCapitalised(section: string)
    requires section in SECTIONS
    ensures |Title(section)| == |section| > 0 && Title(section)[1..] == section[1..]
    ensures Title(section)[0] as int + 32 == section[0] as int && 'A' <= Title(section)[0] <= 'Z'
  {
  }

  function HeaderOf(title: string): string {
    "### " + title
  }

  // ------------------------------------------------------------ lines

  function Lines(text: string): (lines: seq<string>)
    ensures lines != []
  {
    Delimited.Blocks(text, NEWLINE) + [Delimited.Rest(text, NEWLINE)]
  }

  function Joined(lines: seq<string>): string {
    if lines == [] then []
    else if |lines| == 1 then lines[0]
    else lines[0] + NEWLINE + Joined(lines[1..])
  }

  /** What the fragment check asks of a fragment: some text, opening with a bullet. */
  predicate Passes(text: string) {
    !Blank(text) && StripLeft(text) != [] && StripLeft(text)[0] == '-'
  }

  /** The kinds of line the insertion looks for. */
  datatype Mark = Unreleased | Release | Heading | Section(title: string)

  predicate Is(m: Mark, line: string) {
    match m
    case Unreleased => Strip(line) == UNRELEASED
    case Release => "## " <= line
    case Heading => "### " <= line
    case Section(title) => Strip(line) == HeaderOf(title)
  }

  // ------------------------------------------------------------ where things go

  /** The first line of the kind in `[i, end)`, or `end`. */
  function Find(lines: seq<string>, m: Mark, i: nat, end: nat): (r: nat)
    requires i <= end <= |lines|
    ensures i <= r <= end
    ensures r < end ==> Is(m, lines[r])
    decreases end - i
  {
    if i == end || Is(m, lines[i]) then i else Find(lines, m, i + 1, end)
  }

  /** Steps back from `i` over blank lines, no further than `floor`. */
  function Trim(lines: seq<string>, floor: nat, i: nat): (r: nat)
    requires floor <= i <= |lines|
    ensures floor <= r <= i
    ensures r > floor ==> !Blank(lines[r - 1])
  {
    if i > floor && Blank(lines[i - 1]) then Trim(lines, floor, i - 1) else i
  }

  predicate HasUnreleased(lines: seq<string>) {
    Find(lines, Unreleased, 0, |lines|) < |lines|
  }

  function Start(lines: seq<string>): (r: nat)
    requires HasUnreleased(lines)
    ensures r < |lines| && Is(Unreleased, lines[r])
  {
    Find(lines, Unreleased, 0, |lines|)
  }

  function End(lines: seq<string>): (r: nat)
    requires HasUnreleased(lines)
    ensures Start(lines) < r <= |lines|
  {
    Find(lines, Release, Start(lines) + 1, |lines|)
  }

  /** Just past the last content of the unreleased block: where new sections go. */
  function BlockEnd(lines: seq<string>): (r: nat)
    requires HasUnreleased(lines)
    ensures Start(lines) < r <= End(lines)
  {
    Trim(lines, Start(lines) + 1, End(lines))
  }

  /** Just past the last content of the section whose header is line `head`. */
  function ContentEnd(lines: seq<string>, head: nat, end: nat): (r: nat)
    requires head < end <= |lines|
    ensures head < r <= end
  {
    Trim(lines, head + 1, Find(lines, Heading, head + 1, end))
  }

  /** Just past the last content of a section of the block, if the block has it. */
  function SectionEnd(lines: seq<string>, start: nat, end: nat, title: string): (r: Option<nat>)
    requires start <= end <= |lines|
    ensures r.Some? ==> start < r.value <= end
  {
    var head := Find(lines, Section(title), start, end);
    if head == end then None else Some(ContentEnd(lines, head, end))
  }

  function SectionHead(lines: seq<string>, title: string): (r: nat)
    requires HasUnreleased(lines)
    ensures Start(lines) <= r <= End(lines)
  {
    Find(lines, Section(title), Start(lines), End(lines))
  }

  function Spot(lines: seq<string>, title: string): (r: Option<nat>)
    requires HasUnreleased(lines)
    ensures r.Some? ==> Start(lines) < r.value <= End(lines)
  {
    SectionEnd(lines, Start(lines), End(lines), title)
  }

  // ------------------------------------------------------------ searching a spliced list

  predicate Without(m: Mark, b: seq<string>) {
    forall k :: 0 <= k < |b| ==> !Is(m, b[k])
  }

  lemma {:induction false} FindBefore(lines: seq<string>, at: nat, b: seq<string>, m: Mark, i: nat, end: nat)
    requires i <= end <= at <= |lines|
    ensures Find(Splice(lines, at, b), m, i, end) == Find(lines, m, i, end)
    decreases end - i
  {
    hide Splice, Is;
    SpliceAt(lines, at, b, i);
    if i < end { FindBefore(lines, at, b, m, i + 1, end); }
  }

  lemma {:induction false} FindAfter(lines: seq<string>, at: nat, b: seq<string>, m: Mark, i: nat, end: nat)
    requires at <= i <= end <= |lines|
    ensures Find(Splice(lines, at, b), m, i + |b|, end + |b|) == Find(lines, m, i, end) + |b|
    decreases end - i
  {
    hide Splice, Is;
    SpliceAt(lines, at, b, i);
    if i < end { FindAfter(lines, at, b, m, i + 1, end); }
  }

  lemma {:induction false} FindThroughInserted(lines: seq<string>, at: nat, b: seq<string>, m: Mark, k: nat, end: nat)
    requires k <= |b| && at <= end <= |lines| && Without(m, b)
    ensures Find(Splice(lines, at, b), m, at + k, end + |b|) == Find(lines, m, at, end) + |b|
    decreases |b| - k
  {
    hide Splice, Is;
    if k == |b| {
      FindAfter(lines, at, b, m, at, end);
    } else {
      SpliceAt(lines, at, b, k);
      FindThroughInserted(lines, at, b, m, k + 1, end);
    }
  }

  function Shift(r: nat, at: nat, n: nat): nat {
    if r < at then r else r + n
  }

  /** Lines of another kind put into the searched range only shift what lies behind them. */
  lemma {:induction false} FindAround(lines: seq<string>, at: nat, b: seq<string>, m: Mark, i: nat, end: nat)
    requires i <= at <= end <= |lines| && Without(m, b)
    ensures Find(Splice(lines, at, b), m, i, end + |b|) == Shift(Find(lines, m, i, end), at, |b|)
    decreases at - i
  {
    hide Splice, Is;
    if i == at {
      FindThroughInserted(lines, at, b, m, 0, end);
    } else {
      SpliceAt(lines, at, b, i);
      FindAround(lines, at, b, m, i + 1, end);
    }
  }

  lemma {:induction false} TrimBefore(lines: seq<string>, at: nat, b: seq<string>, floor: nat, i: nat)
    requires floor <= i <= at <= |lines|
    ensures Trim(Splice(lines, at, b), floor, i) == Trim(lines, floor, i)
  {
    hide Splice, Blank;
    if i > floor {
      SpliceAt(lines, at, b, i - 1);
      TrimBefore(lines, at, b, floor, i - 1);
    }
  }

  lemma {:induction false} TrimAfter(lines: seq<string>, at: nat, b: seq<string>, floor: nat, i: nat)
    requires at <= floor <= i <= |lines|
    ensures Trim(Splice(lines, at, b), floor + |b|, i + |b|) == Trim(lines, floor, i) + |b|
  {
    hide Splice, Blank;
    if i > floor {
      SpliceAt(lines, at, b, i - 1);
      TrimAfter(lines, at, b, floor, i - 1);
    }
  }

  /** Non-blank content put right behind non-blank content only shifts the end of the content. */
  lemma {:induction false} TrimAround(lines: seq<string>, at: nat, b: seq<string>, floor: nat, i: nat)
    requires floor <= at <= i <= |lines|
    requires at > floor ==> !Blank(lines[at - 1])
    requires b != [] && !Blank(Last(b))
    ensures Trim(lines, floor, i) >= at
    ensures Trim(Splice(lines, at, b), floor, i + |b|) == Trim(lines, floor, i) + |b|
  {
    hide Splice, Blank;
    if i > at {
      SpliceAt(lines, at, b, i - 1);
      TrimAround(lines, at, b, floor, i - 1);
    } else {
      SpliceAt(lines, at, b, |b| - 1);
    }
  }

  // ------------------------------------------------------------ what is inserted

  /** One section of fragments, with the title of the section. */
  datatype Entry = Entry(title: string, body: seq<string>)

  predicate ValidTitle(title: string) {
    title != [] && !IsSpace(Last(title)) && NEWLINE[0] !in title
  }

  predicate ValidEntry(e: Entry) {
    ValidTitle(e.title) && e.body != [] && forall k :: 0 <= k < |e.body| ==> Passes(e.body[k])
  }

  /** The lines of a section the block does not have yet. */
  function NewSection(e: Entry): (b: seq<string>) {
    ["", HeaderOf(e.title)] + e.body
  }

  /** No search ever stops at a fragment. */
  lemma {:induction false} FragmentsAreInert(text: string, m: Mark)
    requires Passes(text)
    ensures !Is(m, text) && !Blank(text)
  {
    hide StripLeft, StripRight;
    StripLeftFirst(text);
    StripRightKeepsFirst(StripLeft(text));
    assert Strip(text)[0] == '-';
  }

  lemma {:induction false} HeadersAreClean(title: string)
    requires ValidTitle(title)
    ensures Strip(HeaderOf(title)) == HeaderOf(title)
    ensures !Blank(HeaderOf(title)) && Is(Heading, HeaderOf(title)) && Is(Section(title), HeaderOf(title))
    ensures !Is(Unreleased, HeaderOf(title)) && !Is(Release, HeaderOf(title))
    ensures forall t :: t != title ==> !Is(Section(t), HeaderOf(title))
  {
    var h := HeaderOf(title);
    assert Last(h) == Last(title);
    assert h[0] == '#' && h[2] == '#';
    assert UNRELEASED[2] == ' ' && "## "[2] == ' ';
    assert h[4..] == title;
    forall t | t != title ensures HeaderOf(t) != h {
      assert HeaderOf(t)[4..] == t;
    }
  }

  lemma {:induction false} BodyIsInert(e: Entry, m: Mark)
    requires ValidEntry(e)
    ensures Without(m, e.body) && !Blank(Last(e.body))
  {
    hide Is, Blank, Passes;
    forall k | 0 <= k < |e.body| ensures !Is(m, e.body[k]) && !Blank(e.body[k]) {
      FragmentsAreInert(e.body[k], m);
    }
  }

  lemma EmptyLineIsInert(m: Mark)
    ensures !Is(m, "") && Blank("")
  {
    assert Strip("") == "";
  }

  lemma {:induction false} NewSectionIsInert(e: Entry, m: Mark)
    requires ValidEntry(e) && m != Heading && m != Section(e.title)
    ensures NewSection(e) != [] && Without(m, NewSection(e)) && !Blank(Last(NewSection(e)))
  {
    hide Is, Blank, Passes;
    BodyIsInert(e, m);
    EmptyLineIsInert(m);
    HeadersAreClean(e.title);
    var b := NewSection(e);
    assert Last(b) == Last(e.body);
    forall k | 0 <= k < |b| ensures !Is(m, b[k]) {
      if k >= 2 { assert b[k] == e.body[k - 2]; }
    }
  }

  // ------------------------------------------------------------ one insertion moves, and never loses, the others

  lemma HeadersAreContent(line: string, title: string)
    ensures Is(Section(title), line) ==> !Is(Unreleased, line) && !Blank(line)
    ensures Is(Heading, line) ==> !Blank(line)
  {
    if Is(Section(title), line) {
      assert Strip(line)[2] == '#' && UNRELEASED[2] == ' ';
    }
    if Is(Heading, line) {
      assert line[0] == "### "[0];
      StripKeepsFirst(line);
    }
  }

  /** A section ends right behind some content of the block. */
  lemma {:induction false} SpotFollowsContent(lines: seq<string>, title: string)
    requires HasUnreleased(lines) && Spot(lines, title).Some?
    ensures var p := Spot(lines, title).value;
            Start(lines) < SectionHead(lines, title) < p && !Blank(lines[p - 1])
  {
    hide Is, Blank;
    var head := SectionHead(lines, title);
    HeadersAreContent(lines[head], title);
  }

  /** Content put behind content of the block leaves the block where it is, only longer. */
  lemma {:induction false} BlockGrows(lines: seq<string>, at: nat, b: seq<string>)
    requires HasUnreleased(lines) && Start(lines) < at <= End(lines)
    requires at > Start(lines) + 1 ==> !Blank(lines[at - 1])
    requires b != [] && !Blank(Last(b)) && Without(Unreleased, b) && Without(Release, b)
    ensures at <= BlockEnd(lines)
    ensures var after := Splice(lines, at, b);
            && HasUnreleased(after)
            && Start(after) == Start(lines) && End(after) == End(lines) + |b|
            && BlockEnd(after) == BlockEnd(lines) + |b|
  {
    hide Is, Blank, Splice, Find, Trim;
    FindAround(lines, at, b, Unreleased, 0, |lines|);
    FindAround(lines, at, b, Release, Start(lines) + 1, |lines|);
    TrimAround(lines, at, b, Start(lines) + 1, End(lines));
  }

  function ShiftSpot(spot: Option<nat>, at: nat, n: nat): Option<nat> {
    match spot
    case None => None
    case Some(p) => Some(Shift(p, at, n))
  }

  lemma {:induction false} ContentEndShifts(lines: seq<string>, at: nat, b: seq<string>, head: nat, end: nat)
    requires head < at <= end <= |lines| && !Blank(lines[at - 1])
    requires b != [] && !Blank(Last(b)) && Without(Heading, b)
    ensures ContentEnd(Splice(lines, at, b), head, end + |b|) == Shift(ContentEnd(lines, head, end), at, |b|)
  {
    hide Is, Blank, Splice, Find, Trim, Without;
    FindAround(lines, at, b, Heading, head + 1, end);
    var tail := Find(lines, Heading, head + 1, end);
    if tail < at {
      TrimBefore(lines, at, b, head + 1, tail);
    } else {
      TrimAround(lines, at, b, head + 1, tail);
    }
  }

  lemma {:induction false} ContentEndAfter(lines: seq<string>, at: nat, b: seq<string>, head: nat, end: nat)
    requires at <= head < end <= |lines|
    ensures ContentEnd(Splice(lines, at, b), head + |b|, end + |b|) == ContentEnd(lines, head, end) + |b|
  {
    hide Is, Blank, Splice, Find, Trim;
    FindAfter(lines, at, b, Heading, head + 1, end);
    TrimAfter(lines, at, b, head + 1, Find(lines, Heading, head + 1, end));
  }

  /** A section keeps its end behind the same line. */
  lemma {:induction false} SectionEndShifts(lines: seq<string>, at: nat, b: seq<string>, start: nat, end: nat,
                                            title: string)
    requires start < at <= end <= |lines| && !Blank(lines[at - 1])
    requires b != [] && !Blank(Last(b)) && Without(Heading, b) && Without(Section(title), b)
    ensures SectionEnd(Splice(lines, at, b), start, end + |b|, title) ==
            ShiftSpot(SectionEnd(lines, start, end, title), at, |b|)
  {
    hide Is, Blank, Splice, Find, ContentEnd, Without;
    FindAround(lines, at, b, Section(title), start, end);
    var head := Find(lines, Section(title), start, end);
    if head < at {
      ContentEndShifts(lines, at, b, head, end);
    } else if head < end {
      ContentEndAfter(lines, at, b, head, end);
    }
  }

  /** Fragments joining one section leave every other section's end behind the same line. */
  lemma {:induction false} JoiningMovesOthers(lines: seq<string>, e: Entry, other: string)
    requires HasUnreleased(lines) && ValidEntry(e)
    requires Spot(lines, e.title).Some?
    ensures var p := Spot(lines, e.title).value;
            var after := Splice(lines, p, e.body);
            && p <= BlockEnd(lines)
            && HasUnreleased(after)
            && Start(after) == Start(lines) && End(after) == End(lines) + |e.body|
            && BlockEnd(after) == BlockEnd(lines) + |e.body|
            && (other != e.title ==> Spot(after, other) == ShiftSpot(Spot(lines, other), p, |e.body|))
  {
    hide Is, Blank, Splice, ValidEntry, Without, Start, End, BlockEnd, SectionEnd, HasUnreleased;
    SpotFollowsContent(lines, e.title);
    EntryIsInert(e);
    BlockGrows(lines, Spot(lines, e.title).value, e.body);
    EntryHasNoHeader(e, other);
    SectionEndShifts(lines, Spot(lines, e.title).value, e.body, Start(lines), End(lines), other);
  }

  lemma EntryIsInert(e: Entry)
    requires ValidEntry(e)
    ensures e.body != [] && !Blank(Last(e.body))
    ensures Without(Unreleased, e.body) && Without(Release, e.body) && Without(Heading, e.body)
  {
    hide Is, Blank, Without;
    BodyIsInert(e, Unreleased);
    BodyIsInert(e, Release);
    BodyIsInert(e, Heading);
  }

  lemma EntryHasNoHeader(e: Entry, title: string)
    requires ValidEntry(e)
    ensures Without(Section(title), e.body)
  {
    hide Is, Blank, Without;
    BodyIsInert(e, Section(title));
  }

  lemma {:induction false} TrimIsBelow(lines: seq<string>, floor: nat, i: nat, k: nat)
    requires floor <= k < i <= |lines| && !Blank(lines[k])
    ensures k < Trim(lines, floor, i)
  {
    hide Blank;
    if i - 1 > k && Blank(lines[i - 1]) { TrimIsBelow(lines, floor, i - 1, k); }
  }

  lemma {:induction false} TrimSkips(lines: seq<string>, floor: nat, mid: nat, i: nat)
    requires floor <= mid <= i <= |lines| && Trim(lines, floor, i) <= mid
    ensures Trim(lines, floor, i) == Trim(lines, floor, mid)
  {
    hide Blank;
    if i > mid { TrimSkips(lines, floor, mid, i - 1); }
  }

  lemma {:induction false} TrimFromHigherFloor(lines: seq<string>, floor: nat, higher: nat, i: nat)
    requires floor <= higher <= i <= |lines|
    requires Trim(lines, floor, i) >= higher
    ensures Trim(lines, higher, i) == Trim(lines, floor, i)
  {
    hide Blank;
    if i > higher && Blank(lines[i - 1]) { TrimFromHigherFloor(lines, floor, higher, i - 1); }
  }

  /** A section that runs to the end of the block ends where the block does; the others end before. */
  lemma {:induction false} SectionWithinBlock(lines: seq<string>, title: string)
    requires HasUnreleased(lines) && Spot(lines, title).Some?
    ensures var head := SectionHead(lines, title);
            var tail := Find(lines, Heading, head + 1, End(lines));
            && head < BlockEnd(lines)
            && (tail < End(lines) ==> tail < BlockEnd(lines))
            && (tail == End(lines) ==> Spot(lines, title) == Some(BlockEnd(lines)))
            && Spot(lines, title).value <= BlockEnd(lines)
  {
    hide Is, Blank, Find, Trim;
    var head := SectionHead(lines, title);
    SpotFollowsContent(lines, title);
    HeadersAreContent(lines[head], title);
    TrimIsBelow(lines, Start(lines) + 1, End(lines), head);
    var tail := Find(lines, Heading, head + 1, End(lines));
    if tail < End(lines) {
      HeadersAreContent(lines[tail], title);
      TrimIsBelow(lines, Start(lines) + 1, End(lines), tail);
    } else {
      TrimFromHigherFloor(lines, Start(lines) + 1, head + 1, End(lines));
    }
  }

  /** A section ends where it did, whether or not the new header now bounds it. */
  lemma {:induction false} ContentEndStays(lines: seq<string>, e: Entry, title: string)
    requires HasUnreleased(lines) && ValidEntry(e) && Spot(lines, title).Some?
    ensures var head, b := SectionHead(lines, title), NewSection(e);
            ContentEnd(Splice(lines, BlockEnd(lines), b), head, End(lines) + |b|) == ContentEnd(lines, head, End(lines))
  {
    hide Is, Blank, Splice, Find, Trim, ValidEntry, NewSection, Start, End, BlockEnd, HasUnreleased;
    var p, b, head := BlockEnd(lines), NewSection(e), SectionHead(lines, title);
    var tail := Find(lines, Heading, head + 1, End(lines));
    SectionWithinBlock(lines, title);
    if tail < End(lines) {
      FirstHeadingKept(lines, p, b, head + 1);
      TrimBefore(lines, p, b, head + 1, tail);
    } else {
      NewHeadingEndsSection(lines, e, head + 1);
      TrimSkips(lines, head + 1, p, End(lines));
      TrimBefore(lines, p, b, head + 1, p);
    }
  }

  /** A new section at the end of the block moves no other section. */
  lemma {:induction false} OpeningMovesNone(lines: seq<string>, e: Entry, other: string)
    requires HasUnreleased(lines) && ValidEntry(e)
    requires Spot(lines, e.title).None?
    ensures var b := NewSection(e);
            var after := Splice(lines, BlockEnd(lines), b);
            && HasUnreleased(after)
            && Start(after) == Start(lines) && End(after) == End(lines) + |b|
            && BlockEnd(after) == BlockEnd(lines) + |b|
            && (other != e.title ==> Spot(after, other) == Spot(lines, other))
  {
    hide Is, Blank, Splice, Find, ValidEntry, Without, NewSection, Start, End, ContentEnd, HasUnreleased;
    var p, b := BlockEnd(lines), NewSection(e);
    NewSectionIsInert(e, Unreleased);
    NewSectionIsInert(e, Release);
    BlockGrows(lines, p, b);
    if other != e.title {
      NewSectionIsInert(e, Section(other));
      FindAround(lines, p, b, Section(other), Start(lines), End(lines));
      if Spot(lines, other).Some? {
        SectionWithinBlock(lines, other);
        ContentEndStays(lines, e, other);
      }
    }
  }

  /** A heading found in front of the inserted lines is still the first one. */
  lemma {:induction false} FirstHeadingKept(lines: seq<string>, at: nat, b: seq<string>, i: nat)
    requires HasUnreleased(lines) && i <= at <= End(lines)
    requires Find(lines, Heading, i, End(lines)) < at
    ensures Find(Splice(lines, at, b), Heading, i, End(lines) + |b|) == Find(lines, Heading, i, End(lines))
    decreases at - i
  {
    hide Is, Splice, Start, End;
    SpliceAt(lines, at, b, i);
    if i < at && !Is(Heading, lines[i]) { FirstHeadingKept(lines, at, b, i + 1); }
  }

  /** A section that ran to the end of the block now ends at the new header, and trims to the same line. */
  lemma {:induction false} NewHeadingEndsSection(lines: seq<string>, e: Entry, i: nat)
    requires HasUnreleased(lines) && ValidEntry(e) && Start(lines) < i <= BlockEnd(lines)
    requires Find(lines, Heading, i, End(lines)) == End(lines)
    ensures var p, b := BlockEnd(lines), NewSection(e);
            var after := Splice(lines, p, b);
            && Find(after, Heading, i, End(lines) + |b|) == p + 1
            && Trim(after, i, p + 1) == Trim(after, i, p)
    decreases BlockEnd(lines) - i
  {
    hide Is, Blank, Splice, Start, End, BlockEnd, ValidEntry;
    var p, b := BlockEnd(lines), NewSection(e);
    SpliceAt(lines, p, b, 0);
    SpliceAt(lines, p, b, 1);
    EmptyLineIsInert(Heading);
    HeadingOpens(e);
    if i < p {
      SpliceAt(lines, p, b, i);
      NewHeadingEndsSection(lines, e, i + 1);
    }
  }

  lemma HeadingOpens(e: Entry)
    requires ValidEntry(e)
    ensures Is(Heading, NewSection(e)[1])
  {
    HeadersAreClean(e.title);
  }

  // ------------------------------------------------------------ all insertions at once

  /** The lines with `gaps[i]` put in front of line `i`, and the last gap behind them all. */
  function Weave<T>(lines: seq<T>, gaps: seq<seq<T>>): seq<T>
    requires |gaps| == |lines| + 1
  {
    var n := |lines|;
    if n == 0 then gaps[0] else Weave(lines[..n - 1], gaps[..n]) + [lines[n - 1]] + gaps[n]
  }

  /** Where line `i` stands in the woven text. */
  function Place<T>(lines: seq<T>, gaps: seq<seq<T>>, i: nat): nat
    requires |gaps| == |lines| + 1 && i <= |lines|
  {
    |Weave(lines[..i], gaps[..i + 1])|
  }

  function Widen<T>(gaps: seq<seq<T>>, p: nat, b: seq<T>): (r: seq<seq<T>>)
    requires p < |gaps|
    ensures |r| == |gaps|
  {
    gaps[p := gaps[p] + b]
  }

  lemma {:induction false} WeaveWidened<T>(lines: seq<T>, gaps: seq<seq<T>>, p: nat, b: seq<T>)
    requires |gaps| == |lines| + 1 && p <= |lines|
    ensures Place(lines, gaps, p) <= |Weave(lines, gaps)|
    ensures Weave(lines, Widen(gaps, p, b)) == Splice(Weave(lines, gaps), Place(lines, gaps, p), b)
    decreases |lines|
  {
    var n := |lines|;
    if p == n {
      assert lines[..n] == lines && gaps[..n + 1] == gaps;
      if n > 0 { assert Widen(gaps, p, b)[..n] == gaps[..n]; }
    } else {
      hide Splice;
      WeaveWidened(lines[..n - 1], gaps[..n], p, b);
      CutsNest(lines, p, n - 1);
      CutsNest(gaps, p + 1, n);
      WidenCut(gaps, p, b, n);
      SpliceInFront(Weave(lines[..n - 1], gaps[..n]), Place(lines, gaps, p), b, [lines[n - 1]] + gaps[n]);
      Associate(Weave(lines[..n - 1], gaps[..n]), [lines[n - 1]], gaps[n]);
      Associate(Splice(Weave(lines[..n - 1], gaps[..n]), Place(lines, gaps, p), b), [lines[n - 1]], gaps[n]);
    }
  }

  lemma CutsNest<T>(s: seq<T>, i: nat, j: nat)
    requires i <= j <= |s|
    ensures s[..j][..i] == s[..i]
  {
  }

  lemma WidenCut<T>(gaps: seq<seq<T>>, p: nat, b: seq<T>, n: nat)
    requires p < n <= |gaps|
    ensures Widen(gaps, p, b)[..n] == Widen(gaps[..n], p, b)
  {
  }

  lemma SpliceInFront<T>(a: seq<T>, at: nat, b: seq<T>, rest: seq<T>)
    requires at <= |a|
    ensures Splice(a + rest, at, b) == Splice(a, at, b) + rest
  {
  }

  lemma {:induction false} PlaceWidened<T>(lines: seq<T>, gaps: seq<seq<T>>, p: nat, b: seq<T>, i: nat)
    requires |gaps| == |lines| + 1 && p <= |lines| && i <= |lines|
    ensures Place(lines, Widen(gaps, p, b), i) == Shift(Place(lines, gaps, i), Place(lines, gaps, p), |b|)
  {
    PlacesGrow(lines, gaps, i, p);
    PlacesGrow(lines, gaps, p, i);
    hide Weave, Splice;
    if i < p {
      assert Widen(gaps, p, b)[..i + 1] == gaps[..i + 1];
    } else {
      assert Widen(gaps, p, b)[..i + 1] == Widen(gaps[..i + 1], p, b);
      WeaveWidened(lines[..i], gaps[..i + 1], p, b);
      assert lines[..i][..p] == lines[..p] && gaps[..i + 1][..p + 1] == gaps[..p + 1];
    }
  }

  lemma {:induction false} PlacesGrow<T>(lines: seq<T>, gaps: seq<seq<T>>, i: nat, j: nat)
    requires |gaps| == |lines| + 1 && i <= |lines| && j <= |lines|
    ensures i < j ==> Place(lines, gaps, i) < Place(lines, gaps, j)
    decreases j
  {
    if i < j {
      PlacesGrow(lines, gaps, i, j - 1);
      assert lines[..j][..j - 1] == lines[..j - 1] && gaps[..j + 1][..j] == gaps[..j];
    }
  }

  function NoGaps<T>(n: nat): (r: seq<seq<T>>)
    ensures |r| == n + 1
  {
    seq(n + 1, _ => [])
  }

  lemma {:induction false} WeaveNothing<T>(lines: seq<T>)
    ensures Weave(lines, NoGaps(|lines|)) == lines
  {
    var n := |lines|;
    if n > 0 {
      WeaveNothing(lines[..n - 1]);
      assert NoGaps<T>(n)[..n] == NoGaps<T>(n - 1);
    }
  }

  /** The fragments that join a section the block already has, in front of which line. */
  function Joining(lines: seq<string>, plan: seq<Entry>): (gaps: seq<seq<string>>)
    requires HasUnreleased(lines)
    ensures |gaps| == |lines| + 1
  {
    if plan == [] then NoGaps(|lines|)
    else
      var gaps := Joining(lines, plan[..|plan| - 1]);
      match Spot(lines, Last(plan).title)
      case None => gaps
      case Some(p) => Widen(gaps, p, Last(plan).body)
  }

  /** The sections the block does not have yet, one after the other. */
  function Opening(lines: seq<string>, plan: seq<Entry>): seq<string>
    requires HasUnreleased(lines)
  {
    if plan == [] then []
    else
      var before := Opening(lines, plan[..|plan| - 1]);
      if Spot(lines, Last(plan).title).None? then before + NewSection(Last(plan)) else before
  }

  /** Every place read off the changelog as it was, and every section put there at once. */
  function Folded(lines: seq<string>, plan: seq<Entry>): seq<string>
    requires HasUnreleased(lines)
  {
    Weave(lines, Widen(Joining(lines, plan), BlockEnd(lines), Opening(lines, plan)))
  }

  // ------------------------------------------------------------ one section after the other is all at once

  /** The single step of the loop, on the lines as the steps before have left them. */
  function Inserted(lines: seq<string>, e: Entry): seq<string>
    requires HasUnreleased(lines)
  {
    match Spot(lines, e.title)
    case Some(at) => Splice(lines, at, e.body)
    case None => Splice(lines, BlockEnd(lines), NewSection(e))
  }

  predicate Named(plan: seq<Entry>, title: string) {
    exists k :: 0 <= k < |plan| && plan[k].title == title
  }

  function Moved(lines: seq<string>, plan: seq<Entry>, title: string): Option<nat>
    requires HasUnreleased(lines)
  {
    match Spot(lines, title)
    case None => None
    case Some(p) => Some(Place(lines, Joining(lines, plan), p))
  }

  /** The state between two steps. */
  ghost predicate Between(lines: seq<string>, plan: seq<Entry>, now: seq<string>)
    requires HasUnreleased(lines)
  {
    && now == Folded(lines, plan)
    && HasUnreleased(now)
    && BlockEnd(now) == Place(lines, Joining(lines, plan), BlockEnd(lines)) + |Opening(lines, plan)|
    && forall title :: !Named(plan, title) ==> Spot(now, title) == Moved(lines, plan, title)
  }

  lemma {:induction false} NothingFolded(lines: seq<string>)
    requires HasUnreleased(lines)
    ensures Between(lines, [], lines)
  {
    hide BlockEnd, Spot, HasUnreleased;
    WeaveNothing(lines);
    WeaveWidened(lines, NoGaps(|lines|), BlockEnd(lines), []);
    forall i: nat | i <= |lines| ensures Place(lines, NoGaps(|lines|), i) == i {
      WeaveNothing(lines[..i]);
      assert NoGaps<string>(|lines|)[..i + 1] == NoGaps(i);
    }
  }

  lemma SplicesCommute<T>(w: seq<T>, at: nat, b: seq<T>, later: nat, c: seq<T>)
    requires at <= later <= |w|
    ensures Splice(Splice(w, later, c), at, b) == Splice(Splice(w, at, b), later + |b|, c)
  {
    var front, middle, back := w[..at], w[at..later], w[later..];
    assert w[..later] == front + middle && w[at..] == middle + back;
    assert Splice(w, later, c)[..at] == front && Splice(w, later, c)[at..] == middle + c + back;
    assert Splice(w, at, b)[..later + |b|] == front + b + middle && Splice(w, at, b)[later + |b|..] == back;
  }

  lemma SplicesJoin<T>(w: seq<T>, at: nat, b: seq<T>, c: seq<T>)
    requires at <= |w|
    ensures Splice(Splice(w, at, b), at + |b|, c) == Splice(w, at, b + c)
  {
  }

  lemma OneMore(plan: seq<Entry>, e: Entry, title: string)
    ensures (plan + [e])[..|plan|] == plan && Last(plan + [e]) == e && plan + [e] != []
    ensures Named(plan + [e], title) <==> Named(plan, title) || title == e.title
  {
    assert (plan + [e])[|plan|] == e;
    forall k | 0 <= k < |plan| ensures (plan + [e])[k] == plan[k] {}
  }

  /** The woven text, with the new sections as one splice. */
  lemma FoldedIsSpliced(lines: seq<string>, plan: seq<Entry>)
    requires HasUnreleased(lines)
    ensures var own := Joining(lines, plan);
            && Place(lines, own, BlockEnd(lines)) <= |Weave(lines, own)|
            && Folded(lines, plan) ==
               Splice(Weave(lines, own), Place(lines, own, BlockEnd(lines)), Opening(lines, plan))
  {
    hide Weave, Place, Splice, Joining, Opening;
    WeaveWidened(lines, Joining(lines, plan), BlockEnd(lines), Opening(lines, plan));
  }

  lemma PlanGrows(lines: seq<string>, plan: seq<Entry>, e: Entry)
    requires HasUnreleased(lines)
    ensures Spot(lines, e.title).Some? ==>
              && Joining(lines, plan + [e]) == Widen(Joining(lines, plan), Spot(lines, e.title).value, e.body)
              && Opening(lines, plan + [e]) == Opening(lines, plan)
    ensures Spot(lines, e.title).None? ==>
              && Joining(lines, plan + [e]) == Joining(lines, plan)
              && Opening(lines, plan + [e]) == Opening(lines, plan) + NewSection(e)
  {
    hide Spot, NewSection, Widen;
    OneMore(plan, e, e.title);
  }

  lemma {:induction false} JoiningStep(lines: seq<string>, plan: seq<Entry>, e: Entry, now: seq<string>)
    requires HasUnreleased(lines) && Between(lines, plan, now) && ValidEntry(e) && !Named(plan, e.title)
    requires Spot(lines, e.title).Some?
    ensures Between(lines, plan + [e], Inserted(now, e))
  {
    hide Weave, Place, Splice, Joining, Opening, Folded, Named, Widen, ValidEntry, Spot, BlockEnd, HasUnreleased;
    var own, next := Joining(lines, plan), Inserted(now, e);
    var p, end := Spot(lines, e.title).value, BlockEnd(lines);
    var at, later := Place(lines, own, p), Place(lines, own, end);
    assert Spot(now, e.title) == Some(at);
    JoiningMovesOthers(now, e, e.title);
    PlanGrows(lines, plan, e);
    SectionWithinBlock(lines, e.title);
    PlacesGrow(lines, own, p, end);
    FoldedIsSpliced(lines, plan);
    FoldedIsSpliced(lines, plan + [e]);
    WeaveWidened(lines, own, p, e.body);
    PlaceWidened(lines, own, p, e.body, end);
    SplicesCommute(Weave(lines, own), at, e.body, later, Opening(lines, plan));
    forall title | !Named(plan + [e], title) ensures Spot(next, title) == Moved(lines, plan + [e], title) {
      OneMore(plan, e, title);
      JoiningMovesOthers(now, e, title);
      if Spot(lines, title).Some? {
        PlaceWidened(lines, own, p, e.body, Spot(lines, title).value);
      }
    }
  }

  lemma {:induction false} OpeningStep(lines: seq<string>, plan: seq<Entry>, e: Entry, now: seq<string>)
    requires HasUnreleased(lines) && Between(lines, plan, now) && ValidEntry(e) && !Named(plan, e.title)
    requires Spot(lines, e.title).None?
    ensures Between(lines, plan + [e], Inserted(now, e))
  {
    hide Weave, Place, Splice, Joining, Opening, Folded, Named, Widen, ValidEntry, Spot, BlockEnd;
    hide HasUnreleased, NewSection;
    var own, next := Joining(lines, plan), Inserted(now, e);
    assert Spot(now, e.title) == None;
    OpeningMovesNone(now, e, e.title);
    PlanGrows(lines, plan, e);
    FoldedIsSpliced(lines, plan);
    FoldedIsSpliced(lines, plan + [e]);
    SplicesJoin(Weave(lines, own), Place(lines, own, BlockEnd(lines)), Opening(lines, plan), NewSection(e));
    forall title | !Named(plan + [e], title) ensures Spot(next, title) == Moved(lines, plan + [e], title) {
      OneMore(plan, e, title);
      OpeningMovesNone(now, e, title);
    }
  }

  // ------------------------------------------------------------ the program

  datatype Error = NoUnreleasedSection

  datatype Block = Block(start: nat, end: nat)

  method UnreleasedBounds(lines: seq<string>) returns (r: Result<Block, Error>)
    ensures r.Err? <==> !HasUnreleased(lines)
    ensures r.Ok? ==> r.value == Block(Start(lines), End(lines))
  {
    hide Is;
    var start := 0;
    while start < |lines| && !Is(Unreleased, lines[start])
      invariant 0 <= start <= |lines|
      invariant Find(lines, Unreleased, 0, |lines|) == Find(lines, Unreleased, start, |lines|)
    {
      start := start + 1;
    }
    if start == |lines| { return Err(NoUnreleasedSection); }
    assert start < |lines|;
    var end := start + 1;
    while end < |lines| && !Is(Release, lines[end])
      invariant start < end <= |lines|
      invariant Find(lines, Release, start + 1, |lines|) == Find(lines, Release, end, |lines|)
    {
      end := end + 1;
    }
    return Ok(Block(start, end));
  }

  method EndOfSection(lines: seq<string>, start: nat, end: nat, title: string) returns (r: Option<nat>)
    requires start <= end <= |lines|
    ensures r == SectionEnd(lines, start, end, title)
  {
    hide Is, Blank;
    var head := start;
    while head < end && !Is(Section(title), lines[head])
      invariant start <= head <= end
      invariant Find(lines, Section(title), start, end) == Find(lines, Section(title), head, end)
    {
      head := head + 1;
    }
    if head == end { return None; }
    assert head < end;
    var tail := head + 1;
    while tail < end && !Is(Heading, lines[tail])
      invariant head < tail <= end
      invariant Find(lines, Heading, head + 1, end) == Find(lines, Heading, tail, end)
    {
      tail := tail + 1;
    }
    ghost var found := tail;
    while tail > head + 1 && Blank(lines[tail - 1])
      invariant head < tail <= end
      invariant Trim(lines, head + 1, found) == Trim(lines, head + 1, tail)
    {
      tail := tail - 1;
    }
    return Some(tail);
  }

  /** The found sections among the first `n`, in the order of the catalogue. */
  function Plan(found: map<string, seq<string>>, n: nat): seq<Entry>
    requires n <= |SECTIONS|
  {
    if n == 0 then []
    else
      var before, section := Plan(found, n - 1), SECTIONS[n - 1];
      if section in found then before + [Entry(Title(section), found[section])] else before
  }

  /** What collecting and checking leave: sections with fragments, all of them in order. */
  predicate Checked(found: map<string, seq<string>>) {
    forall section :: section in found ==>
      found[section] != [] && forall k :: 0 <= k < |found[section]| ==> Passes(found[section][k])
  }

  lemma {:induction false} TitlesAreDistinct(found: map<string, seq<string>>, n: nat, k: nat)
    requires n <= k < |SECTIONS|
    ensures !Named(Plan(found, n), Title(SECTIONS[k]))
  {
    if n > 0 {
      TitlesAreDistinct(found, n - 1, k);
      var before, section := Plan(found, n - 1), SECTIONS[n - 1];
      assert Title(section) != Title(SECTIONS[k]);
      if section in found {
        OneMore(before, Entry(Title(section), found[section]), Title(SECTIONS[k]));
      }
    }
  }

  lemma {:induction false} SomethingPlanned(found: map<string, seq<string>>, k: nat, n: nat)
    requires k < n <= |SECTIONS| && SECTIONS[k] in found
    ensures Plan(found, n) != []
  {
    if k < n - 1 { SomethingPlanned(found, k, n - 1); }
  }

  lemma BetweenHasBlock(lines: seq<string>, plan: seq<Entry>, now: seq<string>)
    ensures HasUnreleased(lines) && Between(lines, plan, now) ==> HasUnreleased(now) && now == Folded(lines, plan)
  {
    hide HasUnreleased, Folded;
  }

  lemma TitlesAreValid(section: string)
    ensures ValidTitle(Title(section))
  {
    assert Last("Added") == 'd' && Last("Changed") == 'd' && Last("Deprecated") == 'd';
    assert Last("Removed") == 'd' && Last("Fixed") == 'd' && Last("Security") == 'y';
  }

  lemma {:induction false} Step(original: seq<string>, found: map<string, seq<string>>, k: nat, now: seq<string>)
    requires Checked(found) && k < |SECTIONS| && SECTIONS[k] in found
    requires HasUnreleased(original) && Between(original, Plan(found, k), now)
    ensures var e := Entry(Title(SECTIONS[k]), found[SECTIONS[k]]);
            && Plan(found, k + 1) == Plan(found, k) + [e]
            && HasUnreleased(now)
            && Between(original, Plan(found, k + 1), Inserted(now, e))
  {
    hide HasUnreleased, Between, Inserted, Title, Passes, ValidTitle;
    var e := Entry(Title(SECTIONS[k]), found[SECTIONS[k]]);
    TitlesAreValid(SECTIONS[k]);
    TitlesAreDistinct(found, k, k);
    BetweenHasBlock(original, Plan(found, k), now);
    if Spot(original, e.title).Some? {
      JoiningStep(original, Plan(found, k), e, now);
    } else {
      OpeningStep(original, Plan(found, k), e, now);
    }
  }

  lemma InsertedHere(lines: seq<string>, e: Entry)
    ensures HasUnreleased(lines) ==>
              var at, end := SectionEnd(lines, Start(lines), End(lines), e.title), BlockEnd(lines);
              && end == Trim(lines, Start(lines) + 1, End(lines))
              && (at.Some? ==> Inserted(lines, e) == lines[..at.value] + e.body + lines[at.value..])
              && (at.None? ==> Inserted(lines, e) == lines[..end] + (["", HeaderOf(e.title)] + e.body) + lines[end..])
  {
    hide Is, Blank, Find, SectionEnd, HasUnreleased, Start, End;
  }

  /**
   * Splicing one section after the other, each time searching the lines as they then
   * are, gives what reading every place off the original changelog gives.
   */
  method Insert(changelog: string, found: map<string, seq<string>>) returns (r: Result<string, Error>)
    requires Checked(found)
    ensures var lines, plan := Lines(changelog), Plan(found, |SECTIONS|);
            r == if plan == [] then Ok(Joined(lines))
                 else if !HasUnreleased(lines) then Err(NoUnreleasedSection)
                 else Ok(Joined(Folded(lines, plan)))
  {
    hide Is, Blank, Folded, Between, HasUnreleased, Start, End, Inserted, Joined, Lines, ValidEntry, Named, Passes;
    var lines := Lines(changelog);
    ghost var original := lines;
    if HasUnreleased(original) { NothingFolded(original); }
    var k := 0;
    while k < |SECTIONS|
      invariant 0 <= k <= |SECTIONS|
      invariant Plan(found, k) == [] ==> lines == original
      invariant Plan(found, k) != [] ==> HasUnreleased(original)
      invariant HasUnreleased(original) ==> Between(original, Plan(found, k), lines)
    {
      var section := SECTIONS[k];
      if section in found {
        var title, body := Title(section), found[section];
        ghost var e := Entry(title, body);
        var bounds := UnreleasedBounds(lines);
        if bounds.Err? {
          SomethingPlanned(found, k, |SECTIONS|);
          BetweenHasBlock(original, Plan(found, k), lines);
          return Err(NoUnreleasedSection);
        }
        var start, end := bounds.value.start, bounds.value.end;
        Step(original, found, k, lines);
        InsertedHere(lines, e);
        var at := EndOfSection(lines, start, end, title);
        if at.Some? {
          lines := lines[..at.value] + body + lines[at.value..];
        } else {
          var tail := end;
          while tail > start + 1 && Blank(lines[tail - 1])
            invariant start < tail <= end
            invariant Trim(lines, start + 1, end) == Trim(lines, start + 1, tail)
          {
            tail := tail - 1;
          }
          lines := lines[..tail] + (["", HeaderOf(title)] + body) + lines[tail..];
        }
      }
      k := k + 1;
    }
    BetweenHasBlock(original, Plan(found, |SECTIONS|), lines);
    return Ok(Joined(lines));
  }
}
