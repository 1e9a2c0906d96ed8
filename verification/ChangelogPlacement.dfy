/** What folding fragments into a changelog keeps, and where each fragment ends up. */
module ChangelogPlacement {
  import opened Prelude
  import opened PythonText
  import opened Changelog
  import opened WrittenLines
  import Delimited

  /** All gaps of the folded changelog. */
  function Gaps(lines: seq<string>, plan: seq<Entry>): (gaps: seq<seq<string>>)
    requires HasUnreleased(lines)
    ensures |gaps| == |lines| + 1
  {
    Widen(Joining(lines, plan), BlockEnd(lines), Opening(lines, plan))
  }

  /** Where line `i` of the original stands in the folded changelog. */
  function NewPlace(lines: seq<string>, plan: seq<Entry>, i: nat): nat
    requires HasUnreleased(lines) && i <= |lines|
  {
    Place(lines, Gaps(lines, plan), i)
  }

  // ------------------------------------------------------------ every line is kept, in order

  /** The woven text up to and with gap `i` opens the whole. */
  lemma {:induction false} WovenPrefix<T>(lines: seq<T>, gaps: seq<seq<T>>, i: nat)
    requires |gaps| == |lines| + 1 && i <= |lines|
    ensures Weave(lines[..i], gaps[..i + 1]) <= Weave(lines, gaps)
    ensures i < |lines| ==> Weave(lines[..i], gaps[..i + 1]) + [lines[i]] + gaps[i + 1] <= Weave(lines, gaps)
    decreases |lines|
  {
    var n := |lines|;
    if i == n {
      assert lines[..i] == lines && gaps[..i + 1] == gaps;
    } else {
      WovenPrefix(lines[..n - 1], gaps[..n], i);
      assert lines[..n - 1][..i] == lines[..i] && gaps[..n][..i + 1] == gaps[..i + 1];
    }
  }

  /** Every original line is still there, and in the original order. */
  lemma {:induction false} LinesAreKept(lines: seq<string>, plan: seq<Entry>, i: nat, j: nat)
    requires HasUnreleased(lines) && i < |lines| && j < |lines|
    ensures var after := Folded(lines, plan);
            && NewPlace(lines, plan, i) < |after| && after[NewPlace(lines, plan, i)] == lines[i]
            && (i < j ==> NewPlace(lines, plan, i) < NewPlace(lines, plan, j))
  {
    hide Weave, HasUnreleased, BlockEnd, Joining, Opening;
    var gaps := Gaps(lines, plan);
    WovenPrefix(lines, gaps, i);
    PlacesGrow(lines, gaps, i, j);
    var opens := Weave(lines[..i], gaps[..i + 1]) + [lines[i]] + gaps[i + 1];
    assert opens[NewPlace(lines, plan, i)] == lines[i];
  }

  /** What the insertion adds, in order of the catalogue. */
  function Added(lines: seq<string>, plan: seq<Entry>): seq<string>
    requires HasUnreleased(lines)
  {
    if plan == [] then []
    else
      var e := Last(plan);
      Added(lines, plan[..|plan| - 1]) + if Spot(lines, e.title).Some? then e.body else NewSection(e)
  }

  lemma SpliceCounts<T>(lines: seq<T>, at: nat, b: seq<T>)
    requires at <= |lines|
    ensures multiset(Splice(lines, at, b)) == multiset(lines) + multiset(b)
  {
    assert lines == lines[..at] + lines[at..];
  }

  lemma AppendCounts<T>(a: seq<T>, b: seq<T>)
    ensures multiset(a + b) == multiset(a) + multiset(b)
  {
  }

  lemma Rebalance<T>(w: multiset<T>, o: multiset<T>, l: multiset<T>, a: multiset<T>, b: multiset<T>)
    requires w + o == l + a
    ensures w + (o + b) == l + (a + b) && (w + b) + o == l + (a + b)
  {
    assert w + (o + b) == (w + o) + b && (w + b) + o == (w + o) + b;
  }

  lemma {:induction false} AddedIsWoven(lines: seq<string>, plan: seq<Entry>)
    requires HasUnreleased(lines)
    ensures multiset(Weave(lines, Joining(lines, plan))) + multiset(Opening(lines, plan)) ==
            multiset(lines) + multiset(Added(lines, plan))
    decreases |plan|
  {
    hide Weave, Place, Splice, HasUnreleased, Spot, NewSection, Widen;
    if plan == [] {
      WeaveNothing(lines);
    } else {
      var before, e := plan[..|plan| - 1], Last(plan);
      FrontAndLast(plan);
      AddedIsWoven(lines, before);
      PlanGrows(lines, before, e);
      var own := Joining(lines, before);
      Rebalance(multiset(Weave(lines, own)), multiset(Opening(lines, before)), multiset(lines),
        multiset(Added(lines, before)), multiset(if Spot(lines, e.title).Some? then e.body else NewSection(e)));
      if Spot(lines, e.title).Some? {
        var p := Spot(lines, e.title).value;
        WeaveWidened(lines, own, p, e.body);
        SpliceCounts(Weave(lines, own), Place(lines, own, p), e.body);
        AppendCounts(Added(lines, before), e.body);
      } else {
        AppendCounts(Opening(lines, before), NewSection(e));
        AppendCounts(Added(lines, before), NewSection(e));
      }
    }
  }

  /** Nothing is lost, and nothing appears but each fragment once and the headers of new sections. */
  lemma {:induction false} Conserved(lines: seq<string>, plan: seq<Entry>)
    requires HasUnreleased(lines)
    ensures multiset(Folded(lines, plan)) == multiset(lines) + multiset(Added(lines, plan))
  {
    hide Weave, Place, Splice, HasUnreleased, Folded, Joining, Opening, Added;
    FoldedIsSpliced(lines, plan);
    AddedIsWoven(lines, plan);
    SpliceCounts(Weave(lines, Joining(lines, plan)), Place(lines, Joining(lines, plan), BlockEnd(lines)),
                 Opening(lines, plan));
  }

  // ------------------------------------------------------------ nothing outside the block moves

  predicate EmptyBetween<T(==)>(gaps: seq<seq<T>>, i: nat, j: nat) {
    forall k :: i <= k < j && k < |gaps| ==> gaps[k] == []
  }

  lemma {:induction false} WovenTail<T>(lines: seq<T>, gaps: seq<seq<T>>, i: nat)
    requires |gaps| == |lines| + 1 && i <= |lines| && EmptyBetween(gaps, i + 1, |gaps|)
    ensures Weave(lines, gaps) == Weave(lines[..i], gaps[..i + 1]) + lines[i..]
    decreases |lines|
  {
    var n := |lines|;
    if i == n {
      assert lines[..i] == lines && gaps[..i + 1] == gaps;
    } else {
      WovenTail(lines[..n - 1], gaps[..n], i);
      assert lines[..n - 1][..i] == lines[..i] && gaps[..n][..i + 1] == gaps[..i + 1];
      assert lines[i..] == lines[..n - 1][i..] + [lines[n - 1]];
      assert gaps[n] == [];
    }
  }

  lemma {:induction false} WovenHead<T>(lines: seq<T>, gaps: seq<seq<T>>)
    requires |gaps| == |lines| + 1 && EmptyBetween(gaps, 0, |gaps|)
    ensures Weave(lines, gaps) == lines
  {
    assert gaps == NoGaps(|lines|);
    WeaveNothing(lines);
  }

  lemma {:induction false} JoiningStaysInBlock(lines: seq<string>, plan: seq<Entry>)
    requires HasUnreleased(lines)
    ensures EmptyBetween(Joining(lines, plan), 0, Start(lines) + 1)
    ensures EmptyBetween(Joining(lines, plan), End(lines) + 1, |lines| + 1)
    decreases |plan|
  {
    hide HasUnreleased, Spot;
    if plan != [] {
      JoiningStaysInBlock(lines, plan[..|plan| - 1]);
    }
  }

  /** Up to the header of the unreleased block, and from the next release on, nothing changes. */
  lemma {:induction false} OutsideUntouched(lines: seq<string>, plan: seq<Entry>)
    requires HasUnreleased(lines)
    ensures lines[..Start(lines) + 1] <= Folded(lines, plan)
    ensures |Folded(lines, plan)| >= Start(lines) + 1 + |lines| - End(lines)
    ensures Folded(lines, plan)[|Folded(lines, plan)| - (|lines| - End(lines))..] == lines[End(lines)..]
  {
    hide Weave, HasUnreleased, Joining, Opening, Start, End, BlockEnd;
    var gaps, start, end := Gaps(lines, plan), Start(lines), End(lines);
    JoiningStaysInBlock(lines, plan);
    WovenTail(lines, gaps, end);
    WovenPrefix(lines, gaps, start);
    WovenHead(lines[..start], gaps[..start + 1]);
    PlacesGrow(lines, gaps, start, end);
    assert lines[..start + 1] == lines[..start] + [lines[start]];
  }

  // ------------------------------------------------------------ every fragment stands where it belongs

  /** A line a markdown reader takes for the heading of a section or of a release, indented or not. */
  predicate IsHeading(line: string) {
    var text := StripLeft(line);
    "# " <= text || "## " <= text || "### " <= text
  }

  /** The heading a line put behind `before` would stand under. */
  function HeadingOf(before: seq<string>): Option<string> {
    if before == [] then None
    else if IsHeading(Last(before)) then Some(Strip(Last(before)))
    else HeadingOf(before[..|before| - 1])
  }

  predicate HeadingFree(b: seq<string>) {
    forall k :: 0 <= k < |b| ==> !IsHeading(b[k])
  }

  lemma {:induction false} HeadingOfFree(b: seq<string>)
    requires HeadingFree(b)
    ensures HeadingOf(b) == None
    decreases |b|
  {
    hide IsHeading;
    if b != [] { HeadingOfFree(b[..|b| - 1]); }
  }

  lemma {:induction false} HeadingOfJoined(a: seq<string>, b: seq<string>)
    ensures HeadingOf(a + b) == if HeadingOf(b).Some? then HeadingOf(b) else HeadingOf(a)
    decreases |b|
  {
    hide IsHeading;
    if b == [] {
      assert a + b == a;
    } else if !IsHeading(Last(b)) {
      HeadingOfJoined(a, b[..|b| - 1]);
      assert (a + b)[..|a + b| - 1] == a + b[..|b| - 1];
    }
  }

  /** Behind a header, a line stands under it unless another heading comes between. */
  lemma UnderHeaderIff(before: seq<string>, header: string, ahead: seq<string>)
    requires IsHeading(header)
    ensures HeadingOf(before + [header] + ahead) == Some(Strip(header)) <==>
            HeadingOf(ahead) in {None, Some(Strip(header))}
  {
    hide IsHeading, Strip;
    assert (before + [header])[..|before|] == before;
    HeadingOfJoined(before + [header], ahead);
  }

  predicate AllValid(plan: seq<Entry>) {
    forall k :: 0 <= k < |plan| ==> ValidEntry(plan[k])
  }

  /** What the check lets through is what the laws below ask of a plan. */
  lemma {:induction false} CheckedPlansAreValid(found: map<string, seq<string>>, n: nat)
    requires Checked(found) && n <= |SECTIONS|
    ensures AllValid(Plan(found, n))
  {
    hide Passes, ValidTitle;
    if n > 0 {
      CheckedPlansAreValid(found, n - 1);
      TitlesAreValid(SECTIONS[n - 1]);
    }
  }

  lemma AllValidFront(plan: seq<Entry>)
    requires AllValid(plan) && plan != []
    ensures AllValid(plan[..|plan| - 1]) && ValidEntry(Last(plan))
  {
    hide ValidEntry;
  }

  // ---- no section ends inside another

  /** Of two headers in a block, the first section ends no later than the second header, or where the second does. */
  lemma {:induction false} TwoHeads(lines: seq<string>, first: nat, second: nat, end: nat)
    requires first < second < end <= |lines| && !Blank(lines[second])
    ensures ContentEnd(lines, first, end) <= second || ContentEnd(lines, first, end) == ContentEnd(lines, second, end)
  {
    hide Is, Blank, Find, Trim;
    var tail := Find(lines, Heading, first + 1, end);
    if tail > second {
      SameTail(lines, first + 1, second + 1, end);
      TrimIsBelow(lines, first + 1, tail, second);
      TrimFromHigherFloor(lines, first + 1, second + 1, tail);
    }
  }

  lemma {:induction false} SameTail(lines: seq<string>, i: nat, j: nat, end: nat)
    requires i <= j <= end <= |lines| && Find(lines, Heading, i, end) >= j
    ensures Find(lines, Heading, j, end) == Find(lines, Heading, i, end)
    decreases j - i
  {
    hide Is;
    if i < j { SameTail(lines, i + 1, j, end); }
  }

  /** No section ends between the header of another and that section's end. */
  lemma {:induction false} NoSpotInside(lines: seq<string>, title: string, other: string)
    requires HasUnreleased(lines) && Spot(lines, title).Some?
    ensures Spot(lines, other).Some? ==>
              Spot(lines, other).value <= SectionHead(lines, title)
                  || Spot(lines, title).value <= Spot(lines, other).value
  {
    hide Is, Blank, HasUnreleased, Start, End, Find, Trim, ContentEnd;
    if Spot(lines, other).Some? {
      var head, theirs := SectionHead(lines, title), SectionHead(lines, other);
      HeadersAreContent(lines[head], title);
      HeadersAreContent(lines[theirs], other);
      if theirs < head {
        TwoHeads(lines, theirs, head, End(lines));
      } else if head < theirs {
        TwoHeads(lines, head, theirs, End(lines));
      }
    }
  }

  lemma {:induction false} NothingJoinsInside(lines: seq<string>, plan: seq<Entry>, title: string)
    requires HasUnreleased(lines) && Spot(lines, title).Some?
    ensures EmptyBetween(Joining(lines, plan), SectionHead(lines, title) + 1, Spot(lines, title).value)
    decreases |plan|
  {
    hide HasUnreleased, Spot, SectionHead;
    if plan != [] {
      NothingJoinsInside(lines, plan[..|plan| - 1], title);
      NoSpotInside(lines, title, Last(plan).title);
    }
  }

  // ---- where the fragments of an entry begin

  lemma {:induction false} JoiningHas(lines: seq<string>, plan: seq<Entry>, j: nat)
    requires HasUnreleased(lines) && j < |plan| && Spot(lines, plan[j].title).Some?
    ensures var p := Spot(lines, plan[j].title).value;
            Joining(lines, plan[..j])[p] + plan[j].body <= Joining(lines, plan)[p]
    decreases |plan|
  {
    hide HasUnreleased, Spot;
    var front := plan[..|plan| - 1];
    if j < |front| {
      JoiningHas(lines, front, j);
      assert front[..j] == plan[..j] && front[j] == plan[j];
    }
  }

  lemma {:induction false} OpeningHas(lines: seq<string>, plan: seq<Entry>, j: nat)
    requires HasUnreleased(lines) && j < |plan| && Spot(lines, plan[j].title).None?
    ensures Opening(lines, plan[..j]) + NewSection(plan[j]) <= Opening(lines, plan)
    decreases |plan|
  {
    hide HasUnreleased, Spot, NewSection;
    var front := plan[..|plan| - 1];
    if j < |front| {
      OpeningHas(lines, front, j);
      assert front[..j] == plan[..j] && front[j] == plan[j];
    }
  }

  /** Where the fragments of entry `j` begin among the elements of the folded changelog. */
  function Row(lines: seq<string>, plan: seq<Entry>, j: nat): nat
    requires HasUnreleased(lines) && j < |plan|
  {
    var end := BlockEnd(lines);
    match Spot(lines, plan[j].title)
    case Some(p) => NewPlace(lines, plan, p - 1) + 1 + |Joining(lines, plan[..j])[p]|
    case None => NewPlace(lines, plan, end - 1) + 1 + |Joining(lines, plan)[end]| + |Opening(lines, plan[..j])| + 2
  }

  lemma InsidePrefix<T>(a: seq<T>, b: seq<T>, m: nat, whole: seq<T>)
    requires m < |b| && a + b <= whole
    ensures |a| + m < |whole| && whole[|a| + m] == b[m] && whole[..|a| + m] == a + b[..m]
  {
    assert (a + b)[|a| + m] == b[m];
    assert whole[..|a| + m] == (a + b)[..|a| + m] == a + b[..m];
  }

  lemma PrefixInside<T>(a: seq<T>, b: seq<T>, c: seq<T>, whole: seq<T>)
    requires b <= c && a + c <= whole
    ensures a + b <= whole
  {
  }

  /** The elements of the folded changelog up to original line `p - 1`. */
  lemma {:induction false} OpensBeforeGap(lines: seq<string>, plan: seq<Entry>, p: nat)
    requires HasUnreleased(lines) && 0 < p <= |lines|
    ensures var gaps := Gaps(lines, plan);
            var opens := Weave(lines[..p - 1], gaps[..p]) + [lines[p - 1]];
            && |opens| == NewPlace(lines, plan, p - 1) + 1
            && opens + gaps[p] <= Folded(lines, plan)
  {
    hide Weave, HasUnreleased, BlockEnd, Joining, Opening;
    WovenPrefix(lines, Gaps(lines, plan), p - 1);
  }

  lemma CutAtHeader(lines: seq<string>, head: nat, p: nat)
    requires head < p <= |lines|
    ensures lines[..p - 1][head..] + [lines[p - 1]] == [lines[head]] + lines[head + 1..p]
  {
    assert lines[..p - 1][head..] == lines[head..p - 1];
    assert lines[head..p - 1] + [lines[p - 1]] == lines[head..p];
    assert [lines[head]] + lines[head + 1..p] == lines[head..p];
  }

  /** The same elements, cut at the header of a section that ends there. */
  lemma {:induction false} OpensWithSection(lines: seq<string>, plan: seq<Entry>, title: string)
    requires HasUnreleased(lines) && Spot(lines, title).Some?
    ensures var gaps, p, head := Gaps(lines, plan), Spot(lines, title).value, SectionHead(lines, title);
            && head < p
            && Weave(lines[..p - 1], gaps[..p]) + [lines[p - 1]] ==
               Weave(lines[..head], gaps[..head + 1]) + [lines[head]] + lines[head + 1..p]
  {
    hide Weave, HasUnreleased, BlockEnd, Joining, Opening, Spot, SectionHead;
    var gaps, p, head := Gaps(lines, plan), Spot(lines, title).value, SectionHead(lines, title);
    SpotFollowsContent(lines, title);
    SectionWithinBlock(lines, title);
    NothingJoinsInside(lines, plan, title);
    WovenTail(lines[..p - 1], gaps[..p], head);
    CutsNest(lines, head, p - 1);
    CutsNest(gaps, head + 1, p);
    CutAtHeader(lines, head, p);
    Associate(Weave(lines[..head], gaps[..head + 1]), lines[..p - 1][head..], [lines[p - 1]]);
    Associate(Weave(lines[..head], gaps[..head + 1]), [lines[head]], lines[head + 1..p]);
  }

  // ---- in the written text

  /** The line of the written text that row `r` of fragment `m` of entry `j` becomes. */
  function WrittenRow(lines: seq<string>, plan: seq<Entry>, j: nat, m: nat, r: nat): nat
    requires HasUnreleased(lines) && j < |plan| && Row(lines, plan, j) + m <= |Folded(lines, plan)|
  {
    |FlatLines(Folded(lines, plan)[..Row(lines, plan, j) + m])| + r
  }

  /** What a reader passes between the header of an entry's section and that row. */
  function Preceding(lines: seq<string>, plan: seq<Entry>, j: nat, m: nat, r: nat): seq<string>
    requires HasUnreleased(lines) && j < |plan| && m < |plan[j].body| && r <= |Lines(plan[j].body[m])|
  {
    var e := plan[j];
    var own := FlatLines(e.body[..m]) + Lines(e.body[m])[..r];
    match Spot(lines, e.title)
    case None => own
    case Some(p) => lines[SectionHead(lines, e.title) + 1..p] + FlatLines(Joining(lines, plan[..j])[p]) + own
  }

  /** The text is written up to the row as some lines, the header, and what lies ahead of the row. */
  ghost predicate WrittenBehind(lines: seq<string>, plan: seq<Entry>, header: string, ahead: seq<string>, at: nat,
                                row: string)
    requires HasUnreleased(lines)
  {
    var written := Lines(Joined(Folded(lines, plan)));
    at < |written| && written[at] == row && exists before :: written[..at] == before + [header] + ahead
  }

  lemma {:induction false} RowIsWritten(lines: seq<string>, plan: seq<Entry>, before: seq<string>, b: seq<string>,
                                        m: nat, r: nat)
    requires HasUnreleased(lines) && m < |b| && r < |Lines(b[m])| && before + b <= Folded(lines, plan)
    ensures var written, i := Lines(Joined(Folded(lines, plan))), |before| + m;
            var at := |FlatLines(Folded(lines, plan)[..i])| + r;
            && at < |written| && written[at] == Lines(b[m])[r]
            && written[..at] == FlatLines(before) + (FlatLines(b[..m]) + Lines(b[m])[..r])
  {
    hide Lines, FlatLines, Joined, Folded, HasUnreleased;
    InsidePrefix(before, b, m, Folded(lines, plan));
    LinesOfJoined(Folded(lines, plan));
    FlatAt(Folded(lines, plan), |before| + m, r);
    FlatConcat(before, b[..m]);
    Associate(FlatLines(before), FlatLines(b[..m]), Lines(b[m])[..r]);
  }

  /** A row is written behind a header when the elements in front of its fragments, as lines, are. */
  lemma {:induction false} RowBehindHeader(lines: seq<string>, plan: seq<Entry>, opens: seq<string>, b: seq<string>,
                                           m: nat, r: nat, before: seq<string>, header: string, ahead: seq<string>)
    requires HasUnreleased(lines) && m < |b| && r < |Lines(b[m])| && opens + b <= Folded(lines, plan)
    requires FlatLines(opens) + (FlatLines(b[..m]) + Lines(b[m])[..r]) == before + [header] + ahead
    ensures |opens| + m < |Folded(lines, plan)|
    ensures WrittenBehind(lines, plan, header, ahead,
                          |FlatLines(Folded(lines, plan)[..|opens| + m])| + r, Lines(b[m])[r])
  {
    hide Lines, FlatLines, Joined, Folded, HasUnreleased;
    InsidePrefix(opens, b, m, Folded(lines, plan));
    RowIsWritten(lines, plan, opens, b, m, r);
  }

  /** The elements in front of fragments that join a section: up to its header, its old content, what joined before. */
  lemma {:induction false} JoinersOpen(lines: seq<string>, plan: seq<Entry>, j: nat)
    requires HasUnreleased(lines) && j < |plan| && Spot(lines, plan[j].title).Some?
    ensures var p, head := Spot(lines, plan[j].title).value, SectionHead(lines, plan[j].title);
            && head < p
            && (var opens := Weave(lines[..head], Gaps(lines, plan)[..head + 1]) + [lines[head]] + lines[head + 1..p]
                             + Joining(lines, plan[..j])[p];
                |opens| == Row(lines, plan, j) && opens + plan[j].body <= Folded(lines, plan))
  {
    hide Weave, HasUnreleased, Joining, Opening, Folded, NewPlace, Spot, SectionHead, BlockEnd;
    var p, e := Spot(lines, plan[j].title).value, plan[j];
    var gaps, earlier := Gaps(lines, plan), Joining(lines, plan[..j])[p];
    OpensBeforeGap(lines, plan, p);
    OpensWithSection(lines, plan, e.title);
    JoiningHas(lines, plan, j);
    var opens := Weave(lines[..p - 1], gaps[..p]) + [lines[p - 1]];
    assert Joining(lines, plan)[p] <= gaps[p];
    PrefixInside(opens, earlier + e.body, gaps[p], Folded(lines, plan));
    Associate(opens, earlier, e.body);
  }

  /** Fragments that join a section the block has: behind its header, its content, and what joined before them. */
  lemma {:induction false} JoinersStandTogether(lines: seq<string>, plan: seq<Entry>, j: nat, m: nat, r: nat)
    requires OneLiners(lines) && HasUnreleased(lines)
    requires j < |plan| && m < |plan[j].body| && r < |Lines(plan[j].body[m])|
    requires Spot(lines, plan[j].title).Some?
    ensures Row(lines, plan, j) + m < |Folded(lines, plan)|
    ensures WrittenBehind(lines, plan, lines[SectionHead(lines, plan[j].title)], Preceding(lines, plan, j, m, r),
                          WrittenRow(lines, plan, j, m, r), Lines(plan[j].body[m])[r])
  {
    hide Weave, HasUnreleased, Joining, Opening, Folded, NewPlace, Spot, SectionHead, BlockEnd;
    hide Lines, FlatLines, Joined;
    hide OneLiners, Gaps, Row, WrittenBehind;
    var p, e, head := Spot(lines, plan[j].title).value, plan[j], SectionHead(lines, plan[j].title);
    JoinersOpen(lines, plan, j);
    var before, earlier := Weave(lines[..head], Gaps(lines, plan)[..head + 1]), Joining(lines, plan[..j])[p];
    FlatAround(lines, before, head, p, earlier, FlatLines(e.body[..m]) + Lines(e.body[m])[..r]);
    RowBehindHeader(lines, plan, before + [lines[head]] + lines[head + 1..p] + earlier, e.body, m, r,
                    FlatLines(before), lines[head], Preceding(lines, plan, j, m, r));
  }

  lemma FlatAround(lines: seq<string>, before: seq<string>, head: nat, p: nat, earlier: seq<string>, own: seq<string>)
    requires OneLiners(lines) && head < p <= |lines|
    ensures FlatLines(before + [lines[head]] + lines[head + 1..p] + earlier) + own ==
            FlatLines(before) + [lines[head]] + (lines[head + 1..p] + FlatLines(earlier) + own)
  {
    hide FlatLines, Lines;
    var inner, front := lines[head + 1..p], FlatLines(before) + [lines[head]];
    FlatOfOneLiners([lines[head]]);
    FlatOfOneLiners(inner);
    FlatConcat(before, [lines[head]]);
    FlatConcat(before + [lines[head]], inner);
    FlatConcat(before + [lines[head]] + inner, earlier);
    Associate(front, inner, FlatLines(earlier));
    Associate(front, inner + FlatLines(earlier), own);
  }

  /**
   * The elements in front of fragments that open a section: up to the end of the block, its
   * gap, the sections opened before.
   */
  lemma {:induction false} OpenersOpen(lines: seq<string>, plan: seq<Entry>, j: nat)
    requires HasUnreleased(lines) && j < |plan| && Spot(lines, plan[j].title).None?
    ensures exists before: seq<string> ::
              var opens := before + ["", HeaderOf(plan[j].title)];
              |opens| == Row(lines, plan, j) && opens + plan[j].body <= Folded(lines, plan)
  {
    hide Weave, HasUnreleased, Joining, Opening, Folded, NewPlace, Spot, BlockEnd, HeaderOf;
    var p, e := BlockEnd(lines), plan[j];
    OpensBeforeGap(lines, plan, p);
    OpeningHas(lines, plan, j);
    var opens := Weave(lines[..p - 1], Gaps(lines, plan)[..p]) + [lines[p - 1]];
    var before := opens + Joining(lines, plan)[p];
    var earlier := Opening(lines, plan[..j]);
    Associate(opens, Joining(lines, plan)[p], Opening(lines, plan));
    PrefixInside(before, earlier + NewSection(e), Opening(lines, plan), Folded(lines, plan));
    Associate(before, earlier, NewSection(e));
    Associate(before + earlier, ["", HeaderOf(e.title)], e.body);
    assert |(before + earlier) + ["", HeaderOf(e.title)]| == Row(lines, plan, j);
  }

  /** Fragments of a section the block does not have: behind a header of their own. */
  lemma {:induction false} OpenersStandTogether(lines: seq<string>, plan: seq<Entry>, j: nat, m: nat, r: nat)
    requires HasUnreleased(lines)
    requires j < |plan| && m < |plan[j].body| && r < |Lines(plan[j].body[m])|
    requires ValidTitle(plan[j].title) && Spot(lines, plan[j].title).None?
    ensures Row(lines, plan, j) + m < |Folded(lines, plan)|
    ensures WrittenBehind(lines, plan, HeaderOf(plan[j].title), Preceding(lines, plan, j, m, r),
                          WrittenRow(lines, plan, j, m, r), Lines(plan[j].body[m])[r])
  {
    hide HasUnreleased, Folded, Spot, Lines, FlatLines, Joined, HeaderOf, ValidTitle, Row, WrittenBehind;
    var e := plan[j];
    OpenersOpen(lines, plan, j);
    var before: seq<string> :|
      var opens := before + ["", HeaderOf(e.title)];
      |opens| == Row(lines, plan, j) && opens + e.body <= Folded(lines, plan);
    NewHeaderIsFlat(before, e.title);
    RowBehindHeader(lines, plan, before + ["", HeaderOf(e.title)], e.body, m, r,
                    FlatLines(before) + [""], HeaderOf(e.title), Preceding(lines, plan, j, m, r));
  }

  lemma NewHeaderIsFlat(before: seq<string>, title: string)
    requires ValidTitle(title)
    ensures FlatLines(before + ["", HeaderOf(title)]) == FlatLines(before) + [""] + [HeaderOf(title)]
  {
    hide FlatLines;
    FlatTextIsOneLine("");
    FlatTextIsOneLine(HeaderOf(title));
    FlatStep(before, "");
    FlatStep(before + [""], HeaderOf(title));
    assert before + [""] + [HeaderOf(title)] == before + ["", HeaderOf(title)];
  }

  lemma NewHeaderIsHeading(title: string)
    requires ValidTitle(title)
    ensures IsHeading(HeaderOf(title)) && Strip(HeaderOf(title)) == HeaderOf(title)
  {
    HeadersAreClean(title);
    assert StripLeft(HeaderOf(title)) == HeaderOf(title) by { StripKeepsFirst(HeaderOf(title)); }
    assert HeaderOf(title)[..4] == "### ";
  }

  lemma SectionHeaderIsHeading(line: string, title: string)
    requires Is(Section(title), line)
    ensures IsHeading(line) && Strip(line) == HeaderOf(title)
  {
    hide StripLeft, StripRight;
    assert HeaderOf(title) <= StripLeft(line);
    assert HeaderOf(title)[..4] == "### ";
  }

  /**
   * Every row of every fragment is written, and stands under the header of its own
   * section in the written text exactly when what a reader passes since that header
   * (the section's old content, what joined before it, the rows before it) ends
   * under no other heading.
   */
  lemma {:induction false} UnderItsHeaderIff(text: string, plan: seq<Entry>, j: nat, m: nat, r: nat)
    requires HasUnreleased(Lines(text)) && j < |plan| && m < |plan[j].body| && r < |Lines(plan[j].body[m])|
    requires ValidTitle(plan[j].title)
    ensures Row(Lines(text), plan, j) + m < |Folded(Lines(text), plan)|
    ensures var lines := Lines(text);
            var written, at, own := Lines(Joined(Folded(lines, plan))), WrittenRow(lines, plan, j, m, r),
                                    Some(HeaderOf(plan[j].title));
            && at < |written| && written[at] == Lines(plan[j].body[m])[r]
            && (HeadingOf(written[..at]) == own <==> HeadingOf(Preceding(lines, plan, j, m, r)) in {None, own})
  {
    hide HasUnreleased, Row, WrittenRow, Folded, HeadingOf, Spot, SectionHead, Preceding, IsHeading;
    hide Lines, Joined, OneLiners, ValidTitle, Strip, HeaderOf;
    var lines, e := Lines(text), plan[j];
    LinesAreOneLiners(text);
    var header;
    if Spot(lines, e.title).Some? {
      JoinersStandTogether(lines, plan, j, m, r);
      SpotFollowsContent(lines, e.title);
      header := lines[SectionHead(lines, e.title)];
      SectionIsHere(lines, e.title);
      SectionHeaderIsHeading(header, e.title);
    } else {
      OpenersStandTogether(lines, plan, j, m, r);
      header := HeaderOf(e.title);
      NewHeaderIsHeading(e.title);
    }
    var written, at, ahead := Lines(Joined(Folded(lines, plan))), WrittenRow(lines, plan, j, m, r),
                              Preceding(lines, plan, j, m, r);
    var before :| written[..at] == before + [header] + ahead;
    UnderHeaderIff(before, header, ahead);
  }

  lemma SectionIsHere(lines: seq<string>, title: string)
    requires HasUnreleased(lines) && Spot(lines, title).Some?
    ensures SectionHead(lines, title) < |lines| && Is(Section(title), lines[SectionHead(lines, title)])
  {
    hide Is, Find, HasUnreleased, Start, End;
  }

  lemma {:induction false} FindsFirst(lines: seq<string>, m: Mark, i: nat, end: nat, k: nat)
    requires i <= k < end <= |lines| && k < Find(lines, m, i, end)
    ensures !Is(m, lines[k])
    decreases k - i
  {
    hide Is;
    if i < k { FindsFirst(lines, m, i + 1, end, k); }
  }

  /** Fragments none of whose rows is a heading. */
  predicate PlainFragments(b: seq<string>) {
    forall k :: 0 <= k < |b| ==> HeadingFree(Lines(b[k]))
  }

  predicate PlainPlan(plan: seq<Entry>) {
    forall k :: 0 <= k < |plan| ==> PlainFragments(plan[k].body)
  }

  lemma {:induction false} PlainIsHeadingFree(b: seq<string>)
    requires PlainFragments(b)
    ensures HeadingFree(FlatLines(b))
    decreases |b|
  {
    hide IsHeading, Lines;
    if b != [] { PlainIsHeadingFree(b[..|b| - 1]); }
  }

  lemma {:induction false} JoiningIsPlain(lines: seq<string>, plan: seq<Entry>, i: nat)
    requires HasUnreleased(lines) && PlainPlan(plan) && i <= |lines|
    ensures PlainFragments(Joining(lines, plan)[i])
    decreases |plan|
  {
    hide HasUnreleased, Spot, HeadingFree, Lines;
    if plan != [] { JoiningIsPlain(lines, plan[..|plan| - 1], i); }
  }

  /** Headings that start their line, and fragments without any: then every row stands under its own header. */
  lemma {:induction false} FlushHeadingsSuffice(lines: seq<string>, plan: seq<Entry>, j: nat, m: nat, r: nat)
    requires HasUnreleased(lines) && j < |plan| && m < |plan[j].body| && r < |Lines(plan[j].body[m])|
    requires forall k :: Start(lines) < k < End(lines) && IsHeading(lines[k]) ==> Is(Heading, lines[k])
    requires PlainPlan(plan)
    ensures HeadingOf(Preceding(lines, plan, j, m, r)) == None
  {
    hide Is, IsHeading, HasUnreleased, Start, End, Find, Trim, HeadingOf, Lines, FlatLines;
    hide HeadingFree, PlainFragments, Joining, Spot;
    var e := plan[j];
    OwnRowsArePlain(e.body, m, r);
    var own := FlatLines(e.body[..m]) + Lines(e.body[m])[..r];
    if Spot(lines, e.title).Some? {
      var p, head := Spot(lines, e.title).value, SectionHead(lines, e.title);
      SectionIsFlush(lines, e.title);
      JoiningIsPlain(lines, plan[..j], p);
      PlainIsHeadingFree(Joining(lines, plan[..j])[p]);
      FreeConcat(lines[head + 1..p], FlatLines(Joining(lines, plan[..j])[p]));
      FreeConcat(lines[head + 1..p] + FlatLines(Joining(lines, plan[..j])[p]), own);
    }
    HeadingOfFree(Preceding(lines, plan, j, m, r));
  }

  lemma FreeConcat(a: seq<string>, b: seq<string>)
    requires HeadingFree(a) && HeadingFree(b)
    ensures HeadingFree(a + b)
  {
    hide IsHeading;
  }

  lemma OwnRowsArePlain(b: seq<string>, m: nat, r: nat)
    requires PlainFragments(b) && m < |b| && r <= |Lines(b[m])|
    ensures HeadingFree(FlatLines(b[..m]) + Lines(b[m])[..r])
  {
    hide IsHeading, Lines, FlatLines;
    PlainIsHeadingFree(b[..m]);
  }

  lemma {:induction false} SectionIsFlush(lines: seq<string>, title: string)
    requires HasUnreleased(lines) && Spot(lines, title).Some?
    requires forall k :: Start(lines) < k < End(lines) && IsHeading(lines[k]) ==> Is(Heading, lines[k])
    ensures SectionHead(lines, title) < Spot(lines, title).value
    ensures HeadingFree(lines[SectionHead(lines, title) + 1..Spot(lines, title).value])
  {
    hide Is, IsHeading, HasUnreleased, Start, End, Find, Trim;
    var p, head := Spot(lines, title).value, SectionHead(lines, title);
    SpotFollowsContent(lines, title);
    forall k: nat | head < k < p ensures !IsHeading(lines[k]) {
      FindsFirst(lines, Heading, head + 1, End(lines), k);
    }
  }

  // ---- the failing cases

  /** Any line that reads as a heading without being found as one takes the fragments of the section above it. */
  lemma {:induction false} UnseenHeadingTakesFragments(line: string)
    requires IsHeading(line) && !Is(Heading, line) && !Is(Release, line) && NEWLINE[0] !in line
    ensures var lines, plan := ["## [Unreleased]", "### Added", line], [Entry("Added", ["- a"])];
            && HasUnreleased(lines) && AllValid(plan)
            && Lines(Joined(Folded(lines, plan))) == lines + ["- a"]
            && HeadingOf(lines) == Some(Strip(line))
  {
    hide Is, IsHeading, Strip, Passes, Weave, Joining, Opening, HasUnreleased, Spot, BlockEnd;
    hide ValidTitle, Lines, Joined, FlatLines, Folded;
    var lines, e := ["## [Unreleased]", "### Added", line], Entry("Added", ["- a"]);
    HeadingsAreContent(line);
    PlacesOfExample(line);
    assert [e] == [] + [e];
    FoldedAtTheEnd(lines, e);
    FlatTextIsOneLine("## [Unreleased]");
    FlatTextIsOneLine("### Added");
    FlatTextIsOneLine(line);
    FlatTextIsOneLine("- a");
    LinesOfJoined(lines + ["- a"]);
    FlatOfOneLiners(lines + ["- a"]);
  }

  lemma HeadingsAreContent(line: string)
    requires IsHeading(line)
    ensures !Blank(line)
  {
    StripLeftFirst(line);
    StripKeepsFirst(StripLeft(line));
  }

  /** An entry that joins a section at the end of the changelog is appended. */
  lemma {:induction false} FoldedAtTheEnd(lines: seq<string>, e: Entry)
    requires HasUnreleased(lines) && BlockEnd(lines) == |lines| && Spot(lines, e.title) == Some(|lines|)
    ensures Folded(lines, [e]) == lines + e.body
  {
    hide Weave, Joining, Opening, HasUnreleased, Spot, BlockEnd;
    assert [e] == [] + [e];
    PlanGrows(lines, [], e);
    NothingPlanned(lines);
    WidenByNothing(Widen(NoGaps(|lines|), |lines|, e.body), |lines|);
    WeaveNothing(lines);
    LastGapIsBehind(lines, NoGaps(|lines|), e.body);
  }

  lemma PlacesOfExample(line: string)
    requires !Is(Heading, line) && !Is(Release, line) && !Blank(line)
    ensures var lines := ["## [Unreleased]", "### Added", line];
            HasUnreleased(lines) && Spot(lines, "Added") == Some(3) && BlockEnd(lines) == 3
    ensures Passes("- a") && ValidTitle("Added")
  {
    var lines := ["## [Unreleased]", "### Added", line];
    UnreleasedMark();
    AddedMark();
    BulletMark();
    hide Is, Strip, Blank, Passes;
    assert Find(lines, Unreleased, 0, 3) == 0;
    assert Find(lines, Release, 1, 3) == 3;
    assert Find(lines, Section("Added"), 0, 3) == 1;
    assert Find(lines, Heading, 2, 3) == 3;
  }

  lemma BulletMark()
    ensures Passes("- a") && Passes("- b") && ValidTitle("Added")
  {
    assert Last("- a") == 'a' && Last("- b") == 'b' && Last("Added") == 'd';
    hide Strip;
  }

  /** An indented section header, and an indented release header: both take the fragments of the section above. */
  lemma {:induction false} IndentedHeaderTakesFragments(header: string)
    requires header in {"### Fixed", "## 1.0"}
    ensures var lines, plan := ["## [Unreleased]", "### Added", " " + header], [Entry("Added", ["- a"])];
            && HasUnreleased(lines) && AllValid(plan)
            && Lines(Joined(Folded(lines, plan))) == lines + ["- a"]
            && HeadingOf(lines) == Some(header)
  {
    hide Is, IsHeading, Strip, Folded, HasUnreleased, Lines, Joined, HeadingOf, AllValid, IsSpace;
    assert Last("### Fixed") == 'd' && Last("## 1.0") == '0' && !IsSpace('d') && !IsSpace('0') by { SpaceOfExample(); }
    assert "## " <= "## 1.0" && "### " <= "### Fixed";
    assert NEWLINE[0] !in " " + header;
    IndentedMark(header);
    UnseenHeadingTakesFragments(" " + header);
  }

  lemma SpaceOfExample()
    ensures !IsSpace('d') && !IsSpace('0')
  {
  }

  lemma IndentedMark(header: string)
    requires header != [] && header[0] == '#' && !IsSpace(Last(header)) && ("## " <= header || "### " <= header)
    ensures var line := " " + header;
            IsHeading(line) && !Is(Heading, line) && !Is(Release, line) && Strip(line) == header
  {
    var line := " " + header;
    assert line[0] == ' ' && line[1..] == header && "## "[0] == '#' && "### "[0] == '#';
  }

  /** A heading inside a fragment takes the fragments behind it, those of the same entry included. */
  lemma {:induction false} InnerHeadingTakesFragments()
    ensures var lines, plan := ["## [Unreleased]"], [Entry("Added", ["- a\n### Fixed", "- b"])];
            && HasUnreleased(lines) && AllValid(plan)
            && Lines(Joined(Folded(lines, plan))) == ["## [Unreleased]", "", "### Added", "- a", "### Fixed", "- b"]
            && HeadingOf(["## [Unreleased]", "", "### Added", "- a", "### Fixed"]) == Some("### Fixed")
  {
    var lines, e := ["## [Unreleased]"], Entry("Added", ["- a\n### Fixed", "- b"]);
    UnreleasedMark();
    BulletMark();
    FlushMark();
    hide Is, Strip, Blank, Passes, IsHeading, ValidTitle, Folded, Lines, Joined, FlatLines;
    assert Find(lines, Unreleased, 0, 1) == 0;
    assert Find(lines, Section("Added"), 0, 1) == 1;
    FoldedAsNew(lines, e);
    assert HeaderOf("Added") == "### Added";
    assert NewSection(e) == ["", "### Added"] + e.body;
    assert lines + NewSection(e) == ["## [Unreleased]", "", "### Added"] + e.body;
    LinesOfJoined(lines + NewSection(e));
    LinesOfExample();
  }

  lemma FlushMark()
    ensures IsHeading("### Fixed") && Strip("### Fixed") == "### Fixed"
    ensures Passes("- a\n### Fixed")
  {
    assert Last("### Fixed") == 'd' && Last("- a\n### Fixed") == 'd';
    assert "### " <= "### Fixed";
  }

  lemma LinesOfExample()
    ensures FlatLines(["## [Unreleased]", "", "### Added"] + ["- a\n### Fixed", "- b"]) ==
            ["## [Unreleased]", "", "### Added", "- a", "### Fixed", "- b"]
  {
    hide Lines, FlatLines;
    var head := ["## [Unreleased]", "", "### Added"];
    FlatTextIsOneLine("## [Unreleased]");
    FlatTextIsOneLine("");
    FlatTextIsOneLine("### Added");
    FlatTextIsOneLine("- a");
    FlatTextIsOneLine("### Fixed");
    FlatTextIsOneLine("- b");
    FlatOfOneLiners(head);
    FlatOfOneLiners(["- b"]);
    LinesAround("- a", "### Fixed");
    assert "- a" + NEWLINE + "### Fixed" == "- a\n### Fixed";
    FlatStep(head, "- a\n### Fixed");
    FlatStep(head + ["- a\n### Fixed"], "- b");
    assert head + ["- a\n### Fixed"] + ["- b"] == head + ["- a\n### Fixed", "- b"];
  }

  /** An entry that opens a section at the end of the changelog is appended behind its header. */
  lemma {:induction false} FoldedAsNew(lines: seq<string>, e: Entry)
    requires HasUnreleased(lines) && BlockEnd(lines) == |lines| && Spot(lines, e.title) == None
    ensures Folded(lines, [e]) == lines + NewSection(e)
  {
    hide Weave, Joining, Opening, HasUnreleased, Spot, BlockEnd, NewSection;
    assert [e] == [] + [e];
    PlanGrows(lines, [], e);
    NothingPlanned(lines);
    assert [] + NewSection(e) == NewSection(e);
    WeaveNothing(lines);
    LastGapIsBehind(lines, NoGaps(|lines|), NewSection(e));
  }

  lemma NothingPlanned(lines: seq<string>)
    requires HasUnreleased(lines)
    ensures Joining(lines, []) == NoGaps(|lines|) && Opening(lines, []) == []
  {
  }

  lemma WidenByNothing<T>(gaps: seq<seq<T>>, p: nat)
    requires p < |gaps|
    ensures Widen(gaps, p, []) == gaps
  {
    assert gaps[p] + [] == gaps[p];
  }

  lemma LastGapIsBehind(lines: seq<string>, gaps: seq<seq<string>>, b: seq<string>)
    requires |gaps| == |lines| + 1
    ensures Weave(lines, Widen(gaps, |lines|, b)) == Weave(lines, gaps) + b
  {
    hide Weave;
    var w := Weave(lines, gaps);
    WeaveWidened(lines, gaps, |lines|, b);
    assert lines[..|lines|] == lines && gaps[..|lines| + 1] == gaps;
    assert w[..|w|] == w && w[|w|..] == [];
    assert Splice(w, |w|, b) == w + b;
  }

  lemma UnreleasedMark()
    ensures Is(Unreleased, "## [Unreleased]") && !Is(Section("Added"), "## [Unreleased]")
  {
    assert Last("## [Unreleased]") == ']';
    assert "## [Unreleased]"[2] == ' ' && HeaderOf("Added")[2] == '#';
  }

  lemma AddedMark()
    ensures Is(Section("Added"), "### Added") && !Is(Release, "### Added")
  {
    HeadersAreClean("Added");
    assert "### Added" == HeaderOf("Added") && Last("Added") == 'd';
  }

  // ------------------------------------------------------------ the text

  lemma {:induction false} JoinedAppend(a: seq<string>, b: seq<string>)
    requires a != [] && b != []
    ensures Joined(a + b) == Joined(a) + NEWLINE + Joined(b)
    decreases |a|
  {
    if |a| == 1 {
      assert (a + b)[1..] == b;
    } else {
      JoinedAppend(a[1..], b);
      assert (a + b)[1..] == a[1..] + b;
      Associate(a[0] + NEWLINE, Joined(a[1..]), NEWLINE + Joined(b));
      Associate(Joined(a[1..]), NEWLINE, Joined(b));
      Associate(a[0] + NEWLINE + Joined(a[1..]), NEWLINE, Joined(b));
    }
  }

  lemma {:induction false} JoinedBlocks(blocks: seq<string>, rest: string)
    ensures Joined(blocks + [rest]) == Delimited.Terminated(blocks, NEWLINE) + rest
    decreases |blocks|
  {
    if blocks == [] {
      assert blocks + [rest] == [rest];
    } else {
      JoinedBlocks(blocks[1..], rest);
      assert (blocks + [rest])[1..] == blocks[1..] + [rest];
    }
  }

  /** Splitting a text into lines and joining them gives the text. */
  lemma {:induction false} LinesJoinBack(text: string)
    ensures Joined(Lines(text)) == text
  {
    JoinedBlocks(Delimited.Blocks(text, NEWLINE), Delimited.Rest(text, NEWLINE));
    Delimited.Reassembles(text, NEWLINE);
  }

  predicate EndsWith(text: string, tail: string) {
    |tail| <= |text| && text[|text| - |tail|..] == tail
  }

  lemma JoinedKeepsHead(head: seq<string>, lines: seq<string>)
    requires head != [] && head <= lines
    ensures Joined(head) <= Joined(lines)
  {
    hide Joined;
    if |head| < |lines| {
      JoinedAppend(head, lines[|head|..]);
      assert head + lines[|head|..] == lines;
    } else {
      assert head == lines;
    }
  }

  lemma JoinedKeepsTail(lines: seq<string>, k: nat)
    requires 0 < k < |lines|
    ensures EndsWith(Joined(lines), NEWLINE + Joined(lines[k..]))
  {
    hide Joined;
    JoinedAppend(lines[..k], lines[k..]);
    assert lines[..k] + lines[k..] == lines;
    Associate(Joined(lines[..k]), NEWLINE, Joined(lines[k..]));
  }

  /** The text up to the unreleased header, and from the next release on, is kept character for character. */
  lemma {:induction false} TextOutsideUntouched(text: string, plan: seq<Entry>)
    requires HasUnreleased(Lines(text))
    ensures var lines := Lines(text);
            var result, before := Joined(Folded(lines, plan)), Joined(lines[..Start(lines) + 1]);
            && before <= text && before <= result
            && (End(lines) < |lines| ==>
                var behind := NEWLINE + Joined(lines[End(lines)..]);
                EndsWith(text, behind) && EndsWith(result, behind))
  {
    hide Joined, Lines, HasUnreleased, Start, End, Folded, EndsWith;
    var lines := Lines(text);
    LinesJoinBack(text);
    OutsideUntouched(lines, plan);
    JoinedKeepsHead(lines[..Start(lines) + 1], lines);
    JoinedKeepsHead(lines[..Start(lines) + 1], Folded(lines, plan));
    if End(lines) < |lines| {
      JoinedKeepsTail(lines, End(lines));
      JoinedKeepsTail(Folded(lines, plan), |Folded(lines, plan)| - (|lines| - End(lines)));
    }
  }

  // ------------------------------------------------------------ the preview

  /** What the dry run shows of one section. */
  function Shown(e: Entry): string {
    HeaderOf(e.title) + NEWLINE + Joined(e.body)
  }

  /** What the dry run shows. */
  function Render(plan: seq<Entry>): string {
    if plan == [] then ""
    else if |plan| == 1 then Shown(plan[0])
    else Render(plan[..|plan| - 1]) + NEWLINE + NEWLINE + Shown(Last(plan))
  }

  /** An unreleased block without content. */
  predicate NothingUnreleased(lines: seq<string>)
    requires HasUnreleased(lines)
  {
    forall k :: Start(lines) < k < End(lines) ==> Blank(lines[k])
  }

  lemma {:induction false} NothingToTrimTo(lines: seq<string>, floor: nat, i: nat)
    requires floor <= i <= |lines| && forall k :: floor <= k < i ==> Blank(lines[k])
    ensures Trim(lines, floor, i) == floor
  {
    hide Blank;
    if i > floor { NothingToTrimTo(lines, floor, i - 1); }
  }

  lemma SectionsAreContent(lines: seq<string>, title: string)
    requires HasUnreleased(lines)
    ensures Spot(lines, title).Some? ==>
              var head := SectionHead(lines, title);
              Start(lines) < head < End(lines) && !Blank(lines[head])
  {
    hide Is, Blank, HasUnreleased, Start, End, Find, Trim;
    if Spot(lines, title).Some? {
      SpotFollowsContent(lines, title);
      HeadersAreContent(lines[SectionHead(lines, title)], title);
    }
  }

  lemma {:induction false} AllAreNew(lines: seq<string>, plan: seq<Entry>)
    requires HasUnreleased(lines) && NothingUnreleased(lines)
    ensures BlockEnd(lines) == Start(lines) + 1
    ensures Joining(lines, plan) == NoGaps(|lines|)
    ensures Opening(lines, plan) == Added(lines, plan)
    decreases |plan|
  {
    hide Is, Blank, HasUnreleased, Start, End, Find, Trim, NewSection;
    NothingToTrimTo(lines, Start(lines) + 1, End(lines));
    if plan != [] {
      AllAreNew(lines, plan[..|plan| - 1]);
      SectionsAreContent(lines, Last(plan).title);
    }
  }

  lemma {:induction false} SectionText(e: Entry)
    requires e.body != []
    ensures NewSection(e) != [] && Joined(NewSection(e)) == NEWLINE + Shown(e)
  {
    hide Joined;
    JoinedAppend([""], [HeaderOf(e.title)] + e.body);
    JoinedAppend([HeaderOf(e.title)], e.body);
    assert [""] + ([HeaderOf(e.title)] + e.body) == NewSection(e);
    JoinedOne("");
    JoinedOne(HeaderOf(e.title));
  }

  lemma JoinedOne(line: string)
    ensures Joined([line]) == line
  {
  }

  lemma {:induction false} NewSectionsText(lines: seq<string>, plan: seq<Entry>)
    requires HasUnreleased(lines) && NothingUnreleased(lines) && AllValid(plan) && plan != []
    ensures Added(lines, plan) != [] && Joined(Added(lines, plan)) == NEWLINE + Render(plan)
    decreases |plan|
  {
    hide Joined, HasUnreleased, NothingUnreleased, ValidTitle, Passes, Spot, NewSection, Opening, Joining, BlockEnd;
    var before, e := plan[..|plan| - 1], Last(plan);
    AllAreNew(lines, plan);
    AllAreNew(lines, before);
    AllValidFront(plan);
    SectionText(e);
    PlanGrows(lines, before, e);
    FrontAndLast(plan);
    assert Added(lines, plan) == Added(lines, before) + NewSection(e);
    if |plan| == 1 {
      assert Added(lines, plan) == NewSection(e);
    } else {
      NewSectionsText(lines, before);
      JoinedAppend(Added(lines, before), NewSection(e));
    }
  }

  /**
   * On a block without content, what is written is what the dry run showed: a line
   * break and the rendered sections, right behind the header.
   */
  lemma {:induction false} PreviewIsWhatIsWritten(lines: seq<string>, plan: seq<Entry>)
    requires HasUnreleased(lines) && NothingUnreleased(lines) && AllValid(plan) && plan != []
    ensures var at := Start(lines) + 1;
            && Folded(lines, plan) == lines[..at] + Added(lines, plan) + lines[at..]
            && Joined(Added(lines, plan)) == NEWLINE + Render(plan)
  {
    hide Weave, Joined, HasUnreleased, NothingUnreleased, AllValid, Start, End, BlockEnd, Added;
    hide Render, Joining, Opening;
    var at := Start(lines) + 1;
    AllAreNew(lines, plan);
    NewSectionsText(lines, plan);
    FoldedIsSpliced(lines, plan);
    WeaveNothing(lines);
    WeaveNothing(lines[..at]);
    assert NoGaps<string>(|lines|)[..at + 1] == NoGaps(at);
  }
}
