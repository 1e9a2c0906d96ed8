/** When a second pass over the suppression ledger moves nothing, and when passes never stop moving. */
module LedgerSettling {
  import opened Prelude
  import opened Numerals
  import opened PythonText
  import opened LedgerAnchors

  // ------------------------------------------------------------ what a pass makes of a line

  function RowsOf(repo: Repository, md: seq<string>): map<nat, Placed>
    requires Rows(repo.anchor, md, |md|).Some?
  {
    Rows(repo.anchor, md, |md|).value
  }

  /** The markdown ledger a pass writes. */
  function Written(repo: Repository, entries: seq<Entry>, md: seq<string>): (r: seq<string>)
    requires Readable(repo, entries, md)
    ensures |r| == |md|
  {
    Patched(repo, RowsOf(repo, md), entries, md, |entries|)
  }

  lemma RowIsClean(anchor: Anchor, line: string)
    requires ParseRow(anchor, line).Some?
    ensures var fileline := ParseRow(anchor, line).value.fileline;
            BAR !in fileline && (fileline != [] ==> !IsSpace(fileline[0]))
  {
    hide Unbacktick, IsSpace, FindBar;
    var row := ParseRow(anchor, line).value;
    FindBarSkips(line, row.start);
    UnbacktickIsWithin(line[row.start..row.end]);
  }

  lemma FileLineIsBarFree(path: string, n: nat)
    ensures BAR !in path ==> BAR !in FileLine(path, n)
  {
    hide Decimal;
    assert forall c :: c in Decimal(n) ==> IsDigit(c);
  }

  /** A patch rewrites the row of its own alert, in its own file. */
  lemma {:induction false} PatchIsPlaced(repo: Repository, md: seq<string>, rows: map<nat, Placed>, e: Entry)
    requires HasSource(repo, e) && PatchOf(repo, rows, e).Some?
    requires AreRows(repo.anchor, md, |md|, rows)
    ensures var p := PatchOf(repo, rows, e).value;
            && p.index < |md| && ParseRow(repo.anchor, md[p.index]) == Some(p.row) && p.row.number == e.number
            && e.number in rows && rows[e.number] == Placed(p.index, p.row)
            && BAR !in p.content && FileOf(p.row.fileline) == e.path
            && Mirrors(repo, rows, e) && p.content == Expected(repo, e)
            && (e.path == "" || !IsSpace(e.path[0]))
  {
    hide Verdict, ParseRow, HasSource, FileLine, IsSpace;
    var p := PatchOf(repo, rows, e).value;
    RowIsClean(repo.anchor, md[p.index]);
    FileLineIsBarFree(e.path, Verdict(repo, e).line);
  }

  predicate Touches(repo: Repository, rows: map<nat, Placed>, e: Entry, i: nat)
    requires HasSource(repo, e)
  {
    PatchOf(repo, rows, e).Some? && PatchOf(repo, rows, e).value.index == i
  }

  /** One line rewritten for each of the first `n` entries whose row it is, one after the other. */
  function Rewritten(repo: Repository, rows: map<nat, Placed>, entries: seq<Entry>, line: string, i: nat,
                     n: nat): string
    requires n <= |entries| && HaveSources(repo, entries, n)
  {
    if n == 0 then line
    else
      var before := Rewritten(repo, rows, entries, line, i, n - 1);
      if Touches(repo, rows, entries[n - 1], i)
      then RewriteCell(before, PatchOf(repo, rows, entries[n - 1]).value.row,
                       PatchOf(repo, rows, entries[n - 1]).value.content)
      else before
  }

  lemma {:induction false} PatchedLine(repo: Repository, rows: map<nat, Placed>, entries: seq<Entry>, md: seq<string>,
                                       n: nat, i: nat)
    requires n <= |entries| && HaveSources(repo, entries, n) && i < |md|
    ensures Patched(repo, rows, entries, md, n)[i] == Rewritten(repo, rows, entries, md[i], i, n)
  {
    hide HasSource, PatchOf, RewriteCell;
    if n > 0 { PatchedLine(repo, rows, entries, md, n - 1, i); }
  }

  lemma {:induction false} UntouchedLine(repo: Repository, rows: map<nat, Placed>, entries: seq<Entry>, line: string,
                                         i: nat, n: nat)
    requires n <= |entries| && HaveSources(repo, entries, n)
    requires forall k :: 0 <= k < n ==> !Touches(repo, rows, entries[k], i)
    ensures Rewritten(repo, rows, entries, line, i, n) == line
  {
    hide HasSource, Touches, RewriteCell;
    if n > 0 { UntouchedLine(repo, rows, entries, line, i, n - 1); }
  }

  lemma {:induction false} TouchedOnce(repo: Repository, rows: map<nat, Placed>, entries: seq<Entry>, line: string,
                                       i: nat, n: nat, j: nat)
    requires j < n <= |entries| && HaveSources(repo, entries, n)
    requires Touches(repo, rows, entries[j], i)
    requires forall k :: 0 <= k < n && k != j ==> !Touches(repo, rows, entries[k], i)
    ensures var p := PatchOf(repo, rows, entries[j]).value;
            Rewritten(repo, rows, entries, line, i, n) == RewriteCell(line, p.row, p.content)
  {
    hide HasSource, PatchOf, RewriteCell;
    if j == n - 1 {
      UntouchedLine(repo, rows, entries, line, i, n - 1);
    } else {
      TouchedOnce(repo, rows, entries, line, i, n - 1, j);
    }
  }

  /** Who touches a line is an entry of that line's alert. */
  lemma RowOfTouched(repo: Repository, md: seq<string>, rows: map<nat, Placed>, e: Entry, i: nat)
    requires HasSource(repo, e) && AreRows(repo.anchor, md, |md|, rows) && i < |md|
    ensures Touches(repo, rows, e, i) ==>
              && ParseRow(repo.anchor, md[i]).Some? && ParseRow(repo.anchor, md[i]).value.number == e.number
              && PatchOf(repo, rows, e).value.row == ParseRow(repo.anchor, md[i]).value
  {
    hide HasSource, PatchOf, AreRows, ParseRow, FileOf, Mirrors, Expected;
    if Touches(repo, rows, e, i) { PatchIsPlaced(repo, md, rows, e); }
  }

  /** However often a line is rewritten, it keeps what stands in front of the place. */
  lemma {:induction false} RewrittenKeepsHead(repo: Repository, md: seq<string>, rows: map<nat, Placed>,
                                              entries: seq<Entry>, i: nat, n: nat)
    requires n <= |entries| && HaveSources(repo, entries, n) && i < |md|
    requires AreRows(repo.anchor, md, |md|, rows)
    ensures var now := Rewritten(repo, rows, entries, md[i], i, n);
            if ParseRow(repo.anchor, md[i]).None? then now == md[i]
            else var start := ParseRow(repo.anchor, md[i]).value.start; start <= |now| && now[..start] == md[i][..start]
  {
    hide HasSource, RewriteCell, PatchOf, AreRows, ParseRow;
    if n > 0 {
      RewrittenKeepsHead(repo, md, rows, entries, i, n - 1);
      RowOfTouched(repo, md, rows, entries[n - 1], i);
      var before := Rewritten(repo, rows, entries, md[i], i, n - 1);
      if Touches(repo, rows, entries[n - 1], i) {
        var p := PatchOf(repo, rows, entries[n - 1]).value;
        RewriteKeepsHead(before, p.row, p.content);
      }
    }
  }

  /** What becomes of a line: its alert and rule stay, or it is no row any more. */
  lemma {:induction false} LineStays(repo: Repository, entries: seq<Entry>, md: seq<string>, i: nat)
    requires Readable(repo, entries, md) && i < |md|
    ensures var was, now := ParseRow(repo.anchor, md[i]), ParseRow(repo.anchor, Written(repo, entries, md)[i]);
            && Written(repo, entries, md)[i] == Rewritten(repo, RowsOf(repo, md), entries, md[i], i, |entries|)
            && (now.Some? ==> was.Some? && now.value.number == was.value.number && now.value.rule == was.value.rule)
  {
    hide HasSource, Rewritten, Rows, AreRows, ParseRow, Patched;
    var rows := RowsOf(repo, md);
    RowsAre(repo.anchor, md, |md|);
    PatchedLine(repo, rows, entries, md, |entries|, i);
    RewrittenKeepsHead(repo, md, rows, entries, i, |entries|);
    if ParseRow(repo.anchor, md[i]).Some? {
      HeadDecides(repo.anchor, md[i], Written(repo, entries, md)[i]);
    }
  }

  /** Whatever a pass writes, the next pass can read. */
  lemma {:induction false} StaysReadable(repo: Repository, entries: seq<Entry>, md: seq<string>)
    requires Readable(repo, entries, md)
    ensures var after := Written(repo, entries, md);
            && NoNewAlerts(repo.anchor, md, after) && Rows(repo.anchor, after, |after|).Some?
            && RowsOf(repo, after).Keys <= RowsOf(repo, md).Keys
  {
    hide HasSource, Rows, Written, ParseRow;
    forall i: nat | i < |md|
      ensures ParseRow(repo.anchor, Written(repo, entries, md)[i]).Some? ==>
                && ParseRow(repo.anchor, md[i]).Some?
                && ParseRow(repo.anchor, md[i]).value.number ==
                   ParseRow(repo.anchor, Written(repo, entries, md)[i]).value.number
    {
      LineStays(repo, entries, md, i);
    }
    RowsSurvive(repo.anchor, md, Written(repo, entries, md), |md|);
  }

  /** The row of an alert after the pass: on its line, if that line still is a row. */
  lemma {:induction false} RowAfter(repo: Repository, entries: seq<Entry>, md: seq<string>, number: nat)
    requires Readable(repo, entries, md)
    ensures var rows, after := RowsOf(repo, md), Written(repo, entries, md);
            && Rows(repo.anchor, after, |after|).Some?
            && (number !in rows ==> number !in RowsOf(repo, after))
            && (number in rows ==>
                  var i := rows[number].index;
                  && i < |md| && ParseRow(repo.anchor, md[i]) == Some(rows[number].row)
                  && (var now := ParseRow(repo.anchor, after[i]);
                      if now.None? then number !in RowsOf(repo, after)
                      else number in RowsOf(repo, after) && RowsOf(repo, after)[number] == Placed(i, now.value)
                           && now.value.rule == rows[number].row.rule))
  {
    hide HasSource, Rows, Written, ParseRow;
    var rows, after := RowsOf(repo, md), Written(repo, entries, md);
    StaysReadable(repo, entries, md);
    RowsAre(repo.anchor, md, |md|);
    RowsAre(repo.anchor, after, |after|);
    if number in rows { LineStays(repo, entries, md, rows[number].index); }
  }

  // ------------------------------------------------------------ the exact condition

  /** Resolved, and mirrored by a row of the same file and rule. */
  predicate Mirrors(repo: Repository, rows: map<nat, Placed>, e: Entry)
    requires HasSource(repo, e)
  {
    Verdict(repo, e).At? && MirrorOf(rows, e).Mirrored?
  }

  /** The place a resolved entry derives. */
  function Expected(repo: Repository, e: Entry): string
    requires HasSource(repo, e) && Verdict(repo, e).At?
  {
    FileLine(e.path, Verdict(repo, e).line)
  }

  predicate ReadsAs(anchor: Anchor, line: string, fileline: string) {
    ParseRow(anchor, line).Some? && ParseRow(anchor, line).value.fileline == fileline
  }

  /**
   * The row that mirrors an entry, rewritten once for each entry of its alert, reads as the
   * place this entry derives.
   */
  ghost predicate Lands(repo: Repository, entries: seq<Entry>, md: seq<string>, k: nat)
    requires Readable(repo, entries, md) && k < |entries|
  {
    var rows, e := RowsOf(repo, md), entries[k];
    Mirrors(repo, rows, e) ==>
      var i := rows[e.number].index;
      i < |md| && ReadsAs(repo.anchor, Rewritten(repo, rows, entries, md[i], i, |entries|), Expected(repo, e))
  }

  function Unmoved(found: Findings): Findings {
    found.(moved := [])
  }

  /** Seen again after the pass, the entry has the same to say, and nothing to move. */
  ghost predicate EntrySettles(repo: Repository, entries: seq<Entry>, md: seq<string>, k: nat)
    requires Readable(repo, entries, md) && k < |entries|
  {
    var after, d := Written(repo, entries, md), Derived(repo, entries[k]);
    && Rows(repo.anchor, after, |after|).Some? && HasSource(repo, d)
    && Mentioned(repo, RowsOf(repo, after), d) == Unmoved(Mentioned(repo, RowsOf(repo, md), entries[k]))
  }

  /** The recorded line plays no part in anything but itself. */
  lemma LineIsDerived(repo: Repository, rows: map<nat, Placed>, e: Entry)
    requires HasSource(repo, e)
    ensures var d := Derived(repo, e);
            && HasSource(repo, d) && Verdict(repo, d) == Verdict(repo, e) && Derived(repo, d) == d
            && MirrorOf(rows, d) == MirrorOf(rows, e) && PatchOf(repo, rows, d) == PatchOf(repo, rows, e)
  {
    hide Choose, Occurrences, Blank, FileOf, FileLine;
  }

  /** What a settled entry is, without the derived line. */
  lemma MentionedAgain(repo: Repository, before: map<nat, Placed>, after: map<nat, Placed>, e: Entry)
    requires HasSource(repo, e)
    ensures HasSource(repo, Derived(repo, e))
    ensures Mentioned(repo, after, Derived(repo, e)) == Unmoved(Mentioned(repo, before, e)) <==>
            (Verdict(repo, e).At? ==>
               MirrorOf(after, e).Mirrored? == MirrorOf(before, e).Mirrored? && PatchOf(repo, after, e) == None)
    ensures MirrorOf(before, e).Mirrored? || !MirrorOf(after, e).Mirrored? ==>
              |Mentioned(repo, after, Derived(repo, e)).drift| >= |Mentioned(repo, before, e).drift|
    ensures (MirrorOf(before, e).Mirrored? || !MirrorOf(after, e).Mirrored?)
            && |Mentioned(repo, after, Derived(repo, e)).drift| == |Mentioned(repo, before, e).drift|
            && Mentioned(repo, after, Derived(repo, e)).moved == [] ==>
              Mentioned(repo, after, Derived(repo, e)) == Unmoved(Mentioned(repo, before, e))
  {
    hide Verdict, MirrorOf, PatchOf, Judged, HasSource;
    LineIsDerived(repo, before, e);
    LineIsDerived(repo, after, e);
    PatchNeedsLine(repo, after, e);
    var broken := Repeated(e.number, |Judged(repo, repo.cited(e.justification), e.path, Broken)|);
    assert |broken + []| != |broken + [e.number]|;
  }

  lemma PatchNeedsLine(repo: Repository, rows: map<nat, Placed>, e: Entry)
    requires HasSource(repo, e)
    ensures PatchOf(repo, rows, e).Some? <==>
            Mirrors(repo, rows, e) && e.number in rows && rows[e.number].row.fileline != Expected(repo, e)
    ensures MirrorOf(rows, e).Mirrored? <==>
            e.number in rows && FileOf(rows[e.number].row.fileline) == e.path && Some(rows[e.number].row.rule) == e.rule
    ensures MirrorOf(rows, e).Mirrored? ==> MirrorOf(rows, e) == Mirrored(rows[e.number].index, rows[e.number].row)
    ensures PatchOf(repo, rows, e).Some? ==>
              PatchOf(repo, rows, e).value == Patch(rows[e.number].index, rows[e.number].row, Expected(repo, e))
  {
    hide Verdict, FileOf, FileLine, HasSource;
  }

  /** An entry that settles is read back where it was put. */
  lemma {:induction false} SettledLands(repo: Repository, entries: seq<Entry>, md: seq<string>, k: nat)
    requires Readable(repo, entries, md) && k < |entries| && EntrySettles(repo, entries, md, k)
    ensures Lands(repo, entries, md, k)
  {
    hide Verdict, MirrorOf, PatchOf, HasSource, Rows, Written, ParseRow, Rewritten, Mentioned;
    hide Derived, FileOf, Expected;
    var rows, after, e := RowsOf(repo, md), Written(repo, entries, md), entries[k];
    RowAfter(repo, entries, md, e.number);
    MentionedAgain(repo, rows, RowsOf(repo, after), e);
    PatchNeedsLine(repo, rows, e);
    PatchNeedsLine(repo, RowsOf(repo, after), e);
    if Mirrors(repo, rows, e) { LineStays(repo, entries, md, rows[e.number].index); }
  }

  /** When all entries are read back where they were put, all settle. */
  lemma {:induction false} LandedSettles(repo: Repository, entries: seq<Entry>, md: seq<string>, k: nat)
    requires Readable(repo, entries, md) && k < |entries|
    requires forall j: nat :: j < |entries| ==> Lands(repo, entries, md, j)
    ensures EntrySettles(repo, entries, md, k)
  {
    hide Verdict, MirrorOf, PatchOf, HasSource, Rows, Written, ParseRow, Rewritten, Mentioned;
    hide Derived, FileOf, FileLine, Touches;
    var rows, after, e := RowsOf(repo, md), Written(repo, entries, md), entries[k];
    RowAfter(repo, entries, md, e.number);
    MentionedAgain(repo, rows, RowsOf(repo, after), e);
    PatchNeedsLine(repo, rows, e);
    PatchNeedsLine(repo, RowsOf(repo, after), e);
    if e.number in rows {
      var i := rows[e.number].index;
      LineStays(repo, entries, md, i);
      if Mirrors(repo, rows, e) {
        assert Lands(repo, entries, md, k);
        FileOfFileLine(e.path, Verdict(repo, e).line);
      } else if j: nat :| j < |entries| && Touches(repo, rows, entries[j], i) {
        FileStays(repo, entries, md, j, i);
      } else {
        UntouchedLine(repo, rows, entries, md[i], i, |entries|);
      }
    }
  }

  /** A line that reads as one of its entries put it still names the file it named. */
  lemma {:induction false} FileStays(repo: Repository, entries: seq<Entry>, md: seq<string>, j: nat, i: nat)
    requires Readable(repo, entries, md) && j < |entries| && i < |md|
    requires Lands(repo, entries, md, j) && Touches(repo, RowsOf(repo, md), entries[j], i)
    ensures var was, now := ParseRow(repo.anchor, md[i]), ParseRow(repo.anchor, Written(repo, entries, md)[i]);
            was.Some? && now.Some? && FileOf(now.value.fileline) == FileOf(was.value.fileline)
  {
    hide Verdict, MirrorOf, PatchOf, HasSource, Rows, Written, ParseRow, Rewritten, FileOf, FileLine, AreRows;
    var rows := RowsOf(repo, md);
    RowsAre(repo.anchor, md, |md|);
    PatchIsPlaced(repo, md, rows, entries[j]);
    LineStays(repo, entries, md, i);
    FileOfFileLine(entries[j].path, Verdict(repo, entries[j]).line);
  }

  /** For any ledger: every entry settles exactly when every mirrored entry's row, rewritten, reads as its place. */
  lemma {:induction false} AllSettleIff(repo: Repository, entries: seq<Entry>, md: seq<string>)
    requires Readable(repo, entries, md)
    ensures (forall k: nat :: k < |entries| ==> EntrySettles(repo, entries, md, k)) <==>
            (forall k: nat :: k < |entries| ==> Lands(repo, entries, md, k))
  {
    hide Lands, EntrySettles, Readable;
    if forall k: nat :: k < |entries| ==> Lands(repo, entries, md, k) {
      forall k: nat | k < |entries| ensures EntrySettles(repo, entries, md, k) { LandedSettles(repo, entries, md, k); }
    }
    if forall k: nat :: k < |entries| ==> EntrySettles(repo, entries, md, k) {
      forall k: nat | k < |entries| ensures Lands(repo, entries, md, k) { SettledLands(repo, entries, md, k); }
    }
  }
  // ------------------------------------------------------------ the second pass

  lemma {:induction false} DerivingSettles(repo: Repository, entries: seq<Entry>, n: nat)
    requires HaveSources(repo, entries, |entries|) && n <= |entries|
    ensures var derived := DerivedEntries(repo, entries, |entries|);
            && HaveSources(repo, derived, |derived|) && DerivedEntries(repo, derived, n) == derived
            && forall k: nat :: k < |entries| ==> derived[k] == Derived(repo, entries[k])
  {
    hide HasSource, Derived;
    var derived := DerivedEntries(repo, entries, |entries|);
    forall k: nat | k < |entries|
      ensures derived[k] == Derived(repo, entries[k]) && HasSource(repo, derived[k])
              && Derived(repo, derived[k]) == derived[k]
    {
      DerivedAt(repo, entries, |entries|, k);
      LineIsDerived(repo, map[], entries[k]);
    }
    if n > 0 { DerivingSettles(repo, entries, n - 1); }
  }

  /** The next pass can run on what a pass wrote. */
  lemma PassCanFollow(repo: Repository, entries: seq<Entry>, md: seq<string>)
    requires Readable(repo, entries, md)
    ensures var first := Pass(repo, entries, md, false);
            && first.md == Written(repo, entries, md) && |first.entries| == |entries|
            && Readable(repo, first.entries, first.md)
            && (forall k: nat :: k < |entries| ==>
                HasSource(repo, entries[k]) && first.entries[k] == Derived(repo, entries[k]))
  {
    hide HasSource, Rows, Patched, DerivedEntries, Derived, AllMentioned, NoNewAlerts;
    DerivingSettles(repo, entries, |entries|);
    StaysReadable(repo, entries, md);
  }

  lemma SettledHasNoPatch(repo: Repository, entries: seq<Entry>, md: seq<string>, k: nat)
    requires Readable(repo, entries, md) && k < |entries| && EntrySettles(repo, entries, md, k)
    ensures var after, d := Written(repo, entries, md), Derived(repo, entries[k]);
            Rows(repo.anchor, after, |after|).Some? && HasSource(repo, d)
                && PatchOf(repo, RowsOf(repo, after), d) == None
  {
    hide Verdict, MirrorOf, HasSource, Rows, Written, PatchOf, Mentioned;
    var after := Written(repo, entries, md);
    MentionedAgain(repo, RowsOf(repo, md), RowsOf(repo, after), entries[k]);
    LineIsDerived(repo, RowsOf(repo, after), entries[k]);
    PatchNeedsLine(repo, RowsOf(repo, after), entries[k]);
  }

  lemma {:induction false} FindingsSettle(repo: Repository, entries: seq<Entry>, md: seq<string>, n: nat)
    requires Readable(repo, entries, md) && n <= |entries|
    requires forall k: nat :: k < |entries| ==> EntrySettles(repo, entries, md, k)
    ensures var after, derived := Written(repo, entries, md), DerivedEntries(repo, entries, |entries|);
            && Readable(repo, derived, after) && |derived| == |entries|
            && DerivedEntries(repo, derived, n) == derived
            && Patched(repo, RowsOf(repo, after), derived, after, n) == after
            && AllMentioned(repo, RowsOf(repo, after), derived, n) ==
               Unmoved(AllMentioned(repo, RowsOf(repo, md), entries, n))
  {
    hide Rows, HasSource, Mentioned, Derived, PatchOf, RowsOf, DerivedEntries, Patched;
    hide AllMentioned, Written, NoNewAlerts;
    var after, derived := Written(repo, entries, md), DerivedEntries(repo, entries, |entries|);
    StaysReadable(repo, entries, md);
    DerivingSettles(repo, entries, n);
    NothingYet(repo, RowsOf(repo, md), entries, md);
    NothingYet(repo, RowsOf(repo, after), derived, after);
    if n > 0 {
      FindingsSettle(repo, entries, md, n - 1);
      SettledHasNoPatch(repo, entries, md, n - 1);
      assert EntrySettles(repo, entries, md, n - 1);
      MoreFindings(repo, RowsOf(repo, md), entries, md, n - 1);
      MoreFindings(repo, RowsOf(repo, after), derived, after, n - 1);
    }
  }

  /**
   * Rewriting settles where rows read back: then a second pass over what the first
   * one wrote moves nothing, writes back the same ledgers, and has the same to say of every entry.
   */
  lemma {:induction false} SecondPassMovesNothing(repo: Repository, entries: seq<Entry>, md: seq<string>)
    requires Readable(repo, entries, md)
    requires forall k: nat :: k < |entries| ==> Lands(repo, entries, md, k)
    ensures var first := Pass(repo, entries, md, false);
            && Readable(repo, first.entries, first.md)
            && Pass(repo, first.entries, first.md, false) == first.(found := Unmoved(first.found))
  {
    hide Rows, HasSource, Patched, DerivedEntries, AllMentioned, Lands, EntrySettles;
    AllSettleIff(repo, entries, md);
    FindingsSettle(repo, entries, md, |entries|);
  }

  // ------------------------------------------------------------ ledgers with one entry for each alert

  predicate OneForEachAlert(entries: seq<Entry>) {
    forall i, j :: 0 <= i < j < |entries| ==> entries[i].number != entries[j].number
  }

  predicate Unticked(e: Entry) {
    e.path == "" || e.path[0] != TICK
  }

  /** No entry touches the row of another. */
  lemma {:induction false} OthersElsewhere(repo: Repository, entries: seq<Entry>, md: seq<string>, j: nat)
    requires Readable(repo, entries, md) && OneForEachAlert(entries) && j < |entries|
             && entries[j].number in RowsOf(repo, md)
    ensures var i := RowsOf(repo, md)[entries[j].number].index;
            && i < |md| && ParseRow(repo.anchor, md[i]) == Some(RowsOf(repo, md)[entries[j].number].row)
            && forall k :: 0 <= k < |entries| && k != j ==> !Touches(repo, RowsOf(repo, md), entries[k], i)
  {
    hide Rows, HasSource, ParseRow, PatchOf, FileOf, Touches;
    var rows := RowsOf(repo, md);
    RowsAre(repo.anchor, md, |md|);
    var i := rows[entries[j].number].index;
    forall k | 0 <= k < |entries| && k != j ensures !Touches(repo, rows, entries[k], i) {
      RowOfTouched(repo, md, rows, entries[k], i);
    }
  }

  /** What a pass makes of the row of entry `j`: nothing, or what rewriting it once makes of it. */
  lemma {:induction false} OwnRowAfter(repo: Repository, entries: seq<Entry>, md: seq<string>, j: nat)
    requires Readable(repo, entries, md) && OneForEachAlert(entries) && j < |entries|
             && entries[j].number in RowsOf(repo, md)
    ensures var rows, e := RowsOf(repo, md), entries[j];
            var i, row := rows[e.number].index, rows[e.number].row;
            && i < |md| && row.end <= |md[i]| && row.start <= row.end
            && (var now := ParseRow(repo.anchor, Rewritten(repo, rows, entries, md[i], i, |entries|));
                && now.Some?
                && now.value.fileline ==
                   if PatchOf(repo, rows, e).None? then row.fileline
                   else Unbacktick(NewCell(md[i][row.start..row.end], Expected(repo, e))))
  {
    hide Rows, HasSource, ParseRow, PatchOf, FileOf, AreRows, Rewritten, RewriteCell, Unbacktick;
    hide NewCell, Verdict, MirrorOf, FileLine;
    var rows, e := RowsOf(repo, md), entries[j];
    var i := rows[e.number].index;
    OthersElsewhere(repo, entries, md, j);
    RowsAre(repo.anchor, md, |md|);
    PatchNeedsLine(repo, rows, e);
    if PatchOf(repo, rows, e).Some? {
      PatchIsPlaced(repo, md, rows, e);
      TouchedOnce(repo, rows, entries, md[i], i, |entries|, j);
      RowReadsBack(repo.anchor, md[i], Expected(repo, e));
    } else {
      UntouchedLine(repo, rows, entries, md[i], i, |entries|);
    }
  }

  /** Alone on its row, an entry is read back unless it is moved and its path opens with a backtick. */
  lemma {:induction false} LandsIffUnticked(repo: Repository, entries: seq<Entry>, md: seq<string>, j: nat)
    requires Readable(repo, entries, md) && OneForEachAlert(entries) && j < |entries|
    ensures Lands(repo, entries, md, j) <==>
            (PatchOf(repo, RowsOf(repo, md), entries[j]).Some? ==> Unticked(entries[j]))
  {
    hide Rows, HasSource, ParseRow, PatchOf, FileOf, AreRows, Rewritten, Unbacktick, NewCell;
    hide Verdict, MirrorOf, FileLine, IsSpace;
    var rows, e := RowsOf(repo, md), entries[j];
    PatchNeedsLine(repo, rows, e);
    if Mirrors(repo, rows, e) {
      OwnRowAfter(repo, entries, md, j);
      var i, row := rows[e.number].index, rows[e.number].row;
      if PatchOf(repo, rows, e).Some? {
        RowsAre(repo.anchor, md, |md|);
        PatchIsPlaced(repo, md, rows, e);
        PlaceReadsBackIff(md[i][row.start..row.end], e.path, Verdict(repo, e).line);
      }
    }
  }

  /** A pass leaves the same alerts on the same lines. */
  lemma {:induction false} AlertsStay(repo: Repository, entries: seq<Entry>, md: seq<string>)
    requires Readable(repo, entries, md) && OneForEachAlert(entries)
    ensures var after := Written(repo, entries, md);
            && SameAlerts(repo.anchor, md, after) && Rows(repo.anchor, after, |after|).Some?
            && RowsOf(repo, after).Keys == RowsOf(repo, md).Keys
            && forall number :: number in RowsOf(repo, md) ==>
               RowsOf(repo, after)[number].index == RowsOf(repo, md)[number].index
  {
    hide PatchOf, Rows, HasSource, ParseRow, Rewritten, Touches, Written, SameAlerts;
    SameLineAlerts(repo, entries, md);
    RowsFollow(repo.anchor, md, Written(repo, entries, md), |md|);
  }

  lemma {:induction false} SameLineAlerts(repo: Repository, entries: seq<Entry>, md: seq<string>)
    requires Readable(repo, entries, md) && OneForEachAlert(entries)
    ensures SameAlerts(repo.anchor, md, Written(repo, entries, md))
  {
    hide PatchOf, Rows, HasSource, ParseRow, Rewritten, Touches, Written;
    var rows := RowsOf(repo, md);
    forall i: nat | i < |md|
      ensures match ParseRow(repo.anchor, md[i])
              case None => ParseRow(repo.anchor, Written(repo, entries, md)[i]).None?
              case Some(row) =>
                ParseRow(repo.anchor, Written(repo, entries, md)[i]).Some?
                && ParseRow(repo.anchor, Written(repo, entries, md)[i]).value.number == row.number
    {
      LineStays(repo, entries, md, i);
      if j: nat :| j < |entries| && Touches(repo, rows, entries[j], i) {
        TouchedIsOwn(repo, entries, md, j, i);
        OwnRowAfter(repo, entries, md, j);
      } else {
        UntouchedLine(repo, rows, entries, md[i], i, |entries|);
      }
    }
  }

  lemma TouchedIsOwn(repo: Repository, entries: seq<Entry>, md: seq<string>, j: nat, i: nat)
    requires Readable(repo, entries, md) && j < |entries| && i < |md| && Touches(repo, RowsOf(repo, md), entries[j], i)
    ensures entries[j].number in RowsOf(repo, md) && RowsOf(repo, md)[entries[j].number].index == i
  {
    hide PatchOf, Rows, HasSource, ParseRow, Mirrors, Expected, FileOf;
    RowsAre(repo.anchor, md, |md|);
    PatchIsPlaced(repo, md, RowsOf(repo, md), entries[j]);
  }

  /** No row comes to mirror an entry it did not mirror. */
  lemma {:induction false} MirrorsStayAway(repo: Repository, entries: seq<Entry>, md: seq<string>, j: nat)
    requires Readable(repo, entries, md) && OneForEachAlert(entries) && j < |entries|
    ensures var after := Written(repo, entries, md);
            && Rows(repo.anchor, after, |after|).Some?
            && (MirrorOf(RowsOf(repo, md), entries[j]).Mirrored?
                || !MirrorOf(RowsOf(repo, after), entries[j]).Mirrored?)
  {
    hide Rows, HasSource, ParseRow, PatchOf, FileOf, Rewritten, Unbacktick, NewCell, Verdict;
    hide MirrorOf, FileLine, Written;
    var rows, e := RowsOf(repo, md), entries[j];
    RowAfter(repo, entries, md, e.number);
    PatchNeedsLine(repo, rows, e);
    PatchNeedsLine(repo, RowsOf(repo, Written(repo, entries, md)), e);
    if e.number in rows {
      OwnRowAfter(repo, entries, md, j);
      LineStays(repo, entries, md, rows[e.number].index);
    }
  }

  /**
   * The second pass finds at least the drift of the first, and more of it or something to
   * move if an entry does not settle.
   */
  lemma {:induction false} DriftGrows(repo: Repository, entries: seq<Entry>, md: seq<string>, n: nat)
    requires Readable(repo, entries, md) && OneForEachAlert(entries) && n <= |entries|
    ensures var after, derived := Written(repo, entries, md), DerivedEntries(repo, entries, |entries|);
            && Readable(repo, derived, after) && |derived| == |entries|
            && (var first := AllMentioned(repo, RowsOf(repo, md), entries, n);
                var second := AllMentioned(repo, RowsOf(repo, after), derived, n);
                && |second.drift| >= |first.drift|
                && (|second.drift| == |first.drift| && second.moved == [] ==>
                      forall k: nat :: k < n ==> EntrySettles(repo, entries, md, k)))
  {
    hide Rows, HasSource, Mentioned, Derived, PatchOf, RowsOf, DerivedEntries, Patched;
    hide AllMentioned, Written, NoNewAlerts, MirrorOf;
    var after, derived := Written(repo, entries, md), DerivedEntries(repo, entries, |entries|);
    StaysReadable(repo, entries, md);
    DerivingSettles(repo, entries, n);
    if n > 0 {
      DriftGrows(repo, entries, md, n - 1);
      MirrorsStayAway(repo, entries, md, n - 1);
      MentionedAgain(repo, RowsOf(repo, md), RowsOf(repo, after), entries[n - 1]);
      MoreFindings(repo, RowsOf(repo, md), entries, md, n - 1);
      MoreFindings(repo, RowsOf(repo, after), derived, after, n - 1);
    } else {
      NothingYet(repo, RowsOf(repo, md), entries, md);
      NothingYet(repo, RowsOf(repo, after), derived, after);
    }
  }

  /**
   * With one entry for each alert, a second pass repeats the first without its moves
   * exactly when no entry the first one moves in the markdown ledger has a path that
   * opens with a backtick.
   */
  lemma {:induction false} SecondPassIff(repo: Repository, entries: seq<Entry>, md: seq<string>)
    requires Readable(repo, entries, md) && OneForEachAlert(entries)
    ensures var first := Pass(repo, entries, md, false);
            && Readable(repo, first.entries, first.md)
            && (Pass(repo, first.entries, first.md, false) == first.(found := Unmoved(first.found)) <==>
                forall k: nat :: k < |entries| && PatchOf(repo, RowsOf(repo, md), entries[k]).Some? ==>
                    Unticked(entries[k]))
  {
    hide Rows, HasSource, Patched, DerivedEntries, AllMentioned, Lands, EntrySettles, PatchOf, Unticked, Mentioned;
    var first := Pass(repo, entries, md, false);
    PassCanFollow(repo, entries, md);
    forall k: nat | k < |entries|
      ensures Lands(repo, entries, md, k) <==>
              (PatchOf(repo, RowsOf(repo, md), entries[k]).Some? ==> Unticked(entries[k]))
    {
      LandsIffUnticked(repo, entries, md, k);
    }
    AllSettleIff(repo, entries, md);
    DriftGrows(repo, entries, md, |entries|);
    if forall k: nat :: k < |entries| ==> Lands(repo, entries, md, k) {
      SecondPassMovesNothing(repo, entries, md);
    }
  }
  // ------------------------------------------------------------ ledgers in which entries share an alert

  /** Two resolved entries mirrored by one row, on different lines, cannot both settle. */
  lemma {:induction false} SharersCannotBothSettle(repo: Repository, entries: seq<Entry>, md: seq<string>, j: nat,
                                                   k: nat)
    requires Readable(repo, entries, md) && j < |entries| && k < |entries| && entries[j].number == entries[k].number
    requires Mirrors(repo, RowsOf(repo, md), entries[j]) && Mirrors(repo, RowsOf(repo, md), entries[k])
    requires Verdict(repo, entries[j]).line != Verdict(repo, entries[k]).line
    ensures !EntrySettles(repo, entries, md, j) || !EntrySettles(repo, entries, md, k)
  {
    hide Verdict, MirrorOf, PatchOf, HasSource, Rows, ParseRow, Rewritten, EntrySettles, FileOf, FileLine;
    PatchNeedsLine(repo, RowsOf(repo, md), entries[j]);
    PatchNeedsLine(repo, RowsOf(repo, md), entries[k]);
    PlacesDiffer(entries[j].path, Verdict(repo, entries[j]).line, Verdict(repo, entries[k]).line);
    if EntrySettles(repo, entries, md, j) && EntrySettles(repo, entries, md, k) {
      SettledLands(repo, entries, md, j);
      SettledLands(repo, entries, md, k);
    }
  }

  lemma PlacesDiffer(path: string, a: nat, b: nat)
    requires a != b
    ensures FileLine(path, a) != FileLine(path, b)
  {
    hide Decimal;
    assert FileLine(path, a)[|path| + 1..] == Decimal(a) && FileLine(path, b)[|path| + 1..] == Decimal(b);
    if Decimal(a) == Decimal(b) { DecimalInjective(a, b); }
  }

  /** Writing the same place again into a cell it fits exactly changes nothing. */
  lemma {:induction false} SameWidthStays(line: string, row: Row, path: string, n: nat)
    requires row.start <= row.end <= |line| && (path == "" || (path[0] != TICK && !IsSpace(path[0])))
    requires |NewCell(line[row.start..row.end], FileLine(path, n))| == row.end - row.start
    ensures var once := RewriteCell(line, row, FileLine(path, n)); RewriteCell(once, row, FileLine(path, n)) == once
  {
    hide NewCell, FileLine;
    var content := FileLine(path, n);
    var before, cell, behind := line[..row.start], line[row.start..row.end], line[row.end..];
    assert line == before + cell + behind;
    RewriteParts(before, cell, behind, row, content);
    NewCellAgain(cell, path, n);
    RewriteParts(before, NewCell(cell, content), behind, row, content);
  }

  /** A cell keeps its backticks, or the lack of them, when it is written a second time. */
  lemma {:induction false} NewCellAgain(cell: string, path: string, n: nat)
    requires path == "" || (path[0] != TICK && !IsSpace(path[0]))
    ensures var content := FileLine(path, n); NewCell(NewCell(cell, content), content) == NewCell(cell, content)
  {
    hide Strip, Decimal, IsSpace;
    var content, digits := FileLine(path, n), Decimal(n);
    assert Last(content) == Last(digits) && IsDigit(Last(digits));
    DigitsAreNoBlanks(Last(digits));
    assert content[0] == if path == "" then ':' else path[0];
    TickIsNoBlank();
    var ticked := "`" + content + "`";
    PaddedStrips(content);
    PaddedStrips(ticked);
    assert " `" + content + "` " == " " + ticked + " ";
  }

  lemma TickIsNoBlank()
    ensures !IsSpace(TICK)
  {
  }

  /** A line rewritten with one place throughout, which fits its cell, is as if rewritten once. */
  lemma {:induction false} RewrittenAlike(repo: Repository, rows: map<nat, Placed>, entries: seq<Entry>, line: string,
                                          i: nat, n: nat, row: Row, content: string)
    requires n <= |entries| && HaveSources(repo, entries, n)
    requires forall k :: 0 <= k < n && Touches(repo, rows, entries[k], i) ==>
               PatchOf(repo, rows, entries[k]) == Some(Patch(i, row, content))
    requires var once := RewriteCell(line, row, content); RewriteCell(once, row, content) == once
    ensures var now := Rewritten(repo, rows, entries, line, i, n);
            if exists k :: 0 <= k < n && Touches(repo, rows, entries[k], i) then now == RewriteCell(line, row, content)
            else now == line
  {
    hide HasSource, Touches, PatchOf, RewriteCell;
    if n > 0 { RewrittenAlike(repo, rows, entries, line, i, n - 1, row, content); }
  }

  /**
   * Entries that share an alert and agree on the line settle where the new cell is as
   * wide as the old one, however many of them write it.
   */
  lemma {:induction false} AgreeingSharersLand(repo: Repository, entries: seq<Entry>, md: seq<string>, k: nat)
    requires Readable(repo, entries, md) && k < |entries| && Mirrors(repo, RowsOf(repo, md), entries[k])
    requires Unticked(entries[k])
    requires forall j :: 0 <= j < |entries| && entries[j].number == entries[k].number
                         && Mirrors(repo, RowsOf(repo, md), entries[j]) ==>
               Verdict(repo, entries[j]).line == Verdict(repo, entries[k]).line
    requires var p := RowsOf(repo, md)[entries[k].number];
             p.index < |md| && p.row.start <= p.row.end <= |md[p.index]| &&
             |NewCell(md[p.index][p.row.start..p.row.end], Expected(repo, entries[k]))| == p.row.end - p.row.start
    ensures Lands(repo, entries, md, k)
  {
    hide Verdict, MirrorOf, PatchOf, HasSource, Rows, ParseRow, Rewritten, FileOf, FileLine;
    hide AreRows, NewCell, RewriteCell;
    hide Unbacktick, IsSpace;
    var rows, e := RowsOf(repo, md), entries[k];
    PatchNeedsLine(repo, rows, e);
    RowsAre(repo.anchor, md, |md|);
    OwnRowIs(repo, md, rows, e);
    var i, row, content := rows[e.number].index, rows[e.number].row, Expected(repo, e);
    forall j: nat | j < |entries| && Touches(repo, rows, entries[j], i)
      ensures PatchOf(repo, rows, entries[j]) == Some(Patch(i, row, content))
    {
      RowOfTouched(repo, md, rows, entries[j], i);
      PatchNeedsLine(repo, rows, entries[j]);
    }
    SameWidthStays(md[i], row, e.path, Verdict(repo, e).line);
    RewrittenAlike(repo, rows, entries, md[i], i, |entries|, row, content);
    RowReadsBack(repo.anchor, md[i], content);
    PlaceReadsBackIff(md[i][row.start..row.end], e.path, Verdict(repo, e).line);
    if PatchOf(repo, rows, e).Some? { assert Touches(repo, rows, e, i); }
  }

  /** The row that mirrors an entry, as it was read. */
  lemma OwnRowIs(repo: Repository, md: seq<string>, rows: map<nat, Placed>, e: Entry)
    requires HasSource(repo, e) && AreRows(repo.anchor, md, |md|, rows) && Mirrors(repo, rows, e)
    ensures e.number in rows && rows[e.number].index < |md|
    ensures var p := rows[e.number];
            && ParseRow(repo.anchor, md[p.index]) == Some(p.row) && 0 < p.row.start <= p.row.end < |md[p.index]|
            && FileOf(p.row.fileline) == e.path && p.row.number == e.number && BAR !in Expected(repo, e)
            && (e.path != "" ==> !IsSpace(e.path[0]))
  {
    hide Verdict, ParseRow, HasSource, FileLine, IsSpace;
    RowIsClean(repo.anchor, md[rows[e.number].index]);
    FileLineIsBarFree(e.path, Verdict(repo, e).line);
  }

  /**
   * Entries `j` and `k`, and no other, share an alert; they resolve to different lines, and
   * the row stands at that of `j`.
   */
  ghost predicate Quarrel(repo: Repository, entries: seq<Entry>, md: seq<string>, j: nat, k: nat) {
    && Readable(repo, entries, md) && j < |entries| && k < |entries| && j != k
    && entries[j].number == entries[k].number
    && (forall i :: 0 <= i < |entries| && i != j && i != k ==> entries[i].number != entries[j].number)
    && Mirrors(repo, RowsOf(repo, md), entries[j]) && Mirrors(repo, RowsOf(repo, md), entries[k])
    && Verdict(repo, entries[j]).line != Verdict(repo, entries[k]).line
    && Unticked(entries[j])
    && RowsOf(repo, md)[entries[j].number].row.fileline == Expected(repo, entries[j])
  }

  /** The row of two quarrelling entries after a pass: it stands where the other one wants it. */
  lemma {:induction false} QuarrelRow(repo: Repository, entries: seq<Entry>, md: seq<string>, j: nat, k: nat)
    requires Quarrel(repo, entries, md, j, k)
    ensures var number, after := entries[j].number, Written(repo, entries, md);
            && Rows(repo.anchor, after, |after|).Some?
            && number in RowsOf(repo, md) && number in RowsOf(repo, after)
            && RowsOf(repo, after)[number].row.fileline == Expected(repo, entries[k])
            && RowsOf(repo, after)[number].row.rule == RowsOf(repo, md)[number].row.rule
            && after != md && entries[k].path == entries[j].path
  {
    hide Verdict, MirrorOf, PatchOf, HasSource, Rows, ParseRow, Rewritten, FileOf, FileLine;
    hide AreRows, Written, NewCell, Unbacktick, RewriteCell, IsSpace;
    var rows, a, b := RowsOf(repo, md), entries[j], entries[k];
    RowAfter(repo, entries, md, a.number);
    PatchNeedsLine(repo, rows, a);
    PatchNeedsLine(repo, rows, b);
    PlacesDiffer(a.path, Verdict(repo, a).line, Verdict(repo, b).line);
    RowsAre(repo.anchor, md, |md|);
    PatchIsPlaced(repo, md, rows, b);
    var i, row := rows[a.number].index, rows[a.number].row;
    forall h | 0 <= h < |entries| && h != k ensures !Touches(repo, rows, entries[h], i) {
      RowOfTouched(repo, md, rows, entries[h], i);
    }
    LineStays(repo, entries, md, i);
    TouchedOnce(repo, rows, entries, md[i], i, |entries|, k);
    RowReadsBack(repo.anchor, md[i], Expected(repo, b));
    PlaceReadsBackIff(md[i][row.start..row.end], b.path, Verdict(repo, b).line);
  }

  /** A pass turns the quarrel round. */
  lemma {:induction false} QuarrelGoesOn(repo: Repository, entries: seq<Entry>, md: seq<string>, j: nat, k: nat)
    requires Quarrel(repo, entries, md, j, k)
    ensures var first := Pass(repo, entries, md, false); first.md != md && Quarrel(repo, first.entries, first.md, k, j)
  {
    hide Verdict, MirrorOf, PatchOf, HasSource, Rows, FileOf, FileLine, Written, Derived, Pass;
    var first, a, b := Pass(repo, entries, md, false), entries[j], entries[k];
    PassCanFollow(repo, entries, md);
    QuarrelRow(repo, entries, md, j, k);
    var rows, after := RowsOf(repo, md), RowsOf(repo, first.md);
    forall i: nat | i < |entries|
      ensures first.entries[i].number == entries[i].number && first.entries[i].path == entries[i].path
    {
      DerivedKeeps(repo, entries[i]);
    }
    LineIsDerived(repo, after, a);
    LineIsDerived(repo, after, b);
    PatchNeedsLine(repo, rows, a);
    PatchNeedsLine(repo, rows, b);
    PatchNeedsLine(repo, after, a);
    PatchNeedsLine(repo, after, b);
    FileOfFileLine(b.path, Verdict(repo, b).line);
  }

  lemma DerivedKeeps(repo: Repository, e: Entry)
    requires HasSource(repo, e)
    ensures Derived(repo, e).number == e.number && Derived(repo, e).path == e.path
  {
    hide Verdict, HasSource;
  }

  /** The two ledgers after `t` passes. */
  ghost function After(repo: Repository, entries: seq<Entry>, md: seq<string>, t: nat): (seq<Entry>, seq<string>)
    decreases t
  {
    if t == 0 || !Readable(repo, entries, md) then (entries, md)
    else
      var r := Pass(repo, entries, md, false);
      After(repo, r.entries, r.md, t - 1)
  }

  /** Two entries that share an alert and a row, on different lines: no number of passes ever settles. */
  lemma {:induction false} SharersNeverSettle(repo: Repository, entries: seq<Entry>, md: seq<string>, j: nat, k: nat,
                                              t: nat)
    requires Quarrel(repo, entries, md, j, k)
    ensures var (now, nowMd) := After(repo, entries, md, t);
            Readable(repo, now, nowMd) && Pass(repo, now, nowMd, false).md != nowMd
    decreases t
  {
    hide Quarrel, Readable, Pass;
    QuarrelIsReadable(repo, entries, md, j, k);
    QuarrelGoesOn(repo, entries, md, j, k);
    if t > 0 {
      var first := Pass(repo, entries, md, false);
      SharersNeverSettle(repo, first.entries, first.md, k, j, t - 1);
    }
  }

  lemma QuarrelIsReadable(repo: Repository, entries: seq<Entry>, md: seq<string>, j: nat, k: nat)
    requires Quarrel(repo, entries, md, j, k)
    ensures Readable(repo, entries, md)
  {
  }

  // ------------------------------------------------------------ two concrete ledgers

  const EXAMPLE: Repository :=
    Repository(map["p" := ["s", "t"]], (line: string) => None, AlertOf, (text: string) => [],
               (a: string, b: string) => [], map[])

  const FIRST_LINE := Entry(7, "p", Some("r"), Some(1), Some("s"), Absent, "")
  const SECOND_LINE := Entry(7, "p", Some("r"), Some(2), Some("t"), Absent, "")

  lemma OneLetterStrips(s: string)
    requires |s| == 1 && !IsSpace(s[0])
    ensures Strip(s) == s && !Blank(s)
  {
  }

  lemma VerdictsOfExample()
    ensures HasSource(EXAMPLE, FIRST_LINE) && Verdict(EXAMPLE, FIRST_LINE) == At(1, false)
    ensures HasSource(EXAMPLE, SECOND_LINE) && Verdict(EXAMPLE, SECOND_LINE) == At(2, false)
  {
    OneLetterStrips("s");
    OneLetterStrips("t");
    hide Strip, Blank;
    var lines := ["s", "t"];
    assert "s" != "t";
    OneMoreLine(lines, "s", 1);
    OneMoreLine(lines, "s", 2);
    OneMoreLine(lines, "t", 1);
    OneMoreLine(lines, "t", 2);
    assert Occurrences(lines, "s", 0) == [] && Occurrences(lines, "t", 0) == [];
    assert Occurrences(lines, "s", 2) == [1] && Occurrences(lines, "t", 2) == [2];
    assert EXAMPLE.sources["p"] == lines;
  }

  const CELL := OPENING + "7" + CLOSING

  /** What the rows of the examples open with: the anchor of their alert, and the rule. */
  const HEAD := "|" + CELL + "|r|"

  lemma HeadOfExample()
    ensures AlertOf(CELL) == Some(7) && BAR !in CELL && |CELL| == 20
    ensures HEAD == "|" + CELL + "|r|" && |HEAD| == 24
  {
    hide AlertOf, Decimal;
    AlertReads(7, "");
    assert OPENING + Decimal(7) + CLOSING + "" == CELL by { Seven(); }
    PiecesOfCell();
  }

  lemma Seven()
    ensures Decimal(7) == "7"
  {
  }

  lemma PiecesOfCell()
    ensures |OPENING| == 13 && BAR !in OPENING && |CLOSING| == 6 && BAR !in CLOSING
  {
  }

  lemma BarsOfExample(more: string)
    ensures FindBar(HEAD + more, 1) == 21 && FindBar(HEAD + more, 22) == 23 && HEAD[1..21] == CELL
            && HEAD[22..23] == "r"
    ensures HEAD[0] == BAR && Last(HEAD) == BAR
  {
    hide FindBar, HEAD, CELL;
    HeadOfExample();
    var line := HEAD + more;
    assert HEAD[1..21] == CELL && line[1..21] == CELL && line[21] == BAR;
    assert HEAD[22..23] == "r" && line[22..23] == "r" && line[23] == BAR && "r"[0] == 'r';
    FindBarIs(line, 1, 21);
    FindBarIs(line, 22, 23);
  }

  /** The row of the examples with the given place in it. */
  lemma RowOfExample(cell: string, behind: string)
    requires BAR !in cell && behind != [] && behind[0] == BAR
    ensures ParseRow(AlertOf, HEAD + cell + behind) == Some(Row(7, "r", Unbacktick(cell), 24, 24 + |cell|))
  {
    hide Unbacktick, FindBar, HEAD, CELL, AlertOf;
    HeadOfExample();
    BarsOfExample("");
    assert HEAD + "" == HEAD;
    RowOfParts(AlertOf, HEAD, cell, behind, 21);
    BareReadsBack("r");
  }

  lemma BareReadsBack(s: string)
    requires Bare(s)
    ensures Unbacktick(s) == s
  {
    hide Strip, TicksLeft, TicksRight;
    PaddedStrips(s);
    TickedUnticks(s);
  }

  lemma RowsOfOneLine(anchor: Anchor, line: string)
    requires ParseRow(anchor, line).Some?
    ensures var row := ParseRow(anchor, line).value;
            Rows(anchor, [line], 1) == Some(map[row.number := Placed(0, row)])
  {
    hide ParseRow;
    NoRowsYet(anchor, [line]);
    MoreRows(anchor, [line], 0);
  }

  /** Two entries of one alert, one row: a ledger that no number of passes settles. */
  lemma {:induction false} QuarrelOfExample()
    ensures Quarrel(EXAMPLE, [FIRST_LINE, SECOND_LINE], ["|<a id=\"alert-7\"></a>|r|p:1|"], 0, 1)
  {
    hide Unbacktick, ParseRow, Verdict, HasSource, Rows, FileOf, IsSpace, AlertOf;
    VerdictsOfExample();
    RowOfExample("p:1", "|");
    PlaceOfExample(1, "p:1");
    RowsOfOneLine(AlertOf, HEAD + "p:1" + "|");
    assert HEAD + "p:1" + "|" == "|<a id=\"alert-7\"></a>|r|p:1|";
    assert EXAMPLE.anchor == AlertOf;
  }

  lemma PlaceOfExample(n: nat, place: string)
    requires place == "p:" + Decimal(n)
    ensures place == FileLine("p", n) && FileOf(place) == "p" && Unbacktick(place) == place && Bare(place)
  {
    hide Decimal, Unbacktick;
    FileOfFileLine("p", n);
    assert "p" + ":" == "p:";
    assert Last(place) == Last(Decimal(n)) && IsDigit(Last(Decimal(n)));
    BareReadsBack(place);
  }

  lemma RewritesOfExample()
    ensures var row := Row(7, "r", "p:22222", 24, 31);
            && RewriteCell(HEAD + "p:22222" + "|x", row, "p:1") == HEAD + " p:1 " + "|x"
            && RewriteCell(HEAD + " p:1 " + "|x", row, "p:1") == HEAD + " p:1 "
  {
    hide NewCell, RewriteCell, HEAD;
    HeadOfExample();
    var row := Row(7, "r", "p:22222", 24, 31);
    CellOfExample("p:22222");
    CellOfExample(" p:1 |x");
    RewriteParts(HEAD, "p:22222", "|x", row, "p:1");
    RewriteParts(HEAD, " p:1 |x", "", row, "p:1");
    assert HEAD + " p:1 |x" + "" == HEAD + " p:1 " + "|x" && HEAD + " p:1 " + "" == HEAD + " p:1 ";
  }

  lemma RewriteParts(before: string, cell: string, behind: string, row: Row, content: string)
    requires row.start == |before| && row.end == |before| + |cell|
    ensures RewriteCell(before + cell + behind, row, content) == before + NewCell(cell, content) + behind
  {
    hide NewCell;
    var line := before + cell + behind;
    assert line[row.start..row.end] == cell && line[..row.start] == before && line[row.end..] == behind;
  }

  lemma CellOfExample(cell: string)
    requires cell == "p:22222" || cell == " p:1 |x"
    ensures NewCell(cell, "p:1") == " p:1 "
  {
    assert " p:1 |x"[1..] == "p:1 |x";
    StripKeepsFirst("p:22222");
    StripKeepsFirst("p:1 |x");
    assert StripLeft(" p:1 |x") == StripLeft("p:1 |x");
    assert Strip(cell)[0] == 'p';
  }

  lemma NoRowOfExample(anchor: Anchor)
    ensures ParseRow(anchor, HEAD + " p:1 ") == None
  {
    hide FindBar, HEAD;
    HeadOfExample();
    var line := HEAD + " p:1 ";
    assert line[24..29] == " p:1 ";
    BarsOfExample(" p:1 ");
    FindBarIs(line, 24, 29);
  }

  lemma PatchOfExample()
    ensures var md, row := [HEAD + "p:22222" + "|x"], Row(7, "r", "p:22222", 24, 31);
            && Rows(EXAMPLE.anchor, md, 1) == Some(map[7 := Placed(0, row)])
            && HasSource(EXAMPLE, FIRST_LINE) && Mirrors(EXAMPLE, map[7 := Placed(0, row)], FIRST_LINE)
            && PatchOf(EXAMPLE, map[7 := Placed(0, row)], FIRST_LINE) == Some(Patch(0, row, "p:1"))
  {
    hide Unbacktick, ParseRow, Verdict, HasSource, Rows, FileOf, FileLine, IsSpace, AlertOf, HEAD;
    VerdictsOfExample();
    RowOfExample("p:22222", "|x");
    BareOfExample();
    BareReadsBack("p:22222");
    PlaceOfExample(1, "p:1");
    RowsOfOneLine(AlertOf, HEAD + "p:22222" + "|x");
  }

  lemma BareOfExample()
    ensures Bare("p:22222") && FileOf("p:22222") == "p"
  {
    LastColonBefore("p", "22222");
    assert "p" + ":" + "22222" == "p:22222";
    assert Last("p:22222") == '2';
  }

  /**
   * Two entries that agree in everything: the second write uses the span read before
   * the first, and swallows the rest of the row. The next pass finds no row.
   */
  lemma {:induction false} StaleSpanSwallowsTheRow()
    ensures var entries, md := [FIRST_LINE, FIRST_LINE], ["|<a id=\"alert-7\"></a>|r|p:22222|x"];
            && Readable(EXAMPLE, entries, md)
            && Written(EXAMPLE, entries, md) == ["|<a id=\"alert-7\"></a>|r| p:1 "]
            && ParseRow(EXAMPLE.anchor, "|<a id=\"alert-7\"></a>|r| p:1 ") == None
            && !Lands(EXAMPLE, entries, md, 0) && !Lands(EXAMPLE, entries, md, 1)
  {
    SwallowedLines();
    hide ParseRow, HasSource, Rows, RewriteCell, PatchOf, Mirrors, AllMentioned, NoNewAlerts, Verdict, Expected, HEAD;
    var entries, md := [FIRST_LINE, FIRST_LINE], [HEAD + "p:22222" + "|x"];
    var rows := map[7 := Placed(0, Row(7, "r", "p:22222", 24, 31))];
    PatchOfExample();
    RewritesOfExample();
    NoRowOfExample(EXAMPLE.anchor);
    assert HaveSources(EXAMPLE, entries, 2);
    MoreFindings(EXAMPLE, rows, entries, md, 0);
    MoreFindings(EXAMPLE, rows, entries, md, 1);
    LineStays(EXAMPLE, entries, md, 0);
  }

  lemma SwallowedLines()
    ensures HEAD + "p:22222" + "|x" == "|<a id=\"alert-7\"></a>|r|p:22222|x"
    ensures HEAD + " p:1 " == "|<a id=\"alert-7\"></a>|r| p:1 "
  {
  }
}
