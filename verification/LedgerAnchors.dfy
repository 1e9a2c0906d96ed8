/** Anchoring the entries of the suppression ledger by content, and rederiving their positions. */
module LedgerAnchors {
  import opened Prelude
  import opened Numerals
  import opened PythonText

  /** The name a line gives to a function, if it is a function header. */
  type Header = string -> Option<string>

  datatype Disambiguator = Absent | Malformed | Named(kind: string, value: string)
  {
    /** Not missing and well formed: it names an enclosing function. */
    predicate Shaped() {
      Named? && value != "" && kind == "function"
    }
  }

  datatype Entry = Entry(
    number: nat,
    path: string,
    rule: Option<string>,
    line: Option<int>,
    snippet: Option<string>,
    disambiguator: Disambiguator,
    justification: string)

  // ------------------------------------------------------------ finding the statement

  /** The one-based numbers of the first `n` lines that hold the snippet, indentation aside. */
  function Occurrences(lines: seq<string>, snippet: string, n: nat): seq<nat>
    requires n <= |lines|
  {
    if n == 0 then []
    else
      var before := Occurrences(lines, snippet, n - 1);
      if Strip(lines[n - 1]) == snippet then before + [n] else before
  }

  /** The nearest function header at or above line `n`. */
  function Enclosing(lines: seq<string>, header: Header, n: nat): Option<string>
    requires n <= |lines|
  {
    if n == 0 then None
    else if header(lines[n - 1]).Some? then header(lines[n - 1])
    else Enclosing(lines, header, n - 1)
  }

  /** The candidates inside the function of that name. */
  function Inside(lines: seq<string>, header: Header, candidates: seq<nat>, name: string): seq<nat> {
    if candidates == [] then []
    else
      var c, before := Last(candidates), Inside(lines, header, candidates[..|candidates| - 1], name);
      if Enclosing(lines, header, Min(c, |lines|)) == Some(name) then before + [c] else before
  }

  /** What content says of an entry: not resolvable, gone, or at a line. */
  datatype Resolution = Unresolvable | Gone | At(line: nat, stale: bool)

  function Resolve(lines: seq<string>, header: Header, e: Entry): Resolution {
    if e.snippet.None? || Blank(e.snippet.value) then Unresolvable
    else Choose(lines, header, Occurrences(lines, e.snippet.value, |lines|), e.disambiguator)
  }

  function Choose(lines: seq<string>, header: Header, candidates: seq<nat>, d: Disambiguator): Resolution {
    if candidates == [] then Gone
    else if |candidates| > 1 then
      if !d.Shaped() then Unresolvable
      else
        var filtered := Inside(lines, header, candidates, d.value);
        if filtered == [] then Gone else if |filtered| > 1 then Unresolvable else At(filtered[0], false)
    else if d.Absent? then At(candidates[0], false)
    else if !d.Shaped() then Unresolvable
    else At(candidates[0], Inside(lines, header, candidates, d.value) == [])
  }

  // ------------------------------------------------------------ what finding means

  predicate Increasing(s: seq<nat>) {
    forall i, j :: 0 <= i < j < |s| ==> s[i] < s[j]
  }

  /** The search finds every occurrence, each once, from top to bottom. */
  lemma {:induction false} OccurrencesAre(lines: seq<string>, snippet: string, n: nat)
    requires n <= |lines|
    ensures Increasing(Occurrences(lines, snippet, n))
    ensures forall c :: c in Occurrences(lines, snippet, n) <==> 0 < c <= n && Strip(lines[c - 1]) == snippet
  {
    hide Strip;
    if n > 0 {
      OccurrencesAre(lines, snippet, n - 1);
      var before := Occurrences(lines, snippet, n - 1);
      assert forall i :: 0 <= i < |before| ==> before[i] in before && before[i] < n;
    }
  }

  /** The line an entry resolves to holds its statement. */
  lemma {:induction false} ResolvedLineHolds(lines: seq<string>, header: Header, e: Entry)
    requires Resolve(lines, header, e).At?
    ensures var c := Resolve(lines, header, e).line;
            0 < c <= |lines| && e.snippet.Some? && Strip(lines[c - 1]) == e.snippet.value
  {
    hide Strip, Blank, Occurrences;
    var candidates := Occurrences(lines, e.snippet.value, |lines|);
    OccurrencesAre(lines, e.snippet.value, |lines|);
    assert candidates[0] in candidates;
    if |candidates| > 1 {
      var filtered := Inside(lines, header, candidates, e.disambiguator.value);
      InsideAreCandidates(lines, header, candidates, e.disambiguator.value);
      assert filtered[0] in filtered;
    }
  }

  lemma {:induction false} InsideAreCandidates(lines: seq<string>, header: Header, candidates: seq<nat>, name: string)
    ensures forall c :: c in Inside(lines, header, candidates, name) ==> c in candidates
    decreases |candidates|
  {
    hide Enclosing;
    if candidates != [] { InsideAreCandidates(lines, header, candidates[..|candidates| - 1], name); }
  }

  /** Line `c` holds the statement, indentation aside. */
  predicate Holds(lines: seq<string>, snippet: string, c: nat) {
    0 < c <= |lines| && Strip(lines[c - 1]) == snippet
  }

  /** The nearest function header at or above line `n` has that name. */
  ghost predicate InFunction(lines: seq<string>, header: Header, n: nat, name: string) {
    exists h :: 0 <= h < n && h < |lines| && header(lines[h]) == Some(name) && HeadlessBetween(lines, header, h + 1, n)
  }

  /** No line from the `i`-th on, counted from zero, and up to line `n` is a function header. */
  predicate HeadlessBetween(lines: seq<string>, header: Header, i: nat, n: nat) {
    forall k :: i <= k < n && k < |lines| ==> header(lines[k]).None?
  }

  /** The search upwards finds the nearest header, and none exactly when there is none. */
  lemma {:induction false} EnclosingIs(lines: seq<string>, header: Header, n: nat, name: string)
    requires n <= |lines|
    ensures Enclosing(lines, header, n) == Some(name) <==> InFunction(lines, header, n, name)
    ensures Enclosing(lines, header, n).None? <==> HeadlessBetween(lines, header, 0, n)
  {
    if n > 0 {
      EnclosingIs(lines, header, n - 1, name);
      if header(lines[n - 1]) == Some(name) {
        assert HeadlessBetween(lines, header, n, n);
      } else if header(lines[n - 1]).None? {
        if InFunction(lines, header, n - 1, name) {
          var h :| 0 <= h < n - 1 && header(lines[h]) == Some(name) && HeadlessBetween(lines, header, h + 1, n - 1);
          assert HeadlessBetween(lines, header, h + 1, n);
        }
        if InFunction(lines, header, n, name) {
          var h :| 0 <= h < n && header(lines[h]) == Some(name) && HeadlessBetween(lines, header, h + 1, n);
          assert HeadlessBetween(lines, header, h + 1, n - 1);
        }
      }
    }
  }

  lemma {:induction false} InsideIs(lines: seq<string>, header: Header, cs: seq<nat>, name: string)
    requires Increasing(cs) && forall c :: c in cs ==> c <= |lines|
    ensures Increasing(Inside(lines, header, cs, name))
    ensures forall c :: c in Inside(lines, header, cs, name) <==> c in cs && InFunction(lines, header, c, name)
    decreases |cs|
  {
    hide Enclosing, InFunction;
    if cs != [] {
      var front, last := cs[..|cs| - 1], Last(cs);
      FrontAndLast(cs);
      assert last in cs && forall c :: c in front ==> c in cs;
      InsideIs(lines, header, front, name);
      EnclosingIs(lines, header, last, name);
      var before := Inside(lines, header, front, name);
      forall i | 0 <= i < |before| ensures before[i] < last {
        assert before[i] in before && before[i] in front;
      }
      assert forall c :: c in before + [last] <==> c in before || c == last;
    }
  }

  /** Listed in order, there is one element exactly when there is only one. */
  lemma {:induction false} OnlyOne(s: seq<nat>, c: nat)
    requires Increasing(s)
    ensures s == [c] <==> c in s && forall k :: k in s ==> k == c
    ensures |s| > 1 <==> exists a, b :: a in s && b in s && a != b
  {
    if |s| > 1 { assert s[0] in s && s[1] in s && s[0] != s[1]; }
    if s == [c] { assert forall k :: k in s ==> k == c; }
  }

  /** What is chosen among candidates in order, in terms of which of them lie in the function. */
  lemma {:induction false} ChoiceIs(lines: seq<string>, header: Header, cs: seq<nat>, d: Disambiguator, c: nat)
    requires Increasing(cs) && (d.Shaped() ==> Increasing(Inside(lines, header, cs, d.value)))
    ensures var r := Choose(lines, header, cs, d);
            var inside := if d.Shaped() then Inside(lines, header, cs, d.value) else [];
            && (r.At? && r.line == c <==>
                  (cs == [c] && (d.Absent? || d.Shaped())) || (|cs| > 1 && d.Shaped() && inside == [c]))
            && (r == Gone <==> cs == [] || (|cs| > 1 && d.Shaped() && inside == []))
            && (r == At(c, true) <==> cs == [c] && d.Shaped() && inside == [])
  {
    hide Inside;
  }

  /** The disambiguator names a function. */
  predicate NamesFunction(d: Disambiguator, name: string) {
    d == Named("function", name) && |name| > 0
  }

  /** Only line `c` holds the statement, and the entry names no function or is well formed. */
  ghost predicate OnlyStatement(lines: seq<string>, e: Entry, snippet: string, c: nat) {
    && Holds(lines, snippet, c) && (forall k :: Holds(lines, snippet, k) ==> k == c)
    && (e.disambiguator == Absent || exists name :: NamesFunction(e.disambiguator, name))
  }

  /** Several lines hold the statement, and of these only line `c` lies in the function the entry names. */
  ghost predicate OnlyInFunction(lines: seq<string>, header: Header, e: Entry, snippet: string, c: nat) {
    && Holds(lines, snippet, c) && (exists k :: Holds(lines, snippet, k) && k != c)
    && exists name ::
         && NamesFunction(e.disambiguator, name) && InFunction(lines, header, c, name)
         && forall k :: Holds(lines, snippet, k) && InFunction(lines, header, k, name) ==> k == c
  }

  /** No line holds the statement; or several do, and none of them lies in the function the entry names. */
  ghost predicate Lost(lines: seq<string>, header: Header, e: Entry, snippet: string) {
    || (forall k :: !Holds(lines, snippet, k))
    || ((exists a, b :: Holds(lines, snippet, a) && Holds(lines, snippet, b) && a != b)
        && exists name ::
             && NamesFunction(e.disambiguator, name)
             && forall k :: Holds(lines, snippet, k) ==> !InFunction(lines, header, k, name))
  }

  /**
   * When an entry resolves, and to which line: its statement stands there alone, or
   * alone in the function it names. It is gone when its statement is. In every other
   * case it is not resolvable. An entry whose one statement has left the function it
   * names still resolves, with a warning.
   */
  lemma {:induction false} ResolvesIff(lines: seq<string>, header: Header, e: Entry, c: nat)
    ensures var r, identified := Resolve(lines, header, e), e.snippet.Some? && !Blank(e.snippet.value);
            && (r.At? && r.line == c <==>
                  identified && (OnlyStatement(lines, e, e.snippet.value, c)
                                 || OnlyInFunction(lines, header, e, e.snippet.value, c)))
            && (r == Gone <==> identified && Lost(lines, header, e, e.snippet.value))
            && (r == At(c, true) <==>
                  identified && OnlyStatement(lines, e, e.snippet.value, c)
                  && exists name :: NamesFunction(e.disambiguator, name) && !InFunction(lines, header, c, name))
  {
    hide Strip, Blank, Occurrences, Inside, InFunction, Choose, OnlyStatement, OnlyInFunction, Lost;
    if e.snippet.Some? && !Blank(e.snippet.value) {
      var snippet, d := e.snippet.value, e.disambiguator;
      var cs := Occurrences(lines, snippet, |lines|);
      CandidatesHold(lines, snippet);
      if d.Shaped() { InsideIs(lines, header, cs, d.value); }
      ChoiceIs(lines, header, cs, d, c);
      OnlyStatementIff(lines, header, e, snippet, c);
      OnlyInFunctionIff(lines, header, e, snippet, c);
      LostIff(lines, header, e, snippet);
    }
  }

  lemma {:induction false} OnlyStatementIff(lines: seq<string>, header: Header, e: Entry, snippet: string, c: nat)
    ensures var cs, d := Occurrences(lines, snippet, |lines|), e.disambiguator;
            && (OnlyStatement(lines, e, snippet, c) <==> cs == [c] && (d.Absent? || d.Shaped()))
            && (cs == [c] && d.Shaped() ==>
                  (Inside(lines, header, cs, d.value) == [] <==>
                   exists name :: NamesFunction(d, name) && !InFunction(lines, header, c, name)))
  {
    hide Strip, Occurrences, Inside, InFunction, Holds;
    var cs, d := Occurrences(lines, snippet, |lines|), e.disambiguator;
    CandidatesHold(lines, snippet);
    OnlyOne(cs, c);
    ShapedNames(d);
    if d.Shaped() {
      InsideIs(lines, header, cs, d.value);
      NoneListed(Inside(lines, header, cs, d.value));
      assert NamesFunction(d, d.value);
    }
  }

  lemma {:induction false} OnlyInFunctionIff(lines: seq<string>, header: Header, e: Entry, snippet: string, c: nat)
    ensures var cs, d := Occurrences(lines, snippet, |lines|), e.disambiguator;
            OnlyInFunction(lines, header, e, snippet, c) <==>
            |cs| > 1 && d.Shaped() && Inside(lines, header, cs, d.value) == [c]
  {
    hide Strip, Occurrences, Inside, InFunction, Holds;
    var cs, d := Occurrences(lines, snippet, |lines|), e.disambiguator;
    CandidatesHold(lines, snippet);
    OnlyOne(cs, c);
    ShapedNames(d);
    if d.Shaped() {
      InsideIs(lines, header, cs, d.value);
      OnlyOne(Inside(lines, header, cs, d.value), c);
      assert NamesFunction(d, d.value);
    }
  }

  lemma {:induction false} LostIff(lines: seq<string>, header: Header, e: Entry, snippet: string)
    ensures var cs, d := Occurrences(lines, snippet, |lines|), e.disambiguator;
            Lost(lines, header, e, snippet) <==>
            cs == [] || (|cs| > 1 && d.Shaped() && Inside(lines, header, cs, d.value) == [])
  {
    hide Strip, Occurrences, Inside, InFunction, Holds;
    var cs, d := Occurrences(lines, snippet, |lines|), e.disambiguator;
    CandidatesHold(lines, snippet);
    OnlyOne(cs, 0);
    NoneListed(cs);
    ShapedNames(d);
    if d.Shaped() {
      InsideIs(lines, header, cs, d.value);
      NoneListed(Inside(lines, header, cs, d.value));
      assert NamesFunction(d, d.value);
    }
  }

  lemma CandidatesHold(lines: seq<string>, snippet: string)
    ensures Increasing(Occurrences(lines, snippet, |lines|))
    ensures forall k :: k in Occurrences(lines, snippet, |lines|) <==> Holds(lines, snippet, k)
    ensures forall k :: k in Occurrences(lines, snippet, |lines|) ==> k <= |lines|
  {
    hide Strip;
    OccurrencesAre(lines, snippet, |lines|);
  }

  lemma ShapedNames(d: Disambiguator)
    ensures forall name :: NamesFunction(d, name) <==> d.Shaped() && name == d.value
  {
  }

  lemma NoneListed(s: seq<nat>)
    ensures s == [] <==> forall k :: k !in s
  {
    if s != [] { assert s[0] in s; }
  }

  // ------------------------------------------------------------ edits elsewhere in the file

  /** Where line `c` is once `n` lines are inserted behind the first `at`. */
  function Pushed(c: nat, at: nat, n: nat): nat {
    if c <= at then c else c + n
  }

  function AllPushed(cs: seq<nat>, at: nat, n: nat): (r: seq<nat>)
    ensures |r| == |cs|
  {
    if cs == [] then [] else AllPushed(cs[..|cs| - 1], at, n) + [Pushed(Last(cs), at, n)]
  }

  lemma {:induction false} FirstPushed(cs: seq<nat>, at: nat, n: nat)
    requires cs != []
    ensures AllPushed(cs, at, n)[0] == Pushed(cs[0], at, n)
  {
    if |cs| > 1 { FirstPushed(cs[..|cs| - 1], at, n); }
  }

  function ResolutionPushed(r: Resolution, at: nat, n: nat): Resolution {
    match r
    case At(c, stale) => At(Pushed(c, at, n), stale)
    case _ => r
  }

  predicate Lacks(inserted: seq<string>, snippet: string) {
    forall k :: 0 <= k < |inserted| ==> Strip(inserted[k]) != snippet
  }

  predicate Headless(inserted: seq<string>, header: Header) {
    forall k :: 0 <= k < |inserted| ==> header(inserted[k]).None?
  }

  lemma {:induction false} OccurrencesBelow(lines: seq<string>, at: nat, inserted: seq<string>, snippet: string, n: nat)
    requires n <= at <= |lines|
    ensures Occurrences(Splice(lines, at, inserted), snippet, n) == Occurrences(lines, snippet, n)
    ensures AllPushed(Occurrences(lines, snippet, n), at, |inserted|) == Occurrences(lines, snippet, n)
  {
    hide Splice, Strip;
    if n > 0 {
      SpliceAt(lines, at, inserted, n - 1);
      OccurrencesBelow(lines, at, inserted, snippet, n - 1);
      PushedAppend(Occurrences(lines, snippet, n - 1), n, at, |inserted|);
    }
  }

  lemma PushedAppend(cs: seq<nat>, c: nat, at: nat, n: nat)
    ensures AllPushed(cs + [c], at, n) == AllPushed(cs, at, n) + [Pushed(c, at, n)]
  {
    assert (cs + [c])[..|cs|] == cs;
  }

  lemma {:induction false} OccurrencesThrough(lines: seq<string>, at: nat, inserted: seq<string>, snippet: string,
                                              k: nat)
    requires at <= |lines| && k <= |inserted| && Lacks(inserted, snippet)
    ensures Occurrences(Splice(lines, at, inserted), snippet, at + k) == Occurrences(lines, snippet, at)
  {
    hide Splice, Strip;
    if k == 0 {
      OccurrencesBelow(lines, at, inserted, snippet, at);
    } else {
      SpliceAt(lines, at, inserted, k - 1);
      OccurrencesThrough(lines, at, inserted, snippet, k - 1);
    }
  }

  lemma OneMoreLine(lines: seq<string>, snippet: string, n: nat)
    requires 0 < n <= |lines|
    ensures var before := Occurrences(lines, snippet, n - 1);
            Occurrences(lines, snippet, n) == if Strip(lines[n - 1]) == snippet then before + [n] else before
  {
    hide Strip;
  }

  /** Inserted lines without the snippet push the occurrences below them, and nothing else. */
  lemma {:induction false} OccurrencesPushed(lines: seq<string>, at: nat, inserted: seq<string>, snippet: string,
                                             n: nat)
    requires at <= n <= |lines| && Lacks(inserted, snippet)
    ensures Occurrences(Splice(lines, at, inserted), snippet, n + |inserted|) ==
            AllPushed(Occurrences(lines, snippet, n), at, |inserted|)
  {
    hide Splice, Strip, Occurrences, AllPushed, Lacks;
    if n == at {
      OccurrencesBelow(lines, at, inserted, snippet, at);
      OccurrencesThrough(lines, at, inserted, snippet, |inserted|);
    } else {
      SpliceAt(lines, at, inserted, n - 1);
      OccurrencesPushed(lines, at, inserted, snippet, n - 1);
      OneMoreLine(lines, snippet, n);
      OneMoreLine(Splice(lines, at, inserted), snippet, n + |inserted|);
      PushedAppend(Occurrences(lines, snippet, n - 1), n, at, |inserted|);
    }
  }

  lemma {:induction false} EnclosingPushed(lines: seq<string>, at: nat, inserted: seq<string>, header: Header, c: nat)
    requires at <= |lines| && c <= |lines| && Headless(inserted, header)
    ensures Enclosing(Splice(lines, at, inserted), header, Pushed(c, at, |inserted|)) == Enclosing(lines, header, c)
  {
    hide Splice;
    if 0 < c <= at {
      SpliceAt(lines, at, inserted, c - 1);
      EnclosingPushed(lines, at, inserted, header, c - 1);
    } else if c > at {
      SpliceAt(lines, at, inserted, c - 1);
      if c - 1 == at {
        EnclosingThrough(lines, at, inserted, header, |inserted|);
      } else {
        EnclosingPushed(lines, at, inserted, header, c - 1);
      }
    }
  }

  lemma {:induction false} EnclosingThrough(lines: seq<string>, at: nat, inserted: seq<string>, header: Header, k: nat)
    requires at <= |lines| && k <= |inserted| && Headless(inserted, header)
    ensures Enclosing(Splice(lines, at, inserted), header, at + k) == Enclosing(lines, header, at)
    decreases at, k
  {
    hide Splice;
    if k > 0 {
      SpliceAt(lines, at, inserted, k - 1);
      EnclosingThrough(lines, at, inserted, header, k - 1);
    } else {
      EnclosingUpTo(lines, at, inserted, header, at);
    }
  }

  lemma {:induction false} EnclosingUpTo(lines: seq<string>, at: nat, inserted: seq<string>, header: Header, c: nat)
    requires c <= at <= |lines|
    ensures Enclosing(Splice(lines, at, inserted), header, c) == Enclosing(lines, header, c)
  {
    hide Splice;
    if c > 0 {
      SpliceAt(lines, at, inserted, c - 1);
      EnclosingUpTo(lines, at, inserted, header, c - 1);
    }
  }

  lemma {:induction false} InsidePushed(lines: seq<string>, at: nat, inserted: seq<string>, header: Header,
                                        cs: seq<nat>, name: string)
    requires at <= |lines| && Headless(inserted, header) && forall k :: 0 <= k < |cs| ==> cs[k] <= |lines|
    ensures Inside(Splice(lines, at, inserted), header, AllPushed(cs, at, |inserted|), name) ==
            AllPushed(Inside(lines, header, cs, name), at, |inserted|)
    decreases |cs|
  {
    hide Splice, Enclosing;
    if cs != [] {
      var front, c := cs[..|cs| - 1], Last(cs);
      InsidePushed(lines, at, inserted, header, front, name);
      EnclosingPushed(lines, at, inserted, header, c);
      PushedAppend(Inside(lines, header, front, name), c, at, |inserted|);
      InsideAppend(Splice(lines, at, inserted), header, AllPushed(front, at, |inserted|), Pushed(c, at, |inserted|),
                   name);
    }
  }

  lemma InsideAppend(lines: seq<string>, header: Header, cs: seq<nat>, c: nat, name: string)
    ensures Inside(lines, header, cs + [c], name) ==
            if Enclosing(lines, header, Min(c, |lines|)) == Some(name) then Inside(lines, header, cs, name) + [c]
            else Inside(lines, header, cs, name)
  {
    assert (cs + [c])[..|cs|] == cs;
  }

  /**
   * Inserting lines that hold neither the snippet nor a function header keeps the
   * verdict on an entry, and moves its line by exactly their count when they stand above it.
   */
  lemma {:induction false} UnrelatedLinesOnlyPush(lines: seq<string>, at: nat, inserted: seq<string>, header: Header,
                                                  e: Entry)
    requires at <= |lines| && Headless(inserted, header)
    requires e.snippet.Some? ==> Lacks(inserted, e.snippet.value)
    ensures Resolve(Splice(lines, at, inserted), header, e) ==
            ResolutionPushed(Resolve(lines, header, e), at, |inserted|)
  {
    hide Splice, Occurrences, Inside, Strip, Blank, AllPushed, Lacks, Headless;
    if e.snippet.Some? {
      var cs := Occurrences(lines, e.snippet.value, |lines|);
      OccurrencesPushed(lines, at, inserted, e.snippet.value, |lines|);
      OccurrencesAre(lines, e.snippet.value, |lines|);
      if cs != [] { FirstPushed(cs, at, |inserted|); }
      if e.disambiguator.Shaped() {
        var name := e.disambiguator.value;
        assert forall k :: 0 <= k < |cs| ==> cs[k] in cs && cs[k] <= |lines|;
        InsidePushed(lines, at, inserted, header, cs, name);
        if Inside(lines, header, cs, name) != [] { FirstPushed(Inside(lines, header, cs, name), at, |inserted|); }
      }
    }
  }

  /** A statement that occurs once is found wherever function headers come and go. */
  lemma {:induction false} UniqueSnippetsIgnoreHeaders(lines: seq<string>, at: nat, inserted: seq<string>,
                                                       header: Header, e: Entry)
    requires at <= |lines| && e.snippet.Some? && !Blank(e.snippet.value) && Lacks(inserted, e.snippet.value)
    requires |Occurrences(lines, e.snippet.value, |lines|)| == 1
             && (e.disambiguator.Absent? || e.disambiguator.Shaped())
    ensures var before, after := Resolve(lines, header, e), Resolve(Splice(lines, at, inserted), header, e);
            before.At? && after.At? && after.line == Pushed(before.line, at, |inserted|)
  {
    hide Splice, Occurrences, Inside, Strip, Blank, AllPushed, Lacks;
    OccurrencesPushed(lines, at, inserted, e.snippet.value, |lines|);
    FirstPushed(Occurrences(lines, e.snippet.value, |lines|), at, |inserted|);
  }

  // ------------------------------------------------------------ cells of the markdown ledger

  const BAR: char := '|'
  const TICK: char := '`'

  function TicksLeft(s: string): string {
    if s != [] && s[0] == TICK then TicksLeft(s[1..]) else s
  }

  function TicksRight(s: string): (r: string)
    ensures r <= s
  {
    if s != [] && Last(s) == TICK then TicksRight(s[..|s| - 1]) else s
  }

  /** A table cell without its padding and its backticks. */
  function Unbacktick(cell: string): string {
    Strip(TicksRight(TicksLeft(Strip(cell))))
  }

  /** The cell with a new content; backticks stay if there were any. */
  function NewCell(cell: string, content: string): string {
    var stripped := Strip(cell);
    if stripped != [] && stripped[0] == TICK && Last(stripped) == TICK
    then " `" + content + "` "
    else " " + content + " "
  }

  /** The last colon of a text, or its length. */
  function LastColon(s: string): (n: nat)
    ensures n <= |s| && (n < |s| ==> s[n] == ':')
  {
    if s == [] then 0
    else if Last(s) == ':' then |s| - 1
    else
      var n := LastColon(s[..|s| - 1]);
      if n == |s| - 1 then |s| else n
  }

  /** The file of a `file:line` cell. */
  function FileOf(fileline: string): string {
    fileline[..LastColon(fileline)]
  }

  function FileLine(path: string, line: nat): string {
    path + ":" + Decimal(line)
  }

  lemma {:induction false} LastColonBefore(s: string, digits: string)
    requires forall i :: 0 <= i < |digits| ==> digits[i] != ':'
    ensures LastColon(s + ":" + digits) == |s|
    decreases |digits|
  {
    var t := s + ":" + digits;
    if digits != [] {
      LastColonBefore(s, digits[..|digits| - 1]);
      assert t[..|t| - 1] == s + ":" + digits[..|digits| - 1];
      assert Last(t) == Last(digits);
    } else {
      assert Last(t) == ':';
    }
  }

  lemma FileOfFileLine(path: string, line: nat)
    ensures FileOf(FileLine(path, line)) == path
  {
    hide Decimal;
    LastColonBefore(path, Decimal(line));
    assert FileLine(path, line)[..|path|] == path;
  }

  /** The file is what stands in front of the last colon, or everything. */
  lemma {:induction false} FileOfIs(fileline: string)
    ensures if ':' in fileline
            then exists behind :: fileline == FileOf(fileline) + ":" + behind && ':' !in behind
            else FileOf(fileline) == fileline
  {
    LastColonIs(fileline);
    var n := LastColon(fileline);
    if n < |fileline| { assert fileline == fileline[..n] + ":" + fileline[n + 1..]; }
  }

  lemma {:induction false} LastColonIs(s: string)
    ensures ':' !in s[Min(LastColon(s) + 1, |s|)..]
    ensures ':' in s <==> LastColon(s) < |s|
    decreases |s|
  {
    if s != [] && Last(s) != ':' {
      var front := s[..|s| - 1];
      FrontAndLast(s);
      LastColonIs(front);
      var n := LastColon(front);
      if n < |front| {
        assert s[n + 1..] == front[n + 1..] + [Last(s)];
      }
    }
  }

  /** Content that reads back from a cell: no padding or backtick at either end. */
  predicate Bare(s: string) {
    s != [] && !IsSpace(s[0]) && s[0] != TICK && !IsSpace(Last(s)) && Last(s) != TICK
  }

  lemma {:induction false} PaddedStrips(s: string)
    requires s != [] && !IsSpace(s[0]) && !IsSpace(Last(s))
    ensures Strip(s) == s && Strip(" " + s + " ") == s
  {
    assert StripRight(s) == s && StripLeft(s) == s;
    var t := " " + s + " ";
    assert t[1..] == s + " ";
    assert StripLeft(s + " ") == s + " ";
    assert Last(s + " ") == ' ' && (s + " ")[..|s|] == s;
  }

  lemma {:induction false} TickedUnticks(s: string)
    requires s != [] && s[0] != TICK && Last(s) != TICK
    ensures TicksRight(TicksLeft(s)) == s && TicksRight(TicksLeft("`" + s + "`")) == s
  {
    var t := "`" + s + "`";
    assert t[1..] == s + "`";
    assert TicksLeft(s + "`") == s + "`";
    assert Last(s + "`") == TICK && (s + "`")[..|s|] == s;
  }

  /** A rewritten cell reads back as what was written into it. */
  lemma {:induction false} CellReadsBack(cell: string, content: string)
    requires Bare(content)
    ensures Unbacktick(NewCell(cell, content)) == content
  {
    hide Strip, TicksLeft, TicksRight;
    PaddedStrips(content);
    TickedUnticks(content);
    var ticked := "`" + content + "`";
    assert !IsSpace(ticked[0]) && !IsSpace(Last(ticked));
    PaddedStrips(ticked);
    assert " `" + content + "` " == " " + ticked + " ";
  }

  /** A rewritten cell is padded with one blank, and in backticks exactly if the old one was. */
  lemma {:induction false} CellKeepsItsTicks(cell: string, content: string)
    requires Bare(content)
    ensures var ticked := exists inner: string :: Strip(cell) == "`" + inner && (inner == "" || Last(inner) == TICK);
            NewCell(cell, content) == if ticked then " `" + content + "` " else " " + content + " "
  {
    var stripped := Strip(cell);
    if stripped != [] && stripped[0] == TICK {
      assert stripped == "`" + stripped[1..];
      assert stripped[1..] != "" ==> Last(stripped[1..]) == Last(stripped);
    }
  }

  lemma {:induction false} TicksShorten(s: string)
    ensures |TicksLeft(s)| <= |s|
    ensures s != [] && s[0] == TICK ==> |TicksLeft(s)| < |s|
  {
    if s != [] && s[0] == TICK { TicksShorten(s[1..]); }
  }

  lemma {:induction false} StripShortens(s: string)
    ensures |Strip(s)| <= |s|
    ensures |StripLeft(s)| <= |s|
  {
    if s != [] && IsSpace(s[0]) { StripShortens(s[1..]); }
  }

  /** A path that opens with a backtick does not survive its cell: it never reads back. */
  lemma {:induction false} TickedContentIsLost(cell: string, content: string)
    requires content != [] && content[0] == TICK && !IsSpace(Last(content))
    ensures Unbacktick(NewCell(cell, content)) != content
  {
    hide Strip, TicksLeft, TicksRight;
    PaddedStrips(content);
    var ticked := "`" + content + "`";
    assert !IsSpace(ticked[0]) && !IsSpace(Last(ticked));
    PaddedStrips(ticked);
    assert " `" + content + "` " == " " + ticked + " ";
    TicksShorten(content);
    TwoTicks(content);
    StripShortens(TicksRight(TicksLeft(content)));
    StripShortens(TicksRight(TicksLeft(ticked)));
  }

  lemma {:induction false} TicksLeftIsSuffix(s: string)
    ensures |TicksLeft(s)| <= |s| && TicksLeft(s) == s[|s| - |TicksLeft(s)|..]
  {
    if s != [] && s[0] == TICK { TicksLeftIsSuffix(s[1..]); }
  }

  lemma {:induction false} TwoTicks(content: string)
    requires content != [] && content[0] == TICK
    ensures |TicksRight(TicksLeft("`" + content + "`"))| < |content|
  {
    var ticked, inner := "`" + content + "`", content + "`";
    assert ticked[1..] == inner && inner[0] == TICK;
    TicksShorten(inner[1..]);
    assert |TicksLeft(ticked)| <= |content|;
    TicksLeftIsSuffix(ticked);
    assert TicksLeft(ticked) != [] ==> Last(TicksLeft(ticked)) == Last(ticked) == TICK;
  }

  lemma {:induction false} StripLeftWithin(s: string)
    ensures forall c :: c in StripLeft(s) ==> c in s
  {
    if s != [] && IsSpace(s[0]) { StripLeftWithin(s[1..]); }
  }

  lemma {:induction false} StripIsWithin(s: string)
    ensures Strip(s) != [] ==> !IsSpace(Strip(s)[0])
    ensures forall c :: c in Strip(s) ==> c in s
  {
    StripLeftFirst(s);
    StripLeftWithin(s);
    assert forall c :: c in StripRight(StripLeft(s)) ==> c in StripLeft(s);
  }

  lemma {:induction false} TicksAreWithin(s: string)
    ensures forall c :: c in TicksRight(TicksLeft(s)) ==> c in s
  {
    TicksLeftIsSuffix(s);
  }

  lemma UnbacktickIsWithin(cell: string)
    ensures Unbacktick(cell) != [] ==> !IsSpace(Unbacktick(cell)[0])
    ensures BAR !in cell ==> BAR !in Unbacktick(cell)
  {
    hide Strip, TicksLeft, TicksRight, IsSpace;
    StripIsWithin(cell);
    TicksAreWithin(Strip(cell));
    StripIsWithin(TicksRight(TicksLeft(Strip(cell))));
  }

  /** The place of an entry survives its cell exactly when the path opens with neither a backtick nor a blank. */
  lemma {:induction false} PlaceReadsBackIff(cell: string, path: string, line: nat)
    ensures Unbacktick(NewCell(cell, FileLine(path, line))) == FileLine(path, line) <==>
            path == "" || (path[0] != TICK && !IsSpace(path[0]))
  {
    hide Decimal, Unbacktick, NewCell, IsSpace;
    var content, digits := FileLine(path, line), Decimal(line);
    assert Last(content) == Last(digits) && IsDigit(Last(digits));
    DigitsAreNoBlanks(Last(digits));
    assert content[0] == if path == "" then ':' else path[0];
    UnbacktickIsWithin(NewCell(cell, content));
    if content[0] == TICK {
      TickedContentIsLost(cell, content);
    } else if !IsSpace(content[0]) {
      CellReadsBack(cell, content);
    }
  }

  lemma DigitsAreNoBlanks(c: char)
    ensures IsDigit(c) ==> !IsSpace(c) && c != TICK && c != BAR
    ensures !IsSpace(':')
  {
  }

  // ------------------------------------------------------------ rows of the markdown ledger

  /** The alert number a first table cell anchors, if it anchors one. */
  type Anchor = string -> Option<nat>

  const OPENING := "<a id=\"alert-"
  const CLOSING := "\"></a>"

  /** The anchor cell of the repository's own ledger, its number in ASCII digits. */
  function AlertOf(cell: string): Option<nat> {
    var text := StripLeft(cell);
    if !(OPENING <= text) then None
    else
      var digits, behind := Digits(text[|OPENING|..]), text[|OPENING|..][|Digits(text[|OPENING|..])|..];
      if digits == "" || !(CLOSING <= behind) then None else Some(Value(digits))
  }

  /** A cell that opens with the anchor of an alert is read as that alert, whatever the cell says behind it. */
  lemma {:induction false} AlertReads(n: nat, behind: string)
    ensures AlertOf(OPENING + Decimal(n) + CLOSING + behind) == Some(n)
  {
    hide Decimal;
    var cell, rest := OPENING + Decimal(n) + CLOSING + behind, CLOSING + behind;
    StripKeepsFirst(cell);
    assert cell == OPENING + (Decimal(n) + rest) && cell[0] == OPENING[0] == '<';
    assert OPENING <= cell && cell[|OPENING|..] == Decimal(n) + rest;
    assert rest[0] == CLOSING[0] == '"';
    DigitsInFront(Decimal(n), rest);
    assert (Decimal(n) + rest)[|Decimal(n)|..] == rest && CLOSING <= rest;
    DecimalReads(n);
  }

  /** The cells read from a ledger row, with the span of the `file:line` cell. */
  datatype Row = Row(number: nat, rule: string, fileline: string, start: nat, end: nat)

  function FindBar(line: string, from: nat): (n: nat)
    requires from <= |line|
    ensures from <= n <= |line| && (n < |line| ==> line[n] == BAR)
    decreases |line| - from
  {
    if from == |line| || line[from] == BAR then from else FindBar(line, from + 1)
  }

  lemma {:induction false} FindBarSkips(line: string, from: nat)
    requires from <= |line|
    ensures BAR !in line[from..FindBar(line, from)]
    decreases |line| - from
  {
    if from < |line| && line[from] != BAR {
      FindBarSkips(line, from + 1);
      assert line[from..FindBar(line, from)] == [line[from]] + line[from + 1..FindBar(line, from + 1)];
    }
  }

  /** A row opens with a bar, an anchored cell, the rule and the place of the finding. */
  function ParseRow(anchor: Anchor, line: string): (r: Option<Row>)
    ensures r.Some? ==> 0 < r.value.start <= r.value.end < |line|
  {
    if line == [] || line[0] != BAR then None
    else
      var b1 := FindBar(line, 1);
      if b1 == |line| then None
      else
        var b2 := FindBar(line, b1 + 1);
        if b2 == |line| then None
        else
          var b3 := FindBar(line, b2 + 1);
          if b3 == |line| || anchor(line[1..b1]).None? then None
          else Some(Row(anchor(line[1..b1]).value, Unbacktick(line[b1 + 1..b2]), Unbacktick(line[b2 + 1..b3]),
                        b2 + 1, b3))
  }

  /** The line with its `file:line` cell replaced; Python's slices clamp. */
  function RewriteCell(line: string, row: Row, content: string): string {
    var start, end := Min(row.start, |line|), Max(Min(row.start, |line|), Min(row.end, |line|));
    line[..start] + NewCell(line[start..end], content) + line[end..]
  }

  lemma {:induction false} FindBarIs(line: string, from: nat, n: nat)
    requires from <= n <= |line| && BAR !in line[from..n] && (n < |line| ==> line[n] == BAR)
    ensures FindBar(line, from) == n
    decreases n - from
  {
    if from < n {
      assert line[from] == line[from..n][0];
      assert line[from..n][1..] == line[from + 1..n];
      FindBarIs(line, from + 1, n);
    }
  }

  lemma {:induction false} FindBarKept(a: string, b: string, from: nat)
    requires from <= |a| && FindBar(a, from) < |a|
    ensures FindBar(a + b, from) == FindBar(a, from)
  {
    var n := FindBar(a, from);
    FindBarSkips(a, from);
    assert (a + b)[from..n] == a[from..n];
    FindBarIs(a + b, from, n);
  }

  lemma NewCellHasNoBar(cell: string, content: string)
    requires BAR !in content
    ensures BAR !in NewCell(cell, content)
  {
    hide Strip;
  }

  /** What a line in three parts reads as, when the first holds three bars and the second none. */
  lemma {:induction false} RowOfParts(anchor: Anchor, before: string, cell: string, behind: string, b1: nat)
    requires before != [] && before[0] == BAR && Last(before) == BAR && BAR !in cell && behind != [] && behind[0] == BAR
    requires 1 <= b1 < |before| - 1 && FindBar(before, 1) == b1 && FindBar(before, b1 + 1) == |before| - 1
    ensures ParseRow(anchor, before + cell + behind) ==
            match anchor(before[1..b1])
            case None => None
            case Some(n) =>
              Some(Row(n, Unbacktick(before[b1 + 1..|before| - 1]), Unbacktick(cell), |before|, |before| + |cell|))
  {
    hide Unbacktick, FindBar;
    var line, n := before + cell + behind, |before|;
    Associate(before, cell, behind);
    FindBarKept(before, cell + behind, 1);
    FindBarKept(before, cell + behind, b1 + 1);
    assert line[n..n + |cell|] == cell && line[n + |cell|] == behind[0];
    FindBarIs(line, n, n + |cell|);
    assert line[1..b1] == before[1..b1] && line[b1 + 1..n - 1] == before[b1 + 1..n - 1];
  }

  /** A rewritten row reads back as the same row, with what its new cell reads back as. */
  lemma {:induction false} RowReadsBack(anchor: Anchor, line: string, content: string)
    requires ParseRow(anchor, line).Some? && BAR !in content
    ensures var row := ParseRow(anchor, line).value;
            var cell := NewCell(line[row.start..row.end], content);
            ParseRow(anchor, RewriteCell(line, row, content)) ==
                Some(row.(fileline := Unbacktick(cell), end := row.start + |cell|))
  {
    hide Unbacktick, NewCell, FindBar;
    var row := ParseRow(anchor, line).value;
    var before, cell, behind := line[..row.start], NewCell(line[row.start..row.end], content), line[row.end..];
    var b1 := FindBar(line, 1);
    NewCellHasNoBar(line[row.start..row.end], content);
    BarsOfHead(line, b1, FindBar(line, b1 + 1));
    RowOfParts(anchor, before, cell, behind, b1);
    assert before[1..b1] == line[1..b1] && before[b1 + 1..row.start - 1] == line[b1 + 1..row.start - 1];
  }

  /** What a line opens with decides its alert and its rule. */
  lemma {:induction false} HeadParses(anchor: Anchor, head: string, more: string, b1: nat)
    requires head != [] && head[0] == BAR && Last(head) == BAR
    requires 1 <= b1 < |head| - 1 && FindBar(head, 1) == b1 && FindBar(head, b1 + 1) == |head| - 1
    ensures var r := ParseRow(anchor, head + more);
            r.Some? ==>
              && anchor(head[1..b1]) == Some(r.value.number) && r.value.start == |head|
              && r.value.rule == Unbacktick(head[b1 + 1..|head| - 1])
  {
    hide Unbacktick, FindBar;
    var line := head + more;
    FindBarKept(head, more, 1);
    FindBarKept(head, more, b1 + 1);
    assert line[1..b1] == head[1..b1] && line[b1 + 1..|head| - 1] == head[b1 + 1..|head| - 1];
  }

  /** A line cut off behind the opening of a row's place, and continued anyhow, is that alert's row or no row. */
  lemma {:induction false} HeadDecides(anchor: Anchor, line: string, now: string)
    requires ParseRow(anchor, line).Some?
    requires var start := ParseRow(anchor, line).value.start; start <= |now| && now[..start] == line[..start]
    ensures ParseRow(anchor, now).Some? ==>
              var row, kept := ParseRow(anchor, line).value, ParseRow(anchor, now).value;
              kept.number == row.number && kept.rule == row.rule && kept.start == row.start
  {
    hide Unbacktick, FindBar;
    var start, b1 := ParseRow(anchor, line).value.start, FindBar(line, 1);
    var head := line[..start];
    BarsOfHead(line, b1, start - 1);
    assert head + line[start..] == line && head + now[start..] == now;
    HeadParses(anchor, head, line[start..], b1);
    HeadParses(anchor, head, now[start..], b1);
  }

  lemma RewriteKeepsHead(line: string, row: Row, content: string)
    requires row.start <= |line|
    ensures var now := RewriteCell(line, row, content); row.start <= |now| && now[..row.start] == line[..row.start]
  {
    hide NewCell;
  }

  /** The first two bars behind the opening one are found in the part of the line up to the second. */
  lemma {:induction false} BarsOfHead(line: string, b1: nat, b2: nat)
    requires 1 <= |line| && b1 == FindBar(line, 1) < |line| && b2 == FindBar(line, b1 + 1) < |line|
    ensures FindBar(line[..b2 + 1], 1) == b1 && FindBar(line[..b2 + 1], b1 + 1) == b2
  {
    hide FindBar;
    FindBarSkips(line, 1);
    FindBarSkips(line, b1 + 1);
    var head := line[..b2 + 1];
    assert head[1..b1] == line[1..b1] && head[b1 + 1..b2] == line[b1 + 1..b2];
    FindBarIs(head, 1, b1);
    FindBarIs(head, b1 + 1, b2);
  }

  /** A row and the line it stands on. */
  datatype Placed = Placed(index: nat, row: Row)

  /** The rows of the first `n` lines by alert number; nothing if a number has two rows. */
  function Rows(anchor: Anchor, md: seq<string>, n: nat): Option<map<nat, Placed>>
    requires n <= |md|
  {
    if n == 0 then Some(map[])
    else match Rows(anchor, md, n - 1)
      case None => None
      case Some(rows) =>
        match ParseRow(anchor, md[n - 1])
        case None => Some(rows)
        case Some(row) => if row.number in rows then None else Some(rows[row.number := Placed(n - 1, row)])
  }

  /** The rows found are the rows there are. */
  ghost predicate AreRows(anchor: Anchor, md: seq<string>, n: nat, rows: map<nat, Placed>)
    requires n <= |md|
  {
    && (forall k :: k in rows ==>
          rows[k].index < n && ParseRow(anchor, md[rows[k].index]) == Some(rows[k].row) && rows[k].row.number == k)
    && (forall i :: 0 <= i < n && ParseRow(anchor, md[i]).Some? ==>
          var row := ParseRow(anchor, md[i]).value; row.number in rows && rows[row.number] == Placed(i, row))
  }

  lemma {:induction false} RowsAre(anchor: Anchor, md: seq<string>, n: nat)
    requires n <= |md| && Rows(anchor, md, n).Some?
    ensures AreRows(anchor, md, n, Rows(anchor, md, n).value)
  {
    hide ParseRow;
    if n > 0 { RowsAre(anchor, md, n - 1); }
  }

  /** Lines `i` and `j` are rows of one alert. */
  predicate SameAlert(anchor: Anchor, md: seq<string>, i: nat, j: nat)
    requires i < |md| && j < |md|
  {
    && ParseRow(anchor, md[i]).Some? && ParseRow(anchor, md[j]).Some?
    && ParseRow(anchor, md[i]).value.number == ParseRow(anchor, md[j]).value.number
  }

  /** Among the first `n` lines, some alert has two rows. */
  ghost predicate Doubled(anchor: Anchor, md: seq<string>, n: nat)
    requires n <= |md|
  {
    exists i: nat, j: nat :: i < j < n && SameAlert(anchor, md, i, j)
  }

  /** Reading the rows fails exactly when some alert has two of them. */
  lemma {:induction false} RowsFailIff(anchor: Anchor, md: seq<string>, n: nat)
    requires n <= |md|
    ensures Rows(anchor, md, n).None? <==> Doubled(anchor, md, n)
  {
    hide ParseRow;
    if Rows(anchor, md, n).Some? {
      RowsAre(anchor, md, n);
    } else if n > 0 {
      RowsFailIff(anchor, md, n - 1);
      if Rows(anchor, md, n - 1).Some? {
        RowsAre(anchor, md, n - 1);
        var row := ParseRow(anchor, md[n - 1]).value;
        assert SameAlert(anchor, md, Rows(anchor, md, n - 1).value[row.number].index, n - 1);
      }
    }
  }

  /** Two markdown ledgers with the same alert on every line. */
  predicate SameAlerts(anchor: Anchor, a: seq<string>, b: seq<string>) {
    && |a| == |b|
    && forall i :: 0 <= i < |a| ==>
         match ParseRow(anchor, a[i])
         case None => ParseRow(anchor, b[i]).None?
         case Some(row) => ParseRow(anchor, b[i]).Some? && ParseRow(anchor, b[i]).value.number == row.number
  }

  lemma {:induction false} RowsFollow(anchor: Anchor, a: seq<string>, b: seq<string>, n: nat)
    requires SameAlerts(anchor, a, b) && n <= |a| && Rows(anchor, a, n).Some?
    ensures Rows(anchor, b, n).Some?
    ensures var before, after := Rows(anchor, a, n).value, Rows(anchor, b, n).value;
            after.Keys == before.Keys && forall k :: k in before ==> after[k].index == before[k].index
  {
    hide ParseRow;
    if n > 0 { RowsFollow(anchor, a, b, n - 1); }
  }

  /** A markdown ledger no line of which is the row of an alert it was not the row of before. */
  predicate NoNewAlerts(anchor: Anchor, a: seq<string>, b: seq<string>) {
    && |a| == |b|
    && forall i :: 0 <= i < |a| && ParseRow(anchor, b[i]).Some? ==>
         ParseRow(anchor, a[i]).Some? && ParseRow(anchor, a[i]).value.number == ParseRow(anchor, b[i]).value.number
  }

  lemma {:induction false} RowsSurvive(anchor: Anchor, a: seq<string>, b: seq<string>, n: nat)
    requires NoNewAlerts(anchor, a, b) && n <= |a| && Rows(anchor, a, n).Some?
    ensures Rows(anchor, b, n).Some? && Rows(anchor, b, n).value.Keys <= Rows(anchor, a, n).value.Keys
  {
    hide ParseRow;
    if n > 0 { RowsSurvive(anchor, a, b, n - 1); }
  }

  // ------------------------------------------------------------ one pass over the ledger

  /** What a pass reads beside the two ledgers. */
  datatype Repository = Repository(
    sources: map<string, seq<string>>,
    header: Header,
    anchor: Anchor,
    cited: string -> seq<Citation>,
    nearby: (string, string) -> seq<string>,
    lengths: map<string, nat>)

  /** A `file:line` the justification of an entry mentions. */
  datatype Citation = Citation(path: string, line: nat)

  const REPO_ANCHORED: seq<string> :=
    ["crates/", "apps/", "scripts/", "docs/", "benches/", "deploy/", "contrib/", "bridge/", "tests/", ".github/"]

  predicate FromRoot(path: string) {
    exists k :: 0 <= k < |REPO_ANCHORED| && REPO_ANCHORED[k] <= path
  }

  /** A path is taken from the root when it opens with one of ten directories. */
  lemma RootDirectories(path: string)
    ensures FromRoot(path) <==>
              || "crates/" <= path || "apps/" <= path || "scripts/" <= path || "docs/" <= path || "benches/" <= path
              || "deploy/" <= path || "contrib/" <= path || "bridge/" <= path || "tests/" <= path || ".github/" <= path
  {
    var d := REPO_ANCHORED;
    assert d[0] == "crates/" && d[1] == "apps/" && d[2] == "scripts/" && d[3] == "docs/" && d[4] == "benches/";
    assert d[5] == "deploy/" && d[6] == "contrib/" && d[7] == "bridge/" && d[8] == "tests/" && d[9] == ".github/";
  }

  /** The first of the paths that is a file. */
  function FirstFile(paths: seq<string>, lengths: map<string, nat>): Option<string> {
    if paths == [] then None
    else if paths[0] in lengths then Some(paths[0])
    else FirstFile(paths[1..], lengths)
  }

  /** The file a citation means: at the root, or in the nearest directory above the entry's file. */
  function CitedFile(repo: Repository, c: Citation, entryPath: string): Option<string> {
    FirstFile(if FromRoot(c.path) then [c.path] else repo.nearby(entryPath, c.path), repo.lengths)
  }

  /** A citation names an existing line; or is broken; or may be no citation at all. */
  datatype CitationVerdict = Good | Broken | Loose

  function Judge(repo: Repository, c: Citation, entryPath: string): CitationVerdict {
    match CitedFile(repo, c, entryPath)
    case None => if FromRoot(c.path) then Broken else Loose
    case Some(file) => if file in repo.lengths && 0 < c.line <= repo.lengths[file] then Good else Broken
  }

  /** The citations with that verdict, in order. */
  function Judged(repo: Repository, cs: seq<Citation>, entryPath: string, v: CitationVerdict): seq<Citation> {
    if cs == [] then []
    else Judged(repo, cs[..|cs| - 1], entryPath, v) + if Judge(repo, Last(cs), entryPath) == v then [Last(cs)] else []
  }

  /**
   * A citation is broken exactly when it names no line: no file at the root, or a line past
   * the end of the file it means.
   */
  lemma {:induction false} BrokenIff(repo: Repository, c: Citation, entryPath: string)
    ensures Judge(repo, c, entryPath).Broken? <==>
              var tried := if FromRoot(c.path) then [c.path] else repo.nearby(entryPath, c.path);
              if exists k :: 0 <= k < |tried| && tried[k] in repo.lengths
              then exists k :: FirstIn(repo, tried, k) && !(0 < c.line <= repo.lengths[tried[k]])
              else FromRoot(c.path)
  {
    var tried := if FromRoot(c.path) then [c.path] else repo.nearby(entryPath, c.path);
    FirstFileIs(tried, repo);
  }

  predicate FirstIn(repo: Repository, paths: seq<string>, k: int) {
    0 <= k < |paths| && paths[k] in repo.lengths && forall i :: 0 <= i < k ==> paths[i] !in repo.lengths
  }

  lemma {:induction false} FirstFileIs(paths: seq<string>, repo: Repository)
    ensures var r := FirstFile(paths, repo.lengths);
            if r.None? then forall k :: 0 <= k < |paths| ==> paths[k] !in repo.lengths
            else exists k :: FirstIn(repo, paths, k) && r == Some(paths[k])
  {
    if paths != [] {
      FirstFileIs(paths[1..], repo);
      if paths[0] in repo.lengths {
        assert FirstIn(repo, paths, 0);
      } else if FirstFile(paths[1..], repo.lengths).Some? {
        var k :| FirstIn(repo, paths[1..], k) && FirstFile(paths, repo.lengths) == Some(paths[1..][k]);
        assert forall i :: 0 <= i < k + 1 ==> i > 0 ==> paths[i] == paths[1..][i - 1];
        assert FirstIn(repo, paths, k + 1);
      }
    }
  }

  datatype Error = MissingSource(number: nat) | TwoRows

  datatype Move = LineMoved(number: nat) | CellMoved(number: nat)

  /** What a pass has to say: entries it cannot resolve, reasons to audit one again, warnings, and places it moved. */
  datatype Findings = Findings(config: seq<nat>, drift: seq<nat>, warned: seq<nat>, moved: seq<Move>)

  datatype Report = Report(entries: seq<Entry>, md: seq<string>, found: Findings)

  predicate HasSource(repo: Repository, e: Entry) {
    e.snippet.None? || Blank(e.snippet.value) || e.path in repo.sources
  }

  function Verdict(repo: Repository, e: Entry): Resolution
    requires HasSource(repo, e)
  {
    Resolve(if e.path in repo.sources then repo.sources[e.path] else [], repo.header, e)
  }

  /** How the markdown ledger mirrors an entry. */
  datatype Mirror = NoRow | OtherFile | OtherRule | Mirrored(index: nat, row: Row)

  function MirrorOf(rows: map<nat, Placed>, e: Entry): Mirror {
    if e.number !in rows then NoRow
    else
      var p := rows[e.number];
      if FileOf(p.row.fileline) != e.path then OtherFile
      else if Some(p.row.rule) != e.rule then OtherRule
      else Mirrored(p.index, p.row)
  }

  /** The rewriting of one row. */
  datatype Patch = Patch(index: nat, row: Row, content: string)

  function PatchOf(repo: Repository, rows: map<nat, Placed>, e: Entry): Option<Patch>
    requires HasSource(repo, e)
  {
    var r, m := Verdict(repo, e), MirrorOf(rows, e);
    if r.At? && m.Mirrored? && m.row.fileline != FileLine(e.path, r.line)
    then Some(Patch(m.index, m.row, FileLine(e.path, r.line)))
    else None
  }

  function Apply(md: seq<string>, patch: Option<Patch>): (r: seq<string>)
    ensures |r| == |md|
  {
    match patch
    case None => md
    case Some(p) => if p.index < |md| then md[p.index := RewriteCell(md[p.index], p.row, p.content)] else md
  }

  /** The entry with the line its content stands on. */
  function Derived(repo: Repository, e: Entry): Entry
    requires HasSource(repo, e)
  {
    var r := Verdict(repo, e);
    if r.At? then e.(line := Some(r.line)) else e
  }

  function Mentioned(repo: Repository, rows: map<nat, Placed>, e: Entry): Findings
    requires HasSource(repo, e)
  {
    match Verdict(repo, e)
    case Unresolvable => Findings([e.number], [], [], [])
    case Gone => Findings([], [e.number], [], [])
    case At(c, stale) =>
      var cited := repo.cited(e.justification);
      var mirrored := if MirrorOf(rows, e).Mirrored? then [] else [e.number];
      var line := if e.line != Some(c) then [LineMoved(e.number)] else [];
      var cell := if PatchOf(repo, rows, e).Some? then [CellMoved(e.number)] else [];
      Findings(
        [],
        Repeated(e.number, |Judged(repo, cited, e.path, Broken)|) + mirrored,
        (if stale then [e.number] else []) + Repeated(e.number, |Judged(repo, cited, e.path, Loose)|),
        line + cell)
  }

  function Repeated(number: nat, n: nat): (r: seq<nat>)
    ensures |r| == n
  {
    seq(n, _ => number)
  }

  function Both(a: Findings, b: Findings): Findings {
    Findings(a.config + b.config, a.drift + b.drift, a.warned + b.warned, a.moved + b.moved)
  }

  predicate HaveSources(repo: Repository, entries: seq<Entry>, n: nat) {
    forall k :: 0 <= k < n && k < |entries| ==> HasSource(repo, entries[k])
  }

  /** The first `n` entries with their derived lines. */
  function DerivedEntries(repo: Repository, entries: seq<Entry>, n: nat): (r: seq<Entry>)
    requires n <= |entries| && HaveSources(repo, entries, n)
    ensures |r| == |entries|
  {
    if n == 0 then entries else DerivedEntries(repo, entries, n - 1)[n - 1 := Derived(repo, entries[n - 1])]
  }

  /** The markdown ledger with the rows of the first `n` entries rewritten, each from the cells first read. */
  function Patched(repo: Repository, rows: map<nat, Placed>, entries: seq<Entry>, md: seq<string>,
                   n: nat): (r: seq<string>)
    requires n <= |entries| && HaveSources(repo, entries, n)
    ensures |r| == |md|
  {
    if n == 0 then md
    else Apply(Patched(repo, rows, entries, md, n - 1), PatchOf(repo, rows, entries[n - 1]))
  }

  function AllMentioned(repo: Repository, rows: map<nat, Placed>, entries: seq<Entry>, n: nat): Findings
    requires n <= |entries| && HaveSources(repo, entries, n)
  {
    if n == 0 then Findings([], [], [], [])
    else Both(AllMentioned(repo, rows, entries, n - 1), Mentioned(repo, rows, entries[n - 1]))
  }

  const EXIT_OK: int := 0
  const EXIT_PRECONDITION: int := 5
  const EXIT_DRIFT: int := 6
  const EXIT_EXPIRED: int := 7

  function ExitCode(found: Findings, inWindow: bool): int {
    if found.config != [] then EXIT_PRECONDITION
    else if found.drift != [] then EXIT_DRIFT
    else if !inWindow then EXIT_EXPIRED
    else EXIT_OK
  }

  lemma SourceIs(repo: Repository, e: Entry)
    ensures !HasSource(repo, e) <==> e.snippet.Some? && !Blank(e.snippet.value) && e.path !in repo.sources
  {
  }

  lemma {:induction false} DerivedAt(repo: Repository, entries: seq<Entry>, n: nat, k: nat)
    requires n <= |entries| && HaveSources(repo, entries, n) && k < |entries|
    ensures DerivedEntries(repo, entries, n)[k] == if k < n then Derived(repo, entries[k]) else entries[k]
  {
    hide HasSource, Derived;
    if n > 0 { DerivedAt(repo, entries, n - 1, k); }
  }

  /** Reads the rows of the markdown ledger, and stops at a second row for an alert. */
  method ParseMd(anchor: Anchor, md: seq<string>) returns (r: Result<map<nat, Placed>, Error>)
    ensures r == match Rows(anchor, md, |md|) case None => Err(TwoRows) case Some(rows) => Ok(rows)
    ensures r.Err? <==> Doubled(anchor, md, |md|)
    ensures r.Ok? ==> AreRows(anchor, md, |md|, r.value)
  {
    hide Rows, ParseRow, Doubled, AreRows;
    RowsFailIff(anchor, md, |md|);
    if Rows(anchor, md, |md|).Some? { RowsAre(anchor, md, |md|); }
    var rows: map<nat, Placed> := map[];
    NoRowsYet(anchor, md);
    for i := 0 to |md|
      invariant Rows(anchor, md, i) == Some(rows)
    {
      MoreRows(anchor, md, i);
      var row := ParseRow(anchor, md[i]);
      if row.Some? {
        if row.value.number in rows {
          NoRowsLater(anchor, md, i + 1, |md|);
          return Err(TwoRows);
        }
        rows := rows[row.value.number := Placed(i, row.value)];
      }
    }
    return Ok(rows);
  }

  /** Checks the citations of a justification: the broken ones, and the ones that may be none. */
  method CheckCitations(repo: Repository, justification: string, entryPath: string)
      returns (broken: seq<Citation>, loose: seq<Citation>)
    ensures broken == Judged(repo, repo.cited(justification), entryPath, Broken)
    ensures loose == Judged(repo, repo.cited(justification), entryPath, Loose)
  {
    hide Judge;
    var cs := repo.cited(justification);
    broken, loose := [], [];
    for i := 0 to |cs|
      invariant broken == Judged(repo, cs[..i], entryPath, Broken)
      invariant loose == Judged(repo, cs[..i], entryPath, Loose)
    {
      assert cs[..i + 1][..i] == cs[..i];
      match Judge(repo, cs[i], entryPath)
      case Good =>
      case Broken => broken := broken + [cs[i]];
      case Loose => loose := loose + [cs[i]];
    }
    assert cs[..|cs|] == cs;
  }

  // ---- what the findings say

  predicate Unresolved(repo: Repository, e: Entry)
    requires HasSource(repo, e)
  {
    Verdict(repo, e) == Unresolvable
  }

  /** The statement is gone; or it is found, and a citation is broken or no row of its file and rule mirrors it. */
  ghost predicate ToAudit(repo: Repository, rows: map<nat, Placed>, e: Entry)
    requires HasSource(repo, e)
  {
    var r := Verdict(repo, e);
    || r == Gone
    || (r.At? && exists c :: c in repo.cited(e.justification) && Judge(repo, c, e.path) == Broken)
    || (r.At? && !(e.number in rows && FileOf(rows[e.number].row.fileline) == e.path
                   && Some(rows[e.number].row.rule) == e.rule))
  }

  /** The statement is found, and its function is not the one named, or a citation may be none. */
  ghost predicate ToWarn(repo: Repository, e: Entry)
    requires HasSource(repo, e)
  {
    var r := Verdict(repo, e);
    r.At? && (r.stale || exists c :: c in repo.cited(e.justification) && Judge(repo, c, e.path) == Loose)
  }

  /** The statement is found on another line than the recorded one. */
  predicate OffLine(repo: Repository, e: Entry)
    requires HasSource(repo, e)
  {
    Verdict(repo, e).At? && e.line != Some(Verdict(repo, e).line)
  }

  /** The statement is found, and the row that mirrors it names another place. */
  predicate OffCell(repo: Repository, rows: map<nat, Placed>, e: Entry)
    requires HasSource(repo, e)
  {
    && Verdict(repo, e).At? && e.number in rows && FileOf(rows[e.number].row.fileline) == e.path
    && Some(rows[e.number].row.rule) == e.rule
    && rows[e.number].row.fileline != FileLine(e.path, Verdict(repo, e).line)
  }

  /** Some of the first `n` entries is of that alert and has that reason. */
  ghost predicate Reason(entries: seq<Entry>, n: nat, number: nat, holds: Entry -> bool)
    requires n <= |entries|
  {
    exists k :: 0 <= k < n && entries[k].number == number && holds(entries[k])
  }

  lemma ReasonGrows(entries: seq<Entry>, n: nat, number: nat, holds: Entry -> bool)
    requires n < |entries|
    ensures Reason(entries, n + 1, number, holds) <==>
            Reason(entries, n, number, holds) || (entries[n].number == number && holds(entries[n]))
    ensures !Reason(entries, 0, number, holds)
  {
  }

  /** The five reasons for a finding, of the entries whose source can be read. */
  ghost function IsUnresolved(repo: Repository): Entry -> bool {
    (e: Entry) => HasSource(repo, e) && Unresolved(repo, e)
  }

  ghost function IsToAudit(repo: Repository, rows: map<nat, Placed>): Entry -> bool {
    (e: Entry) => HasSource(repo, e) && ToAudit(repo, rows, e)
  }

  ghost function IsToWarn(repo: Repository): Entry -> bool {
    (e: Entry) => HasSource(repo, e) && ToWarn(repo, e)
  }

  ghost function IsOffLine(repo: Repository): Entry -> bool {
    (e: Entry) => HasSource(repo, e) && OffLine(repo, e)
  }

  ghost function IsOffCell(repo: Repository, rows: map<nat, Placed>): Entry -> bool {
    (e: Entry) => HasSource(repo, e) && OffCell(repo, rows, e)
  }

  ghost predicate FoundFor(repo: Repository, rows: map<nat, Placed>, entries: seq<Entry>, n: nat, found: Findings,
                           number: nat)
    requires n <= |entries|
  {
    && (number in found.config <==> Reason(entries, n, number, IsUnresolved(repo)))
    && (number in found.drift <==> Reason(entries, n, number, IsToAudit(repo, rows)))
    && (number in found.warned <==> Reason(entries, n, number, IsToWarn(repo)))
    && (LineMoved(number) in found.moved <==> Reason(entries, n, number, IsOffLine(repo)))
    && (CellMoved(number) in found.moved <==> Reason(entries, n, number, IsOffCell(repo, rows)))
  }

  /** Every alert found is found for a reason, and every reason is found. */
  ghost predicate FindingsMean(repo: Repository, rows: map<nat, Placed>, entries: seq<Entry>, n: nat, found: Findings)
    requires n <= |entries|
  {
    forall number :: FoundFor(repo, rows, entries, n, found, number)
  }

  lemma {:induction false} JudgedHas(repo: Repository, cs: seq<Citation>, entryPath: string, v: CitationVerdict)
    ensures Judged(repo, cs, entryPath, v) != [] <==> exists c :: c in cs && Judge(repo, c, entryPath) == v
    decreases |cs|
  {
    hide Judge;
    if cs != [] {
      FrontAndLast(cs);
      JudgedHas(repo, cs[..|cs| - 1], entryPath, v);
    }
  }

  /** What one entry adds to the findings. */
  lemma {:induction false} MentionedMeans(repo: Repository, rows: map<nat, Placed>, e: Entry, number: nat)
    requires HasSource(repo, e)
    ensures var f := Mentioned(repo, rows, e);
            && (number in f.config <==> number == e.number && Unresolved(repo, e))
            && (number in f.drift <==> number == e.number && ToAudit(repo, rows, e))
            && (number in f.warned <==> number == e.number && ToWarn(repo, e))
  {
    hide Verdict, HasSource, Judge, Judged, PatchOf, Repeated, ToAudit;
    var cited := repo.cited(e.justification);
    DriftMeans(repo, rows, e, number);
    JudgedHas(repo, cited, e.path, Loose);
    RepeatedHas(e.number, |Judged(repo, cited, e.path, Loose)|, number);
  }

  lemma {:induction false} DriftMeans(repo: Repository, rows: map<nat, Placed>, e: Entry, number: nat)
    requires HasSource(repo, e)
    ensures number in Mentioned(repo, rows, e).drift <==> number == e.number && ToAudit(repo, rows, e)
  {
    hide Verdict, HasSource, Judge, Judged, FileOf, FileLine, PatchOf, Repeated;
    var cited := repo.cited(e.justification);
    JudgedHas(repo, cited, e.path, Broken);
    RepeatedHas(e.number, |Judged(repo, cited, e.path, Broken)|, number);
  }

  lemma {:induction false} MovesMean(repo: Repository, rows: map<nat, Placed>, e: Entry, number: nat)
    requires HasSource(repo, e)
    ensures var f := Mentioned(repo, rows, e);
            && (LineMoved(number) in f.moved <==> number == e.number && OffLine(repo, e))
            && (CellMoved(number) in f.moved <==> number == e.number && OffCell(repo, rows, e))
  {
    hide Verdict, HasSource, Judged, FileOf, FileLine, Repeated;
  }

  lemma RepeatedHas(number: nat, n: nat, other: nat)
    ensures other in Repeated(number, n) <==> n > 0 && other == number
  {
    if n > 0 { assert Repeated(number, n)[0] == number; }
  }

  lemma {:induction false} OneMoreFound(repo: Repository, rows: map<nat, Placed>, entries: seq<Entry>, n: nat,
                                        before: Findings, number: nat)
    requires n < |entries| && HasSource(repo, entries[n]) && FoundFor(repo, rows, entries, n, before, number)
    ensures FoundFor(repo, rows, entries, n + 1, Both(before, Mentioned(repo, rows, entries[n])), number)
  {
    hide HasSource, Mentioned, Unresolved, ToAudit, ToWarn, OffLine, OffCell, Reason;
    MentionedMeans(repo, rows, entries[n], number);
    MovesMean(repo, rows, entries[n], number);
    ReasonGrows(entries, n, number, IsUnresolved(repo));
    ReasonGrows(entries, n, number, IsToAudit(repo, rows));
    ReasonGrows(entries, n, number, IsToWarn(repo));
    ReasonGrows(entries, n, number, IsOffLine(repo));
    ReasonGrows(entries, n, number, IsOffCell(repo, rows));
  }

  lemma {:induction false} AllMentionedMean(repo: Repository, rows: map<nat, Placed>, entries: seq<Entry>, n: nat)
    requires n <= |entries| && HaveSources(repo, entries, n)
    ensures FindingsMean(repo, rows, entries, n, AllMentioned(repo, rows, entries, n))
    decreases n
  {
    hide HasSource, Mentioned, FoundFor;
    if n == 0 {
      NothingFound(repo, rows, entries);
    } else {
      AllMentionedMean(repo, rows, entries, n - 1);
      var before := AllMentioned(repo, rows, entries, n - 1);
      var now := Both(before, Mentioned(repo, rows, entries[n - 1]));
      forall number: nat ensures FoundFor(repo, rows, entries, n, now, number) {
        OneMoreFound(repo, rows, entries, n - 1, before, number);
      }
    }
  }

  lemma NothingFound(repo: Repository, rows: map<nat, Placed>, entries: seq<Entry>)
    ensures FindingsMean(repo, rows, entries, 0, Findings([], [], [], []))
  {
  }

  /** Both ledgers and every source can be read. */
  ghost predicate Readable(repo: Repository, entries: seq<Entry>, md: seq<string>) {
    HaveSources(repo, entries, |entries|) && Rows(repo.anchor, md, |md|).Some?
  }

  /** One pass: reads both ledgers, resolves every entry, and rewrites the places that moved. */
  method CheckAnchors(repo: Repository, ledger: seq<Entry>, mdLedger: seq<string>, noRewrite: bool, inWindow: bool)
    returns (r: Result<Report, Error>, exit: int)
    ensures r == Err(TwoRows) <==> Doubled(repo.anchor, mdLedger, |mdLedger|)
    ensures r.Err? ==> exit == 5
    ensures r.Ok? <==> Readable(repo, ledger, mdLedger)
    ensures r.Ok? ==> r == Ok(Pass(repo, ledger, mdLedger, noRewrite))
    ensures r.Ok? && noRewrite ==> r.value.entries == ledger && r.value.md == mdLedger
    ensures r.Ok? && !noRewrite ==>
              && |r.value.entries| == |ledger| && |r.value.md| == |mdLedger|
              && forall k :: 0 <= k < |ledger| ==>
                   var v := Verdict(repo, ledger[k]);
                   r.value.entries[k] == ledger[k].(line := if v.At? then Some(v.line) else ledger[k].line)
    ensures r.Ok? ==> forall k :: 0 <= k < |ledger| && ledger[k].snippet.Some? && !Blank(ledger[k].snippet.value) ==>
              ledger[k].path in repo.sources
    ensures r.Err? && r != Err(TwoRows) ==>
              exists k :: 0 <= k < |ledger| && r == Err(MissingSource(ledger[k].number)) &&
                ledger[k].snippet.Some? && !Blank(ledger[k].snippet.value) && ledger[k].path !in repo.sources
    ensures r.Ok? ==>
              FindingsMean(repo, Rows(repo.anchor, mdLedger, |mdLedger|).value, ledger, |ledger|, r.value.found)
    ensures r.Ok? ==>
              var found := r.value.found;
              && (exit == 5 <==> found.config != [])
              && (exit == 6 <==> found.config == [] && found.drift != [])
              && (exit == 7 <==> found.config == [] && found.drift == [] && !inWindow)
              && (exit == 0 <==> found.config == [] && found.drift == [] && inWindow)
  {
    hide Rows, HasSource, Verdict, MirrorOf, RewriteCell, FileLine, DerivedEntries, Patched;
    hide AllMentioned, Pass, Judged, Doubled, AreRows, Repeated, FindingsMean;
    RowsFailIff(repo.anchor, mdLedger, |mdLedger|);
    var read := ParseMd(repo.anchor, mdLedger);
    if read.Err? { return Err(TwoRows), EXIT_PRECONDITION; }
    var rows := read.value;
    var entries, md := ledger, mdLedger;
    var config, drift, warned, moved := [], [], [], [];
    NothingYet(repo, rows, ledger, mdLedger);
    for k := 0 to |ledger|
      invariant HaveSources(repo, ledger, k)
      invariant entries == DerivedEntries(repo, ledger, k)
      invariant forall i :: k <= i < |ledger| ==> entries[i] == ledger[i]
      invariant md == Patched(repo, rows, ledger, mdLedger, k)
      invariant Findings(config, drift, warned, moved) == AllMentioned(repo, rows, ledger, k)
    {
      var e := entries[k];
      SourceIs(repo, e);
      if !HasSource(repo, e) { return Err(MissingSource(e.number)), EXIT_PRECONDITION; }
      MoreFindings(repo, rows, ledger, mdLedger, k);
      match Verdict(repo, e)
      case Unresolvable => config := config + [e.number];
      case Gone => drift := drift + [e.number];
      case At(c, stale) =>
        if stale { warned := warned + [e.number]; }
        if e.line != Some(c) {
          moved := moved + [LineMoved(e.number)];
          entries := entries[k := e.(line := Some(c))];
        }
        var broken, loose := CheckCitations(repo, e.justification, e.path);
        drift, warned := drift + Repeated(e.number, |broken|), warned + Repeated(e.number, |loose|);
        match MirrorOf(rows, e) {
          case Mirrored(index, row) =>
            var expected := FileLine(e.path, c);
            if row.fileline != expected {
              moved := moved + [CellMoved(e.number)];
              if index < |md| { md := md[index := RewriteCell(md[index], row, expected)]; }
            }
          case _ => drift := drift + [e.number];
        }
    }
    var found := Findings(config, drift, warned, moved);
    PassIs(repo, ledger, mdLedger, noRewrite);
    AllMentionedMean(repo, rows, ledger, |ledger|);
    forall k | 0 <= k < |ledger|
      ensures DerivedEntries(repo, ledger, |ledger|)[k] == Derived(repo, ledger[k])
      ensures Derived(repo, ledger[k]) ==
              var v := Verdict(repo, ledger[k]); ledger[k].(line := if v.At? then Some(v.line) else ledger[k].line)
      ensures ledger[k].snippet.Some? && !Blank(ledger[k].snippet.value) ==> ledger[k].path in repo.sources
    {
      DerivedAt(repo, ledger, |ledger|, k);
      SourceIs(repo, ledger[k]);
    }
    exit := ExitCode(found, inWindow);
    if noRewrite { return Ok(Report(ledger, mdLedger, found)), exit; }
    return Ok(Report(entries, md, found)), exit;
  }

  /** What a pass leaves behind. */
  function Pass(repo: Repository, ledger: seq<Entry>, md: seq<string>, noRewrite: bool): Report
    requires HaveSources(repo, ledger, |ledger|) && Rows(repo.anchor, md, |md|).Some?
  {
    var rows, n := Rows(repo.anchor, md, |md|).value, |ledger|;
    Report(
      if noRewrite then ledger else DerivedEntries(repo, ledger, n),
      if noRewrite then md else Patched(repo, rows, ledger, md, n),
      AllMentioned(repo, rows, ledger, n))
  }

  lemma PassIs(repo: Repository, ledger: seq<Entry>, md: seq<string>, noRewrite: bool)
    requires HaveSources(repo, ledger, |ledger|) && Rows(repo.anchor, md, |md|).Some?
    ensures var rows, n := Rows(repo.anchor, md, |md|).value, |ledger|;
            Pass(repo, ledger, md, noRewrite) ==
            Report(
              if noRewrite then ledger else DerivedEntries(repo, ledger, n),
              if noRewrite then md else Patched(repo, rows, ledger, md, n),
              AllMentioned(repo, rows, ledger, n))
  {
  }

  lemma NoRowsYet(anchor: Anchor, md: seq<string>)
    ensures Rows(anchor, md, 0) == Some(map[])
  {
  }

  lemma MoreRows(anchor: Anchor, md: seq<string>, i: nat)
    requires i < |md| && Rows(anchor, md, i).Some?
    ensures var rows := Rows(anchor, md, i).value;
            Rows(anchor, md, i + 1) ==
            match ParseRow(anchor, md[i])
            case None => Some(rows)
            case Some(row) => if row.number in rows then None else Some(rows[row.number := Placed(i, row)])
  {
    hide ParseRow;
  }

  lemma {:induction false} NoRowsLater(anchor: Anchor, md: seq<string>, i: nat, n: nat)
    requires i <= n <= |md| && Rows(anchor, md, i).None?
    ensures Rows(anchor, md, n).None?
    decreases n
  {
    hide ParseRow;
    if i < n { NoRowsLater(anchor, md, i, n - 1); }
  }

  lemma NothingYet(repo: Repository, rows: map<nat, Placed>, entries: seq<Entry>, md: seq<string>)
    ensures HaveSources(repo, entries, 0) && DerivedEntries(repo, entries, 0) == entries
    ensures Patched(repo, rows, entries, md, 0) == md
            && AllMentioned(repo, rows, entries, 0) == Findings([], [], [], [])
  {
  }

  lemma MoreFindings(repo: Repository, rows: map<nat, Placed>, entries: seq<Entry>, md: seq<string>, k: nat)
    requires k < |entries| && HaveSources(repo, entries, k) && HasSource(repo, entries[k])
    ensures HaveSources(repo, entries, k + 1)
    ensures DerivedEntries(repo, entries, k + 1) == DerivedEntries(repo, entries, k)[k := Derived(repo, entries[k])]
    ensures Patched(repo, rows, entries, md, k + 1) ==
            Apply(Patched(repo, rows, entries, md, k), PatchOf(repo, rows, entries[k]))
    ensures AllMentioned(repo, rows, entries, k + 1) ==
            Both(AllMentioned(repo, rows, entries, k), Mentioned(repo, rows, entries[k]))
  {
    hide HasSource, Mentioned, Derived, PatchOf;
  }
}
