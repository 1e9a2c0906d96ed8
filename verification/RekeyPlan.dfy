/** Deciding which ledger entries to point at which live alerts. */
module RekeyPlan {
  import opened Prelude
  import opened Numerals

  /** An open alert; the location may lack its lines. */
  datatype Alert = Alert(number: nat, rule: string, path: string, start: Option<int>, end: Option<int>)

  datatype Span = Span(rule: string, path: string, start: int, end: int)

  datatype Entry = Entry(number: nat, rule: string, path: string, line: int, anchor: string)

  /** The span of a live alert; a missing or zero end, or one before the start, is the start. */
  function SpanOf(a: Alert): (s: Span)
    ensures s.start <= s.end
  {
    var start := if a.start.Some? then a.start.value else 0;
    var end := if a.end.None? || a.end.value == 0 then start else a.end.value;
    Span(a.rule, a.path, start, Max(start, end))
  }

  predicate Covers(s: Span, e: Entry) {
    s.rule == e.rule && s.path == e.path && s.start <= e.line <= s.end
  }

  /** The numbers of the alerts that cover an entry, as listed. */
  function Covering(alerts: seq<Alert>, e: Entry): seq<nat> {
    if alerts == [] then []
    else
      var before := Covering(alerts[..|alerts| - 1], e);
      if Covers(SpanOf(Last(alerts)), e) then before + [Last(alerts).number] else before
  }

  /** The span of the open alert with a number; the last one listed wins. */
  function Live(alerts: seq<Alert>, number: nat): Option<Span> {
    if alerts == [] then None
    else if Last(alerts).number == number then Some(SpanOf(Last(alerts)))
    else Live(alerts[..|alerts| - 1], number)
  }

  /** Numbers from the smallest to the largest. */
  function InOrder(s: seq<nat>): seq<nat> {
    if s == [] then [] else Slotted(InOrder(s[..|s| - 1]), Last(s))
  }

  /** A number slotted into ordered ones, behind its equals. */
  function Slotted(s: seq<nat>, n: nat): seq<nat> {
    if s == [] || Last(s) <= n then s + [n] else Slotted(s[..|s| - 1], n) + [Last(s)]
  }

  datatype Verdict = Settled | Drifted(live: Span) | Unmatched | Ambiguous(candidates: seq<nat>) | Moves(target: nat)

  function VerdictOf(alerts: seq<Alert>, e: Entry): Verdict {
    var live, candidates := Live(alerts, e.number), Covering(alerts, e);
    if live.Some? then (if Covers(live.value, e) then Settled else Drifted(live.value))
    else if candidates == [] then Unmatched
    else if |candidates| > 1 then Ambiguous(InOrder(candidates))
    else Moves(candidates[0])
  }

  datatype Plan = Plan(mapping: map<nat, nat>, unmatched: seq<Entry>, ambiguous: seq<(Entry, seq<nat>)>,
                       drifted: seq<(Entry, Span)>)

  function Extended(p: Plan, e: Entry, v: Verdict): Plan {
    match v
    case Settled => p
    case Drifted(live) => p.(drifted := p.drifted + [(e, live)])
    case Unmatched => p.(unmatched := p.unmatched + [e])
    case Ambiguous(candidates) => p.(ambiguous := p.ambiguous + [(e, candidates)])
    case Moves(target) => p.(mapping := p.mapping[e.number := target])
  }

  /** What the verdicts on the first `n` entries add up to. */
  function PlanOf(alerts: seq<Alert>, entries: seq<Entry>, n: nat): Plan
    requires n <= |entries|
  {
    if n == 0 then Plan(map[], [], [], [])
    else Extended(PlanOf(alerts, entries, n - 1), entries[n - 1], VerdictOf(alerts, entries[n - 1]))
  }

  method PlanRekey(entries: seq<Entry>, alerts: seq<Alert>) returns (p: Plan)
    ensures p == PlanOf(alerts, entries, |entries|)
  {
    hide Covers, SpanOf;
    var mapping: map<nat, nat> := map[];
    var unmatched, ambiguous, drifted := [], [], [];
    for k := 0 to |entries|
      invariant Plan(mapping, unmatched, ambiguous, drifted) == PlanOf(alerts, entries, k)
    {
      var e := entries[k];
      var candidates := Covering(alerts, e);
      var live := Live(alerts, e.number);
      if live.Some? {
        if !Covers(live.value, e) { drifted := drifted + [(e, live.value)]; }
      } else if candidates == [] {
        unmatched := unmatched + [e];
      } else if |candidates| > 1 {
        ambiguous := ambiguous + [(e, InOrder(candidates))];
      } else {
        CandidatesAreLive(alerts, e);
        var target := candidates[0];
        if target != e.number { mapping := mapping[e.number := target]; }
      }
    }
    return Plan(mapping, unmatched, ambiguous, drifted);
  }

  /** An entry pointed at its new alert, in number and in anchor. */
  function Rekeyed(mapping: map<nat, nat>, e: Entry): Entry {
    if e.number in mapping then e.(number := mapping[e.number], anchor := "alert-" + Decimal(mapping[e.number])) else e
  }

  method ApplyMapping(ledger: seq<Entry>, mapping: map<nat, nat>) returns (entries: seq<Entry>)
    ensures |entries| == |ledger| && forall k :: 0 <= k < |ledger| ==> entries[k] == Rekeyed(mapping, ledger[k])
    ensures forall k :: 0 <= k < |ledger| ==>
              var was, now := ledger[k], entries[k];
              if was.number in mapping
              then now == Entry(mapping[was.number], was.rule, was.path, was.line,
                                "alert-" + Decimal(mapping[was.number]))
              else now == was
  {
    hide Decimal;
    entries := ledger;
    for k := 0 to |ledger|
      invariant |entries| == |ledger|
      invariant forall i :: 0 <= i < k ==> entries[i] == Rekeyed(mapping, ledger[i])
      invariant forall i :: k <= i < |ledger| ==> entries[i] == ledger[i]
    {
      var current := entries[k].number;
      if current in mapping {
        var anchor := "alert-" + Decimal(mapping[current]);
        entries := entries[k := entries[k].(number := mapping[current], anchor := anchor)];
      }
    }
  }

  // ------------------------------------------------------------ what the verdicts mean

  predicate IsOpen(alerts: seq<Alert>, number: nat) {
    exists i :: 0 <= i < |alerts| && alerts[i].number == number
  }

  predicate DistinctAlerts(alerts: seq<Alert>) {
    forall i, j :: 0 <= i < j < |alerts| ==> alerts[i].number != alerts[j].number
  }

  lemma {:induction false} LiveMeans(alerts: seq<Alert>, number: nat)
    ensures Live(alerts, number).Some? <==> IsOpen(alerts, number)
    decreases |alerts|
  {
    hide SpanOf;
    if alerts != [] {
      var front := alerts[..|alerts| - 1];
      LiveMeans(front, number);
      assert Last(alerts) == alerts[|alerts| - 1];
      assert forall i :: 0 <= i < |front| ==> front[i] == alerts[i];
    }
  }

  predicate Ordered(s: seq<nat>) {
    forall i, j :: 0 <= i < j < |s| ==> s[i] <= s[j]
  }

  predicate AtMost(s: seq<nat>, bound: nat) {
    forall i :: 0 <= i < |s| ==> s[i] <= bound
  }

  lemma OrderedAppend(s: seq<nat>, n: nat)
    requires Ordered(s) && AtMost(s, n)
    ensures Ordered(s + [n])
  {
  }

  lemma OrderedFront(s: seq<nat>)
    requires Ordered(s) && s != []
    ensures Ordered(s[..|s| - 1]) && AtMost(s[..|s| - 1], Last(s)) && AtMost(s, Last(s))
  {
  }

  lemma {:induction false} SlottedIsOrdered(s: seq<nat>, n: nat)
    requires Ordered(s)
    ensures Ordered(Slotted(s, n))
    ensures s != [] ==> AtMost(Slotted(s, n), Max(n, Last(s)))
    decreases |s|
  {
    hide Ordered;
    if s == [] || Last(s) <= n {
      if s != [] { OrderedFront(s); }
      assert AtMost(s, n);
      OrderedAppend(s, n);
    } else {
      var front := s[..|s| - 1];
      OrderedFront(s);
      SlottedIsOrdered(front, n);
      assert front != [] ==> Last(front) <= Last(s);
      OrderedAppend(Slotted(front, n), Last(s));
    }
  }

  lemma {:induction false} SlottedCounts(s: seq<nat>, n: nat)
    ensures multiset(Slotted(s, n)) == multiset(s) + multiset{n}
    decreases |s|
  {
    if s != [] && Last(s) > n {
      SlottedCounts(s[..|s| - 1], n);
      assert s == s[..|s| - 1] + [Last(s)];
    }
  }

  lemma NothingIsOrdered()
    ensures Ordered([])
  {
  }

  /** The candidates of an ambiguous entry are reported in order, and none is left out. */
  lemma {:induction false} InOrderIs(s: seq<nat>)
    ensures Ordered(InOrder(s)) && multiset(InOrder(s)) == multiset(s)
    decreases |s|
  {
    hide Slotted, Ordered;
    if s == [] {
      assert Ordered([]) by { NothingIsOrdered(); }
    } else {
      InOrderIs(s[..|s| - 1]);
      SlottedIsOrdered(InOrder(s[..|s| - 1]), Last(s));
      SlottedCounts(InOrder(s[..|s| - 1]), Last(s));
      assert s == s[..|s| - 1] + [Last(s)];
    }
  }

  /** Candidates are open alerts. */
  lemma {:induction false} CandidatesAreLive(alerts: seq<Alert>, e: Entry)
    ensures forall c :: c in Covering(alerts, e) ==> Live(alerts, c).Some?
    decreases |alerts|
  {
    hide Covers, SpanOf;
    if alerts != [] { CandidatesAreLive(alerts[..|alerts| - 1], e); }
  }

  /** The candidates are the alerts that cover the entry, each listed once. */
  lemma {:induction false} CandidatesCover(alerts: seq<Alert>, e: Entry)
    requires DistinctAlerts(alerts)
    ensures forall c :: c in Covering(alerts, e) <==> Live(alerts, c).Some? && Covers(Live(alerts, c).value, e)
    decreases |alerts|
  {
    hide Covers, SpanOf;
    if alerts != [] {
      var front := alerts[..|alerts| - 1];
      assert forall i, j :: 0 <= i < j < |front| ==> front[i] == alerts[i] && front[j] == alerts[j];
      CandidatesCover(front, e);
      LiveMeans(front, Last(alerts).number);
    }
  }

  /**
   * An entry is left alone when its own open alert covers it, and unmatched when its
   * alert is closed and no open one covers it; it moves only to an alert that covers it.
   */
  lemma {:induction false} VerdictMeans(alerts: seq<Alert>, e: Entry)
    requires DistinctAlerts(alerts)
    ensures var v := VerdictOf(alerts, e);
            && (v.Settled? <==> e.number in Covering(alerts, e))
            && (v.Unmatched? <==> !IsOpen(alerts, e.number) && Covering(alerts, e) == [])
            && (v.Drifted? <==> IsOpen(alerts, e.number) && e.number !in Covering(alerts, e))
            && (v.Moves? ==> !IsOpen(alerts, e.number) && Covering(alerts, e) == [v.target])
            && (v.Ambiguous? ==>
                  && !IsOpen(alerts, e.number) && |Covering(alerts, e)| > 1
                  && Ordered(v.candidates) && multiset(v.candidates) == multiset(Covering(alerts, e)))
  {
    hide Covers, SpanOf, Live, IsOpen, Covering, InOrder, Ordered;
    InOrderIs(Covering(alerts, e));
    LiveMeans(alerts, e.number);
    CandidatesCover(alerts, e);
  }

  /**
   * An alert covers the entries of its rule and file from its start to its end; it ends
   * where it starts when no later end is given.
   */
  lemma CoversIff(a: Alert, e: Entry)
    ensures var start := match a.start case None => 0 case Some(n) => n;
            Covers(SpanOf(a), e) <==>
              && a.rule == e.rule && a.path == e.path && start <= e.line
              && (e.line == start || (a.end.Some? && a.end.value != 0 && e.line <= a.end.value))
  {
  }

  /** The span behind a number is that of its open alert. */
  lemma {:induction false} LiveIs(alerts: seq<Alert>, i: nat)
    requires DistinctAlerts(alerts) && i < |alerts|
    ensures Live(alerts, alerts[i].number) == Some(SpanOf(alerts[i]))
    decreases |alerts|
  {
    hide SpanOf;
    if i < |alerts| - 1 {
      assert Last(alerts) == alerts[|alerts| - 1];
      LiveIs(alerts[..|alerts| - 1], i);
    }
  }

  /** Each list of the plan has the entries of its verdict, in ledger order, with what the verdict names. */
  lemma {:induction false} PlanLists(alerts: seq<Alert>, entries: seq<Entry>, n: nat)
    requires n <= |entries|
    ensures var p := PlanOf(alerts, entries, n);
            && p.unmatched == Filter(entries[..n], IsUnmatched(alerts))
            && Firsts(p.ambiguous) == Filter(entries[..n], IsAmbiguous(alerts))
            && Firsts(p.drifted) == Filter(entries[..n], IsDrifted(alerts))
            && (forall i :: 0 <= i < |p.ambiguous| ==>
                VerdictOf(alerts, p.ambiguous[i].0) == Ambiguous(p.ambiguous[i].1))
            && (forall i :: 0 <= i < |p.drifted| ==> VerdictOf(alerts, p.drifted[i].0) == Drifted(p.drifted[i].1))
  {
    hide VerdictOf, Filter;
    if n == 0 {
      NothingListed(alerts);
    } else {
      var front, e := entries[..n - 1], entries[n - 1];
      PlanLists(alerts, entries, n - 1);
      assert entries[..n] == front + [e];
      FilterAppend(front, e, IsUnmatched(alerts));
      FilterAppend(front, e, IsAmbiguous(alerts));
      FilterAppend(front, e, IsDrifted(alerts));
      var p := PlanOf(alerts, entries, n - 1);
      FirstsAppend(p.ambiguous, e);
      FirstsAppend(p.drifted, e);
    }
  }

  function IsUnmatched(alerts: seq<Alert>): Entry -> bool {
    (e: Entry) => VerdictOf(alerts, e).Unmatched?
  }

  function IsAmbiguous(alerts: seq<Alert>): Entry -> bool {
    (e: Entry) => VerdictOf(alerts, e).Ambiguous?
  }

  function IsDrifted(alerts: seq<Alert>): Entry -> bool {
    (e: Entry) => VerdictOf(alerts, e).Drifted?
  }

  function Firsts<T>(pairs: seq<(Entry, T)>): seq<Entry> {
    seq(|pairs|, i requires 0 <= i < |pairs| => pairs[i].0)
  }

  lemma FirstsAppend<T>(pairs: seq<(Entry, T)>, e: Entry)
    ensures forall x: T :: Firsts(pairs + [(e, x)]) == Firsts(pairs) + [e]
  {
  }

  lemma NothingListed(alerts: seq<Alert>)
    ensures Filter([], IsUnmatched(alerts)) == [] && Filter([], IsAmbiguous(alerts)) == []
    ensures Filter([], IsDrifted(alerts)) == []
  {
  }

  lemma FilterAppend(entries: seq<Entry>, e: Entry, keep: Entry -> bool)
    ensures Filter(entries + [e], keep) == Filter(entries, keep) + (if keep(e) then [e] else [])
    ensures Filter(entries, keep) + [] == Filter(entries, keep)
  {
    FilterConcat(entries, [e], keep);
    FilterOne(e, keep);
  }

  // ------------------------------------------------------------ planning again

  lemma {:induction false} PlanMeans(alerts: seq<Alert>, entries: seq<Entry>, n: nat)
    requires n <= |entries|
    ensures var p := PlanOf(alerts, entries, n);
            && (p.ambiguous == [] <==> forall k :: 0 <= k < n ==> !VerdictOf(alerts, entries[k]).Ambiguous?)
            && (p.drifted == [] <==> forall k :: 0 <= k < n ==> !VerdictOf(alerts, entries[k]).Drifted?)
            && (forall k :: 0 <= k < n && VerdictOf(alerts, entries[k]).Moves? ==> entries[k].number in p.mapping)
            && (forall m :: m in p.mapping ==>
                  exists k :: 0 <= k < n && entries[k].number == m
                      && VerdictOf(alerts, entries[k]) == Moves(p.mapping[m]))
  {
    hide VerdictOf;
    if n > 0 {
      PlanMeans(alerts, entries, n - 1);
    }
  }

  /** A plan with nothing to do and nothing to complain about. */
  predicate Quiet(p: Plan) {
    p.mapping == map[] && p.ambiguous == [] && p.drifted == []
  }

  function RekeyedAll(mapping: map<nat, nat>, entries: seq<Entry>): (r: seq<Entry>)
    ensures |r| == |entries| && forall k :: 0 <= k < |r| ==> r[k] == Rekeyed(mapping, entries[k])
  {
    seq(|entries|, k requires 0 <= k < |entries| => Rekeyed(mapping, entries[k]))
  }

  /** What an entry that keeps its place gets as its verdict once it is rekeyed. */
  lemma {:induction false} RekeyedVerdict(alerts: seq<Alert>, e: Entry, mapping: map<nat, nat>)
    requires e.number in mapping ==> Live(alerts, mapping[e.number]).Some?
    ensures var after := VerdictOf(alerts, Rekeyed(mapping, e));
            && (e.number !in mapping ==> after == VerdictOf(alerts, e))
            && (e.number in mapping ==>
                  var live := Live(alerts, mapping[e.number]).value;
                  after == if Covers(live, e) then Settled else Drifted(live))
  {
    hide Live, Covering, SpanOf, Decimal;
  }

  /** Every entry that takes a new number is covered by the alert of that number. */
  predicate CoversSharers(alerts: seq<Alert>, entries: seq<Entry>, mapping: map<nat, nat>) {
    forall k :: 0 <= k < |entries| && entries[k].number in mapping ==>
      mapping[entries[k].number] in Covering(alerts, entries[k])
  }

  /**
   * Planning again after applying an unambiguous plan without drift has nothing left to
   * do exactly when all entries sharing a number are covered by the alert it moves to.
   */
  lemma {:induction false} ReplanIsQuietIff(alerts: seq<Alert>, entries: seq<Entry>)
    requires DistinctAlerts(alerts)
    requires var p := PlanOf(alerts, entries, |entries|); p.ambiguous == [] && p.drifted == []
    ensures var p := PlanOf(alerts, entries, |entries|);
            Quiet(PlanOf(alerts, RekeyedAll(p.mapping, entries), |entries|)) <==>
                CoversSharers(alerts, entries, p.mapping)
  {
    hide PlanOf, VerdictOf, Covering, IsOpen, Live, Rekeyed, Covers;
    var mapping := PlanOf(alerts, entries, |entries|).mapping;
    var after := RekeyedAll(mapping, entries);
    PlanMeans(alerts, entries, |entries|);
    PlanMeans(alerts, after, |entries|);
    forall k | 0 <= k < |entries|
      ensures var v := VerdictOf(alerts, after[k]);
              if entries[k].number in mapping
              then v.Settled? || v.Drifted?
              else v.Settled? || v.Unmatched?
      ensures entries[k].number in mapping ==>
                (VerdictOf(alerts, after[k]).Settled? <==> mapping[entries[k].number] in Covering(alerts, entries[k]))
    {
      TargetIsOpen(alerts, entries, mapping, entries[k].number);
      RekeyedVerdict(alerts, entries[k], mapping);
      CandidatesCover(alerts, entries[k]);
    }
    var again := PlanOf(alerts, after, |entries|);
    if !CoversSharers(alerts, entries, mapping) {
      var k :| 0 <= k < |entries| && entries[k].number in mapping
          && mapping[entries[k].number] !in Covering(alerts, entries[k]);
      assert VerdictOf(alerts, after[k]).Drifted?;
    }
  }

  lemma {:induction false} TargetIsOpen(alerts: seq<Alert>, entries: seq<Entry>, mapping: map<nat, nat>, number: nat)
    requires mapping == PlanOf(alerts, entries, |entries|).mapping
    ensures number in mapping ==> Live(alerts, mapping[number]).Some?
  {
    hide PlanOf, Covering, Live, Covers;
    PlanMeans(alerts, entries, |entries|);
    if number in mapping {
      var k :| 0 <= k < |entries| && VerdictOf(alerts, entries[k]) == Moves(mapping[number]);
      CandidatesAreLive(alerts, entries[k]);
      assert Covering(alerts, entries[k])[0] == mapping[number];
    }
  }

  predicate DistinctNumbers(entries: seq<Entry>) {
    forall i, j :: 0 <= i < j < |entries| ==> entries[i].number != entries[j].number
  }

  /** With one entry for each number, planning again is quiet, and the same entries stay unmatched. */
  lemma {:induction false} DistinctEntriesSettle(alerts: seq<Alert>, entries: seq<Entry>)
    requires DistinctAlerts(alerts) && DistinctNumbers(entries)
    requires var p := PlanOf(alerts, entries, |entries|); p.ambiguous == [] && p.drifted == []
    ensures var p := PlanOf(alerts, entries, |entries|);
            Quiet(PlanOf(alerts, RekeyedAll(p.mapping, entries), |entries|))
    ensures var p := PlanOf(alerts, entries, |entries|);
            forall k :: 0 <= k < |entries| ==>
              VerdictOf(alerts, Rekeyed(p.mapping, entries[k])) ==
              if VerdictOf(alerts, entries[k]).Unmatched? then Unmatched else Settled
  {
    hide PlanOf, VerdictOf, Covering, IsOpen, Live, Rekeyed, Covers;
    var mapping := PlanOf(alerts, entries, |entries|).mapping;
    PlanMeans(alerts, entries, |entries|);
    forall k | 0 <= k < |entries|
      ensures entries[k].number in mapping ==>
                VerdictOf(alerts, entries[k]) == Moves(mapping[entries[k].number]) &&
                mapping[entries[k].number] in Covering(alerts, entries[k])
      ensures VerdictOf(alerts, Rekeyed(mapping, entries[k])) ==
              if VerdictOf(alerts, entries[k]).Unmatched? then Unmatched else Settled
    {
      OwnTarget(alerts, entries, mapping, k);
      VerdictMeans(alerts, entries[k]);
      TargetIsOpen(alerts, entries, mapping, entries[k].number);
      RekeyedVerdict(alerts, entries[k], mapping);
      CandidatesCover(alerts, entries[k]);
    }
    ReplanIsQuietIff(alerts, entries);
  }

  lemma OwnTarget(alerts: seq<Alert>, entries: seq<Entry>, mapping: map<nat, nat>, k: nat)
    requires DistinctNumbers(entries) && k < |entries| && mapping == PlanOf(alerts, entries, |entries|).mapping
    ensures entries[k].number in mapping <==> VerdictOf(alerts, entries[k]).Moves?
    ensures entries[k].number in mapping ==> VerdictOf(alerts, entries[k]) == Moves(mapping[entries[k].number])
  {
    hide PlanOf, VerdictOf;
    PlanMeans(alerts, entries, |entries|);
  }

  /** The failing case: two entries share a number and only one of them is covered; the next plan sees drift. */
  lemma {:induction false} SharedNumberDrifts()
    ensures var alerts := [Alert(7, "r", "p", Some(1), None)];
            var entries := [Entry(5, "r", "p", 1, ""), Entry(5, "r", "p", 9, "")];
            var p := PlanOf(alerts, entries, 2);
            && p.ambiguous == [] && p.drifted == [] && p.mapping == map[5 := 7]
            && !Quiet(PlanOf(alerts, RekeyedAll(p.mapping, entries), 2))
  {
    var alerts := [Alert(7, "r", "p", Some(1), None)];
    var entries := [Entry(5, "r", "p", 1, ""), Entry(5, "r", "p", 9, "")];
    assert alerts[..0] == [];
    assert VerdictOf(alerts, entries[0]) == Moves(7);
    assert VerdictOf(alerts, entries[1]) == Unmatched;
    assert PlanOf(alerts, entries, 0) == Plan(map[], [], [], []);
    assert PlanOf(alerts, entries, 1) == Plan(map[5 := 7], [], [], []);
    hide VerdictOf, Live, Covers;
    ReplanIsQuietIff(alerts, entries);
    assert 7 !in Covering(alerts, entries[1]);
  }
}
