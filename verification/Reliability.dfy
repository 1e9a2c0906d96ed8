/** The local reliability record: per-tool rows under a cardinality cap, channels and samples. */
module Reliability {
  import opened Prelude
  import opened Latency

  const UNKNOWN: string := "(unknown)"
  const OTHER: string := "(other)"
  const MAX_NAME: nat := 128
  const MAX_SAMPLES: nat := 288
  const OUTCOMES: nat := 7

  datatype Outcome = Success | Failure | Timeout | Denied | Unavailable | BreakerRefused | AwaitingConfirmation
  {
    function Index(): nat {
      match this
      case Success => 0
      case Failure => 1
      case Timeout => 2
      case Denied => 3
      case Unavailable => 4
      case BreakerRefused => 5
      case AwaitingConfirmation => 6
    }

    predicate Executed() {
      Success? || Failure? || Timeout? || AwaitingConfirmation?
    }

    predicate Failed() {
      Failure? || Timeout?
    }
  }

  /** One dispatched call; `at` is the clock reading passed in with it. */
  datatype Call = Call(name: string, known: bool, outcome: Outcome, durationMs: nat, openedBreaker: bool, at: nat)

  function MostRecent(a: Option<nat>, b: Option<nat>): Option<nat> {
    if a.Some? && b.Some? then Some(Max(a.value, b.value)) else if b.None? then a else b
  }

  datatype Row = Row(outcomes: seq<U64>, breakerOpened: U64, latency: Counts, lastFailure: Option<nat>)
  {
    ghost predicate Shaped() {
      |outcomes| == OUTCOMES && latency.Shaped()
    }

    function Plus(o: Row): (r: Row)
      requires Shaped() && o.Shaped()
      ensures r.Shaped()
    {
      Row(seq(OUTCOMES, i requires 0 <= i < OUTCOMES => Saturating(outcomes[i], o.outcomes[i])),
          Saturating(breakerOpened, o.breakerOpened),
          latency.Plus(o.latency),
          MostRecent(lastFailure, o.lastFailure))
    }

    /** Counting one call in place is adding the row of that call alone. */
    function Recorded(c: Call): (r: Row)
      requires Shaped()
      ensures r.Shaped() && r == Plus(RowOf(c))
    {
      var i := c.outcome.Index();
      var r := Row(
        outcomes[i := Saturating(outcomes[i], 1)],
        if c.openedBreaker then Saturating(breakerOpened, 1) else breakerOpened,
        if c.outcome.Executed() then latency.Plus(One(c.durationMs)) else latency,
        if c.outcome.Failed() then MostRecent(lastFailure, Some(c.at)) else lastFailure);
      PlusLaws(latency, Zero(), Zero());
      assert r.outcomes == Plus(RowOf(c)).outcomes;
      r
    }
  }

  function EmptyRow(): (r: Row)
    ensures r.Shaped()
  {
    Row(seq(OUTCOMES, i => 0), 0, Zero(), None)
  }

  function RowOf(c: Call): (r: Row)
    ensures r.Shaped()
  {
    Row(seq(OUTCOMES, i => if i == c.outcome.Index() then 1 else 0),
        if c.openedBreaker then 1 else 0,
        if c.outcome.Executed() then One(c.durationMs) else Zero(),
        if c.outcome.Failed() then Some(c.at) else None)
  }

  lemma {:induction false} RowLaws(a: Row, b: Row, c: Row)
    requires a.Shaped() && b.Shaped() && c.Shaped()
    ensures a.Plus(b) == b.Plus(a)
    ensures a.Plus(b).Plus(c) == a.Plus(b.Plus(c))
    ensures a.Plus(EmptyRow()) == a
  {
    PlusLaws(a.latency, b.latency, c.latency);
    assert a.Plus(b).outcomes == b.Plus(a).outcomes;
    assert a.Plus(b).Plus(c).outcomes == a.Plus(b.Plus(c)).outcomes;
    assert a.Plus(EmptyRow()).outcomes == a.outcomes;
  }

  /** The row of a whole list of calls, whatever their names. */
  function Total(calls: seq<Call>): (r: Row)
    ensures r.Shaped()
  {
    if calls == [] then EmptyRow() else Total(calls[..|calls| - 1]).Plus(RowOf(Last(calls)))
  }

  // ---------------------------------------------------------------- what a total means

  function WithOutcome(o: Outcome): Call -> bool {
    (c: Call) => c.outcome == o
  }

  function OpeningBreaker(): Call -> bool {
    (c: Call) => c.openedBreaker
  }

  /** A call that reached its tool. */
  function Reaching(): Call -> bool {
    (c: Call) => c.outcome in {Success, Failure, Timeout, AwaitingConfirmation}
  }

  function Durations(calls: seq<Call>): seq<nat> {
    if calls == [] then [] else Durations(calls[..|calls| - 1]) + [Last(calls).durationMs]
  }

  /** `t` is when the last of the failing calls was made. */
  predicate LastFailed(calls: seq<Call>, t: Option<nat>) {
    && (forall c :: c in calls && (c.outcome == Failure || c.outcome == Timeout) ==> t.Some? && c.at <= t.value)
    && (t.Some? ==> exists c :: c in calls && (c.outcome == Failure || c.outcome == Timeout) && c.at == t.value)
  }

  lemma {:induction false} FilterAppend(calls: seq<Call>, c: Call, keep: Call -> bool)
    ensures Filter(calls + [c], keep) == Filter(calls, keep) + (if keep(c) then [c] else [])
  {
    FilterConcat(calls, [c], keep);
    FilterOne(c, keep);
  }

  /**
   * The row of a list of calls: for each outcome how many calls had it, how many opened
   * the breaker, the latencies of those that reached their tool, and the last failure.
   */
  lemma {:induction false} TotalMeans(calls: seq<Call>, o: Outcome)
    ensures o.Index() < OUTCOMES && Total(calls).outcomes[o.Index()] == Clamped(|Filter(calls, WithOutcome(o))|)
    ensures Total(calls).breakerOpened == Clamped(|Filter(calls, OpeningBreaker())|)
    ensures Total(calls).latency == Of(Durations(Filter(calls, Reaching())))
    ensures LastFailed(calls, Total(calls).lastFailure)
    decreases |calls|
  {
    hide Filter, Of, Durations, Counts.Plus;
    NothingTotal(o);
    if calls != [] {
      var front, c := calls[..|calls| - 1], Last(calls);
      FrontAndLast(calls);
      TotalMeans(front, o);
      OneMoreCall(front, c, o);
    }
  }

  lemma NothingTotal(o: Outcome)
    ensures Filter([], WithOutcome(o)) == [] && Filter([], OpeningBreaker()) == [] && Filter([], Reaching()) == []
    ensures Total([]) == EmptyRow() && Of([]) == Zero() && Durations([]) == []
  {
  }

  lemma {:induction false} OneMoreCall(front: seq<Call>, c: Call, o: Outcome)
    requires Total(front).outcomes[o.Index()] == Clamped(|Filter(front, WithOutcome(o))|)
    requires Total(front).breakerOpened == Clamped(|Filter(front, OpeningBreaker())|)
    requires Total(front).latency == Of(Durations(Filter(front, Reaching())))
    requires LastFailed(front, Total(front).lastFailure)
    ensures var r, calls := Total(front).Plus(RowOf(c)), front + [c];
            && r.outcomes[o.Index()] == Clamped(|Filter(calls, WithOutcome(o))|)
            && r.breakerOpened == Clamped(|Filter(calls, OpeningBreaker())|)
            && r.latency == Of(Durations(Filter(calls, Reaching())))
            && LastFailed(calls, r.lastFailure)
  {
    hide Filter, Of, Durations, Total;
    FilterAppend(front, c, WithOutcome(o));
    FilterAppend(front, c, OpeningBreaker());
    FilterAppend(front, c, Reaching());
    IndexIsInjective(o, c.outcome);
    assert Filter(front, Reaching()) + [] == Filter(front, Reaching());
    LatencyGrows(Total(front).latency, Filter(front, Reaching()), c);
    FailureGrows(front, Total(front).lastFailure, c);
  }

  lemma IndexIsInjective(a: Outcome, b: Outcome)
    ensures a.Index() == b.Index() <==> a == b
  {
  }

  lemma LatencyGrows(latency: Counts, reached: seq<Call>, c: Call)
    requires latency == Of(Durations(reached))
    ensures latency.Plus(RowOf(c).latency) == Of(Durations(if Reaching()(c) then reached + [c] else reached))
  {
    hide Of;
    PlusLaws(latency, Zero(), Zero());
    OfAppend(Durations(reached), c.durationMs);
    assert (reached + [c])[..|reached|] == reached;
  }

  lemma FailureGrows(front: seq<Call>, t: Option<nat>, c: Call)
    requires LastFailed(front, t)
    ensures LastFailed(front + [c], MostRecent(t, RowOf(c).lastFailure))
  {
    var now := MostRecent(t, RowOf(c).lastFailure);
    assert forall x :: x in front + [c] <==> x in front || x == c;
  }

  // ---------------------------------------------------------------- the table

  predicate IsBucket(key: string) {
    key == UNKNOWN || key == OTHER
  }

  function Truncated(name: string): string {
    if |name| <= MAX_NAME then name else name[..MAX_NAME]
  }

  function OwnKeys(keys: set<string>): set<string> {
    set k | k in keys && !IsBucket(k)
  }

  /** Where a call is counted; only registered names can become keys. */
  function KeyFor(keys: set<string>, name: string, known: bool, cap: nat): string {
    if !known then UNKNOWN
    else
      var short := Truncated(name);
      if short in keys then short
      else if |OwnKeys(keys)| >= cap then OTHER
      else short
  }

  /** A name keeps its first 128 characters. */
  lemma TruncatedIs(name: string)
    ensures Truncated(name) <= name && |Truncated(name)| == Min(|name|, 128)
  {
  }

  /** Unregistered names share one row, and registered ones past the cap another. */
  lemma NamesGoTo(keys: set<string>, name: string, cap: nat)
    ensures KeyFor(keys, name, false, cap) == "(unknown)"
    ensures var own := set k | k in keys && k != "(unknown)" && k != "(other)";
            KeyFor(keys, name, true, cap) ==
            if Truncated(name) in keys || |own| < cap then Truncated(name) else "(other)"
  {
    assert OwnKeys(keys) == set k | k in keys && k != "(unknown)" && k != "(other)";
  }

  /** The table after a log of calls, and the key each call was counted under. */
  function Table(log: seq<Call>, cap: nat): (t: map<string, Row>)
    ensures forall k :: k in t ==> t[k].Shaped()
  {
    if log == [] then map[]
    else Counted(Table(log[..|log| - 1], cap), Last(log), cap)
  }

  function Counted(t: map<string, Row>, c: Call, cap: nat): (r: map<string, Row>)
    requires forall k :: k in t ==> t[k].Shaped()
    ensures forall k :: k in r ==> r[k].Shaped()
  {
    var key := KeyFor(t.Keys, c.name, c.known, cap);
    t[key := (if key in t then t[key] else EmptyRow()).Recorded(c)]
  }

  /** The calls that were counted under one of `keys`. */
  function CountedUnder(log: seq<Call>, cap: nat, keys: set<string>): seq<Call> {
    if log == [] then []
    else
      var front := log[..|log| - 1];
      CountedUnder(front, cap, keys) +
      (if KeyFor(Table(front, cap).Keys, Last(log).name, Last(log).known, cap) in keys then [Last(log)] else [])
  }

  lemma {:induction false} TotalOfAppend(calls: seq<Call>, c: Call)
    ensures Total(calls + [c]) == Total(calls).Plus(RowOf(c))
    ensures calls + [] == calls
  {
    assert (calls + [c])[..|calls + [c]| - 1] == calls;
  }

  /** Every row is the total of exactly the calls counted under its key. */
  lemma {:induction false} RowsAreTotals(log: seq<Call>, cap: nat, k: string)
    ensures k in Table(log, cap) <==> CountedUnder(log, cap, {k}) != []
    ensures k in Table(log, cap) ==> Table(log, cap)[k] == Total(CountedUnder(log, cap, {k}))
    decreases |log|
  {
    if log != [] {
      hide Total, KeyFor;
      var front := log[..|log| - 1];
      RowsAreTotals(front, cap, k);
      TotalOfAppend(CountedUnder(front, cap, {k}), Last(log));
      TotalOfAppend([], Last(log));
    }
  }

  /** Splitting the keys in two splits the total in two. */
  lemma {:induction false} TotalsSplit(log: seq<Call>, cap: nat, a: set<string>, b: set<string>)
    requires a !! b
    ensures Total(CountedUnder(log, cap, a + b)) ==
            Total(CountedUnder(log, cap, a)).Plus(Total(CountedUnder(log, cap, b)))
    decreases |log|
  {
    if log == [] {
      RowLaws(EmptyRow(), EmptyRow(), EmptyRow());
    } else {
      var front, c := log[..|log| - 1], Last(log);
      TotalsSplit(front, cap, a, b);
      var x, y, z := CountedUnder(front, cap, a), CountedUnder(front, cap, b), CountedUnder(front, cap, a + b);
      TotalOfAppend(x, c);
      TotalOfAppend(y, c);
      TotalOfAppend(z, c);
      RowLaws(Total(x), Total(y), RowOf(c));
      RowLaws(Total(x), RowOf(c), Total(y));
      RowLaws(Total(y), RowOf(c), RowOf(c));
    }
  }

  lemma EmptyTable(cap: nat)
    ensures Table([], cap) == map[]
  {
  }

  lemma KeysGrow(log: seq<Call>, cap: nat)
    requires log != []
    ensures var front, c := log[..|log| - 1], Last(log);
            Table(log, cap).Keys == Table(front, cap).Keys + {KeyFor(Table(front, cap).Keys, c.name, c.known, cap)}
  {
  }

  lemma {:induction false} EveryCallIsCounted(log: seq<Call>, cap: nat, keys: set<string>)
    requires Table(log, cap).Keys <= keys
    ensures CountedUnder(log, cap, keys) == log
    decreases |log|
  {
    if log != [] {
      KeysGrow(log, cap);
      EveryCallIsCounted(log[..|log| - 1], cap, keys);
      FrontAndLast(log);
    }
  }

  /** Adding up the rows, in the order of `order`. */
  function SumOfRows(t: map<string, Row>, order: seq<string>): (r: Row)
    requires forall k :: k in t ==> t[k].Shaped()
    requires forall k :: k in order ==> k in t
    ensures r.Shaped()
  {
    if order == [] then EmptyRow() else SumOfRows(t, order[..|order| - 1]).Plus(t[Last(order)])
  }

  lemma SumOfAppend(t: map<string, Row>, order: seq<string>, k: string)
    requires forall x :: x in t ==> t[x].Shaped()
    requires k in t && forall x :: x in order ==> x in t
    ensures SumOfRows(t, order + [k]) == SumOfRows(t, order).Plus(t[k])
  {
    assert (order + [k])[..|order + [k]| - 1] == order;
  }

  ghost predicate Enumerates(order: seq<string>, keys: set<string>) {
    Elements(order) == keys && Distinct(order)
  }

  lemma {:induction false} SumOfSomeRows(log: seq<Call>, cap: nat, order: seq<string>)
    requires forall k :: k in order ==> k in Table(log, cap)
    requires Distinct(order)
    ensures SumOfRows(Table(log, cap), order) == Total(CountedUnder(log, cap, Elements(order)))
    decreases |order|
  {
    if order == [] {
      NothingUnderNoKeys(log, cap);
      assert Elements(order) == {};
    } else {
      var front, k := order[..|order| - 1], Last(order);
      ElementsOfFront(order);
      SumOfSomeRows(log, cap, front);
      AddOneRow(log, cap, Elements(front), k);
    }
  }

  lemma {:induction false} AddOneRow(log: seq<Call>, cap: nat, some: set<string>, k: string)
    requires k !in some && k in Table(log, cap)
    ensures Total(CountedUnder(log, cap, some + {k})) == Total(CountedUnder(log, cap, some)).Plus(Table(log, cap)[k])
  {
    RowsAreTotals(log, cap, k);
    TotalsSplit(log, cap, some, {k});
  }

  lemma {:induction false} NothingUnderNoKeys(log: seq<Call>, cap: nat)
    ensures CountedUnder(log, cap, {}) == []
    decreases |log|
  {
    if log != [] {
      NothingUnderNoKeys(log[..|log| - 1], cap);
    }
  }

  /**
   * The snapshot total is the total of the whole log: no call is lost or counted
   * twice, whatever the cap and the iteration order of the hash map.
   */
  lemma {:induction false} TotalIsConserved(log: seq<Call>, cap: nat, order: seq<string>)
    requires Enumerates(order, Table(log, cap).Keys)
    ensures SumOfRows(Table(log, cap), order) == Total(log)
  {
    assert forall k :: k in order ==> k in Elements(order);
    SumOfSomeRows(log, cap, order);
    EveryCallIsCounted(log, cap, Table(log, cap).Keys);
  }

  /** The cap decides which rows there are, but never what they add up to. */
  lemma CapIsInvisible(log: seq<Call>, cap: nat, order: seq<string>, otherCap: nat, otherOrder: seq<string>)
    requires Enumerates(order, Table(log, cap).Keys) && Enumerates(otherOrder, Table(log, otherCap).Keys)
    ensures SumOfRows(Table(log, cap), order) == SumOfRows(Table(log, otherCap), otherOrder)
  {
    TotalIsConserved(log, cap, order);
    TotalIsConserved(log, otherCap, otherOrder);
  }

  /** Own rows never exceed the cap. */
  lemma {:induction false} OwnRowsWithinCap(log: seq<Call>, cap: nat)
    ensures |OwnKeys(Table(log, cap).Keys)| <= cap
    decreases |log|
  {
    if log != [] {
      hide Counted;
      KeysGrow(log, cap);
      var front := Table(log[..|log| - 1], cap);
      OwnRowsWithinCap(log[..|log| - 1], cap);
      var key := KeyFor(front.Keys, Last(log).name, Last(log).known, cap);
      OwnKeysOfUnion(front.Keys, key);
      hide Table, OwnKeys;
    }
  }

  lemma OwnKeysOfUnion(keys: set<string>, key: string)
    ensures key in keys || IsBucket(key) ==> OwnKeys(keys + {key}) == OwnKeys(keys)
    ensures key !in keys && !IsBucket(key) ==> |OwnKeys(keys + {key})| == |OwnKeys(keys)| + 1
  {
    if key in keys || IsBucket(key) {
      assert OwnKeys(keys + {key}) == OwnKeys(keys);
    } else {
      assert OwnKeys(keys + {key}) == OwnKeys(keys) + {key};
    }
  }

  /** A key is a bucket or the truncated name of some registered tool that was called. */
  lemma {:induction false} UnknownNamesNeverBecomeKeys(log: seq<Call>, cap: nat, k: string)
    requires k in Table(log, cap) && !IsBucket(k)
    ensures exists i :: 0 <= i < |log| && log[i].known && Truncated(log[i].name) == k
    decreases |log|
  {
    hide Table, Counted;
    EmptyTable(cap);
    var front := log[..|log| - 1];
    KeysGrow(log, cap);
    if k in Table(front, cap) {
      UnknownNamesNeverBecomeKeys(front, cap, k);
      var i :| 0 <= i < |front| && front[i].known && Truncated(front[i].name) == k;
      assert log[i] == front[i];
    } else {
      assert log[|log| - 1].known && Truncated(log[|log| - 1].name) == k;
    }
  }

  /** The calls to one registered tool. */
  function CallsTo(log: seq<Call>, name: string): seq<Call> {
    if log == [] then []
    else CallsTo(log[..|log| - 1], name)
         + (if Last(log).known && Truncated(Last(log).name) == name then [Last(log)] else [])
  }

  /** A registered name is admitted at its first call, or the cap is full from then on. */
  lemma {:induction false} AdmittedOrFull(log: seq<Call>, cap: nat, name: string)
    requires !IsBucket(name) && CallsTo(log, name) != []
    ensures name in Table(log, cap) || |OwnKeys(Table(log, cap).Keys)| >= cap
    decreases |log|
  {
    var front := log[..|log| - 1];
    OwnKeysGrow(front, Last(log), cap);
    if CallsTo(front, name) != [] {
      AdmittedOrFull(front, cap, name);
    }
  }

  lemma {:induction false} OwnKeysGrow(front: seq<Call>, c: Call, cap: nat)
    ensures Table(front, cap).Keys <= Table(front + [c], cap).Keys
    ensures |OwnKeys(Table(front, cap).Keys)| <= |OwnKeys(Table(front + [c], cap).Keys)|
  {
    assert (front + [c])[..|front + [c]| - 1] == front;
    var a, b := OwnKeys(Table(front, cap).Keys), OwnKeys(Table(front + [c], cap).Keys);
    assert a <= b && b == a + (b - a);
  }

  /** An admitted name never loses its row: the row counts every call ever made to that tool. */
  lemma {:induction false} OwnRowIsComplete(log: seq<Call>, cap: nat, name: string)
    requires name in Table(log, cap) && !IsBucket(name)
    ensures Table(log, cap)[name] == Total(CallsTo(log, name))
  {
    CallsToAreCountedThere(log, cap, name);
    RowsAreTotals(log, cap, name);
  }

  lemma {:induction false} CallsToAreCountedThere(log: seq<Call>, cap: nat, name: string)
    requires name in Table(log, cap) && !IsBucket(name)
    ensures CountedUnder(log, cap, {name}) == CallsTo(log, name)
    decreases |log|
  {
    var front := log[..|log| - 1];
    if name in Table(front, cap) {
      CallsToAreCountedThere(front, cap, name);
    } else {
      RowsAreTotals(front, cap, name);
      if CallsTo(front, name) != [] {
        AdmittedOrFull(front, cap, name);
        assert false;
      }
    }
  }

  /** The reported number of calls: the outcome counters, added up with saturation. */
  function Reported(outcomes: seq<U64>): U64 {
    if outcomes == [] then 0 else Saturating(Reported(outcomes[..|outcomes| - 1]), Last(outcomes))
  }

  lemma {:induction false} ReportedAdds(a: seq<U64>, b: seq<U64>, sum: seq<U64>)
    requires |a| == |b| == |sum|
    requires forall i :: 0 <= i < |a| ==> sum[i] == Saturating(a[i], b[i])
    ensures Reported(sum) == Saturating(Reported(a), Reported(b))
    decreases |a|
  {
    if a != [] {
      ReportedAdds(a[..|a| - 1], b[..|b| - 1], sum[..|sum| - 1]);
    }
  }

  lemma {:induction false} ReportedUnit(outcomes: seq<U64>, at: nat)
    requires forall i :: 0 <= i < |outcomes| ==> outcomes[i] == if i == at then 1 else 0
    ensures Reported(outcomes) == if at < |outcomes| then 1 else 0
    decreases |outcomes|
  {
    if outcomes != [] {
      ReportedUnit(outcomes[..|outcomes| - 1], at);
    }
  }

  /** The snapshot reports exactly as many calls as were dispatched, up to the counter's ceiling. */
  lemma {:induction false} EveryCallIsReported(calls: seq<Call>)
    ensures Reported(Total(calls).outcomes) == Clamped(|calls|)
    decreases |calls|
  {
    if calls == [] {
      ReportedUnit(EmptyRow().outcomes, OUTCOMES);
    } else {
      var front, c := calls[..|calls| - 1], Last(calls);
      EveryCallIsReported(front);
      OneMoreReported(Total(front), c);
    }
  }

  lemma OneMoreReported(r: Row, c: Call)
    requires r.Shaped()
    ensures Reported(r.Plus(RowOf(c)).outcomes) == Saturating(Reported(r.outcomes), 1)
  {
    ReportedUnit(RowOf(c).outcomes, c.outcome.Index());
    PlusReported(r, RowOf(c));
  }

  lemma PlusReported(a: Row, b: Row)
    requires a.Shaped() && b.Shaped()
    ensures Reported(a.Plus(b).outcomes) == Saturating(Reported(a.outcomes), Reported(b.outcomes))
  {
    ReportedAdds(a.outcomes, b.outcomes, a.Plus(b).outcomes);
  }

  lemma TableOfAppend(log: seq<Call>, c: Call, cap: nat)
    ensures Table(log + [c], cap) == Counted(Table(log, cap), c, cap)
  {
    assert (log + [c])[..|log + [c]| - 1] == log;
  }

  class Registry {
    const cap: nat
    var tools: map<string, Row>
    ghost var Log: seq<Call>

    ghost predicate Valid()
      reads this
    {
      0 < cap && tools == Table(Log, cap)
    }

    /** A cap of zero becomes one. */
    constructor (requested: nat)
      ensures Valid() && Log == [] && cap == Max(requested, 1)
    {
      cap, tools, Log := Max(requested, 1), map[], [];
    }

    method Record(c: Call)
      requires Valid()
      modifies this
      ensures Valid() && Log == old(Log) + [c]
      ensures old(tools).Keys <= tools.Keys
    {
      TableOfAppend(Log, c, cap);
      var key := KeyFor(tools.Keys, c.name, c.known, cap);
      var row := if key in tools then tools[key] else EmptyRow();
      tools := tools[key := row.Recorded(c)];
      Log := Log + [c];
    }

    /** Adds up the rows in whatever order the hash map yields them. */
    method SnapshotTotal() returns (total: Row)
      requires Valid()
      ensures total == Total(Log) && Reported(total.outcomes) == Clamped(|Log|)
    {
      hide Table, Total, SumOfRows, Reported;
      var rows := tools;
      SumOfNone(rows);
      var left := rows.Keys;
      ghost var order: seq<string> := [];
      total := EmptyRow();
      while left != {}
        invariant left <= rows.Keys
        invariant Elements(order) == rows.Keys - left && Distinct(order)
        invariant forall k :: k in order ==> k in rows
        invariant total == SumOfRows(rows, order)
        decreases |left|
      {
        var k :| k in left;
        left := left - {k};
        total := total.Plus(rows[k]);
        AddKey(rows, order, k);
        order := order + [k];
      }
      TotalIsConserved(Log, cap, order);
      EveryCallIsReported(Log);
    }
  }

  lemma SumOfNone(rows: map<string, Row>)
    requires forall x :: x in rows ==> rows[x].Shaped()
    ensures SumOfRows(rows, []) == EmptyRow()
  {
  }

  lemma AddKey(rows: map<string, Row>, order: seq<string>, k: string)
    requires forall x :: x in rows ==> rows[x].Shaped()
    requires forall x :: x in order ==> x in rows
    requires k in rows && k !in Elements(order) && Distinct(order)
    ensures Elements(order + [k]) == Elements(order) + {k} && Distinct(order + [k])
    ensures forall x :: x in order + [k] ==> x in rows
    ensures SumOfRows(rows, order + [k]) == SumOfRows(rows, order).Plus(rows[k])
  {
    SumOfAppend(rows, order, k);
    DistinctAppend(order, k);
  }

  // ---------------------------------------------------------------- channels

  /** How many positions of a connection log satisfy a test on (before, now); a channel starts down. */
  function Edges(log: seq<bool>, was: bool, now: bool): nat {
    if log == [] then 0
    else
      var before := |log| > 1 && log[|log| - 2];
      Edges(log[..|log| - 1], was, now) + (if before == was && Last(log) == now then 1 else 0)
  }

  /**
   * Every report is one of four kinds, and connections and drops alternate: a
   * channel has connected once more than it dropped exactly when it is up.
   */
  lemma {:induction false} EdgesPartition(log: seq<bool>)
    ensures Edges(log, false, true) + Edges(log, true, false) + Edges(log, false, false)
            + Edges(log, true, true) == |log|
    ensures Edges(log, false, true) == Edges(log, true, false) + (if log != [] && Last(log) then 1 else 0)
    decreases |log|
  {
    if log != [] {
      EdgesPartition(log[..|log| - 1]);
    }
  }

  lemma EdgesOfAppend(log: seq<bool>, up: bool, was: bool, now: bool)
    ensures Edges(log + [up], was, now) ==
            Edges(log, was, now) + (if (log != [] && Last(log)) == was && up == now then 1 else 0)
  {
    assert (log + [up])[..|log + [up]| - 1] == log;
  }

  class Channel {
    var connected: bool
    var everConnected: bool
    var connections: U64
    var reconnections: U64
    var drops: U64
    var failedAttempts: U64
    var lastChange: Option<nat>
    ghost var Log: seq<bool>

    /** Transitions are counted, repetitions of the same state are not. */
    ghost predicate Valid()
      reads this
    {
      && connected == (Log != [] && Last(Log))
      && Counts(Edges(Log, false, true), Edges(Log, true, false), Edges(Log, false, false))
    }

    ghost predicate Counts(rises: nat, falls: nat, failures: nat)
      reads this
    {
      && everConnected == (rises > 0)
      && connections == Clamped(rises)
      && reconnections == (if rises > 0 then Clamped(rises - 1) else 0)
      && drops == Clamped(falls)
      && failedAttempts == Clamped(failures)
    }

    constructor ()
      ensures Valid() && Log == [] && lastChange == None
    {
      connected, everConnected, lastChange := false, false, None;
      connections, reconnections, drops, failedAttempts := 0, 0, 0, 0;
      Log := [];
    }

    method Record(up: bool, now: nat)
      requires Valid()
      modifies this
      ensures Valid() && Log == old(Log) + [up]
      ensures lastChange == if up != old(connected) then Some(now) else old(lastChange)
    {
      hide Edges;
      if up && !connected {
        connections := Saturating(connections, 1);
        if everConnected {
          reconnections := Saturating(reconnections, 1);
        }
        everConnected, connected, lastChange := true, true, Some(now);
      } else if !up && connected {
        drops := Saturating(drops, 1);
        connected, lastChange := false, Some(now);
      } else if !up {
        failedAttempts := Saturating(failedAttempts, 1);
      }
      EdgesOfAppend(Log, up, false, true);
      EdgesOfAppend(Log, up, true, false);
      EdgesOfAppend(Log, up, false, false);
      Log := Log + [up];
    }
  }

  // ---------------------------------------------------------------- samples

  lemma SuffixOfAppend<T>(all: seq<T>, n: nat, x: T)
    ensures Suffix(all, n) + [x] == Suffix(all + [x], |Suffix(all, n)| + 1)
  {
  }

  lemma SuffixShrinks<T>(all: seq<T>, m: nat)
    requires 0 < m <= |all|
    ensures Suffix(all, m)[1..] == Suffix(all, m - 1)
  {
  }

  /** One storage series: a deque that forgets its oldest sample past the ceiling. */
  class Series {
    var samples: seq<(nat, nat)>
    ghost var All: seq<(nat, nat)>

    ghost predicate Valid()
      reads this
    {
      samples == Suffix(All, MAX_SAMPLES)
    }

    constructor ()
      ensures Valid() && All == []
    {
      samples, All := [], [];
    }

    method Record(now: nat, value: nat)
      requires Valid()
      modifies this
      ensures Valid() && All == old(All) + [(now, value)]
    {
      SuffixOfAppend(All, MAX_SAMPLES, (now, value));
      samples := samples + [(now, value)];
      All := All + [(now, value)];
      while |samples| > MAX_SAMPLES
        invariant Min(|All|, MAX_SAMPLES) <= |samples| <= |All|
        invariant samples == Suffix(All, |samples|) && All == old(All) + [(now, value)]
      {
        SuffixShrinks(All, |samples|);
        samples := samples[1..];
      }
    }
  }
}
