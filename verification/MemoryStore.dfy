/** The memory store as the reindexer sees it: rows in key order, and a worker that deletes. */
module MemoryStore {
  import opened Prelude

  /** Rows are ordered by creation time, then by identifier. */
  datatype Key = Key(createdAt: int, id: int)

  datatype Entry = Entry(content: string, vector: Option<Vector>, expired: bool)

  type Rows = map<Key, Entry>

  predicate Less(a: Key, b: Key) {
    a.createdAt < b.createdAt || (a.createdAt == b.createdAt && a.id < b.id)
  }

  predicate Above(k: Key, cursor: Option<Key>) {
    cursor.Some? ==> Less(cursor.value, k)
  }

  /** Rows still without a vector, unexpired, past the cursor. */
  predicate Waits(rows: Rows, cursor: Option<Key>, k: Key) {
    k in rows && rows[k].vector.None? && !rows[k].expired && Above(k, cursor)
  }

  function Waiting(rows: Rows, cursor: Option<Key>): set<Key> {
    set k | k in rows && Waits(rows, cursor, k)
  }

  ghost predicate Ascending(s: seq<Key>) {
    forall i, j :: 0 <= i < j < |s| ==> Less(s[i], s[j])
  }

  /** `k` comes first among `s`. */
  ghost predicate IsLeast(k: Key, s: set<Key>) {
    k in s && forall j :: j in s && j != k ==> Less(k, j)
  }

  lemma {:induction false} LeastExists(s: set<Key>)
    requires s != {}
    ensures exists k :: IsLeast(k, s)
    decreases |s|
  {
    var k :| k in s;
    var others := s - {k};
    assert forall j :: j in s ==> j == k || j in others;
    if others == {} {
      assert IsLeast(k, s);
    } else {
      LeastExists(others);
      var m :| IsLeast(m, others);
      assert IsLeast(if Less(k, m) then k else m, s);
    }
  }

  lemma LeastIsUnique(k: Key, m: Key, s: set<Key>)
    requires IsLeast(k, s) && IsLeast(m, s)
    ensures k == m
  {
  }

  /** A set of keys in ascending order. */
  ghost function Sorted(s: set<Key>): (r: seq<Key>)
    decreases |s|
  {
    if s == {} then []
    else
      LeastExists(s);
      var k :| IsLeast(k, s);
      [k] + Sorted(s - {k})
  }

  /** The head of an ascending sequence is its least key, and not in the tail. */
  lemma {:induction false} AscendingHead(s: seq<Key>)
    requires Ascending(s) && s != []
    ensures IsLeast(s[0], Elements(s))
    ensures Ascending(s[1..]) && Elements(s[1..]) == Elements(s) - {s[0]}
  {
    var k, rest := s[0], s[1..];
    assert s == [k] + rest;
    assert forall i :: 0 <= i < |rest| ==> rest[i] == s[i + 1] && Less(k, rest[i]);
    assert k !in rest;
  }

  lemma {:induction false} ConsAscending(k: Key, rest: seq<Key>)
    requires Ascending(rest) && forall j :: j in rest ==> Less(k, j)
    ensures Ascending([k] + rest) && Elements([k] + rest) == {k} + Elements(rest)
  {
    var s := [k] + rest;
    forall i, j | 0 <= i < j < |s| ensures Less(s[i], s[j]) {
      assert s[j] == rest[j - 1];
      if i > 0 { assert s[i] == rest[i - 1]; }
    }
    assert forall x :: x in s <==> x == k || x in rest;
  }

  lemma SortedStep(s: set<Key>)
    requires s != {}
    ensures Sorted(s) != [] && IsLeast(Sorted(s)[0], s)
    ensures Sorted(s) == [Sorted(s)[0]] + Sorted(s - {Sorted(s)[0]})
  {
    hide IsLeast;
  }

  lemma {:induction false} SortedIsAscending(s: set<Key>)
    ensures Ascending(Sorted(s)) && Elements(Sorted(s)) == s
    decreases |s|
  {
    if s != {} {
      hide Sorted, Ascending, Less;
      SortedStep(s);
      var k := Sorted(s)[0];
      var rest := Sorted(s - {k});
      SortedIsAscending(s - {k});
      assert forall j :: j in rest ==> j in Elements(rest);
      ConsAscending(k, rest);
      assert {k} + (s - {k}) == s;
    }
  }

  /** Only one ascending sequence has a given set of keys. */
  lemma {:induction false} AscendingUnique(a: seq<Key>, b: seq<Key>)
    requires Ascending(a) && Ascending(b) && Elements(a) == Elements(b)
    ensures a == b
    decreases |a|
  {
    if a == [] {
      assert b != [] ==> Last(b) in Elements(b);
    } else {
      assert a[0] in Elements(b);
      AscendingHead(a);
      AscendingHead(b);
      LeastIsUnique(a[0], b[0], Elements(a));
      AscendingUnique(a[1..], b[1..]);
      assert a == [a[0]] + a[1..] && b == [b[0]] + b[1..];
    }
  }

  /** Cutting an ascending sequence separates its keys by their order. */
  lemma {:induction false} AscendingCut(s: seq<Key>, n: nat, k: Key)
    requires Ascending(s) && n <= |s|
    ensures k in s <==> k in s[..n] || k in s[n..]
    ensures k in s[n..] ==> k !in s[..n]
    ensures k in s && n > 0 ==> (k in s[n..] <==> Less(s[n - 1], k))
  {
    assert s == s[..n] + s[n..];
    forall i | 0 <= i < |s| ensures n > 0 ==> (i >= n <==> Less(s[n - 1], s[i])) {
      assert i >= n > 0 ==> Less(s[n - 1], s[i]);
      assert i < n - 1 ==> Less(s[i], s[n - 1]);
    }
    assert forall i :: 0 <= i < |s[n..]| ==> s[n..][i] == s[n + i];
    assert forall i :: 0 <= i < n ==> s[..n][i] == s[i];
  }

  /** The reindexing queue after a cursor. */
  ghost function Queue(rows: Rows, cursor: Option<Key>): seq<Key> {
    Sorted(Waiting(rows, cursor))
  }

  lemma QueueIs(rows: Rows, cursor: Option<Key>)
    ensures Ascending(Queue(rows, cursor))
    ensures forall k :: k in Queue(rows, cursor) <==> Waits(rows, cursor, k)
  {
    SortedIsAscending(Waiting(rows, cursor));
    assert forall k :: k in Queue(rows, cursor) <==> k in Elements(Queue(rows, cursor));
  }

  /** What a worker may do between two steps: delete rows, and let time expire others. */
  ghost predicate Eroded(a: Rows, b: Rows) {
    b.Keys <= a.Keys &&
    forall k :: k in b ==>
      b[k].content == a[k].content && b[k].vector == a[k].vector && (a[k].expired ==> b[k].expired)
  }

  lemma NoElements(s: seq<Key>)
    ensures Elements(s) == {} <==> s == []
  {
    assert s != [] ==> s[0] in Elements(s);
  }

  // ------------------------------------------------------------ the vector index beside the rows

  /** The index under which semantic search finds rows: a separate store, with no common transaction. */
  type Index = map<Key, Vector>

  /** Rows with a vector, unexpired, that the index does not hold under that vector: search misses them. */
  function Hidden(rows: Rows, index: Index): set<Key> {
    set k | k in rows && rows[k].vector.Some? && !rows[k].expired && !(k in index && rows[k].vector == Some(index[k]))
  }

  /** Rows with a vector, unexpired, that the index does not know at all. */
  function Unmapped(rows: Rows, index: Index): set<Key> {
    set k | k in rows && rows[k].vector.Some? && !rows[k].expired && k !in index
  }

  /** Erosion takes index rows only along with the rows themselves. */
  ghost predicate Shed(rows: Rows, a: Index, b: Index) {
    && b.Keys <= a.Keys
    && (forall k :: k in b ==> b[k] == a[k])
    && (forall k :: k in a && k in rows ==> k in b)
  }

  lemma ErodedTwice(a: Rows, b: Rows, c: Rows)
    requires Eroded(a, b) && Eroded(b, c)
    ensures Eroded(a, c)
  {
  }

  lemma ErosionHidesNone(a: Rows, b: Rows, i: Index, j: Index)
    requires Eroded(a, b) && Shed(b, i, j)
    ensures Hidden(b, j) <= Hidden(a, i)
  {
  }

  lemma IndexedIsNotHidden(rows: Rows, index: Index, k: Key, v: Vector)
    requires k in rows && rows[k].vector == Some(v)
    ensures Hidden(rows, index[k := v]) <= Hidden(rows, index) - {k}
  {
  }

  lemma WrittenIsNotHidden(rows: Rows, index: Index, k: Key, v: Vector)
    requires k in rows
    ensures Hidden(rows[k := rows[k].(vector := Some(v))], index[k := v]) <= Hidden(rows, index)
    ensures Hidden(rows[k := rows[k].(vector := None)], index) <= Hidden(rows, index)
  {
  }

  /**
   * What can go wrong: the database itself, or the index refusing a vector, whose column is
   * then cleared if it can be.
   */
  datatype StoreError = Database | Refused(cleared: bool)

  /** One attempt at writing a vector, and whether its row was there. */
  datatype Write = Write(key: Key, vector: Vector, found: bool)

  function WasFound(): Write -> bool {
    (w: Write) => w.found
  }

  function WasMissed(): Write -> bool {
    (w: Write) => !w.found
  }

  /** The rows found and the rows missed by some attempts. */
  function FoundIn(trace: seq<Write>): nat {
    |Filter(trace, WasFound())|
  }

  function MissedIn(trace: seq<Write>): nat {
    |Filter(trace, WasMissed())|
  }

  lemma {:induction false} AttemptsAdd(a: seq<Write>, b: seq<Write>)
    ensures FoundIn(a + b) == FoundIn(a) + FoundIn(b) && MissedIn(a + b) == MissedIn(a) + MissedIn(b)
  {
    FilterConcat(a, b, WasFound());
    FilterConcat(a, b, WasMissed());
  }

  lemma OneAttempt(w: Write)
    ensures FoundIn([w]) == (if w.found then 1 else 0) && MissedIn([w]) == (if w.found then 0 else 1)
    ensures FoundIn([]) == MissedIn([]) == 0
  {
    FilterOne(w, WasFound());
    FilterOne(w, WasMissed());
  }

  class Store {
    var rows: Rows
    var index: Index
    ghost var trace: seq<Write>
    const indexed: bool
    const workerRuns: bool
    const healthy: bool

    constructor (rows: Rows, index: Index, indexed: bool, workerRuns: bool, healthy: bool)
      ensures this.rows == rows && this.index == index && this.trace == []
      ensures this.indexed == indexed && this.workerRuns == workerRuns && this.healthy == healthy
    {
      this.rows, this.index, this.indexed, this.workerRuns, this.healthy := rows, index, indexed, workerRuns, healthy;
      this.trace := [];
    }

    /** Any number of steps of the retention worker and of the clock. */
    method Interleave()
      modifies this
      ensures Eroded(old(rows), rows) && Shed(rows, old(index), index)
      ensures !workerRuns ==> rows == old(rows) && index == old(index)
      ensures trace == old(trace)
    {
      if workerRuns {
        var kept: set<Key> :| kept <= rows.Keys;
        var spent: set<Key> :| spent <= rows.Keys;
        rows := map k | k in rows && k in kept :: rows[k].(expired := rows[k].expired || k in spent);
        var dropped: set<Key> :| dropped !! rows.Keys;
        index := map k | k in index && k !in dropped :: index[k];
      }
    }

    /** Whether an operation on a database or an index fails. */
    method Fails() returns (failed: bool)
      ensures healthy ==> !failed
    {
      failed := *;
      if healthy { failed := false; }
    }

    /** Up to `limit` waiting rows past the cursor, in key order: a prefix of the queue. */
    method PendingAfter(limit: nat, cursor: Option<Key>) returns (r: Result<seq<Key>, StoreError>)
      ensures r.Ok? ==> r.value == Queue(rows, cursor)[..Min(limit, |Queue(rows, cursor)|)]
      ensures healthy ==> r.Ok?
    {
      var failed := Fails();
      if failed { return Err(Database); }
      var page := Listed(Waiting(rows, cursor), limit);
      return Ok(page);
    }

    /**
     * Writes a vector to its column and then to the index; not found when the row is
     * gone. When the index refuses it, the column is cleared again, if that succeeds.
     */
    method SetVector(k: Key, v: Vector) returns (r: Result<bool, StoreError>)
      modifies this
      ensures r.Ok? ==> r.value == (k in old(rows))
      ensures r.Ok? || r.error.Database? ==>
              rows == if r == Ok(true) then old(rows)[k := old(rows)[k].(vector := Some(v))] else old(rows)
      ensures r == Err(Refused(true)) ==> k in old(rows) && rows == old(rows)[k := old(rows)[k].(vector := None)]
      ensures r == Err(Refused(false)) ==> k in old(rows) && rows == old(rows)[k := old(rows)[k].(vector := Some(v))]
      ensures indexed && r != Err(Refused(false)) ==> Hidden(rows, index) <= Hidden(old(rows), old(index))
      ensures index == if indexed && r == Ok(true) then old(index)[k := v] else old(index)
      ensures r.Ok? ==> trace == old(trace) + [Write(k, v, k in old(rows))]
      ensures r.Err? ==> trace == old(trace)
      ensures healthy ==> r.Ok?
    {
      var failed := Fails();
      if failed { return Err(Database); }
      if k !in rows {
        trace := trace + [Write(k, v, false)];
        return Ok(false);
      }
      ghost var before := rows;
      WrittenIsNotHidden(rows, index, k, v);
      rows := rows[k := rows[k].(vector := Some(v))];
      if indexed {
        var refused := Fails();
        if refused {
          var stuck := Fails();
          if !stuck {
            rows := rows[k := rows[k].(vector := None)];
            assert rows == before[k := before[k].(vector := None)];
          }
          return Err(Refused(!stuck));
        }
        index := index[k := v];
      }
      trace := trace + [Write(k, v, true)];
      return Ok(true);
    }

    /**
     * Puts vectors the rows have back into the index, up to a limit, oldest rows first.
     * The limit is looked at after a row is taken, so a limit of zero still takes one.
     */
    method RepairIndex(limit: Option<nat>) returns (r: Result<nat, StoreError>)
      modifies this
      ensures Eroded(old(rows), rows) && (!workerRuns ==> rows == old(rows)) && trace == old(trace)
      ensures !indexed ==> r == Ok(0) && rows == old(rows) && index == old(index)
      ensures indexed ==> Hidden(rows, index) <= Hidden(old(rows), old(index))
      ensures indexed && r.Ok? && limit.None? ==> Hidden(rows, index) <= old(index).Keys
      ensures indexed && r.Ok? && !workerRuns ==>
                index == Mended(old(rows), old(index),
                                FirstKeys(Unmapped(old(rows), old(index)), Repairable(old(rows), old(index), limit)))
      ensures r.Ok? && !workerRuns ==> r.value == if indexed then Repairable(old(rows), old(index), limit) else 0
      ensures healthy ==> r.Ok?
    {
      if !indexed { return Ok(0); }
      hide Eroded, Hidden, Shed, Unmapped, RepairedTo, Mended, FirstKeys;
      ghost var start, known := rows, index;
      var missing := Listed(Unmapped(rows, index), Repairable(rows, index, limit));
      ListedAre(Unmapped(start, known), Repairable(start, known, limit), missing);
      r := RepairRows(missing, start, known);
      if r.Ok? { RepairedMeans(start, known, rows, index, missing, |missing|); }
    }

    /** Takes the missing rows one after the other, with the worker in between. */
    method RepairRows(missing: seq<Key>, ghost start: Rows, ghost known: Index) returns (r: Result<nat, StoreError>)
      requires rows == start && index == known && forall k :: k in missing ==> k in Unmapped(start, known)
      modifies this
      ensures Eroded(start, rows) && Hidden(rows, index) <= Hidden(start, known) && (!workerRuns ==> rows == start)
      ensures trace == old(trace)
      ensures r.Ok? ==> RepairedTo(start, known, rows, index, missing, |missing|)
      ensures r.Ok? && !workerRuns ==> r.value == |missing| && index == Mended(start, known, missing)
      ensures healthy ==> r.Ok?
    {
      hide Eroded, Hidden, Shed, Unmapped, RepairedTo, Mended;
      NothingRepaired(start, known, missing);
      MendedBy(start, known, missing, 0);
      var repaired := 0;
      for i := 0 to |missing|
        invariant RepairedTo(start, known, rows, index, missing, i) && trace == old(trace)
        invariant !workerRuns ==> rows == start && repaired == i && index == Mended(start, known, missing[..i])
      {
        ghost var a, b := rows, index;
        Interleave();
        RepairedErodes(start, known, a, b, rows, index, missing, i);
        var k := missing[i];
        RepairedOneMore(start, known, rows, index, missing, i);
        MendedBy(start, known, missing, i);
        if k in rows && rows[k].vector.Some? {
          var failed := Fails();
          if failed {
            RepairedMeans(start, known, rows, index, missing, i);
            return Err(Database);
          }
          index := index[k := rows[k].vector.value];
          repaired := repaired + 1;
        }
      }
      RepairedMeans(start, known, rows, index, missing, |missing|);
      assert missing[..|missing|] == missing;
      return Ok(repaired);
    }
  }

  /** How many rows a repair takes up. */
  function Repairable(rows: Rows, index: Index, limit: Option<nat>): nat {
    var n := |Unmapped(rows, index)|;
    if limit.None? then n else Min(Max(limit.value, 1), n)
  }

  /** The index with the vectors these rows have. */
  function Mended(rows: Rows, index: Index, keys: seq<Key>): Index {
    map k | k in index.Keys + Elements(keys) ::
      if k in keys && k in rows && rows[k].vector.Some? then rows[k].vector.value
      else if k in index then index[k] else []
  }

  lemma MendedBy(rows: Rows, index: Index, keys: seq<Key>, n: nat)
    requires n <= |keys|
    ensures Mended(rows, index, []) == index && keys[..0] == []
    ensures n < |keys| && keys[n] in rows && rows[keys[n]].vector.Some? ==>
              Mended(rows, index, keys[..n + 1]) ==
                  Mended(rows, index, keys[..n])[keys[n] := rows[keys[n]].vector.value]
  {
    if n < |keys| { assert keys[..n + 1] == keys[..n] + [keys[n]]; }
  }

  lemma ErodedNot(rows: Rows)
    ensures Eroded(rows, rows)
  {
  }

  /** The state of a repair that is through with the first `n` missing rows. */
  ghost predicate RepairedTo(start: Rows, known: Index, rows: Rows, index: Index, missing: seq<Key>, n: nat) {
    && n <= |missing|
    && Eroded(start, rows) && Hidden(rows, index) <= Hidden(start, known)
    && forall j :: 0 <= j < n ==> missing[j] !in Hidden(rows, index)
  }

  lemma NothingRepaired(start: Rows, known: Index, missing: seq<Key>)
    ensures RepairedTo(start, known, start, known, missing, 0)
  {
    hide Hidden;
    ErodedNot(start);
  }

  lemma RepairedErodes(start: Rows, known: Index, a: Rows, b: Index, rows: Rows, index: Index, missing: seq<Key>,
                       n: nat)
    requires RepairedTo(start, known, a, b, missing, n) && Eroded(a, rows) && Shed(rows, b, index)
    ensures RepairedTo(start, known, rows, index, missing, n)
  {
    hide Eroded, Hidden, Shed;
    ErodedTwice(start, a, rows);
    ErosionHidesNone(a, rows, b, index);
  }

  lemma RepairedOneMore(start: Rows, known: Index, rows: Rows, index: Index, missing: seq<Key>, n: nat)
    requires RepairedTo(start, known, rows, index, missing, n) && n < |missing| && missing[n] in Unmapped(start, known)
    ensures var k := missing[n];
            && (rows == start ==> k in rows)
            && (k in rows ==>
                  rows[k].vector.Some?
                      && RepairedTo(start, known, rows, index[k := rows[k].vector.value], missing, n + 1))
            && (k !in rows ==> RepairedTo(start, known, rows, index, missing, n + 1))
  {
    hide Eroded, Hidden, Unmapped;
    var k := missing[n];
    MissingHasVector(start, known, rows, k);
    if k in rows {
      IndexedIsNotHidden(rows, index, k, rows[k].vector.value);
    } else {
      GoneIsNotHidden(rows, index, k);
    }
  }

  lemma RepairedMeans(start: Rows, known: Index, rows: Rows, index: Index, missing: seq<Key>, n: nat)
    requires RepairedTo(start, known, rows, index, missing, n)
    ensures Eroded(start, rows) && Hidden(rows, index) <= Hidden(start, known)
    ensures n == |missing| && (forall k :: k in Unmapped(start, known) ==> k in missing) ==>
            Hidden(rows, index) <= known.Keys
  {
    hide Eroded, Hidden, Unmapped;
    if n == |missing| && (forall k :: k in Unmapped(start, known) ==> k in missing) {
      forall k | k in Hidden(rows, index) ensures k in known {
        HiddenWasUnmapped(start, known, k);
      }
    }
  }

  lemma MissingHasVector(start: Rows, known: Index, rows: Rows, k: Key)
    requires k in Unmapped(start, known) && Eroded(start, rows)
    ensures k in start && (k in rows ==> rows[k].vector.Some?)
    ensures rows == start ==> k in rows
  {
  }

  lemma GoneIsNotHidden(rows: Rows, index: Index, k: Key)
    ensures k !in rows || rows[k].vector.None? ==> k !in Hidden(rows, index)
  {
  }

  lemma HiddenWasUnmapped(start: Rows, known: Index, k: Key)
    requires k in Hidden(start, known)
    ensures k in known || k in Unmapped(start, known)
  {
  }

  /** The first keys of a set, in order. */
  ghost function FirstKeys(s: set<Key>, limit: nat): seq<Key> {
    Sorted(s)[..Min(limit, |Sorted(s)|)]
  }

  method Listed(s: set<Key>, limit: nat) returns (page: seq<Key>)
    ensures page == FirstKeys(s, limit)
  {
    hide Sorted, Less;
    page := [];
    ghost var queue := Sorted(s);
    SortedIsAscending(s);
    assert queue[0..] == queue;
    var left := s;
    while |page| < limit && left != {}
      invariant |page| <= Min(limit, |queue|) && page == queue[..|page|]
      invariant left == Elements(queue[|page|..])
      decreases |left|
    {
      LeastExists(left);
      var k :| k in left && forall j :: j in left && j != k ==> Less(k, j);
      NextInQueue(queue, |page|, k);
      page := page + [k];
      left := left - {k};
    }
    NoElements(queue[|page|..]);
  }

  lemma {:induction false} SortedLength(s: set<Key>)
    ensures |Sorted(s)| == |s|
    decreases |s|
  {
    hide Sorted, IsLeast;
    NothingSorted();
    if s != {} {
      SortedStep(s);
      LeastIsIn(Sorted(s)[0], s);
      SortedLength(s - {Sorted(s)[0]});
    }
  }

  lemma LeastIsIn(k: Key, s: set<Key>)
    ensures IsLeast(k, s) ==> k in s
  {
  }

  lemma NothingSorted()
    ensures Sorted({}) == []
  {
  }

  /** A listing takes keys of the set, and all of them when it is as long as the set. */
  lemma {:induction false} ListedAre(s: set<Key>, limit: nat, page: seq<Key>)
    requires page == FirstKeys(s, limit)
    ensures |page| == Min(limit, |s|)
    ensures forall k :: k in page ==> k in s
    ensures |page| == |s| ==> forall k :: k in s ==> k in page
  {
    hide Sorted;
    SortedIsAscending(s);
    SortedLength(s);
    assert forall k :: k in Elements(Sorted(s)) <==> k in Sorted(s);
    if |page| == |s| { assert page == Sorted(s); }
  }

  lemma {:induction false} NextInQueue(queue: seq<Key>, n: nat, k: Key)
    requires Ascending(queue) && n <= |queue| && IsLeast(k, Elements(queue[n..]))
    ensures n < |queue| && queue[n] == k && queue[..n + 1] == queue[..n] + [k]
    ensures Elements(queue[n + 1..]) == Elements(queue[n..]) - {k}
  {
    var rest := queue[n..];
    assert rest != [];
    assert Ascending(rest);
    AscendingHead(rest);
    LeastIsUnique(k, rest[0], Elements(rest));
    assert rest[1..] == queue[n + 1..];
  }
}
