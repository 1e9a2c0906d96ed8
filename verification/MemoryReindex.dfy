/** Reindexing rows without a vector, beside a worker that may delete them at any moment. */
module MemoryReindex {
  import opened Prelude
  import opened MemoryStore

  datatype Options = Options(batchSize: nat, maxEntries: Option<nat>, noise: string -> bool)

  datatype Report = Report(
    pendingBefore: nat,
    indexRepaired: nat,
    reindexed: nat,
    vanished: nat,
    skippedNoise: nat,
    wouldReindex: nat,
    stoppedEarly: bool,
    dryRun: bool)

  /** What the embedding provider answers to its `n`-th batch of texts: anything at all. */
  type Provider = (nat, seq<string>) -> Result<seq<Vector>, string>

  /** An answer of the right length holds each text's own vector, at the text's index. */
  ghost predicate Honest(provider: Provider, embed: string -> Vector) {
    forall n: nat, texts: seq<string> :: provider(n, texts).Ok? && |provider(n, texts).value| == |texts| ==>
      forall i :: 0 <= i < |texts| ==> provider(n, texts).value[i] == embed(texts[i])
  }

  ghost predicate NeverFails(provider: Provider) {
    forall n: nat, texts: seq<string> :: provider(n, texts).Ok? && |provider(n, texts).value| == |texts|
  }

  // ------------------------------------------------------------ specification

  /** The rows a run will look at when nobody else touches the store. */
  ghost function Taken(rows: Rows, maxEntries: Option<nat>): seq<Key> {
    var queue := Queue(rows, None);
    if maxEntries.Some? then queue[..Min(maxEntries.value, |queue|)] else queue
  }

  /** The keys whose rows are not noise, in order. */
  function Kept(rows: Rows, keys: seq<Key>, noise: string -> bool): (r: seq<Key>)
    requires forall k :: k in keys ==> k in rows
    ensures forall k :: k in r ==> k in keys && !noise(rows[k].content)
    ensures forall k :: k in keys && !noise(rows[k].content) ==> k in r
  {
    if keys == [] then []
    else
      FrontAndLast(keys);
      Kept(rows, keys[..|keys| - 1], noise) + (if noise(rows[Last(keys)].content) then [] else [Last(keys)])
  }

  /** The store in which every row of `keys` that is not noise holds the vector of its content. */
  function Vectored(rows: Rows, keys: seq<Key>, noise: string -> bool, embed: string -> Vector): (r: Rows)
    ensures r.Keys == rows.Keys
  {
    map k | k in rows ::
      if k in keys && !noise(rows[k].content) then rows[k].(vector := Some(embed(rows[k].content))) else rows[k]
  }

  // ------------------------------------------------------------ safety

  /**
   * What a run may have done to the store: rows only disappear or expire, and a
   * vector changes only on an examined row that had none and is not noise.
   */
  ghost predicate Evolved(start: Rows, now: Rows, examined: seq<Key>, noise: string -> bool, provider: Provider,
                          embed: string -> Vector) {
    now.Keys <= start.Keys &&
    forall k :: k in now ==>
      && now[k].content == start[k].content
      && (start[k].expired ==> now[k].expired)
      && (now[k].vector == start[k].vector ||
          (k in examined && start[k].vector.None? && !noise(start[k].content) && now[k].vector.Some? &&
           (Honest(provider, embed) ==> now[k].vector.value == embed(start[k].content))))
  }

  /** Every surviving row up to the cursor has its vector, save noise and the rows still in `open`. */
  ghost predicate Covered(start: Rows, now: Rows, cursor: Option<Key>, open: seq<Key>, noise: string -> bool) {
    now.Keys <= start.Keys &&
    (forall k ::
      (k in now && start[k].vector.None? && !noise(start[k].content) && !now[k].expired && !Above(k, cursor)
       && k !in open)
      ==> now[k].vector.Some?)
  }

  /** Every surviving row that was pending has its vector, save noise. */
  ghost predicate Complete(start: Rows, now: Rows, noise: string -> bool) {
    now.Keys <= start.Keys &&
    forall k :: k in now && start[k].vector.None? && !noise(start[k].content) && !now[k].expired ==> now[k].vector.Some?
  }

  lemma ErosionKeeps(start: Rows, a: Rows, b: Rows, examined: seq<Key>, cursor: Option<Key>, open: seq<Key>,
                     noise: string -> bool, provider: Provider, embed: string -> Vector)
    requires Eroded(a, b) && Evolved(start, a, examined, noise, provider, embed)
    ensures Evolved(start, b, examined, noise, provider, embed)
    ensures Covered(start, a, cursor, open, noise) ==> Covered(start, b, cursor, open, noise)
  {
  }

  /** Moving the cursor to the end of a page leaves only the page's own rows open. */
  lemma {:induction false} PageCovers(start: Rows, now: Rows, cursor: Option<Key>, page: seq<Key>,
                                      noise: string -> bool)
    requires Covered(start, now, cursor, [], noise)
    requires page != [] && page <= Queue(now, cursor)
    requires forall k :: k in now ==> now[k].content == start[k].content
    requires forall k :: k in page ==> k in now
    ensures Covered(start, now, Some(Last(page)), Kept(now, page, noise), noise)
  {
    var queue := Queue(now, cursor);
    QueueIs(now, cursor);
    assert queue[..|page|] == page;
    forall k | k in now && !Above(k, Some(Last(page))) ensures k in page || !Waits(now, cursor, k) {
      AscendingCut(queue, |page|, k);
    }
  }

  // ------------------------------------------------------------ exactness

  lemma {:induction false} KeptConcat(rows: Rows, a: seq<Key>, b: seq<Key>, noise: string -> bool)
    requires (forall k :: k in a ==> k in rows) && (forall k :: k in b ==> k in rows)
    ensures Kept(rows, a + b, noise) == Kept(rows, a, noise) + Kept(rows, b, noise)
    decreases |b|
  {
    hide Kept;
    KeptOfNone(rows, noise);
    if b == [] {
      assert a + b == a;
    } else {
      var front, k := b[..|b| - 1], Last(b);
      FrontAndLast(b);
      KeptConcat(rows, a, front, noise);
      KeptOfAppend(rows, front, k, noise);
      KeptOfAppend(rows, a + front, k, noise);
      assert a + b == (a + front) + [k];
    }
  }

  lemma KeptOfNone(rows: Rows, noise: string -> bool)
    ensures Kept(rows, [], noise) == []
  {
  }

  lemma KeptOfAppend(rows: Rows, keys: seq<Key>, k: Key, noise: string -> bool)
    requires k in rows && forall j :: j in keys ==> j in rows
    ensures Kept(rows, keys + [k], noise) == Kept(rows, keys, noise) + (if noise(rows[k].content) then [] else [k])
  {
    assert (keys + [k])[..|keys|] == keys;
  }

  lemma {:induction false} KeptLength(rows: Rows, keys: seq<Key>, noise: string -> bool)
    requires forall k :: k in keys ==> k in rows
    ensures |Kept(rows, keys, noise)| <= |keys|
    decreases |keys|
  {
    if keys != [] {
      FrontAndLast(keys);
      KeptLength(rows, keys[..|keys| - 1], noise);
    }
  }

  lemma {:induction false} KeptSameContents(a: Rows, b: Rows, keys: seq<Key>, noise: string -> bool)
    requires forall k :: k in keys ==> k in a && k in b && a[k].content == b[k].content
    ensures Kept(a, keys, noise) == Kept(b, keys, noise)
    decreases |keys|
  {
    if keys != [] {
      FrontAndLast(keys);
      KeptSameContents(a, b, keys[..|keys| - 1], noise);
    }
  }

  /** After the first `n` rows of the queue are done, the queue past them is what is left. */
  lemma {:induction false} QueueAdvances(rows: Rows, n: nat, noise: string -> bool, embed: string -> Vector)
    requires n <= |Queue(rows, None)|
    ensures var queue := Queue(rows, None);
            Queue(Vectored(rows, queue[..n], noise, embed), if n == 0 then None else Some(queue[n - 1])) == queue[n..]
  {
    var queue := Queue(rows, None);
    var now := Vectored(rows, queue[..n], noise, embed);
    var cursor := if n == 0 then None else Some(queue[n - 1]);
    QueueIs(rows, None);
    QueueIs(now, cursor);
    SortedIsAscending(Waiting(now, cursor));
    forall k ensures Waits(now, cursor, k) <==> k in queue[n..] {
      AscendingCut(queue, n, k);
      assert Waits(now, cursor, k) ==> Waits(rows, None, k);
    }
    assert Ascending(queue[n..]);
    assert Elements(queue[n..]) == Waiting(now, cursor);
    AscendingUnique(Queue(now, cursor), queue[n..]);
  }

  // ------------------------------------------------------------ the run

  /** The state of a run between two pages. */
  datatype Progress = Progress(cursor: Option<Key>, examined: seq<Key>, batches: nat, report: Report)

  /** Nobody but this run touches the store, so it goes through the queue exactly. */
  ghost predicate Exact(start: Rows, now: Rows, p: Progress, noise: string -> bool, embed: string -> Vector) {
    var queue := Queue(start, None);
    var n := |p.examined|;
    && n <= |queue| && p.examined == queue[..n]
    && p.cursor == (if n == 0 then None else Some(queue[n - 1]))
    && now == Vectored(start, queue[..n], noise, embed)
    && (forall k :: k in queue[..n] ==> k in start)
    && p.report.reindexed == |Kept(start, queue[..n], noise)|
    && p.report.vanished == 0
  }

  /** What holds between two pages whatever the worker does. */
  ghost predicate Sound(start: Rows, now: Rows, p: Progress, noise: string -> bool, provider: Provider,
                        embed: string -> Vector) {
    && Evolved(start, now, p.examined, noise, provider, embed)
    && Covered(start, now, p.cursor, [], noise)
    && Ascending(p.examined)
    && p.cursor == (if p.examined == [] then None else Some(Last(p.examined)))
    && p.report.reindexed + p.report.vanished + p.report.skippedNoise == |p.examined|
  }

  /** How much of the store lies ahead of the cursor: the termination measure. */
  ghost function Ahead(start: Rows, cursor: Option<Key>): set<Key> {
    set k | k in start && Above(k, cursor)
  }

  lemma CoveredShrinks(start: Rows, before: Rows, now: Rows, cursor: Option<Key>, batch: seq<Key>, i: nat,
                       noise: string -> bool)
    requires i < |batch| && Covered(start, before, cursor, batch[i..], noise)
    requires now.Keys <= before.Keys
    requires forall k :: k in now ==> now[k].expired == before[k].expired
    requires forall k :: k in now && k != batch[i] ==> now[k].vector == before[k].vector
    requires batch[i] in now ==> now[batch[i]].vector.Some?
    ensures Covered(start, now, cursor, batch[i + 1..], noise)
  {
    assert batch[i..] == [batch[i]] + batch[i + 1..];
  }

  /** Writing a vector of its own content to an examined, open row keeps the run safe. */
  lemma EvolvedGrows(start: Rows, before: Rows, k: Key, v: Vector, examined: seq<Key>, noise: string -> bool,
                     provider: Provider, embed: string -> Vector)
    requires Evolved(start, before, examined, noise, provider, embed)
    requires k in examined && k in start && start[k].vector.None? && !noise(start[k].content)
    requires Honest(provider, embed) ==> v == embed(start[k].content)
    ensures k in before ==> before[k].content == start[k].content
    ensures k in before ==> Evolved(start, before[k := before[k].(vector := Some(v))], examined, noise, provider, embed)
    ensures k in before ==> Evolved(start, before[k := before[k].(vector := None)], examined, noise, provider, embed)
  {
  }

  /** Search misses no row by its vector, but for `lost`. */
  ghost predicate Findable(indexed: bool, rows: Rows, index: Index, lost: set<Key>) {
    indexed ==> Hidden(rows, index) <= lost
  }

  /**
   * The rows a run leaves outside the index: with a cap, those that were outside; without,
   * those that were in it under another vector.
   */
  ghost function Lost(rows: Rows, index: Index, maxEntries: Option<nat>): set<Key> {
    if maxEntries.None? then Hidden(rows, index) * index.Keys else Hidden(rows, index)
  }

  lemma FindableStarts(indexed: bool, a: Rows, i: Index, b: Rows, j: Index, maxEntries: Option<nat>)
    ensures (indexed ==> Hidden(b, j) <= Hidden(a, i) && (maxEntries.None? ==> Hidden(b, j) <= i.Keys)) ==>
              Findable(indexed, b, j, Lost(a, i, maxEntries))
  {
    hide Hidden;
  }

  lemma RepairHidesNone(indexed: bool, a: Rows, i: Index, b: Rows, j: Index)
    ensures (indexed ==> Hidden(b, j) <= Hidden(a, i)) ==> Findable(indexed, b, j, Hidden(a, i))
  {
    hide Hidden;
  }

  lemma LostIsHidden(a: Rows, i: Index, maxEntries: Option<nat>)
    ensures forall indexed, b, j :: Findable(indexed, b, j, Lost(a, i, maxEntries)) ==>
            Findable(indexed, b, j, Hidden(a, i))
  {
    hide Hidden;
  }

  lemma FindableErodes(indexed: bool, a: Rows, i: Index, b: Rows, j: Index, lost: set<Key>)
    requires Findable(indexed, a, i, lost) && Eroded(a, b) && Shed(b, i, j)
    ensures Findable(indexed, b, j, lost)
  {
    hide Hidden, Eroded, Shed;
    ErosionHidesNone(a, b, i, j);
  }

  /** A row this run has given a vector. */
  predicate Given(start: Rows, now: Rows, k: Key) {
    k in start && k in now && start[k].vector.None? && now[k].vector.Some?
  }

  /** The index that holds exactly what it held and the vectors given since. */
  function Mirrored(start: Rows, now: Rows, known: Index): Index {
    map k | k in known.Keys + now.Keys && (k in known || Given(start, now, k)) ::
      if Given(start, now, k) then now[k].vector.value else known[k]
  }

  /** Every vector given since the start, and nothing else, has been added to the index, if there is one. */
  ghost predicate Tracks(indexed: bool, start: Rows, now: Rows, known: Index, index: Index) {
    index == if indexed then Mirrored(start, now, known) else known
  }

  lemma NothingGiven(indexed: bool, start: Rows, known: Index)
    ensures Tracks(indexed, start, start, known, known)
  {
  }

  lemma OneMoreGiven(indexed: bool, start: Rows, now: Rows, known: Index, index: Index, k: Key, v: Vector)
    requires Tracks(indexed, start, now, known, index) && k in start && start[k].vector.None? && k in now
    ensures Tracks(indexed, start, now[k := now[k].(vector := Some(v))], known,
                   if indexed then index[k := v] else index)
  {
  }

  /**
   * What a run has attempted: only rows it examined, none of them noise, each with
   * the vector of its own content; and the rows it missed are gone.
   */
  ghost predicate Attempted(start: Rows, now: Rows, examined: seq<Key>, trace: seq<Write>, noise: string -> bool,
                            provider: Provider, embed: string -> Vector) {
    && now.Keys <= start.Keys
    && forall w :: w in trace ==>
         && w.key in examined && w.key in start && start[w.key].vector.None? && !noise(start[w.key].content)
         && (Honest(provider, embed) ==> w.vector == embed(start[w.key].content))
         && (!w.found ==> w.key !in now)
  }

  lemma AttemptedErodes(start: Rows, a: Rows, b: Rows, examined: seq<Key>, more: seq<Key>, trace: seq<Write>,
                        noise: string -> bool, provider: Provider, embed: string -> Vector)
    requires Attempted(start, a, examined, trace, noise, provider, embed) && b.Keys <= a.Keys
    ensures Attempted(start, b, examined + more, trace, noise, provider, embed)
    ensures Attempted(start, b, examined, trace, noise, provider, embed)
  {
  }

  lemma OneMoreAttempt(start: Rows, now: Rows, examined: seq<Key>, trace: seq<Write>, w: Write, noise: string -> bool,
                       provider: Provider, embed: string -> Vector)
    requires Attempted(start, now, examined, trace, noise, provider, embed)
    requires w.key in examined && w.key in start && start[w.key].vector.None? && !noise(start[w.key].content)
    requires Honest(provider, embed) ==> w.vector == embed(start[w.key].content)
    requires w.found || w.key !in now
    ensures Attempted(start, now, examined, trace + [w], noise, provider, embed)
  {
  }

  /** Every row that was found has a vector, as long as it is there. */
  ghost predicate Landed(now: Rows, trace: seq<Write>) {
    forall w :: w in trace && w.found && w.key in now ==> now[w.key].vector.Some?
  }

  lemma LandedErodes(a: Rows, b: Rows, trace: seq<Write>)
    requires Landed(a, trace) && Eroded(a, b)
    ensures Landed(b, trace)
  {
  }

  lemma OneMoreLanded(now: Rows, trace: seq<Write>, w: Write)
    requires Landed(now, trace) && w.found == (w.key in now)
    ensures Landed(if w.found then now[w.key := now[w.key].(vector := Some(w.vector))] else now, trace + [w])
  {
  }

  /** Every attempted row that is still there was found, and holds the vector of its own content. */
  ghost predicate InPlace(now: Rows, trace: seq<Write>, embed: string -> Vector) {
    forall w :: w in trace && w.key in now ==> w.found && now[w.key].vector == Some(embed(now[w.key].content))
  }

  lemma LandedIsInPlace(start: Rows, now: Rows, examined: seq<Key>, trace: seq<Write>, noise: string -> bool,
                        provider: Provider, embed: string -> Vector)
    requires Evolved(start, now, examined, noise, provider, embed)
    requires Attempted(start, now, examined, trace, noise, provider, embed) && Landed(now, trace)
    ensures Honest(provider, embed) ==> InPlace(now, trace, embed)
  {
    hide Honest;
  }

  /** The counters of a run are those of its attempts. */
  ghost predicate CountsAttempts(reindexed: nat, vanished: nat, before: seq<Write>, now: seq<Write>) {
    && before <= now
    && reindexed == FoundIn(now[|before|..]) && vanished == MissedIn(now[|before|..])
  }

  lemma NoAttemptsYet(start: Rows, now: Rows, noise: string -> bool, provider: Provider, embed: string -> Vector)
    requires Evolved(start, now, [], noise, provider, embed)
    ensures Attempted(start, now, [], [], noise, provider, embed) && Landed(now, [])
  {
  }

  lemma ErodedKeys(a: Rows, b: Rows)
    requires Eroded(a, b)
    ensures b.Keys <= a.Keys
  {
  }

  lemma NothingAttempted(before: seq<Write>)
    ensures CountsAttempts(0, 0, before, before)
  {
    OneAttempt(Write(Key(0, 0), [], true));
    assert before[|before|..] == [];
  }

  lemma CountsOneMore(reindexed: nat, vanished: nat, before: seq<Write>, now: seq<Write>, w: Write)
    requires CountsAttempts(reindexed, vanished, before, now)
    ensures CountsAttempts(if w.found then reindexed + 1 else reindexed, if w.found then vanished else vanished + 1,
                           before, now + [w])
  {
    hide FoundIn, MissedIn;
    OneAttempt(w);
    AttemptsAdd(now[|before|..], [w]);
    assert (now + [w])[|before|..] == now[|before|..] + [w];
  }

  lemma CountsAdd(r: nat, v: nat, before: seq<Write>, mid: seq<Write>, r': nat, v': nat, now: seq<Write>)
    requires CountsAttempts(r, v, before, mid) && CountsAttempts(r', v', mid, now)
    ensures CountsAttempts(r + r', v + v', before, now)
  {
    hide FoundIn, MissedIn;
    AttemptsAdd(mid[|before|..], now[|mid|..]);
    assert now[|before|..] == mid[|before|..] + now[|mid|..];
  }

  /** Writes one vector, after whatever the worker has done since the last one. */
  method StoreRow(store: Store, batch: seq<Key>, i: nat, v: Vector, ghost start: Rows, ghost cursor: Option<Key>,
                  ghost examined: seq<Key>, ghost noise: string -> bool, ghost provider: Provider,
                  ghost embed: string -> Vector, ghost lost: set<Key>, ghost known: Index, ghost past: seq<Write>)
      returns (r: Result<bool, StoreError>)
    requires i < |batch|
    requires Evolved(start, store.rows, examined, noise, provider, embed)
    requires Covered(start, store.rows, cursor, batch[i..], noise)
    requires var k := batch[i]; k in examined && k in start && start[k].vector.None? && !noise(start[k].content)
    requires Honest(provider, embed) ==> v == embed(start[batch[i]].content)
    requires Findable(store.indexed, store.rows, store.index, lost)
    requires !store.workerRuns ==> Tracks(store.indexed, start, store.rows, known, store.index)
    requires past <= store.trace
             && Attempted(start, store.rows, examined, store.trace[|past|..], noise, provider, embed)
             && Landed(store.rows, store.trace[|past|..])
    modifies store
    ensures Evolved(start, store.rows, examined, noise, provider, embed)
    ensures r != Err(Refused(false)) ==> Findable(store.indexed, store.rows, store.index, lost)
    ensures r.Ok? ==> Covered(start, store.rows, cursor, batch[i + 1..], noise)
    ensures r.Ok? && !store.workerRuns ==> Tracks(store.indexed, start, store.rows, known, store.index)
    ensures past <= store.trace && Attempted(start, store.rows, examined, store.trace[|past|..], noise, provider, embed)
    ensures r.Ok? ==> store.trace == old(store.trace) + [Write(batch[i], v, r.value)]
    ensures r.Ok? ==> Landed(store.rows, store.trace[|past|..])
    ensures store.healthy ==> r.Ok?
    ensures r.Ok? && !store.workerRuns ==>
              && r.value == (batch[i] in old(store.rows))
              && store.rows == if r.value
                 then old(store.rows)[batch[i] := old(store.rows)[batch[i]].(vector := Some(v))]
                               else old(store.rows)
  {
    hide Evolved, Covered, Honest, Hidden, Eroded, Shed, Tracks, Attempted, Landed;
    ghost var before, index, trace := store.rows, store.index, store.trace;
    store.Interleave();
    FindableErodes(store.indexed, before, index, store.rows, store.index, lost);
    ErosionKeeps(start, before, store.rows, examined, cursor, batch[i..], noise, provider, embed);
    ErodedKeys(before, store.rows);
    AttemptedErodes(start, before, store.rows, examined, [], trace[|past|..], noise, provider, embed);
    LandedErodes(before, store.rows, trace[|past|..]);
    before, index := store.rows, store.index;
    EvolvedGrows(start, before, batch[i], v, examined, noise, provider, embed);
    r := store.SetVector(batch[i], v);
    AttemptedErodes(start, before, store.rows, examined, [], trace[|past|..], noise, provider, embed);
    if r.Ok? {
      var w := Write(batch[i], v, r.value);
      OneMoreAttempt(start, store.rows, examined, trace[|past|..], w, noise, provider, embed);
      assert store.trace[|past|..] == trace[|past|..] + [w];
      OneMoreLanded(before, trace[|past|..], w);
      CoveredShrinks(start, before, store.rows, cursor, batch, i, noise);
      if !store.workerRuns && r.value {
        OneMoreGiven(store.indexed, start, before, known, index, batch[i], v);
      }
    }
  }

  /** Writes the vectors of one batch, one row at a time, with the worker in between. */
  method StoreBatch(store: Store, batch: seq<Key>, vectors: seq<Vector>, ghost start: Rows, ghost cursor: Option<Key>,
                    ghost examined: seq<Key>, ghost noise: string -> bool, ghost provider: Provider,
                    ghost embed: string -> Vector,
                    ghost lost: set<Key>, ghost known: Index, ghost past: seq<Write>)
      returns (reindexed: nat, vanished: nat, error: Option<StoreError>)
    requires |batch| == |vectors|
    requires Evolved(start, store.rows, examined, noise, provider, embed)
    requires Covered(start, store.rows, cursor, batch, noise)
    requires forall k :: k in batch ==> k in examined && k in start && start[k].vector.None? && !noise(start[k].content)
    requires Honest(provider, embed) ==> forall i :: 0 <= i < |batch| ==> vectors[i] == embed(start[batch[i]].content)
    requires Findable(store.indexed, store.rows, store.index, lost)
    requires !store.workerRuns ==> Tracks(store.indexed, start, store.rows, known, store.index)
    requires past <= store.trace
             && Attempted(start, store.rows, examined, store.trace[|past|..], noise, provider, embed)
             && Landed(store.rows, store.trace[|past|..])
    modifies store
    ensures Evolved(start, store.rows, examined, noise, provider, embed)
    ensures error != Some(Refused(false)) ==> Findable(store.indexed, store.rows, store.index, lost)
    ensures error.None? ==> Covered(start, store.rows, cursor, [], noise) && reindexed + vanished == |batch|
    ensures error.None? && !store.workerRuns ==> Tracks(store.indexed, start, store.rows, known, store.index)
    ensures past <= store.trace && Attempted(start, store.rows, examined, store.trace[|past|..], noise, provider, embed)
    ensures error.None? ==> CountsAttempts(reindexed, vanished, old(store.trace), store.trace)
    ensures error.None? ==> Landed(store.rows, store.trace[|past|..])
    ensures error.None? ==>
              && |store.trace| == |old(store.trace)| + |batch|
              && forall i :: 0 <= i < |batch| ==>
                   var w := store.trace[|old(store.trace)| + i]; w.key == batch[i] && w.vector == vectors[i]
    ensures store.healthy ==> error.None?
    ensures error.None? && !store.workerRuns && Honest(provider, embed)
            && (forall k :: k in batch ==> k in old(store.rows)) ==>
              vanished == 0 && store.rows == Vectored(old(store.rows), batch, noise, embed)
  {
    hide Evolved, Covered, Vectored, Hidden, Eroded, Shed, Tracks, Attempted, CountsAttempts, Landed;
    hide FoundIn, MissedIn, Findable, Honest;
    reindexed, vanished, error := 0, 0, None;
    ghost var quiet := !store.workerRuns && Honest(provider, embed) && forall k :: k in batch ==> k in store.rows;
    assert batch[0..] == batch && batch[..0] == [];
    VectoredNone(store.rows, noise, embed);
    NothingAttempted(store.trace);
    EvolvedContents(start, store.rows, examined, noise, provider, embed);
    for i := 0 to |batch|
      invariant Evolved(start, store.rows, examined, noise, provider, embed)
      invariant Covered(start, store.rows, cursor, batch[i..], noise)
      invariant Findable(store.indexed, store.rows, store.index, lost)
      invariant !store.workerRuns ==> Tracks(store.indexed, start, store.rows, known, store.index)
      invariant past <= store.trace
                && Attempted(start, store.rows, examined, store.trace[|past|..], noise, provider, embed)
                && Landed(store.rows, store.trace[|past|..])
      invariant CountsAttempts(reindexed, vanished, old(store.trace), store.trace)
      invariant reindexed + vanished == i && |store.trace| == |old(store.trace)| + i
      invariant forall h :: 0 <= h < i ==>
                  var w := store.trace[|old(store.trace)| + h]; w.key == batch[h] && w.vector == vectors[h]
      invariant quiet ==> vanished == 0 && store.rows == Vectored(old(store.rows), batch[..i], noise, embed)
    {
      ghost var before, trace := store.rows, store.trace;
      assert batch[i] in batch;
      var written := StoreRow(store, batch, i, vectors[i], start, cursor, examined, noise, provider, embed, lost, known,
                              past);
      if written.Err? { return reindexed, vanished, Some(written.error); }
      var found := written.value;
      CountsOneMore(reindexed, vanished, old(store.trace), trace, Write(batch[i], vectors[i], found));
      if quiet {
        ContentsKept(old(store.rows), batch[..i], noise, embed);
        OneMoreVector(old(store.rows), batch, i, vectors[i], noise, embed);
      }
      if found { reindexed := reindexed + 1; } else { vanished := vanished + 1; }
    }
    assert batch[..|batch|] == batch && batch[|batch|..] == [];
  }

  lemma EvolvedContents(start: Rows, now: Rows, examined: seq<Key>, noise: string -> bool, provider: Provider,
                        embed: string -> Vector)
    requires Evolved(start, now, examined, noise, provider, embed)
    ensures forall k :: k in now ==> k in start && now[k].content == start[k].content
  {
  }

  lemma ContentsKept(rows: Rows, keys: seq<Key>, noise: string -> bool, embed: string -> Vector)
    ensures forall k :: k in rows ==> Vectored(rows, keys, noise, embed)[k].content == rows[k].content
  {
  }

  lemma OneMoreVector(rows: Rows, batch: seq<Key>, i: nat, v: Vector, noise: string -> bool, embed: string -> Vector)
    requires i < |batch| && batch[i] in rows && !noise(rows[batch[i]].content) && v == embed(rows[batch[i]].content)
    ensures var before := Vectored(rows, batch[..i], noise, embed);
            before[batch[i] := before[batch[i]].(vector := Some(v))] == Vectored(rows, batch[..i + 1], noise, embed)
  {
    assert batch[..i + 1] == batch[..i] + [batch[i]];
  }

  /** Fetching a page keeps the bookkeeping sound, with the page's own rows still open. */
  lemma {:induction false} PageKeepsSound(start: Rows, now: Rows, p: Progress, page: seq<Key>,
                                          noise: string -> bool, provider: Provider, embed: string -> Vector)
    requires Sound(start, now, p, noise, provider, embed)
    requires page != [] && page <= Queue(now, p.cursor)
    ensures forall k :: k in page ==> k in now && now[k].vector.None? && k in start && start[k].vector.None?
    ensures Evolved(start, now, p.examined + page, noise, provider, embed)
    ensures Covered(start, now, Some(Last(page)), Kept(now, page, noise), noise)
    ensures Ascending(p.examined + page)
    ensures Ahead(start, Some(Last(page))) < Ahead(start, p.cursor)
  {
    var queue := Queue(now, p.cursor);
    QueueIs(now, p.cursor);
    assert forall i :: 0 <= i < |page| ==> page[i] == queue[i] && queue[i] in queue && Waits(now, p.cursor, page[i]);
    assert forall k :: k in page ==> Waits(now, p.cursor, k);
    PageCovers(start, now, p.cursor, page, noise);
    assert forall k :: k in p.examined ==> k in p.examined + page;
    AscendingJoin(p.examined, page);
    assert Last(page) in Ahead(start, p.cursor) && Last(page) !in Ahead(start, Some(Last(page)));
    assert Ahead(start, Some(Last(page))) <= Ahead(start, p.cursor);
  }

  lemma AscendingJoin(a: seq<Key>, b: seq<Key>)
    requires Ascending(a) && Ascending(b)
    requires a != [] ==> forall k :: k in b ==> Less(Last(a), k)
    ensures Ascending(a + b)
  {
    var s := a + b;
    forall i, j | 0 <= i < j < |s| ensures Less(s[i], s[j]) {
      if i < |a| <= j {
        assert b[j - |a|] in b && (i == |a| - 1 || Less(a[i], Last(a)));
      }
    }
  }

  /** Without a worker, a page is the next stretch of the queue. */
  lemma {:induction false} PageKeepsExact(start: Rows, now: Rows, p: Progress, limit: nat, noise: string -> bool,
                                          embed: string -> Vector)
    requires Exact(start, now, p, noise, embed)
    ensures var queue, n := Queue(start, None), |p.examined|;
            var page := Queue(now, p.cursor)[..Min(limit, |Queue(now, p.cursor)|)];
            && Queue(now, p.cursor) == queue[n..]
            && n + |page| <= |queue| && p.examined + page == queue[..n + |page|]
            && (forall k :: k in queue[..n + |page|] ==> k in start)
            && (page != [] ==> Last(page) == queue[n + |page| - 1])
  {
    hide Vectored, Kept, Waits;
    var queue, n := Queue(start, None), |p.examined|;
    QueueAdvances(start, n, noise, embed);
    Stretch(queue, n, limit);
    forall k | k in queue ensures k in start { QueueHasRows(start, k); }
  }

  lemma Stretch(queue: seq<Key>, n: nat, limit: nat)
    requires n <= |queue|
    ensures var page := queue[n..][..Min(limit, |queue| - n)];
            queue[..n] + page == queue[..n + |page|] && (page != [] ==> Last(page) == queue[n + |page| - 1])
    ensures forall m, k :: 0 <= m <= |queue| && k in queue[..m] ==> k in queue
  {
  }

  lemma PrefixIs<T>(s: seq<T>, prefix: seq<T>)
    requires prefix <= s
    ensures s[..|prefix|] == prefix
  {
  }

  lemma PrefixOfRest<T>(s: seq<T>, n: nat, prefix: seq<T>)
    requires n <= |s| && prefix <= s[n..]
    ensures n + |prefix| <= |s| && s[n..n + |prefix|] == prefix
  {
  }

  lemma QueueHasRows(rows: Rows, k: Key)
    requires k in Queue(rows, None)
    ensures k in rows
  {
    QueueIs(rows, None);
  }

  /** Storing the page's vectors takes the exact store of `n` rows to that of the page's end. */
  lemma {:induction false} BatchKeepsExact(start: Rows, queue: seq<Key>, n: nat, m: nat, noise: string -> bool,
                                           embed: string -> Vector)
    requires n <= m <= |queue| && forall k :: k in queue[..m] ==> k in start
    ensures forall k :: k in queue[n..m] ==> k in start
    ensures forall k :: k in queue[..n] ==> k in start
    ensures var page := queue[n..m];
            var before := Vectored(start, queue[..n], noise, embed);
            && Kept(before, page, noise) == Kept(start, page, noise)
            && Vectored(before, Kept(before, page, noise), noise, embed) == Vectored(start, queue[..m], noise, embed)
            && Kept(start, queue[..m], noise) == Kept(start, queue[..n], noise) + Kept(start, page, noise)
  {
    hide Vectored;
    var page := queue[n..m];
    assert queue[..m] == queue[..n] + page;
    assert forall k :: k in queue[..m] <==> k in queue[..n] || k in page;
    KeptIgnoresVectors(start, queue[..n], page, noise, embed);
    KeptConcat(start, queue[..n], page, noise);
    hide Kept;
    TwiceVectored(start, queue[..n], page, noise, embed);
  }

  lemma KeptIgnoresVectors(start: Rows, done: seq<Key>, page: seq<Key>, noise: string -> bool, embed: string -> Vector)
    requires forall k :: k in page ==> k in start
    ensures forall k :: k in page ==> k in Vectored(start, done, noise, embed)
    ensures Kept(Vectored(start, done, noise, embed), page, noise) == Kept(start, page, noise)
  {
    KeptSameContents(Vectored(start, done, noise, embed), start, page, noise);
  }

  lemma TwiceVectored(start: Rows, done: seq<Key>, page: seq<Key>, noise: string -> bool, embed: string -> Vector)
    requires forall k :: k in page ==> k in start
    ensures Vectored(Vectored(start, done, noise, embed), Kept(start, page, noise), noise, embed) ==
            Vectored(start, done + page, noise, embed)
  {
    hide Kept;
    var kept := Kept(start, page, noise);
    forall k | k in start ensures k in done + page <==> k in done || k in page { }
    forall k | k in start ensures k in kept <==> k in page && !noise(start[k].content) { }
  }

  /**
   * The reindexer. Whatever the worker deletes and the provider answers, it ends,
   * looks at no row twice nor past the cap, counts every row it looked at once,
   * writes only vectors of a row's own content, and, when it runs to the end of
   * an uncapped queue, leaves no surviving row behind save noise. Alone on the
   * store it does exactly the first rows of the queue.
   */
  method Reindex(store: Store, provider: Provider, options: Options, ghost embed: string -> Vector)
      returns (r: Result<Report, StoreError>, ghost examined: seq<Key>, ghost done: nat)
    modifies store
    ensures Evolved(old(store.rows), store.rows, examined, options.noise, provider, embed)
    ensures Ascending(examined)
    ensures options.maxEntries.Some? ==> |examined| <= options.maxEntries.value
    ensures r.Ok? ==> r.value.reindexed + r.value.vanished + r.value.skippedNoise <= |examined|
    ensures r.Ok? && !r.value.stoppedEarly ==> r.value.reindexed + r.value.vanished + r.value.skippedNoise == |examined|
    ensures r.Ok? && !r.value.stoppedEarly && options.maxEntries.None? ==>
            Complete(old(store.rows), store.rows, options.noise)
    ensures r.Ok? && !store.workerRuns && Honest(provider, embed) ==>
              RanExactly(old(store.rows), store.rows, r.value, done, options.noise, embed) &&
              (!r.value.stoppedEarly ==>
                 Completed(store.indexed, old(store.rows), store.rows, old(store.index), store.index, r.value,
                           options.maxEntries, options.noise, embed))
    ensures r.Ok? ==>
            r.value.pendingBefore == |Waitless(old(store.rows))| && r.value.wouldReindex == 0 && !r.value.dryRun
    ensures r.Ok? && !store.workerRuns ==>
              && r.value.indexRepaired ==
                 (if store.indexed then Repairable(old(store.rows), old(store.index), options.maxEntries) else 0)
              && Tracks(store.indexed, old(store.rows), store.rows,
                        IndexOnceRepaired(store.indexed, old(store.rows), old(store.index), options.maxEntries),
                        store.index)
    ensures old(store.trace) <= store.trace
            && Attempted(old(store.rows), store.rows, examined, store.trace[|old(store.trace)|..], options.noise,
                         provider, embed)
    ensures r.Ok? ==> CountsAttempts(r.value.reindexed, r.value.vanished, old(store.trace), store.trace)
    ensures r.Ok? ==> Landed(store.rows, store.trace[|old(store.trace)|..])
    ensures r.Ok? && Honest(provider, embed) ==> InPlace(store.rows, store.trace[|old(store.trace)|..], embed)
    ensures r != Err(Refused(false)) ==>
              Findable(store.indexed, store.rows, store.index, Hidden(old(store.rows), old(store.index)))
    ensures r.Ok? ==>
              Findable(store.indexed, store.rows, store.index,
                       Lost(old(store.rows), old(store.index), options.maxEntries))
    ensures NeverFails(provider) && store.healthy ==> r.Ok? && !r.value.stoppedEarly
  {
    hide Queue, Taken, Vectored, Kept, Evolved, Covered, Complete, Ahead, Sound, Exact, RanExactly;
    hide RanToEnd, Honest, NeverFails, Eroded, Shed, Ascending, Hidden, Repairable, Findable, Lost;
    hide Waitless, Tracks, IndexOnceRepaired, Mended, Attempted, CountsAttempts, Landed, InPlace;
    ghost var start, indexBefore, past := store.rows, store.index, store.trace;
    NothingAttempted(past);
    assert past[|past|..] == [];
    var noise := options.noise;
    var failed := store.Fails();
    ErodedNot(start);
    NothingEvolved(start, noise, provider, embed);
    NoAttemptsYet(start, start, noise, provider, embed);
    RepairHidesNone(store.indexed, start, indexBefore, start, indexBefore);
    if failed { return Err(Database), [], 0; }
    var pending := |Waitless(store.rows)|;
    var repair := store.RepairIndex(options.maxEntries);
    ErosionKeeps(start, start, store.rows, [], None, [], noise, provider, embed);
    RepairHidesNone(store.indexed, start, indexBefore, store.rows, store.index);
    NoAttemptsYet(start, store.rows, noise, provider, embed);
    if repair.Err? { return Err(repair.error), [], 0; }
    var p := Progress(None, [], 0, Report(pending, repair.value, 0, 0, 0, 0, false, false));
    ghost var lost := Lost(start, indexBefore, options.maxEntries);
    ghost var known := IndexOnceRepaired(store.indexed, start, indexBefore, options.maxEntries);
    OnceRepaired(store.indexed, start, indexBefore, options.maxEntries);
    NothingGiven(store.indexed, start, known);
    FindableStarts(store.indexed, start, indexBefore, store.rows, store.index, options.maxEntries);
    LostIsHidden(start, indexBefore, options.maxEntries);
    StartIsSound(start, repair.value, noise, provider, embed);
    SoundSurvives(start, start, store.rows, p, noise, provider, embed);
    if pending == 0 {
      NothingWaits(start, store.rows, noise, options.maxEntries);
      LandedIsInPlace(start, store.rows, [], [], noise, provider, embed);
      return Ok(p.report), [], 0;
    }
    r, examined, done := RunPages(store, provider, options, p, start, embed, lost, known);
    if r.Ok? {
      LandedIsInPlace(start, store.rows, examined, store.trace[|past|..], noise, provider, embed);
    }
  }

  /** The loop over the pages, from the first one on. */
  method RunPages(store: Store, provider: Provider, options: Options, first: Progress, ghost start: Rows,
                  ghost embed: string -> Vector, ghost lost: set<Key>, ghost known: Index)
      returns (r: Result<Report, StoreError>, ghost examined: seq<Key>, ghost done: nat)
    requires Sound(start, store.rows, first, options.noise, provider, embed)
    requires first.examined == [] && !first.report.stoppedEarly
    requires !store.workerRuns && Honest(provider, embed) ==> Exact(start, store.rows, first, options.noise, embed)
    requires Findable(store.indexed, store.rows, store.index, lost)
    requires !store.workerRuns ==> Tracks(store.indexed, start, store.rows, known, store.index)
    requires first.report.reindexed == first.report.vanished == 0
    modifies store
    ensures Evolved(start, store.rows, examined, options.noise, provider, embed) && Ascending(examined)
    ensures options.maxEntries.Some? ==> |examined| <= options.maxEntries.value
    ensures r.Ok? ==> r.value.reindexed + r.value.vanished + r.value.skippedNoise <= |examined|
    ensures r.Ok? && !r.value.stoppedEarly ==> r.value.reindexed + r.value.vanished + r.value.skippedNoise == |examined|
    ensures r.Ok? && !r.value.stoppedEarly && options.maxEntries.None? ==> Complete(start, store.rows, options.noise)
    ensures r.Ok? && !store.workerRuns && Honest(provider, embed) ==>
              RanExactly(start, store.rows, r.value, done, options.noise, embed) &&
              (!r.value.stoppedEarly ==> RanToEnd(start, store.rows, r.value, options.maxEntries, options.noise, embed))
    ensures r.Ok? ==>
              && r.value.pendingBefore == first.report.pendingBefore
              && r.value.indexRepaired == first.report.indexRepaired
              && r.value.wouldReindex == first.report.wouldReindex && r.value.dryRun == first.report.dryRun
    ensures r.Ok? && !store.workerRuns ==> Tracks(store.indexed, start, store.rows, known, store.index)
    ensures old(store.trace) <= store.trace
            && Attempted(start, store.rows, examined, store.trace[|old(store.trace)|..], options.noise, provider, embed)
    ensures r.Ok? ==> CountsAttempts(r.value.reindexed, r.value.vanished, old(store.trace), store.trace)
    ensures r.Ok? ==> Landed(store.rows, store.trace[|old(store.trace)|..])
    ensures r != Err(Refused(false)) ==> Findable(store.indexed, store.rows, store.index, lost)
    ensures NeverFails(provider) && store.healthy ==> r.Ok? && !r.value.stoppedEarly
  {
    hide Queue, Taken, Vectored, Kept, Evolved, Covered, Complete, Ahead, Sound, Exact, RanExactly;
    hide RanToEnd, Honest, NeverFails, Eroded, Shed, Ascending, Findable, Tracks, Attempted, CountsAttempts, Landed;
    var noise, p := options.noise, first;
    ghost var past := store.trace;
    NothingAttempted(past);
    SoundMeans(start, store.rows, first, noise, provider, embed);
    NoAttemptsYet(start, store.rows, noise, provider, embed);
    assert past[|past|..] == [];
    ghost var quiet := !store.workerRuns && Honest(provider, embed);
    var batchSize := Max(options.batchSize, 1);
    while true
      invariant Sound(start, store.rows, p, noise, provider, embed)
      invariant quiet ==> Exact(start, store.rows, p, noise, embed)
      invariant past <= store.trace
      invariant Attempted(start, store.rows, p.examined, store.trace[|past|..], noise, provider, embed)
      invariant Landed(store.rows, store.trace[|past|..])
      invariant CountsAttempts(p.report.reindexed, p.report.vanished, past, store.trace)
      invariant options.maxEntries.Some? ==> |p.examined| <= options.maxEntries.value
      invariant Findable(store.indexed, store.rows, store.index, lost)
      invariant !store.workerRuns ==> Tracks(store.indexed, start, store.rows, known, store.index)
      invariant !p.report.stoppedEarly && p.report.indexRepaired == first.report.indexRepaired
      invariant p.report.pendingBefore == first.report.pendingBefore
      invariant p.report.wouldReindex == first.report.wouldReindex && p.report.dryRun == first.report.dryRun
      decreases Ahead(start, p.cursor)
    {
      ghost var before, index := store.rows, store.index;
      store.Interleave();
      FindableErodes(store.indexed, before, index, store.rows, store.index, lost);
      ErodedKeys(before, store.rows);
      AttemptedErodes(start, before, store.rows, p.examined, [], store.trace[|past|..], noise, provider, embed);
      LandedErodes(before, store.rows, store.trace[|past|..]);
      SoundSurvives(start, before, store.rows, p, noise, provider, embed);
      var left := if options.maxEntries.Some? then options.maxEntries.value - |p.examined| else batchSize;
      if left == 0 {
        if quiet { EndsExactly(start, store.rows, p, options.maxEntries, noise, embed); }
        return Ok(p.report), p.examined, |p.examined|;
      }
      var fetched := store.PendingAfter(Min(batchSize, left), p.cursor);
      if fetched.Err? { return Err(fetched.error), p.examined, |p.examined|; }
      var page := fetched.value;
      if page == [] {
        EmptyPageCompletes(start, store.rows, p.cursor, noise);
        if quiet { EndsExactly(start, store.rows, p, options.maxEntries, noise, embed); }
        return Ok(p.report), p.examined, |p.examined|;
      }
      var failed, error;
      ghost var n := |p.examined|;
      p, failed, error := ProcessPage(store, provider, noise, page, p, start, embed, lost, known, past);
      if error.Some? { return Err(error.value), p.examined, n; }
      if failed {
        return Ok(p.report), p.examined, n;
      }
    }
  }

  /** The worker breaks nothing, and what holds between pages holds at the end. */
  lemma SoundSurvives(start: Rows, a: Rows, b: Rows, p: Progress, noise: string -> bool, provider: Provider,
                      embed: string -> Vector)
    requires Sound(start, a, p, noise, provider, embed) && Eroded(a, b)
    ensures Sound(start, b, p, noise, provider, embed)
    ensures Evolved(start, b, p.examined, noise, provider, embed) && Covered(start, b, p.cursor, [], noise)
    ensures Ascending(p.examined) && p.report.reindexed + p.report.vanished + p.report.skippedNoise == |p.examined|
  {
    hide Evolved, Covered, Eroded;
    ErosionKeeps(start, a, b, p.examined, p.cursor, [], noise, provider, embed);
  }

  /** The store and the counts after the first `done` rows of the queue. */
  ghost predicate RanExactly(start: Rows, now: Rows, report: Report, done: nat, noise: string -> bool,
                             embed: string -> Vector) {
    var queue := Queue(start, None);
    && done <= |queue| && now == Vectored(start, queue[..done], noise, embed)
    && (forall k :: k in queue[..done] ==> k in start)
    && report.vanished == 0 && report.reindexed == |Kept(start, queue[..done], noise)|
  }

  /** The store and the counts of a run that went to the end of its queue, or to its cap. */
  ghost predicate RanToEnd(start: Rows, now: Rows, report: Report, maxEntries: Option<nat>, noise: string -> bool,
                           embed: string -> Vector) {
    var taken := Taken(start, maxEntries);
    && now == Vectored(start, taken, noise, embed)
    && (forall k :: k in taken ==> k in start)
    && report.vanished == 0 && report.reindexed == |Kept(start, taken, noise)|
    && report.reindexed + report.skippedNoise == |taken|
  }

  /** The index a run finds once it has repaired it. */
  ghost function IndexOnceRepaired(indexed: bool, rows: Rows, index: Index, maxEntries: Option<nat>): Index {
    if indexed then Mended(rows, index, FirstKeys(Unmapped(rows, index), Repairable(rows, index, maxEntries)))
        else index
  }

  lemma OnceRepaired(indexed: bool, rows: Rows, index: Index, maxEntries: Option<nat>)
    ensures IndexOnceRepaired(indexed, rows, index, maxEntries) ==
            if indexed then Mended(rows, index, FirstKeys(Unmapped(rows, index), Repairable(rows, index, maxEntries)))
                else index
  {
  }

  /** A run that went to its end alone on the store: its rows, its index and its whole report. */
  ghost predicate Completed(indexed: bool, start: Rows, now: Rows, before: Index, after: Index, report: Report,
                            maxEntries: Option<nat>, noise: string -> bool, embed: string -> Vector) {
    && RanToEnd(start, now, report, maxEntries, noise, embed)
    && Tracks(indexed, start, now, IndexOnceRepaired(indexed, start, before, maxEntries), after)
    && report.pendingBefore == |Waitless(start)|
    && report.indexRepaired == (if indexed then Repairable(start, before, maxEntries) else 0)
    && report.wouldReindex == 0 && !report.stoppedEarly && !report.dryRun
  }

  /** Embeds and stores one page; a failure leaves the store as it was and ends the run. */
  method ProcessPage(store: Store, provider: Provider, noise: string -> bool, page: seq<Key>, p: Progress,
                     ghost start: Rows, ghost embed: string -> Vector, ghost lost: set<Key>, ghost known: Index,
                         ghost past: seq<Write>)
      returns (p': Progress, failed: bool, error: Option<StoreError>)
    requires Sound(start, store.rows, p, noise, provider, embed) && !p.report.stoppedEarly
    requires page != [] && page <= Queue(store.rows, p.cursor)
    requires Findable(store.indexed, store.rows, store.index, lost)
    requires !store.workerRuns ==> Tracks(store.indexed, start, store.rows, known, store.index)
    requires past <= store.trace
             && Attempted(start, store.rows, p.examined, store.trace[|past|..], noise, provider, embed)
             && Landed(store.rows, store.trace[|past|..])
    requires CountsAttempts(p.report.reindexed, p.report.vanished, past, store.trace)
    modifies store
    ensures p'.examined == p.examined + page && p'.report.stoppedEarly == failed
    ensures p'.report.pendingBefore == p.report.pendingBefore && p'.report.wouldReindex == p.report.wouldReindex
    ensures p'.report.dryRun == p.report.dryRun && p'.report.indexRepaired == p.report.indexRepaired
    ensures error != Some(Refused(false)) ==> Findable(store.indexed, store.rows, store.index, lost)
    ensures error.None? && !store.workerRuns ==> Tracks(store.indexed, start, store.rows, known, store.index)
    ensures past <= store.trace
            && Attempted(start, store.rows, p'.examined, store.trace[|past|..], noise, provider, embed)
    ensures error.None? ==> CountsAttempts(p'.report.reindexed, p'.report.vanished, past, store.trace)
    ensures error.None? ==> Landed(store.rows, store.trace[|past|..])
    ensures store.healthy ==> error.None?
    ensures error.Some? ==> Evolved(start, store.rows, p'.examined, noise, provider, embed) && Ascending(p'.examined)
    ensures Ahead(start, p'.cursor) < Ahead(start, p.cursor)
    ensures !failed && error.None? ==> Sound(start, store.rows, p', noise, provider, embed)
    ensures failed ==> Evolved(start, store.rows, p'.examined, noise, provider, embed) && Ascending(p'.examined)
    ensures failed ==> p'.report.reindexed + p'.report.vanished + p'.report.skippedNoise <= |p'.examined|
    ensures error.None? && !store.workerRuns && Honest(provider, embed)
            && Exact(start, old(store.rows), p, noise, embed) ==>
              if failed then RanExactly(start, store.rows, p'.report, |p.examined|, noise, embed)
              else Exact(start, store.rows, p', noise, embed)
    ensures NeverFails(provider) ==> !failed
  {
    hide Queue, Vectored, Evolved, Covered, Ahead, Honest, NeverFails, Ascending, Exact, RanExactly;
    hide Eroded, Findable, Sound, Tracks, Attempted, CountsAttempts, Landed;
    hide Kept;
    PageIsReady(start, store.rows, p, page, noise, provider, embed);
    ghost var quiet := !store.workerRuns && Honest(provider, embed) && Exact(start, store.rows, p, noise, embed);
    var seen := store.rows;
    var kept := Kept(seen, page, noise);
    VectoredNone(seen, noise, embed);
    p' := p.(cursor := Some(Last(page)), examined := p.examined + page,
             report := p.report.(skippedNoise := p.report.skippedNoise + (|page| - |kept|)));
    failed, error := false, None;
    AttemptedErodes(start, seen, seen, p.examined, page, store.trace[|past|..], noise, provider, embed);
    ghost var trace := store.trace;
    if kept != [] {
      var reindexed, vanished;
      failed, reindexed, vanished, error :=
        EmbedAndStore(store, provider, p.batches, kept, start, p'.cursor, p'.examined, noise, embed, lost, known, past);
      if error.None? {
        CountsAdd(p.report.reindexed, p.report.vanished, past, trace, reindexed, vanished, store.trace);
      }
      p' := p'.(batches := p.batches + 1,
                report := p'.report.(reindexed := p.report.reindexed + reindexed,
                                     vanished := p.report.vanished + vanished,
                                     stoppedEarly := failed));
    }
    if !failed && error.None? { PageIsSound(start, store.rows, p, p', page, noise, provider, embed); }
    if quiet && error.None? {
      if failed {
        StaysExact(start, seen, p, p'.report, noise, embed);
      } else {
        PageExact(start, seen, store.rows, p, p', page, noise, embed);
      }
    }
  }

  /** A fetched page, split into its noise and the rows to embed. */
  lemma {:induction false} PageIsReady(start: Rows, now: Rows, p: Progress, page: seq<Key>, noise: string -> bool,
                                       provider: Provider, embed: string -> Vector)
    requires Sound(start, now, p, noise, provider, embed) && page != [] && page <= Queue(now, p.cursor)
    ensures forall k :: k in page ==> k in now
    ensures var kept, examined := Kept(now, page, noise), p.examined + page;
            && |kept| <= |page|
            && Evolved(start, now, examined, noise, provider, embed)
            && Covered(start, now, Some(Last(page)), kept, noise)
            && Ascending(examined) && Ahead(start, Some(Last(page))) < Ahead(start, p.cursor)
            && (forall k :: k in kept ==>
                  && k in now && k in examined && k in start && start[k].vector.None?
                  && !noise(start[k].content) && now[k].content == start[k].content)
    ensures p.report.reindexed + p.report.vanished + p.report.skippedNoise == |p.examined|
  {
    hide Queue, Evolved, Covered, Ahead, Ascending, Sound;
    SoundMeans(start, now, p, noise, provider, embed);
    PageKeepsSound(start, now, p, page, noise, provider, embed);
    KeptAreOpen(start, now, p.examined, page, noise, provider, embed);
    KeptLength(now, page, noise);
  }

  lemma SoundMeans(start: Rows, now: Rows, p: Progress, noise: string -> bool, provider: Provider,
                   embed: string -> Vector)
    requires Sound(start, now, p, noise, provider, embed)
    ensures Evolved(start, now, p.examined, noise, provider, embed)
    ensures p.report.reindexed + p.report.vanished + p.report.skippedNoise == |p.examined|
  {
    hide Evolved, Covered, Ascending;
  }

  /** A page that is through, with all its rows counted, closes the books again. */
  lemma PageIsSound(start: Rows, now: Rows, p: Progress, p': Progress, page: seq<Key>, noise: string -> bool,
                    provider: Provider, embed: string -> Vector)
    requires page != [] && p'.examined == p.examined + page && p'.cursor == Some(Last(page))
    requires Evolved(start, now, p'.examined, noise, provider, embed) && Ascending(p'.examined)
    requires Covered(start, now, p'.cursor, [], noise)
    requires p'.report.reindexed + p'.report.vanished + p'.report.skippedNoise == |p'.examined|
    ensures Sound(start, now, p', noise, provider, embed)
  {
    hide Evolved, Covered, Ascending;
  }

  /** One trip to the provider, with the worker running meanwhile, then the writes. */
  method EmbedAndStore(store: Store, provider: Provider, n: nat, kept: seq<Key>, ghost start: Rows,
                       ghost cursor: Option<Key>,
                       ghost examined: seq<Key>, ghost noise: string -> bool, ghost embed: string -> Vector,
                       ghost lost: set<Key>, ghost known: Index, ghost past: seq<Write>)
      returns (failed: bool, reindexed: nat, vanished: nat, error: Option<StoreError>)
    requires Evolved(start, store.rows, examined, noise, provider, embed)
    requires Covered(start, store.rows, cursor, kept, noise)
    requires forall k :: k in kept ==>
               k in store.rows && k in examined && k in start && start[k].vector.None? && !noise(start[k].content)
               && store.rows[k].content == start[k].content
    requires Findable(store.indexed, store.rows, store.index, lost)
    requires !store.workerRuns ==> Tracks(store.indexed, start, store.rows, known, store.index)
    requires past <= store.trace
             && Attempted(start, store.rows, examined, store.trace[|past|..], noise, provider, embed)
             && Landed(store.rows, store.trace[|past|..])
    modifies store
    ensures Evolved(start, store.rows, examined, noise, provider, embed)
    ensures error != Some(Refused(false)) ==> Findable(store.indexed, store.rows, store.index, lost)
    ensures error.None? && !store.workerRuns ==> Tracks(store.indexed, start, store.rows, known, store.index)
    ensures past <= store.trace && Attempted(start, store.rows, examined, store.trace[|past|..], noise, provider, embed)
    ensures error.None? ==> CountsAttempts(reindexed, vanished, old(store.trace), store.trace)
    ensures error.None? ==> Landed(store.rows, store.trace[|past|..])
    ensures store.healthy ==> error.None?
    ensures failed ==> reindexed == vanished == 0 && error.None?
    ensures !failed && error.None? ==> Covered(start, store.rows, cursor, [], noise) && reindexed + vanished == |kept|
    ensures error.None? && !store.workerRuns && Honest(provider, embed) ==>
              vanished == 0 &&
              store.rows == if failed then old(store.rows) else Vectored(old(store.rows), kept, noise, embed)
    ensures NeverFails(provider) ==> !failed
  {
    hide Evolved, Covered, Honest, NeverFails, Eroded, Shed, Vectored, Findable, Tracks, Attempted;
    hide CountsAttempts, Landed;
    var seen := store.rows;
    var texts := seq(|kept|, i requires 0 <= i < |kept| => seen[kept[i]].content);
    ghost var index := store.index;
    store.Interleave();
    FindableErodes(store.indexed, seen, index, store.rows, store.index, lost);
    ErosionKeeps(start, seen, store.rows, examined, cursor, kept, noise, provider, embed);
    ErodedKeys(seen, store.rows);
    AttemptedErodes(start, seen, store.rows, examined, [], store.trace[|past|..], noise, provider, embed);
    LandedErodes(seen, store.rows, store.trace[|past|..]);
    NothingAttempted(store.trace);
    var answer := provider(n, texts);
    AnswersPair(provider, n, texts, embed);
    if answer.Err? || |answer.value| != |kept| {
      return true, 0, 0, None;
    }
    failed := false;
    reindexed, vanished, error :=
      StoreBatch(store, kept, answer.value, start, cursor, examined, noise, provider, embed, lost, known, past);
  }

  lemma StaysExact(start: Rows, now: Rows, p: Progress, report: Report, noise: string -> bool, embed: string -> Vector)
    requires Exact(start, now, p, noise, embed)
    requires report.reindexed == p.report.reindexed && report.vanished == p.report.vanished
    ensures RanExactly(start, now, report, |p.examined|, noise, embed)
  {
    hide Queue, Kept, Vectored;
  }

  /** A stored page takes an exact state to the next. */
  lemma {:induction false} PageExact(start: Rows, before: Rows, now: Rows, p: Progress, p': Progress, page: seq<Key>,
                                     noise: string -> bool, embed: string -> Vector)
    requires Exact(start, before, p, noise, embed) && page != [] && page <= Queue(before, p.cursor)
    requires forall k :: k in page ==> k in before
    requires now == Vectored(before, Kept(before, page, noise), noise, embed)
    requires p'.cursor == Some(Last(page)) && p'.examined == p.examined + page
    requires p'.report.reindexed == p.report.reindexed + |Kept(before, page, noise)|
             && p'.report.vanished == p.report.vanished
    ensures Exact(start, now, p', noise, embed)
  {
    hide Queue, Kept, Vectored;
    PageIsStretch(start, before, p, page, noise, embed);
  }

  lemma AnswersPair(provider: Provider, n: nat, texts: seq<string>, embed: string -> Vector)
    ensures Honest(provider, embed) && provider(n, texts).Ok? && |provider(n, texts).value| == |texts| ==>
              forall i :: 0 <= i < |texts| ==> provider(n, texts).value[i] == embed(texts[i])
    ensures NeverFails(provider) ==> provider(n, texts).Ok? && |provider(n, texts).value| == |texts|
  {
  }

  lemma KeptAreOpen(start: Rows, now: Rows, examined: seq<Key>, page: seq<Key>, noise: string -> bool,
                    provider: Provider, embed: string -> Vector)
    requires Evolved(start, now, examined, noise, provider, embed)
    requires forall k :: k in page ==> k in now && k in start && start[k].vector.None?
    ensures forall k :: k in Kept(now, page, noise) ==>
              k in now && k in examined + page && k in start && start[k].vector.None? && !noise(start[k].content)
              && now[k].content == start[k].content
  {
  }

  /** Rows without a vector, expired or not: the count the code starts from. */
  function Waitless(rows: Rows): set<Key> {
    set k | k in rows && rows[k].vector.None?
  }

  lemma NothingEvolved(start: Rows, noise: string -> bool, provider: Provider, embed: string -> Vector)
    ensures Evolved(start, start, [], noise, provider, embed) && Ascending([])
  {
  }

  lemma NothingWaits(start: Rows, now: Rows, noise: string -> bool, maxEntries: Option<nat>)
    requires |Waitless(start)| == 0
    ensures Eroded(start, now) ==> Complete(start, now, noise)
    ensures Queue(start, None) == [] == Taken(start, maxEntries)
  {
    assert Waitless(start) == {};
    assert forall k :: k in start ==> k !in Waitless(start);
    assert Waiting(start, None) == {};
  }

  lemma StartIsSound(start: Rows, repaired: nat, noise: string -> bool, provider: Provider, embed: string -> Vector)
    ensures var p := Progress(None, [], 0, Report(|Waitless(start)|, repaired, 0, 0, 0, 0, false, false));
            && Sound(start, start, p, noise, provider, embed)
            && Exact(start, start, p, noise, embed)
            && RanExactly(start, start, p.report, 0, noise, embed)
            && (Queue(start, None) == [] ==>
                forall maxEntries :: RanToEnd(start, start, p.report, maxEntries, noise, embed))
            && Evolved(start, start, [], noise, provider, embed) && Ascending([])
  {
    assert Queue(start, None)[..0] == [];
    assert Vectored(start, [], noise, embed) == start;
  }

  /** The run of a quiet store ends at the cap or at the end of the queue. */
  lemma EndsExactly(start: Rows, now: Rows, p: Progress, maxEntries: Option<nat>, noise: string -> bool,
                    embed: string -> Vector)
    requires Exact(start, now, p, noise, embed)
    requires maxEntries.Some? ==> |p.examined| <= maxEntries.value
    requires (maxEntries.Some? && |p.examined| == maxEntries.value) || Queue(now, p.cursor) == []
    ensures RanExactly(start, now, p.report, |p.examined|, noise, embed)
    ensures p.report.reindexed + p.report.vanished + p.report.skippedNoise == |p.examined| ==>
            RanToEnd(start, now, p.report, maxEntries, noise, embed)
  {
    hide Vectored, Kept, Queue, Taken;
    QueueAdvances(start, |p.examined|, noise, embed);
    TakenIs(start, |p.examined|, maxEntries);
  }

  /** Without a worker, a page is the next stretch of the queue, and storing it stays exact. */
  lemma {:induction false} PageIsStretch(start: Rows, now: Rows, p: Progress, page: seq<Key>, noise: string -> bool,
                                         embed: string -> Vector)
    requires Exact(start, now, p, noise, embed) && page != [] && page <= Queue(now, p.cursor)
    ensures forall k :: k in page ==> k in now && k in start
    ensures var queue, n := Queue(start, None), |p.examined|;
            var m := n + |page|;
            && m <= |queue| && p.examined + page == queue[..m] && Last(page) == queue[m - 1]
            && (forall k :: k in queue[..m] ==> k in start) && (forall k :: k in queue[..n] ==> k in start)
            && Vectored(now, Kept(now, page, noise), noise, embed) == Vectored(start, queue[..m], noise, embed)
            && Kept(start, queue[..m], noise) == Kept(start, queue[..n], noise) + Kept(now, page, noise)
  {
    hide Kept, Vectored, Queue;
    var queue, n := Queue(start, None), |p.examined|;
    var m := n + |page|;
    PageKeepsExact(start, now, p, |page|, noise, embed);
    PrefixIs(Queue(now, p.cursor), page);
    PrefixOfRest(queue, n, page);
    BatchKeepsExact(start, queue, n, m, noise, embed);
  }

  lemma VectoredNone(rows: Rows, noise: string -> bool, embed: string -> Vector)
    ensures Vectored(rows, [], noise, embed) == rows
  {
  }

  lemma EmptyPageCompletes(start: Rows, now: Rows, cursor: Option<Key>, noise: string -> bool)
    requires Covered(start, now, cursor, [], noise) && Queue(now, cursor) == []
    ensures Complete(start, now, noise)
  {
    QueueIs(now, cursor);
    forall k | k in now && start[k].vector.None? && !noise(start[k].content) && !now[k].expired
      ensures now[k].vector.Some?
    {
      assert !Waits(now, cursor, k);
    }
  }

  // ------------------------------------------------------------ two runs

  lemma {:induction false} KeptAscending(rows: Rows, keys: seq<Key>, noise: string -> bool)
    requires Ascending(keys) && forall k :: k in keys ==> k in rows
    ensures Ascending(Kept(rows, keys, noise))
    decreases |keys|
  {
    hide Kept, Less;
    KeptOfNone(rows, noise);
    if keys != [] {
      var front, k := keys[..|keys| - 1], Last(keys);
      FrontAndLast(keys);
      KeptAscending(rows, front, noise);
      KeptOfAppend(rows, front, k, noise);
      var kept := Kept(rows, front, noise);
      if !noise(rows[k].content) {
        assert forall j :: j in front ==> Less(j, k);
        assert kept != [] ==> Last(kept) in kept;
        AscendingJoin(kept, [k]);
      }
    }
  }

  /** Every row is either noise or not. */
  lemma {:induction false} KeptAndSkipped(rows: Rows, keys: seq<Key>, noise: string -> bool)
    requires forall k :: k in keys ==> k in rows
    ensures |Kept(rows, keys, noise)| + |Kept(rows, keys, Complement(noise))| == |keys|
    decreases |keys|
  {
    if keys != [] {
      FrontAndLast(keys);
      KeptAndSkipped(rows, keys[..|keys| - 1], noise);
    }
  }

  function Complement(noise: string -> bool): string -> bool {
    (content: string) => !noise(content)
  }

  /** What still waits after a run that stopped: its noise, and everything it did not reach. */
  lemma {:induction false} StillWaiting(rows: Rows, m: nat, noise: string -> bool, embed: string -> Vector)
    requires m <= |Queue(rows, None)|
    ensures var queue := Queue(rows, None);
            var stopped := Vectored(rows, queue[..m], noise, embed);
            && Ascending(queue) && Ascending(queue[m..]) && Ascending(Queue(stopped, None))
            && (forall k :: k in queue ==> k in rows) && (forall k :: k in queue[m..] ==> k in queue)
            && (forall k :: k in Queue(stopped, None) ==> k in rows && k in stopped)
            && (forall k :: k in rows ==> stopped[k].content == rows[k].content)
            && (forall k :: k in rows && !noise(rows[k].content) ==> (k in Queue(stopped, None) <==> k in queue[m..]))
            && (forall k :: k in rows && noise(rows[k].content) ==> (k in Queue(stopped, None) <==> k in queue))
  {
    hide Queue;
    var queue := Queue(rows, None);
    var stopped := Vectored(rows, queue[..m], noise, embed);
    QueueIs(rows, None);
    QueueIs(stopped, None);
    ContentsKept(rows, queue[..m], noise, embed);
    forall k | k in rows
      ensures k in Queue(stopped, None) <==> k in queue && !(k in queue[..m] && !noise(rows[k].content))
      ensures k in queue[m..] <==> k in queue && k !in queue[..m]
    {
      AscendingCut(queue, m, k);
      assert Waits(stopped, None, k) <==> Waits(rows, None, k) && !(k in queue[..m] && !noise(rows[k].content));
    }
  }

  /** A second round of vectors over what the first left out completes the whole. */
  lemma Revectored(rows: Rows, done: seq<Key>, rest: seq<Key>, all: seq<Key>, noise: string -> bool,
                   embed: string -> Vector)
    requires forall k :: k in done ==> k in all
    requires forall k :: k in rows && !noise(rows[k].content) ==> (k in all <==> k in done || k in rest)
    ensures Vectored(Vectored(rows, done, noise, embed), rest, noise, embed) == Vectored(rows, all, noise, embed)
  {
  }

  /** Stopping after any number of rows and running again ends in the store of one uninterrupted run. */
  lemma {:induction false} ResumingCompletes(rows: Rows, m: nat, noise: string -> bool, embed: string -> Vector)
    requires m <= |Queue(rows, None)|
    ensures var queue := Queue(rows, None);
            var stopped := Vectored(rows, queue[..m], noise, embed);
            Vectored(stopped, Queue(stopped, None), noise, embed) == Vectored(rows, queue, noise, embed)
  {
    hide Queue, Vectored, Ascending;
    var queue := Queue(rows, None);
    StillWaiting(rows, m, noise, embed);
    assert queue == queue[..m] + queue[m..];
    Revectored(rows, queue[..m], Queue(Vectored(rows, queue[..m], noise, embed), None), queue, noise, embed);
  }

  /** The rows the second run stores are those the first did not reach; what it skips is all the noise there was. */
  lemma {:induction false} SecondRunCounts(rows: Rows, m: nat, noise: string -> bool, embed: string -> Vector)
    requires m <= |Queue(rows, None)|
    ensures var queue := Queue(rows, None);
            var stopped := Vectored(rows, queue[..m], noise, embed);
            var rest := Queue(stopped, None);
            && (forall k :: k in queue ==> k in rows) && (forall k :: k in queue[..m] ==> k in rows)
            && (forall k :: k in rest ==> k in stopped)
            && |Kept(rows, queue[..m], noise)| + |Kept(stopped, rest, noise)| == |Kept(rows, queue, noise)|
            && |rest| - |Kept(stopped, rest, noise)| == |queue| - |Kept(rows, queue, noise)|
  {
    hide Queue, Vectored, Kept, Ascending;
    var queue := Queue(rows, None);
    var stopped := Vectored(rows, queue[..m], noise, embed);
    var rest := Queue(stopped, None);
    StillWaiting(rows, m, noise, embed);
    assert queue == queue[..m] + queue[m..];
    forall k | k in queue[..m] ensures k in rows { assert k in queue; }
    SameKept(rows, stopped, queue[m..], rest, noise);
    KeptConcat(rows, queue[..m], queue[m..], noise);
    SameKept(rows, stopped, queue, rest, Complement(noise));
    KeptAndSkipped(rows, queue, noise);
    KeptAndSkipped(stopped, rest, noise);
  }

  lemma {:induction false} SameKept(a: Rows, b: Rows, s: seq<Key>, t: seq<Key>, noise: string -> bool)
    requires Ascending(s) && Ascending(t)
    requires (forall k :: k in s ==> k in a) && (forall k :: k in t ==> k in a && k in b)
    requires forall k :: k in t ==> b[k].content == a[k].content
    requires forall k :: k in a && !noise(a[k].content) ==> (k in t <==> k in s)
    ensures Kept(a, s, noise) == Kept(b, t, noise)
  {
    hide Kept, Ascending;
    KeptAscending(a, s, noise);
    KeptAscending(a, t, noise);
    KeptSameContents(a, b, t, noise);
    SameKeptRows(a, s, t, noise);
    AscendingUnique(Kept(a, s, noise), Kept(a, t, noise));
  }

  lemma SameKeptRows(rows: Rows, s: seq<Key>, t: seq<Key>, noise: string -> bool)
    requires (forall k :: k in s ==> k in rows) && (forall k :: k in t ==> k in rows)
    requires forall k :: k in rows && !noise(rows[k].content) ==> (k in t <==> k in s)
    ensures Elements(Kept(rows, s, noise)) == Elements(Kept(rows, t, noise))
  {
    forall k ensures k in Kept(rows, s, noise) <==> k in Kept(rows, t, noise) { }
  }

  /**
   * Two runs to the end over equal stores agree on the rows, on the index and on the whole
   * report, whatever their batch sizes.
   */
  lemma BatchSizeIsInvisible(indexed: bool, start: Rows, nowA: Rows, nowB: Rows, before: Index, indexA: Index,
                             indexB: Index, a: Report, b: Report, maxEntries: Option<nat>,
                             noise: string -> bool, embed: string -> Vector)
    requires Completed(indexed, start, nowA, before, indexA, a, maxEntries, noise, embed)
    requires Completed(indexed, start, nowB, before, indexB, b, maxEntries, noise, embed)
    ensures nowA == nowB && indexA == indexB && a == b
  {
    hide Queue, Taken, Vectored, Kept, Mirrored, Repairable, IndexOnceRepaired, Waitless;
  }

  /** The dry run counts what a run over the same store stores and skips. */
  lemma PreviewPredictsTheRun(start: Rows, now: Rows, preview: Report, run: Report, maxEntries: Option<nat>,
                              noise: string -> bool, embed: string -> Vector)
    requires Counted(preview, start, Taken(start, maxEntries), noise)
    requires RanToEnd(start, now, run, maxEntries, noise, embed)
    ensures preview.wouldReindex == run.reindexed && preview.skippedNoise == run.skippedNoise
  {
  }

  /**
   * A run that stopped, on a failure or at its cap, and a run that then went to the end
   * leave the store of one uninterrupted run. Together they store each of its rows
   * once; the second skips all the noise the uninterrupted run skips.
   */
  lemma {:induction false} StoppingLosesNothing(start: Rows, mid: Rows, now: Rows, whole: Rows, first: Report,
                                                second: Report, once: Report,
                                                done: nat, noise: string -> bool, embed: string -> Vector)
    requires RanExactly(start, mid, first, done, noise, embed)
    requires RanToEnd(mid, now, second, None, noise, embed)
    requires RanToEnd(start, whole, once, None, noise, embed)
    ensures now == whole
    ensures first.reindexed + second.reindexed == once.reindexed
    ensures second.skippedNoise == once.skippedNoise
  {
    hide Queue, Vectored, Kept;
    ResumingCompletes(start, done, noise, embed);
    SecondRunCounts(start, done, noise, embed);
  }

  // ------------------------------------------------------------ the dry run

  /** Counting pages without writing: the queue past the cursor shrinks by each page. */
  lemma {:induction false} QueuePast(rows: Rows, n: nat, limit: nat)
    requires n <= |Queue(rows, None)|
    ensures var queue := Queue(rows, None);
            var cursor := if n == 0 then None else Some(queue[n - 1]);
            var page := Queue(rows, cursor)[..Min(limit, |Queue(rows, cursor)|)];
            && Queue(rows, cursor) == queue[n..]
            && n + |page| <= |queue| && queue[..n] + page == queue[..n + |page|]
            && (page != [] ==> Last(page) == queue[n + |page| - 1])
            && (forall k :: k in queue ==> k in rows)
  {
    var queue := Queue(rows, None);
    AllNoise(rows, queue[..n]);
    QueueAdvances(rows, n, (_) => true, (_) => []);
    Stretch(queue, n, limit);
    forall k | k in queue ensures k in rows { QueueHasRows(rows, k); }
  }

  lemma AllNoise(rows: Rows, keys: seq<Key>)
    ensures Vectored(rows, keys, (_) => true, (_) => []) == rows
  {
  }

  /**
   * The dry run: without a provider and without touching the store it counts
   * exactly the rows a run over the same store would index and would skip.
   */
  method Preview(store: Store, options: Options) returns (r: Result<Report, StoreError>)
    ensures r.Ok? ==> Counted(r.value, store.rows, Taken(store.rows, options.maxEntries), options.noise)
    ensures r.Ok? ==> r.value.pendingBefore == |Waitless(store.rows)|
    ensures store.healthy ==> r.Ok?
  {
    hide Queue, Taken, Counted, Waitless, Counting;
    var rows, noise := store.rows, options.noise;
    var failed := store.Fails();
    if failed { return Err(Database); }
    var report := Report(|Waitless(rows)|, 0, 0, 0, 0, 0, false, true);
    CountingStarts(rows, report, options.maxEntries, noise);
    if report.pendingBefore == 0 {
      NothingToCount(rows, report, options.maxEntries, noise);
      return Ok(report);
    }
    var batchSize := Max(options.batchSize, 1);
    var cursor: Option<Key>, examined: nat := None, 0;
    while true
      invariant Counting(rows, cursor, examined, report, options.maxEntries, noise)
      decreases |Queue(rows, None)| - examined
    {
      CountingMeans(rows, cursor, examined, report, options.maxEntries, noise);
      var left := if options.maxEntries.Some? then options.maxEntries.value - examined else batchSize;
      CountingNext(rows, cursor, examined, report, options.maxEntries, noise, Min(batchSize, left));
      if left == 0 { return Ok(report); }
      var fetched := store.PendingAfter(Min(batchSize, left), cursor);
      if fetched.Err? { return Err(fetched.error); }
      var page := fetched.value;
      if page == [] { return Ok(report); }
      ghost var before := report;
      report := CountPage(rows, Queue(rows, None)[..examined], page, report, noise);
      CountingOn(rows, cursor, examined, before, report, options.maxEntries, noise, page);
      cursor := Some(Last(page));
      examined := examined + |page|;
    }
  }

  /** A dry run that has counted the first `n` rows of the queue. */
  ghost predicate Counting(rows: Rows, cursor: Option<Key>, n: nat, report: Report, maxEntries: Option<nat>,
                           noise: string -> bool) {
    var queue := Queue(rows, None);
    && n <= |queue| && cursor == (if n == 0 then None else Some(queue[n - 1]))
    && (maxEntries.Some? ==> n <= maxEntries.value)
    && Counted(report, rows, queue[..n], noise) && report.pendingBefore == |Waitless(rows)|
  }

  lemma CountingStarts(rows: Rows, report: Report, maxEntries: Option<nat>, noise: string -> bool)
    requires report == Report(|Waitless(rows)|, 0, 0, 0, 0, 0, false, true)
    ensures Counting(rows, None, 0, report, maxEntries, noise)
  {
    hide Counted, Queue, Waitless;
    NothingCounted(rows, noise, report);
    assert Queue(rows, None)[..0] == [];
  }

  lemma NothingToCount(rows: Rows, report: Report, maxEntries: Option<nat>, noise: string -> bool)
    requires Counting(rows, None, 0, report, maxEntries, noise) && |Waitless(rows)| == 0
    ensures Counted(report, rows, Taken(rows, maxEntries), noise)
  {
    hide Counted, Queue, Waitless, Taken;
    NothingWaits(rows, rows, noise, maxEntries);
    assert Queue(rows, None)[..0] == [];
  }

  lemma CountingMeans(rows: Rows, cursor: Option<Key>, n: nat, report: Report, maxEntries: Option<nat>,
                      noise: string -> bool)
    requires Counting(rows, cursor, n, report, maxEntries, noise)
    ensures n <= |Queue(rows, None)| && (maxEntries.Some? ==> n <= maxEntries.value)
    ensures Counted(report, rows, Queue(rows, None)[..n], noise) && report.pendingBefore == |Waitless(rows)|
  {
    hide Counted, Queue, Waitless;
  }

  /**
   * The next page lies ahead in the queue; when it is empty, or nothing is left to take, the
   * count is that of a run.
   */
  lemma {:induction false} CountingNext(rows: Rows, cursor: Option<Key>, n: nat, report: Report,
                                        maxEntries: Option<nat>,
                                        noise: string -> bool, limit: nat)
    requires Counting(rows, cursor, n, report, maxEntries, noise)
    ensures var page := Queue(rows, cursor)[..Min(limit, |Queue(rows, cursor)|)];
            && n + |page| <= |Queue(rows, None)| && (forall k :: k in Queue(rows, None)[..n] + page ==> k in rows)
            && ((page == [] && limit > 0) || maxEntries == Some(n) ==>
                Counted(report, rows, Taken(rows, maxEntries), noise))
  {
    hide Counted, Queue, Waitless, Taken;
    var queue := Queue(rows, None);
    QueuePast(rows, n, limit);
    assert forall k :: k in queue[..n + |Queue(rows, cursor)[..Min(limit, |Queue(rows, cursor)|)]|] ==> k in queue;
    if n == |queue| || maxEntries == Some(n) { TakenIs(rows, n, maxEntries); }
  }

  /** Counting a page takes the count to the page's end. */
  lemma {:induction false} CountingOn(rows: Rows, cursor: Option<Key>, n: nat, before: Report, report: Report,
                                      maxEntries: Option<nat>,
                                      noise: string -> bool, page: seq<Key>)
    requires Counting(rows, cursor, n, before, maxEntries, noise) && n <= |Queue(rows, None)|
    requires page != [] && page <= Queue(rows, cursor) && (maxEntries.Some? ==> n + |page| <= maxEntries.value)
    requires Counted(report, rows, Queue(rows, None)[..n] + page, noise) && report.pendingBefore == before.pendingBefore
    ensures Counting(rows, Some(Last(page)), n + |page|, report, maxEntries, noise)
  {
    hide Counted, Queue, Waitless, Taken;
    QueuePast(rows, n, |page|);
    PrefixIs(Queue(rows, cursor), page);
  }

  lemma NothingCounted(rows: Rows, noise: string -> bool, report: Report)
    requires report == Report(|Waitless(rows)|, 0, 0, 0, 0, 0, false, true)
    ensures Counted(report, rows, [], noise)
  {
  }

  lemma TakenIs(rows: Rows, n: nat, maxEntries: Option<nat>)
    requires n <= |Queue(rows, None)|
    requires maxEntries.Some? ==> n <= maxEntries.value
    requires n == |Queue(rows, None)| || maxEntries == Some(n)
    ensures Queue(rows, None)[..n] == Taken(rows, maxEntries)
  {
  }

  /** Counts one page, row by row. */
  method CountPage(rows: Rows, ghost done: seq<Key>, page: seq<Key>, before: Report, noise: string -> bool)
      returns (report: Report)
    requires Counted(before, rows, done, noise) && forall k :: k in done + page ==> k in rows
    ensures Counted(report, rows, done + page, noise) && report.pendingBefore == before.pendingBefore
  {
    report := before;
    assert done + page[..0] == done;
    for i := 0 to |page|
      invariant Counted(report, rows, done + page[..i], noise) && report.pendingBefore == before.pendingBefore
    {
      PreviewStep(rows, done, page, i, noise);
      if noise(rows[page[i]].content) {
        report := report.(skippedNoise := report.skippedNoise + 1);
      } else {
        report := report.(wouldReindex := report.wouldReindex + 1);
      }
    }
    assert page[..|page|] == page;
  }

  /** A dry-run report that has counted these rows. */
  ghost predicate Counted(report: Report, rows: Rows, keys: seq<Key>, noise: string -> bool) {
    && (forall k :: k in keys ==> k in rows)
    && report.wouldReindex == |Kept(rows, keys, noise)|
    && report.wouldReindex + report.skippedNoise == |keys|
    && report.reindexed == report.vanished == 0 && report.dryRun && !report.stoppedEarly
  }

  lemma PreviewStep(rows: Rows, done: seq<Key>, page: seq<Key>, i: nat, noise: string -> bool)
    requires i < |page| && forall k :: k in done + page ==> k in rows
    ensures page[i] in rows
    ensures (forall k :: k in done + page[..i] ==> k in rows) && (forall k :: k in done + page[..i + 1] ==> k in rows)
    ensures Kept(rows, done + page[..i + 1], noise) ==
            Kept(rows, done + page[..i], noise) + (if noise(rows[page[i]].content) then [] else [page[i]])
  {
    hide Kept;
    assert page[i] in done + page;
    assert forall k :: k in done + page[..i] ==> k in done + page;
    assert done + page[..i + 1] == (done + page[..i]) + [page[i]];
    KeptOfAppend(rows, done + page[..i], page[i], noise);
  }
}
