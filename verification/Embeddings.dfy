/** Batched, concurrent, retried embedding of documents. */
module Embeddings {
  import opened Prelude
  import opened Delimited
  import opened Numerals

  const CONCURRENCY: nat := 4

  /** The answer to the request for the `i`-th text during one attempt at a batch. */
  type Server = (nat, nat) -> Result<Vector, string>

  /** The order in which the requests of a chunk complete: any order, but all of them do. */
  type Scheduler = (nat, nat, nat) -> seq<nat>

  ghost predicate Completes(order: seq<nat>, n: nat) {
    forall i :: i in order <==> i < n
  }

  ghost predicate Fair(schedule: Scheduler) {
    forall attempt: nat, lo: nat, n: nat :: Completes(schedule(attempt, lo, n), n)
  }

  /** The first failure in order of completion. */
  function FirstError(serve: nat -> Result<Vector, string>, order: seq<nat>): Option<string> {
    if order == [] then None
    else if serve(order[0]).Err? then Some(serve(order[0]).error)
    else FirstError(serve, order[1..])
  }

  function VectorOf(r: Result<Vector, string>): Vector {
    match r case Ok(v) => v case Err(_) => []
  }

  /** What a chunk of requests comes to. */
  function JoinedRequests(serve: nat -> Result<Vector, string>, n: nat, order: seq<nat>): Result<seq<Vector>, string> {
    match FirstError(serve, order)
    case Some(e) => Err(e)
    case None => Ok(seq(n, i requires 0 <= i < n => VectorOf(serve(i))))
  }

  lemma {:induction false} FirstErrorIs(serve: nat -> Result<Vector, string>, order: seq<nat>, k: nat)
    requires k <= |order| && forall j :: 0 <= j < k ==> serve(order[j]).Ok?
    ensures k < |order| && serve(order[k]).Err? ==> FirstError(serve, order) == Some(serve(order[k]).error)
    ensures k == |order| ==> FirstError(serve, order) == None
    decreases |order|
  {
    if k > 0 { FirstErrorIs(serve, order[1..], k - 1); }
  }

  lemma {:induction false} NoFirstError(serve: nat -> Result<Vector, string>, order: seq<nat>)
    ensures FirstError(serve, order).None? ==> forall i :: i in order ==> serve(i).Ok?
    decreases |order|
  {
    if order != [] { NoFirstError(serve, order[1..]); }
  }

  /** Runs the requests `lo .. lo + n` at once; the first failure to complete ends the chunk. */
  method JoinAll(serve: nat -> Result<Vector, string>, n: nat, order: seq<nat>) returns (r: Result<seq<Vector>, string>)
    requires Completes(order, n)
    ensures r.Ok? <==> forall i: nat :: i < n ==> serve(i).Ok?
    ensures r.Ok? ==> |r.value| == n && forall i :: 0 <= i < n ==> r.value[i] == serve(i).value
    ensures r.Err? ==> exists i: nat :: i < n && serve(i) == Err(r.error)
    ensures r == JoinedRequests(serve, n, order)
  {
    var slots := new Option<Vector>[n](_ => None);
    for k := 0 to |order|
      invariant forall i :: 0 <= i < n ==>
                  slots[i] == (if i in order[..k] && serve(i).Ok? then Some(serve(i).value) else None)
      invariant forall j :: 0 <= j < k ==> serve(order[j]).Ok?
    {
      assert order[k] in order;
      assert order[..k + 1] == order[..k] + [order[k]];
      var answer := serve(order[k]);
      if answer.Err? {
        FirstErrorIs(serve, order, k);
        return Err(answer.error);
      }
      slots[order[k]] := Some(answer.value);
    }
    FirstErrorIs(serve, order, |order|);
    assert order[..|order|] == order;
    forall i: nat | i < n ensures serve(i).Ok? && slots[i] == Some(serve(i).value) {
      assert i in order;
    }
    r := Ok(seq(n, i requires 0 <= i < n && slots[i].Some? reads slots => slots[i].value));
    assert r.value == JoinedRequests(serve, n, order).value;
  }

  /** The requests of a chunk that starts at text `lo` of attempt `attempt`. */
  function From(serve: Server, attempt: nat, lo: nat): nat -> Result<Vector, string> {
    (i: nat) => serve(attempt, lo + i)
  }

  /** What an attempt at the texts from `lo` on comes to: the first failing chunk ends it. */
  function Attempt(serve: Server, schedule: Scheduler, attempt: nat, count: nat, lo: nat): Result<seq<Vector>, string>
    decreases count - lo
  {
    if lo >= count then Ok([])
    else
      var n: nat := Min(CONCURRENCY, count - lo);
      match JoinedRequests(From(serve, attempt, lo), n, schedule(attempt, lo, n))
      case Err(e) => Err(e)
      case Ok(vectors) =>
        Behind(vectors, Attempt(serve, schedule, attempt, count, lo + n))
  }

  /** A successful attempt holds the vector of every request at its index. */
  lemma {:induction false} AttemptPairs(serve: Server, schedule: Scheduler, attempt: nat, count: nat, lo: nat)
    requires Fair(schedule) && lo <= count && Attempt(serve, schedule, attempt, count, lo).Ok?
    ensures var vectors := Attempt(serve, schedule, attempt, count, lo).value;
            |vectors| == count - lo && forall i: nat :: i < count - lo ==> serve(attempt, lo + i) == Ok(vectors[i])
    decreases count - lo
  {
    if lo < count {
      var n: nat := Min(CONCURRENCY, count - lo);
      var order := schedule(attempt, lo, n);
      assert Completes(order, n);
      var chunk := From(serve, attempt, lo);
      NoFirstError(chunk, order);
      AttemptPairs(serve, schedule, attempt, count, lo + n);
      var vectors := Attempt(serve, schedule, attempt, count, lo).value;
      forall i: nat | i < count - lo ensures serve(attempt, lo + i) == Ok(vectors[i]) {
        if i < n {
          assert chunk(i) == serve(attempt, lo + i);
        } else {
          assert serve(attempt, lo + n + (i - n)) == Ok(vectors[i]);
        }
      }
    }
  }

  /** One attempt: chunks of four, in order; the vectors come back in text order or not at all. */
  method EmbedDocuments(count: nat, attempt: nat, serve: Server, schedule: Scheduler)
      returns (r: Result<seq<Vector>, string>)
    requires Fair(schedule)
    ensures r.Ok? <==> forall i: nat :: i < count ==> serve(attempt, i).Ok?
    ensures r.Ok? ==> |r.value| == count && forall i :: 0 <= i < count ==> r.value[i] == serve(attempt, i).value
    ensures r.Err? ==> exists i: nat :: i < count && serve(attempt, i) == Err(r.error)
    ensures r == Attempt(serve, schedule, attempt, count, 0)
  {
    hide JoinedRequests, Completes, Attempt, Behind;
    var vectors := [];
    BehindMore([], [], Attempt(serve, schedule, attempt, count, 0));
    while |vectors| < count
      invariant |vectors| <= count
      invariant Attempt(serve, schedule, attempt, count, 0) ==
                Behind(vectors, Attempt(serve, schedule, attempt, count, |vectors|))
      invariant forall i: nat :: i < |vectors| ==> serve(attempt, i).Ok? && vectors[i] == serve(attempt, i).value
      decreases count - |vectors|
    {
      var lo := |vectors|;
      var n := Min(CONCURRENCY, count - lo);
      var chunk := From(serve, attempt, lo);
      AttemptStep(serve, schedule, attempt, count, lo);
      BehindError(vectors, Attempt(serve, schedule, attempt, count, lo));
      var joined := JoinAll(chunk, n, schedule(attempt, lo, n));
      if joined.Err? {
        var i: nat :| i < n && chunk(i) == Err(joined.error);
        assert serve(attempt, lo + i) == Err(joined.error);
        return Err(joined.error);
      }
      BehindMore(vectors, joined.value, Attempt(serve, schedule, attempt, count, lo + n));
      vectors := vectors + joined.value;
      forall i: nat | lo <= i < |vectors| ensures serve(attempt, i).Ok? && vectors[i] == serve(attempt, i).value {
        assert chunk(i - lo) == serve(attempt, i);
      }
    }
    AttemptStep(serve, schedule, attempt, count, count);
    BehindNothing(vectors);
    r := Ok(vectors);
  }

  function Behind(vectors: seq<Vector>, r: Result<seq<Vector>, string>): Result<seq<Vector>, string> {
    match r case Err(e) => Err(e) case Ok(more) => Ok(vectors + more)
  }

  lemma BehindError(vectors: seq<Vector>, r: Result<seq<Vector>, string>)
    ensures r.Err? ==> Behind(vectors, r) == r
  {
  }

  lemma BehindNothing(vectors: seq<Vector>)
    ensures Behind(vectors, Ok([])) == Ok(vectors)
  {
    assert vectors + [] == vectors;
  }

  lemma AttemptStep(serve: Server, schedule: Scheduler, attempt: nat, count: nat, lo: nat)
    ensures lo >= count ==> Attempt(serve, schedule, attempt, count, lo) == Ok([])
    ensures lo < count ==>
              var n: nat := Min(CONCURRENCY, count - lo);
              var joined := JoinedRequests(From(serve, attempt, lo), n, schedule(attempt, lo, n));
              Attempt(serve, schedule, attempt, count, lo) ==
              match joined
              case Err(e) => Err(e)
              case Ok(vectors) => Behind(vectors, Attempt(serve, schedule, attempt, count, lo + n))
  {
    hide JoinedRequests, Behind;
  }

  lemma BehindMore(a: seq<Vector>, b: seq<Vector>, r: Result<seq<Vector>, string>)
    ensures Behind(a, Behind(b, r)) == Behind(a + b, r)
    ensures Behind([], r) == r
  {
    if r.Ok? {
      assert a + (b + r.value) == (a + b) + r.value;
      assert [] + r.value == r.value;
    }
  }

  // ------------------------------------------------------------ which failures to repeat

  predicate Mentions(message: string, text: string) {
    First(message, text).Some?
  }

  /** The part of a message before the response body. */
  function Head(message: string): string {
    var body := First(message, "body=");
    if body.Some? then message[..body.value] else message
  }

  /** The number after the first `status=` of a text, when it fits sixteen bits. */
  function StatusIn(head: string): Option<nat> {
    var at := First(head, "status=");
    if at.None? then None
    else
      var digits := Digits(head[at.value + 7..]);
      if digits == "" || Value(digits) > 0xFFFF then None else Some(Value(digits))
  }

  /** Worth repeating: no known permanent failure, and no status or a status that may pass. */
  predicate IsTransient(message: string) {
    && !Mentions(message, "failed to decode")
    && !Mentions(message, "missing float embeddings")
    && PassingStatus(StatusIn(Head(message)))
  }

  predicate PassingStatus(status: Option<nat>) {
    status.None? || status.value == 429 || 500 <= status.value < 600
  }

  /** A status that fits sixteen bits reads back from a message that gives it first; a longer number is no status. */
  lemma {:induction false} StatusReadsBack(front: string, n: nat, behind: string)
    requires Leftmost(front, "status=") && behind != "" && !IsDigit(behind[0])
    ensures StatusIn(front + "status=" + Decimal(n) + behind) == if n <= 65535 then Some(n) else None
  {
    hide Decimal, Value, Digits, OccursAt, First;
    var message := front + "status=" + Decimal(n) + behind;
    Associate(front + "status=", Decimal(n), behind);
    FirstInPrefix(front + "status=", Decimal(n) + behind, "status=");
    assert message[|front| + 7..] == Decimal(n) + behind;
    DigitsInFront(Decimal(n), behind);
    DecimalReads(n);
  }

  /** Without a permanent phrase, a failure is repeated on 429, on every 5xx, and when there is no status. */
  lemma RepeatedStatuses(message: string)
    requires !Mentions(message, "failed to decode") && !Mentions(message, "missing float embeddings")
    ensures var status := StatusIn(Head(message));
            IsTransient(message) <==> status == None || status == Some(429) || (status.Some? && status.value / 100 == 5)
  {
  }

  /**
   * The body cannot forge a status: whatever text follows the first `body=`, the
   * status read is that of the head. The two permanent-failure phrases are still
   * looked for in the body, so they, and they alone, let it change the verdict.
   */
  lemma {:induction false} BodyMattersOnlyByPhrase(head: string, body: string)
    requires Leftmost(head, "body=")
    ensures var message := head + "body=" + body;
            && StatusIn(Head(message)) == StatusIn(head)
            && (IsTransient(message) <==>
                PassingStatus(StatusIn(head)) && !Mentions(message, "failed to decode")
                    && !Mentions(message, "missing float embeddings"))
  {
    FirstInPrefix(head + "body=", body, "body=");
    assert (head + "body=" + body)[..|head|] == head;
  }

  // ---- two messages of one unavailable server, in lower case

  const REQUEST := "agent error: ollama embeddings request "
  const FAILED := "failed: "
  const UNAVAILABLE := "503 service unavailable, "

  /** What such a message says in front of the body. */
  function UnavailableHead(): string {
    REQUEST + FAILED + "status=" + UNAVAILABLE
  }

  /** A body can change the verdict: the same unavailable server is retried or not by what it says. */
  lemma {:induction false} PhraseInBodyStopsRetries()
    ensures IsTransient(UnavailableHead() + "body=" + "busy")
    ensures !IsTransient(UnavailableHead() + "body=" + "failed to decode")
  {
    hide First, Head, StatusIn, UnavailableHead, OccursAt;
    HeadIsLeftmost();
    HeadSays503();
    BodyMattersOnlyByPhrase(UnavailableHead(), "busy");
    BusyHasNoPhrase();
    DecodeHasPhrase();
  }

  /** A word stands only where its characters do. */
  lemma StandsWith(t: string, word: string, q: nat, k: nat)
    requires k < |word|
    ensures OccursAt(t, word, q) ==> q + k < |t| && t[q + k] == word[k]
  {
    if OccursAt(t, word, q) { assert t[q + k] == t[q..q + |word|][k]; }
  }

  lemma StandsBetween(before: string, word: string, behind: string)
    ensures OccursAt(before + word + behind, word, |before|)
  {
  }

  lemma PartAt(a: string, b: string, c: string, k: nat)
    requires k < |a + b + c|
    ensures (a + b + c)[k] == if k < |a| then a[k] else if k < |a| + |b| then b[k - |a|] else c[k - |a| - |b|]
  {
  }

  /** A character that only the middle one of three parts holds stands in the middle. */
  lemma OnlyInTheMiddle(a: string, b: string, c: string, x: char, k: nat)
    requires x !in a && x !in c
    ensures k < |a + b + c| && (a + b + c)[k] == x ==> |a| <= k < |a| + |b| && b[k - |a|] == x
  {
    if k < |a + b + c| { PartAt(a, b, c, k); }
  }

  lemma PartsOfHead()
    ensures |REQUEST| == 39 && |FAILED| == 8 && |UNAVAILABLE| == 25
    ensures '=' !in REQUEST && '=' !in FAILED && '=' !in UNAVAILABLE
    ensures 'f' !in REQUEST && 'f' !in UNAVAILABLE && REQUEST[31] == 'r'
    ensures UNAVAILABLE == "503" + " service unavailable, "
  {
    hide REQUEST, FAILED, UNAVAILABLE;
    RequestPart();
    StatusPart();
  }

  lemma RequestPart()
    ensures |REQUEST| == 39 && REQUEST[31] == 'r' && '=' !in REQUEST && 'f' !in REQUEST
  {
    hide FAILED, UNAVAILABLE;
  }

  lemma StatusPart()
    ensures |FAILED| == 8 && '=' !in FAILED
    ensures |UNAVAILABLE| == 25 && '=' !in UNAVAILABLE && 'f' !in UNAVAILABLE
    ensures UNAVAILABLE == "503" + " service unavailable, "
  {
    hide REQUEST;
  }

  lemma FailedMark()
    ensures FAILED[6] == ':' && forall k :: 0 <= k < 8 && FAILED[k] == 'f' ==> k == 0
    ensures "status="[2] == 'a' && forall k :: 0 <= k < 7 && "status="[k] == '=' ==> k == 6
  {
  }

  lemma HeadIsLeftmost()
    ensures Leftmost(UnavailableHead(), "body=")
  {
    hide First, OccursAt, REQUEST, FAILED, UNAVAILABLE;
    PartsOfHead();
    FailedMark();
    var front, t := REQUEST + FAILED, UnavailableHead() + "body=";
    var behind := UNAVAILABLE + "body";
    assert '=' !in front && '=' !in behind && t[..83] == front + "status=" + behind;
    PartAt(front, "status=", behind, 49);
    forall q: nat | q < 79 ensures !OccursAt(t, "body=", q) {
      StandsWith(t, "body=", q, 4);
      StandsWith(t, "body=", q, 0);
      OnlyInTheMiddle(front, "status=", behind, '=', q + 4);
      assert t[..83][q + 4] == t[q + 4] && t[..83][49] == t[49];
    }
    StandsBetween(UnavailableHead(), "body=", "");
    assert UnavailableHead() + "body=" + "" == t;
    FirstIs(t, "body=", 79);
  }

  lemma HeadSays503()
    ensures StatusIn(UnavailableHead()) == Some(503)
  {
    hide First, OccursAt, Digits, Value, REQUEST, FAILED, UNAVAILABLE;
    PartsOfHead();
    FailedMark();
    var front, t := REQUEST + FAILED, UnavailableHead();
    assert '=' !in front;
    forall q: nat | q < 47 ensures !OccursAt(t, "status=", q) {
      StandsWith(t, "status=", q, 6);
      OnlyInTheMiddle(front, "status=", UNAVAILABLE, '=', q + 6);
    }
    StandsBetween(front, "status=", UNAVAILABLE);
    FirstIs(t, "status=", 47);
    assert t[54..] == UNAVAILABLE;
    assert " service unavailable, "[0] == ' ' && forall c :: c in "503" ==> IsDigit(c);
    DigitsInFront("503", " service unavailable, ");
    ValueOf503();
  }

  lemma ValueOf503()
    ensures Value("503") == 503
  {
    assert "503"[..2] == "50" && "50"[..1] == "5" && "5"[..0] == "";
    assert Value("5") == 5 && Value("50") == 50;
  }

  lemma BusyParts()
    ensures var behind := "status=" + UNAVAILABLE + "body=" + "busy";
            'f' !in behind && UnavailableHead() + "body=" + "busy" == REQUEST + FAILED + behind
  {
    hide REQUEST, FAILED, UNAVAILABLE;
    PartsOfHead();
  }

  /** The one 'f' of the message stands where neither phrase can have it. */
  lemma BusyHasNoPhrase()
    ensures !Mentions(UnavailableHead() + "body=" + "busy", "failed to decode")
    ensures !Mentions(UnavailableHead() + "body=" + "busy", "missing float embeddings")
  {
    hide First, OccursAt, REQUEST, FAILED, UNAVAILABLE, UnavailableHead;
    var t, behind := UnavailableHead() + "body=" + "busy", "status=" + UNAVAILABLE + "body=" + "busy";
    BusyParts();
    FirstIsLeftmost(t, "failed to decode");
    FirstIsLeftmost(t, "missing float embeddings");
    forall q: nat ensures !OccursAt(t, "failed to decode", q) && !OccursAt(t, "missing float embeddings", q) {
      NotDecode(behind, q);
      NotMissing(behind, q);
    }
  }

  lemma NotDecode(behind: string, q: nat)
    requires 'f' !in behind && |behind| > 0
    ensures !OccursAt(REQUEST + FAILED + behind, "failed to decode", q)
  {
    hide OccursAt, REQUEST, FAILED;
    PartsOfHead();
    FailedMark();
    StandsWith(REQUEST + FAILED + behind, "failed to decode", q, 0);
    StandsWith(REQUEST + FAILED + behind, "failed to decode", q, 6);
    OnlyInTheMiddle(REQUEST, FAILED, behind, 'f', q);
    PartAt(REQUEST, FAILED, behind, 45);
  }

  lemma NotMissing(behind: string, q: nat)
    requires 'f' !in behind && |behind| > 0
    ensures !OccursAt(REQUEST + FAILED + behind, "missing float embeddings", q)
  {
    hide OccursAt, REQUEST, FAILED;
    PartsOfHead();
    FailedMark();
    StandsWith(REQUEST + FAILED + behind, "missing float embeddings", q, 8);
    StandsWith(REQUEST + FAILED + behind, "missing float embeddings", q, 0);
    OnlyInTheMiddle(REQUEST, FAILED, behind, 'f', q + 8);
    PartAt(REQUEST, FAILED, behind, 31);
  }

  lemma DecodeHasPhrase()
    ensures Mentions(UnavailableHead() + "body=" + "failed to decode", "failed to decode")
  {
    hide First, UnavailableHead;
    var t := UnavailableHead() + "body=" + "failed to decode";
    FirstIsLeftmost(t, "failed to decode");
    StandsBetween(UnavailableHead() + "body=", "failed to decode", "");
    assert UnavailableHead() + "body=" + "failed to decode" + "" == t;
  }

  // ------------------------------------------------------------ retry and validation

  ghost predicate HonestServer(serve: Server, texts: seq<string>, embed: string -> Vector) {
    forall attempt: nat, i: nat :: i < |texts| && serve(attempt, i).Ok? ==> serve(attempt, i).value == embed(texts[i])
  }

  predicate HaveDimension(vectors: seq<Vector>, expected: Option<nat>) {
    expected.Some? ==> forall i :: 0 <= i < |vectors| ==> |vectors[i]| == expected.value
  }

  method Validate(vectors: seq<Vector>, expected: Option<nat>) returns (ok: bool)
    ensures ok == HaveDimension(vectors, expected)
    ensures !ok <==> expected.Some? && exists v :: v in vectors && |v| != expected.value
  {
    if expected.None? {
      return true;
    }
    for i := 0 to |vectors|
      invariant forall j :: 0 <= j < i ==> |vectors[j]| == expected.value
    {
      if |vectors[i]| != expected.value {
        return false;
      }
    }
    return true;
  }

  datatype Failure = RequestFailed(message: string) | WrongDimension

  /** What a call comes to from its `attempt`-th attempt on. */
  function Settled(serve: Server, schedule: Scheduler, count: nat, maxRetries: nat, expected: Option<nat>,
                   attempt: nat): Result<seq<Vector>, Failure>
    decreases maxRetries - attempt
  {
    match Attempt(serve, schedule, attempt, count, 0)
    case Ok(vectors) => if HaveDimension(vectors, expected) then Ok(vectors) else Err(WrongDimension)
    case Err(e) =>
      if !IsTransient(e) || attempt >= maxRetries then Err(RequestFailed(e))
      else Settled(serve, schedule, count, maxRetries, expected, attempt + 1)
  }

  lemma SettledStep(serve: Server, schedule: Scheduler, count: nat, maxRetries: nat, expected: Option<nat>,
                    attempt: nat)
    ensures Settled(serve, schedule, count, maxRetries, expected, attempt) ==
            match Attempt(serve, schedule, attempt, count, 0)
            case Ok(vectors) => (if HaveDimension(vectors, expected) then Ok(vectors) else Err(WrongDimension))
            case Err(e) =>
              if !IsTransient(e) || attempt >= maxRetries then Err(RequestFailed(e))
              else Settled(serve, schedule, count, maxRetries, expected, attempt + 1)
  {
    hide IsTransient, HaveDimension, Attempt;
  }

  lemma ServedHonestly(texts: seq<string>, serve: Server, attempt: nat, vectors: seq<Vector>, embed: string -> Vector)
    requires |vectors| == |texts| && forall i: nat :: i < |texts| ==> serve(attempt, i) == Ok(vectors[i])
    ensures HonestServer(serve, texts, embed) ==> forall i :: 0 <= i < |texts| ==> vectors[i] == embed(texts[i])
  {
    if HonestServer(serve, texts, embed) {
      forall i: nat | i < |texts| ensures vectors[i] == embed(texts[i]) {
        assert serve(attempt, i).Ok?;
      }
    }
  }

  /** Whatever the schedule and the failures, a call that succeeds pairs every text with its own vector. */
  lemma {:induction false} SettledPairs(texts: seq<string>, serve: Server, schedule: Scheduler, maxRetries: nat,
                                        expected: Option<nat>,
                                        attempt: nat, embed: string -> Vector)
    requires Fair(schedule) && HonestServer(serve, texts, embed)
    requires Settled(serve, schedule, |texts|, maxRetries, expected, attempt).Ok?
    ensures var vectors := Settled(serve, schedule, |texts|, maxRetries, expected, attempt).value;
            && |vectors| == |texts| && HaveDimension(vectors, expected)
            && forall i :: 0 <= i < |texts| ==> vectors[i] == embed(texts[i])
    decreases maxRetries - attempt
  {
    hide IsTransient;
    if Attempt(serve, schedule, attempt, |texts|, 0).Ok? {
      AttemptPairs(serve, schedule, attempt, |texts|, 0);
      var vectors := Attempt(serve, schedule, attempt, |texts|, 0).value;
      forall i: nat | i < |texts| ensures vectors[i] == embed(texts[i]) {
        assert serve(attempt, 0 + i) == Ok(vectors[i]);
      }
    } else {
      SettledPairs(texts, serve, schedule, maxRetries, expected, attempt + 1, embed);
    }
  }

  /**
   * The resilient provider. `outcomes` lists the attempts: all but the last
   * failed transiently, the last settled the call or used up the retries. A
   * batch that succeeds holds each text's own vector, in text order and with the
   * declared dimension; nothing is repeated after a wrong dimension.
   */
  method EmbedResilient(texts: seq<string>, serve: Server, schedule: Scheduler, maxRetries: nat, expected: Option<nat>,
                        ghost embed: string -> Vector)
      returns (r: Result<seq<Vector>, Failure>, outcomes: seq<Result<seq<Vector>, string>>)
    requires Fair(schedule)
    ensures 1 <= |outcomes| <= maxRetries + 1
    ensures forall a :: 0 <= a < |outcomes| - 1 ==> outcomes[a].Err? && IsTransient(outcomes[a].error)
    ensures Last(outcomes).Ok? || !IsTransient(Last(outcomes).error) || |outcomes| == maxRetries + 1
    ensures outcomes[0].Err? && !IsTransient(outcomes[0].error) ==> |outcomes| == 1
    ensures forall a: nat :: a < |outcomes| ==> (outcomes[a].Ok? <==> forall i: nat :: i < |texts| ==> serve(a, i).Ok?)
    ensures r.Ok? <==> Last(outcomes).Ok? && HaveDimension(Last(outcomes).value, expected)
    ensures Last(outcomes).Err? ==> r == Err(RequestFailed(Last(outcomes).error))
    ensures r.Ok? ==> r.value == Last(outcomes).value && |r.value| == |texts| && HaveDimension(r.value, expected)
    ensures r.Ok? && HonestServer(serve, texts, embed) ==>
              forall i :: 0 <= i < |texts| ==> r.value[i] == embed(texts[i])
    ensures r == Settled(serve, schedule, |texts|, maxRetries, expected, 0)
  {
    hide IsTransient, Attempt, Settled, HaveDimension, HonestServer, Fair;
    outcomes := [];
    while true
      invariant |outcomes| <= maxRetries
      invariant Settled(serve, schedule, |texts|, maxRetries, expected, 0) ==
                Settled(serve, schedule, |texts|, maxRetries, expected, |outcomes|)
      invariant forall a :: 0 <= a < |outcomes| ==> outcomes[a].Err? && IsTransient(outcomes[a].error)
      invariant forall a: nat :: a < |outcomes| ==>
                (outcomes[a].Ok? <==> forall i: nat :: i < |texts| ==> serve(a, i).Ok?)
      decreases maxRetries - |outcomes|
    {
      var attempt := |outcomes|;
      var outcome := EmbedDocuments(|texts|, attempt, serve, schedule);
      SettledStep(serve, schedule, |texts|, maxRetries, expected, attempt);
      outcomes := outcomes + [outcome];
      if outcome.Ok? {
        var ok := Validate(outcome.value, expected);
        ServedHonestly(texts, serve, attempt, outcome.value, embed);
        return if ok then Ok(outcome.value) else Err(WrongDimension), outcomes;
      }
      if !IsTransient(outcome.error) || attempt >= maxRetries {
        return Err(RequestFailed(outcome.error)), outcomes;
      }
    }
  }
}
