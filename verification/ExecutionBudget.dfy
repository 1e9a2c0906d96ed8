// The specification, `Account`, remembers every signature registered since the last
// reset. The implementation, `ExecutionBudget`, keeps only a window of three signatures
// and a flag, and is proved to refine it.

/** The tool-call budget of one agent task and its loop breaker. */
module Budget {
  import opened Prelude

  const LOOP_WINDOW: nat := 3
  const DEFAULT_PER_TURN: nat := 10
  const DEFAULT_PER_TASK: nat := 50

  /** Tool name and hash of its arguments; the hash function is uninterpreted. */
  datatype Signature = Signature(tool: string, argsHash: nat)

  datatype Verdict = Warn | Abort

  datatype Account = Account(
    maxPerTurn: nat,
    maxPerTask: nat,
    turnCalls: nat,
    taskCalls: nat,
    history: seq<Signature>,
    warned: Option<Signature>)
  {
    predicate ClosesLoop() {
      |history| >= LOOP_WINDOW &&
      forall i :: |history| - LOOP_WINDOW <= i < |history| ==> history[i] == Last(history)
    }

    /** What the loop breaker says about the signature registered last. */
    function Judge(): Option<Verdict> {
      if ClosesLoop() then Some(if warned.None? then Warn else Abort)
      else if history != [] && warned == Some(Last(history)) then Some(Abort)
      else None
    }

    predicate CanCall() {
      turnCalls < maxPerTurn && taskCalls < maxPerTask
    }

    predicate TurnLimitReached() {
      turnCalls >= maxPerTurn && taskCalls < maxPerTask
    }

    function Counted(): Account {
      this.(turnCalls := turnCalls + 1, taskCalls := taskCalls + 1)
    }

    function Signed(sig: Signature): Account {
      this.(history := history + [sig])
    }

    function Judged(): Account {
      if Judge() == Some(Warn) then this.(warned := Some(Last(history))) else this
    }

    function TurnReset(): Account {
      this.(turnCalls := 0, history := [])
    }

    function TaskReset(): Account {
      this.(turnCalls := 0, taskCalls := 0, history := [], warned := None)
    }
  }

  // ---------------------------------------------------------------- runs

  /**
   * One thing that happens to a budget. `Call` registers a tool call and judges
   * it; `Envelope` counts a tool program without a signature; `EmptyProgram` is
   * the signature-only half, judged when a counted program dispatched no step.
   */
  datatype Event = Call(sig: Signature) | Envelope | EmptyProgram(sig: Signature) | NewTurn | NewTask {
    predicate Judges() {
      Call? || EmptyProgram?
    }

    predicate Resets() {
      NewTurn? || NewTask?
    }
  }

  /** The account after the event has been registered, before the verdict is recorded. */
  function Registered(a: Account, e: Event): Account {
    match e
    case Call(sig) => a.Counted().Signed(sig)
    case Envelope => a.Counted()
    case EmptyProgram(sig) => a.Signed(sig)
    case NewTurn => a.TurnReset()
    case NewTask => a.TaskReset()
  }

  function VerdictOn(a: Account, e: Event): Option<Verdict> {
    if e.Judges() then Registered(a, e).Judge() else None
  }

  function Apply(a: Account, e: Event): Account {
    if e.Judges() then Registered(a, e).Judged() else Registered(a, e)
  }

  /** The account after the first `n` events of a run. */
  function After(a: Account, es: seq<Event>, n: nat): Account
    requires n <= |es|
    decreases n
  {
    if n == 0 then a else Apply(After(a, es, n - 1), es[n - 1])
  }

  /** The verdict on event `i` of a run; `None` lets a judged call execute. */
  function VerdictAt(a: Account, es: seq<Event>, i: nat): Option<Verdict>
    requires i < |es|
  {
    VerdictOn(After(a, es, i), es[i])
  }

  predicate Executes(a: Account, es: seq<Event>, i: nat)
    requires i < |es|
  {
    es[i].Judges() && VerdictAt(a, es, i).None?
  }

  predicate SameTask(es: seq<Event>, i: nat, j: nat)
    requires i <= j <= |es|
  {
    forall k :: i <= k < j ==> !es[k].NewTask?
  }

  predicate SameTurn(es: seq<Event>, i: nat, j: nat)
    requires i <= j <= |es|
  {
    forall k :: i <= k < j ==> !es[k].Resets()
  }

  /** A recorded warning survives everything but a task reset. */
  lemma {:induction false} WarningPersists(a: Account, es: seq<Event>, i: nat, j: nat)
    requires i <= j <= |es|
    requires After(a, es, i).warned.Some?
    requires SameTask(es, i, j)
    ensures After(a, es, j).warned == After(a, es, i).warned
    decreases j - i
  {
    if i < j {
      WarningPersists(a, es, i, j - 1);
      assert !es[j - 1].NewTask?;
    }
  }

  /** At most one warning per task: every later detected loop aborts instead. */
  lemma {:induction false} OneWarningPerTask(a: Account, es: seq<Event>, i: nat, j: nat)
    requires i < j < |es|
    requires VerdictAt(a, es, i) == Some(Warn)
    requires SameTask(es, i + 1, j)
    ensures VerdictAt(a, es, j) != Some(Warn)
    ensures es[j].Judges() && Registered(After(a, es, j), es[j]).ClosesLoop() ==> VerdictAt(a, es, j) == Some(Abort)
  {
    assert After(a, es, i + 1).warned == Some(es[i].sig);
    WarningPersists(a, es, i + 1, j);
  }

  /** The warned signature never runs again in its task, whatever comes in between. */
  lemma {:induction false} WarnedNeverExecutesAgain(a: Account, es: seq<Event>, i: nat, j: nat)
    requires i < j < |es|
    requires VerdictAt(a, es, i) == Some(Warn)
    requires SameTask(es, i + 1, j)
    requires es[j].Judges() && es[j].sig == es[i].sig
    ensures VerdictAt(a, es, j) == Some(Abort)
  {
    assert After(a, es, i + 1).warned == Some(es[i].sig);
    WarningPersists(a, es, i + 1, j);
    var before := Registered(After(a, es, j), es[j]);
    assert Last(before.history) == es[j].sig;
  }

  /** A warning is about a signature that was already the last. */
  lemma WarningRepeats(a: Account, e: Event)
    requires e.Judges() && VerdictOn(a, e) == Some(Warn) && a.history != []
    ensures e.sig == Last(a.history)
  {
    var r := Registered(a, e);
    assert r.history[|r.history| - 2] == Last(a.history);
  }

  lemma TurnIsTask(es: seq<Event>, i: nat, m: nat, j: nat)
    requires i <= m < j <= |es| && SameTurn(es, i, j)
    ensures !es[m].Resets() && SameTask(es, m + 1, j) && (m + 1 < j ==> SameTask(es, m + 1, j - 1))
  {
  }

  lemma UnjudgedKeeps(a: Account, e: Event)
    ensures !e.Judges() && !e.Resets() ==> Apply(a, e).history == a.history
  {
  }

  /** Between two runs of one signature with nothing else run or aborted, nothing was judged at all. */
  lemma {:induction false} NothingJudgedBetween(a: Account, es: seq<Event>, i: nat, n: nat, j: nat)
    requires i < n <= j < |es|
    requires es[i].Judges() && es[j].Judges() && es[i].sig == es[j].sig
    requires Executes(a, es, i) && Executes(a, es, j)
    requires SameTurn(es, i + 1, j + 1)
    requires forall m :: i < m < j ==> !Executes(a, es, m) && VerdictAt(a, es, m) != Some(Abort)
    ensures After(a, es, n).history == After(a, es, i + 1).history
    decreases n
  {
    if i + 1 < n {
      NothingJudgedBetween(a, es, i, n - 1, j);
      var m := n - 1;
      ExecutedExtends(a, es, i);
      NextAccount(a, es, m);
      TurnIsTask(es, i + 1, m, j + 1);
      hide After, Apply, VerdictOn, SameTurn, SameTask;
      assert Last(After(a, es, m).history) == es[i].sig;
      if es[m].Judges() {
        assert !Executes(a, es, m) && VerdictAt(a, es, m) == Some(Warn);
        WarningRepeats(After(a, es, m), es[m]);
        WarnedNeverExecutesAgain(a, es, m, j);
        assert false;
      }
      UnjudgedKeeps(After(a, es, m), es[m]);
    }
  }

  /** An executed call leaves its signature at the end of the history. */
  lemma ExecutedExtends(a: Account, es: seq<Event>, i: nat)
    requires i < |es| && Executes(a, es, i)
    ensures After(a, es, i + 1).history == After(a, es, i).history + [es[i].sig]
  {
  }

  lemma JudgedWhenExecuted(a: Account, es: seq<Event>, i: nat)
    requires i < |es|
    ensures Executes(a, es, i) ==> es[i].Judges()
  {
  }

  /** The third equal signature in a row never executes. */
  lemma ThirdIsStopped(a: Account, es: seq<Event>, k: nat, h: seq<Signature>, sig: Signature)
    requires k < |es| && After(a, es, k).history == h + [sig] + [sig] && es[k].Judges() && es[k].sig == sig
    ensures !Executes(a, es, k)
  {
    hide After;
    var before := Registered(After(a, es, k), es[k]).history;
    assert before == h + [sig] + [sig] + [sig];
    assert before[|h|] == before[|h| + 1] == before[|h| + 2] == sig;
  }

  /**
   * Three executions of one signature in a turn are never consecutive: something
   * else ran in between, or an abort was ignored by the caller.
   */
  lemma {:induction false} NeverThreeInARow(a: Account, es: seq<Event>, i: nat, j: nat, k: nat)
    requires i < j < k < |es|
    requires Executes(a, es, i) && Executes(a, es, j) && Executes(a, es, k)
    requires es[i].sig == es[j].sig == es[k].sig
    requires SameTurn(es, i + 1, k + 1)
    ensures exists m :: i < m < k && m != j && (Executes(a, es, m) || VerdictAt(a, es, m) == Some(Abort))
  {
    if forall m :: i < m < k && m != j ==> !Executes(a, es, m) && VerdictAt(a, es, m) != Some(Abort) {
      NothingJudgedBetween(a, es, i, j, j);
      NothingJudgedBetween(a, es, j, k, k);
      ExecutedExtends(a, es, i);
      ExecutedExtends(a, es, j);
      JudgedWhenExecuted(a, es, k);
      hide After, VerdictAt, Executes;
      ThirdIsStopped(a, es, k, After(a, es, i).history, es[i].sig);
    }
  }

  /** A call is counted and signed, and a warning is remembered. */
  lemma CallIs(a: Account, x: Event)
    requires x.Call?
    ensures Apply(a, x) ==
            a.(turnCalls := a.turnCalls + 1, taskCalls := a.taskCalls + 1, history := a.history + [x.sig],
               warned := if VerdictOn(a, x) == Some(Warn) then Some(x.sig) else a.warned)
  {
  }

  /** Fewer than three signatures close no loop. */
  lemma TooFew(a: Account, x: Event)
    requires x.Call? && |a.history| < 2 && a.warned != Some(x.sig)
    ensures VerdictOn(a, x).None?
  {
  }

  lemma ThirdWarns(a: Account, x: Event)
    requires x.Call? && a.history == [x.sig, x.sig] && a.warned.None?
    ensures VerdictOn(a, x) == Some(Warn)
  {
  }

  lemma WarnedAborts(a: Account, x: Event)
    requires x.Call? && a.warned == Some(x.sig)
    ensures VerdictOn(a, x) == Some(Abort)
  {
    assert Last(Registered(a, x).history) == x.sig;
  }

  /** A different signature just before breaks the loop. */
  lemma BrokenLoop(a: Account, y: Event)
    requires y.Call? && a.history != [] && Last(a.history) != y.sig && a.warned != Some(y.sig)
    ensures VerdictOn(a, y).None?
  {
    var h := Registered(a, y).history;
    assert Last(h) == y.sig && h[|h| - 2] == Last(a.history);
  }

  lemma BeforeTheFirst(a: Account, es: seq<Event>)
    ensures After(a, es, 0) == a
  {
  }

  lemma NextAccount(a: Account, es: seq<Event>, n: nat)
    requires n < |es|
    ensures After(a, es, n + 1) == Apply(After(a, es, n), es[n])
  {
  }

  /** A fresh task in which `x` is called until the warning, and then the turn ends. */
  lemma WarnedTask(x: Event, es: seq<Event>)
    requires x.Call? && |es| >= 4 && es[0] == es[1] == es[2] == x && es[3] == NewTurn
    ensures var b := After(Account(DEFAULT_PER_TURN, DEFAULT_PER_TASK, 0, 0, [], None), es, 4);
            b.history == [] && b.warned == Some(x.sig)
  {
    var a := Account(DEFAULT_PER_TURN, DEFAULT_PER_TASK, 0, 0, [], None);
    NextAccount(a, es, 0);
    NextAccount(a, es, 1);
    NextAccount(a, es, 2);
    NextAccount(a, es, 3);
    assert After(a, es, 0) == a;
    hide After, VerdictOn;
    TooFew(a, x);
    CallIs(a, x);
    TooFew(After(a, es, 1), x);
    CallIs(After(a, es, 1), x);
    assert After(a, es, 2).history == [x.sig, x.sig];
    ThirdWarns(After(a, es, 2), x);
    CallIs(After(a, es, 2), x);
  }

  /**
   * The abort clause of `NeverThreeInARow` is needed: in a fresh task, a caller that
   * carried on after an abort could run the same call three times in a row.
   */
  lemma IgnoredAbortAllowsThree(x: Event, y: Event)
    requires x.Call? && y.Call? && x != y
    ensures var a := Account(DEFAULT_PER_TURN, DEFAULT_PER_TASK, 0, 0, [], None);
            var es := [x, x, x, NewTurn, y, y, x, y];
            && Executes(a, es, 4) && Executes(a, es, 5) && VerdictAt(a, es, 6) == Some(Abort) && Executes(a, es, 7)
            && SameTurn(es, 4, 8)
  {
    hide After, VerdictOn, Apply;
    var a := Account(DEFAULT_PER_TURN, DEFAULT_PER_TASK, 0, 0, [], None);
    var es := [x, x, x, NewTurn, y, y, x, y];
    WarnedTask(x, es);
    NextAccount(a, es, 4);
    TooFew(After(a, es, 4), y);
    CallIs(After(a, es, 4), y);
    NextAccount(a, es, 5);
    TooFew(After(a, es, 5), y);
    CallIs(After(a, es, 5), y);
    NextAccount(a, es, 6);
    WarnedAborts(After(a, es, 6), x);
    CallIs(After(a, es, 6), x);
    assert Last(After(a, es, 7).history) == x.sig;
    BrokenLoop(After(a, es, 7), y);
  }

  /** A new task starts afresh: what came before it changes no verdict in it. */
  lemma {:induction false} NewTaskStartsAfresh(a: Account, es: seq<Event>, i: nat)
    requires i < |es|
    ensures VerdictAt(a, [NewTask] + es, i + 1) ==
            VerdictAt(Account(a.maxPerTurn, a.maxPerTask, 0, 0, [], None), es, i)
  {
    hide VerdictOn, After;
    AfterNewTask(a, es, i);
    assert ([NewTask] + es)[i + 1] == es[i];
  }

  lemma {:induction false} AfterNewTask(a: Account, es: seq<Event>, n: nat)
    requires n <= |es|
    ensures After(a, [NewTask] + es, n + 1) == After(Account(a.maxPerTurn, a.maxPerTask, 0, 0, [], None), es, n)
    decreases n
  {
    hide After;
    var run := [NewTask] + es;
    var afresh := Account(a.maxPerTurn, a.maxPerTask, 0, 0, [], None);
    BeforeTheFirst(a, run);
    BeforeTheFirst(afresh, es);
    NextAccount(a, run, n);
    if n > 0 {
      AfterNewTask(a, es, n - 1);
      NextAccount(afresh, es, n - 1);
      assert run[n] == es[n - 1];
    }
  }

  /** The events that spend budget. */
  function Spent(es: seq<Event>): nat {
    if es == [] then 0
    else Spent(es[..|es| - 1]) + (if Last(es).Call? || Last(es).Envelope? then 1 else 0)
  }

  /** Within a task the task counter counts exactly the calls and envelopes. */
  lemma {:induction false} TaskCounterCounts(a: Account, es: seq<Event>, n: nat)
    requires n <= |es|
    requires SameTask(es, 0, n)
    ensures After(a, es, n).taskCalls == a.taskCalls + Spent(es[..n])
    decreases n
  {
    if n > 0 {
      TaskCounterCounts(a, es, n - 1);
      assert es[..n][..n - 1] == es[..n - 1];
      assert !es[n - 1].NewTask?;
    }
  }

  lemma {:induction false} AfterPrefix(a: Account, xs: seq<Event>, ys: seq<Event>, n: nat)
    requires n <= |xs| <= |ys| && ys[..|xs|] == xs
    ensures After(a, xs, n) == After(a, ys, n)
    decreases n
  {
    if n > 0 {
      AfterPrefix(a, xs, ys, n - 1);
      assert xs[n - 1] == ys[..|xs|][n - 1];
    }
  }

  /**
   * Loop detection does not see envelopes: inserting one at position `p` of any
   * run leaves every verdict as it was.
   */
  lemma {:induction false} EnvelopeIsInvisible(a: Account, es: seq<Event>, p: nat, i: nat)
    requires p <= |es| && i < |es|
    ensures var with := es[..p] + [Envelope] + es[p..];
            VerdictAt(a, with, if i < p then i else i + 1) == VerdictAt(a, es, i)
  {
    var with := es[..p] + [Envelope] + es[p..];
    if i < p {
      AfterPrefix(a, es[..p], es, i);
      AfterPrefix(a, es[..p], with, i);
    } else {
      assert with[..p] == es[..p];
      SameLoopState(a, es, with, p, i);
    }
  }

  lemma {:induction false} SameLoopState(a: Account, es: seq<Event>, with: seq<Event>, p: nat, n: nat)
    requires p <= n <= |es| && |with| == |es| + 1
    requires with[..p] == es[..p] && with[p] == Envelope
    requires forall k :: p < k < |with| ==> with[k] == es[k - 1]
    ensures var s, t := After(a, es, n), After(a, with, n + 1);
            s.history == t.history && s.warned == t.warned
    decreases n
  {
    hide After, Apply;
    NextAccount(a, with, n);
    if n == p {
      AfterPrefix(a, es[..p], es, p);
      AfterPrefix(a, es[..p], with, p);
      EnvelopeKeeps(After(a, with, p));
    } else {
      SameLoopState(a, es, with, p, n - 1);
      NextAccount(a, es, n - 1);
      SameLoopStep(After(a, es, n - 1), After(a, with, n), es[n - 1]);
    }
  }

  lemma EnvelopeKeeps(a: Account)
    ensures Apply(a, Envelope).history == a.history && Apply(a, Envelope).warned == a.warned
  {
  }

  /** Accounts that agree on the history and the warning still do after the same event. */
  lemma SameLoopStep(s: Account, t: Account, e: Event)
    requires s.history == t.history && s.warned == t.warned
    ensures Apply(s, e).history == Apply(t, e).history && Apply(s, e).warned == Apply(t, e).warned
  {
  }

  // ---------------------------------------------------------------- the object

  class ExecutionBudget {
    const maxPerTurn: nat
    const maxPerTask: nat
    const toolTimeoutSecs: nat
    var turnCalls: nat
    var taskCalls: nat
    var window: seq<Signature>
    var loopWarningGiven: bool
    var warnedSignature: Option<Signature>
    ghost var Book: Account

    /** The window is the last three signatures of the book; flag and signature agree. */
    ghost predicate Valid()
      reads this
    {
      && 0 < maxPerTurn
      && Book.maxPerTurn == maxPerTurn
      && Book.maxPerTask == maxPerTask
      && Book.turnCalls == turnCalls
      && Book.taskCalls == taskCalls
      && window == Suffix(Book.history, LOOP_WINDOW)
      && warnedSignature == Book.warned
      && loopWarningGiven == warnedSignature.Some?
    }

    constructor Default(configuredTimeout: nat)
      ensures Valid() && toolTimeoutSecs == configuredTimeout
      ensures Book == Account(DEFAULT_PER_TURN, DEFAULT_PER_TASK, 0, 0, [], None)
    {
      maxPerTurn, maxPerTask, toolTimeoutSecs := DEFAULT_PER_TURN, DEFAULT_PER_TASK, configuredTimeout;
      turnCalls, taskCalls, window := 0, 0, [];
      loopWarningGiven, warnedSignature := false, None;
      Book := Account(DEFAULT_PER_TURN, DEFAULT_PER_TASK, 0, 0, [], None);
    }

    constructor WithLimit(configuredTimeout: nat, limit: nat)
      ensures Valid() && toolTimeoutSecs == configuredTimeout
      ensures Book == Account(DEFAULT_PER_TURN, limit, 0, 0, [], None)
    {
      maxPerTurn, maxPerTask, toolTimeoutSecs := DEFAULT_PER_TURN, limit, configuredTimeout;
      turnCalls, taskCalls, window := 0, 0, [];
      loopWarningGiven, warnedSignature := false, None;
      Book := Account(DEFAULT_PER_TURN, limit, 0, 0, [], None);
    }

    /** A mode lowers the ceilings and never raises them, nor makes the budget unusable. */
    constructor ForMode(configuredTimeout: nat, maxToolLoops: nat, timeoutSecs: nat)
      requires 0 < configuredTimeout
      ensures Valid()
      ensures Book.turnCalls == Book.taskCalls == 0 && Book.history == [] && Book.warned == None
      ensures 1 <= maxPerTurn <= maxPerTask <= DEFAULT_PER_TASK && maxPerTurn <= DEFAULT_PER_TURN
      ensures 1 <= toolTimeoutSecs <= configuredTimeout
      ensures 1 <= maxToolLoops <= DEFAULT_PER_TASK ==> maxPerTask == maxToolLoops
      ensures maxToolLoops <= DEFAULT_PER_TURN ==> maxPerTurn == maxPerTask
    {
      var perTask := Min(Max(maxToolLoops, 1), DEFAULT_PER_TASK);
      maxPerTask, maxPerTurn := perTask, Min(DEFAULT_PER_TURN, perTask);
      toolTimeoutSecs := Min(Max(timeoutSecs, 1), configuredTimeout);
      turnCalls, taskCalls, window := 0, 0, [];
      loopWarningGiven, warnedSignature := false, None;
      Book := Account(Min(DEFAULT_PER_TURN, perTask), perTask, 0, 0, [], None);
    }

    predicate CanCall()
      reads this
      requires Valid()
      ensures CanCall() == Book.CanCall()
    {
      turnCalls < maxPerTurn && taskCalls < maxPerTask
    }

    predicate TurnLimitReached()
      reads this
      requires Valid()
      ensures TurnLimitReached() == Book.TurnLimitReached()
    {
      turnCalls >= maxPerTurn && taskCalls < maxPerTask
    }

    method RegisterCount()
      requires Valid()
      modifies this
      ensures Valid() && Book == old(Book).Counted()
    {
      turnCalls, taskCalls := turnCalls + 1, taskCalls + 1;
      Book := Book.Counted();
    }

    method RegisterSignature(sig: Signature)
      requires Valid()
      modifies this
      ensures Valid() && Book == old(Book).Signed(sig)
    {
      if |window| == LOOP_WINDOW {
        window := window[1..];
      }
      window := window + [sig];
      Book := Book.Signed(sig);
    }

    method RegisterCall(sig: Signature)
      requires Valid()
      modifies this
      ensures Valid() && Book == old(Book).Counted().Signed(sig)
    {
      RegisterCount();
      RegisterSignature(sig);
    }

    /** Looking at three signatures decides whether the whole history closes a loop. */
    predicate DetectsLoop()
      reads this
      requires Valid()
      ensures DetectsLoop() == Book.ClosesLoop()
    {
      |window| >= LOOP_WINDOW && forall i :: 0 <= i < |window| ==> window[i] == window[0]
    }

    method LoopVerdict() returns (verdict: Option<Verdict>)
      requires Valid()
      modifies this
      ensures Valid() && Book == old(Book).Judged()
      ensures verdict == old(Book).Judge()
    {
      if !DetectsLoop() {
        var warnedCameBack := warnedSignature.Some? && window != [] && Last(window) == warnedSignature.value;
        return if warnedCameBack then Some(Abort) else None;
      }
      if loopWarningGiven {
        return Some(Abort);
      }
      loopWarningGiven, warnedSignature := true, Some(Last(window));
      Book := Book.Judged();
      return Some(Warn);
    }

    method ResetTurn()
      requires Valid()
      modifies this
      ensures Valid() && Book == old(Book).TurnReset()
    {
      turnCalls, window := 0, [];
      Book := Book.TurnReset();
    }

    method ResetTask()
      requires Valid()
      modifies this
      ensures Valid() && Book == old(Book).TaskReset()
    {
      turnCalls, taskCalls, window := 0, 0, [];
      loopWarningGiven, warnedSignature := false, None;
      Book := Book.TaskReset();
    }
  }

  // ---------------------------------------------------------------- the driver

  /** What the model asks for next; `None` from the stream is its final answer. */
  datatype Request = Tool(sig: Signature) | Program | IdleProgram(sig: Signature)

  datatype Ending = Answered | Exhausted | LoopAborted

  /** `verdicts` are the verdicts of the run `events` from `start`, which ends in `now`. */
  ghost predicate IsLog(start: Account, events: seq<Event>, verdicts: seq<Option<Verdict>>, now: Account) {
    && |verdicts| == |events|
    && now == After(start, events, |events|)
    && (forall i :: 0 <= i < |events| ==> verdicts[i] == VerdictAt(start, events, i))
  }

  /** The events of a log that requests brought about: all but the resets of the turn. */
  function WithoutTurns(events: seq<Event>): seq<Event> {
    if events == [] then []
    else WithoutTurns(events[..|events| - 1]) + if Last(events).NewTurn? then [] else [Last(events)]
  }

  /** The requests the model makes first, each with the events it stands for. */
  function AskedFor(next: nat -> Option<Request>, n: nat): seq<Event> {
    if n == 0 then []
    else AskedFor(next, n - 1) + match next(n - 1)
                                 case None => []
                                 case Some(Tool(sig)) => [Call(sig)]
                                 case Some(Program) => [Envelope]
                                 case Some(IdleProgram(sig)) => [Envelope, EmptyProgram(sig)]
  }

  /** No call is counted past a ceiling, and no turn is reset while its ceiling is not reached or the task's is. */
  ghost predicate WithinCeilings(start: Account, events: seq<Event>) {
    forall i :: 0 <= i < |events| ==>
      var a := After(start, events, i);
      && (events[i].Call? || events[i].Envelope? ==> a.turnCalls < a.maxPerTurn && a.taskCalls < a.maxPerTask)
      && (events[i].NewTurn? ==> a.turnCalls >= a.maxPerTurn && a.taskCalls < a.maxPerTask)
  }

  lemma {:induction false} CeilingsHold(start: Account, events: seq<Event>, e: Event, now: Account)
    requires WithinCeilings(start, events) && now == After(start, events, |events|)
    requires e.Call? || e.Envelope? ==> now.turnCalls < now.maxPerTurn && now.taskCalls < now.maxPerTask
    requires e.NewTurn? ==> now.turnCalls >= now.maxPerTurn && now.taskCalls < now.maxPerTask
    ensures WithinCeilings(start, events + [e])
  {
    hide After;
    var more := events + [e];
    assert more[..|events|] == events;
    forall i | 0 <= i < |more|
      ensures After(start, more, i) == if i < |events| then After(start, events, i) else now
      ensures more[i] == if i < |events| then events[i] else e
    {
      AfterPrefix(start, events, more, i);
    }
  }

  lemma WithoutTurnsStep(events: seq<Event>, e: Event)
    ensures WithoutTurns(events + [e]) == WithoutTurns(events) + if e.NewTurn? then [] else [e]
  {
    assert (events + [e])[..|events|] == events;
  }

  lemma {:induction false} WithoutTurnsOf(events: seq<Event>, more: seq<Event>)
    requires forall k :: 0 <= k < |more| ==> !more[k].NewTurn?
    ensures WithoutTurns(events + more) == WithoutTurns(events) + more
    decreases |more|
  {
    hide WithoutTurns;
    if more == [] {
      assert events + more == events;
    } else {
      var front, e := more[..|more| - 1], Last(more);
      FrontAndLast(more);
      WithoutTurnsOf(events, front);
      WithoutTurnsStep(events + front, e);
      Associate(events, front, [e]);
      Associate(WithoutTurns(events), front, [e]);
    }
  }

  /** What the driver's stop-on-abort buys: the three-in-a-row guarantee without exceptions. */
  lemma {:induction false} DrivenTaskNeverRepeatsThrice(a: Account, es: seq<Event>, i: nat, j: nat, k: nat)
    requires i < j < k < |es|
    requires forall m :: 0 <= m < |es| - 1 ==> VerdictAt(a, es, m) != Some(Abort)
    requires Executes(a, es, i) && Executes(a, es, j) && Executes(a, es, k)
    requires es[i].sig == es[j].sig == es[k].sig
    requires SameTurn(es, i + 1, k + 1)
    ensures exists m :: i < m < k && m != j && Executes(a, es, m)
  {
    NeverThreeInARow(a, es, i, j, k);
  }

  /** Three executions of one signature in one turn. */
  predicate RunsThrice(a: Account, es: seq<Event>, i: nat, j: nat, k: nat) {
    && i < j < k < |es| && Executes(a, es, i) && Executes(a, es, j) && Executes(a, es, k)
    && es[i].sig == es[j].sig == es[k].sig && SameTurn(es, i + 1, k + 1)
  }

  /** Two of them always have another execution between them. */
  ghost predicate NeverInARow(a: Account, es: seq<Event>) {
    forall i: nat, j: nat, k: nat :: RunsThrice(a, es, i, j, k) ==>
        exists m: nat :: i < m < k && m != j && Executes(a, es, m)
  }

  /** A log whose only abort is its last verdict keeps that guarantee. */
  lemma {:induction false} LoggedNeverInARow(a: Account, es: seq<Event>, verdicts: seq<Option<Verdict>>, now: Account)
    requires IsLog(a, es, verdicts, now)
    requires forall i :: 0 <= i < |verdicts| && verdicts[i] == Some(Abort) ==> i == |verdicts| - 1
    ensures NeverInARow(a, es)
  {
    hide After, VerdictAt, SameTurn;
    forall m | 0 <= m < |es| - 1 ensures VerdictAt(a, es, m) != Some(Abort) {
      assert verdicts[m] == VerdictAt(a, es, m);
    }
    forall i: nat, j: nat, k: nat | RunsThrice(a, es, i, j, k)
      ensures exists m: nat :: i < m < k && m != j && Executes(a, es, m)
    {
      DrivenTaskNeverRepeatsThrice(a, es, i, j, k);
      var m :| i < m < k && m != j && Executes(a, es, m);
    }
  }

  /**
   * The turn loop: reset the turn ceiling while the task has room, dispatch while
   * calls are allowed, stop on the final answer, an abort or an empty budget. It
   * ends for every stream of requests, after at most the task's allowance.
   */
  method Drive(b: ExecutionBudget, next: nat -> Option<Request>)
      returns (events: seq<Event>, verdicts: seq<Option<Verdict>>, ending: Ending, ghost n: nat)
    requires b.Valid() && b.taskCalls <= b.maxPerTask
    modifies b
    ensures b.Valid()
    ensures IsLog(old(b.Book), events, verdicts, b.Book)
    ensures SameTask(events, 0, |events|)
    ensures Spent(events) == b.taskCalls - old(b.taskCalls) <= b.maxPerTask - old(b.taskCalls)
    ensures forall i :: 0 <= i < |verdicts| && verdicts[i] == Some(Abort) ==>
            i == |verdicts| - 1 && ending == LoopAborted
    ensures NeverInARow(old(b.Book), events)
    ensures WithoutTurns(events) == AskedFor(next, n) && forall i :: 0 <= i < n ==> next(i).Some?
    ensures WithinCeilings(old(b.Book), events)
    ensures ending == Answered ==> next(n) == None
    ensures ending == LoopAborted ==> verdicts != [] && Last(verdicts) == Some(Abort)
    ensures ending == Exhausted ==> b.taskCalls == b.maxPerTask
  {
    hide IsLog, SameTask, Spent, NeverInARow, WithoutTurns, AskedFor, WithinCeilings, After;
    events, verdicts, ending, n := [], [], Exhausted, 0;
    NothingLogged(b.Book);
    NothingAsked(b.Book, next);
    var asked := 0;
    while ending == Exhausted && (b.CanCall() || b.TurnLimitReached())
      invariant b.Valid() && b.taskCalls <= b.maxPerTask
      invariant IsLog(old(b.Book), events, verdicts, b.Book)
      invariant SameTask(events, 0, |events|)
      invariant WithoutTurns(events) == AskedFor(next, n) && forall i :: 0 <= i < n ==> next(i).Some?
      invariant WithinCeilings(old(b.Book), events)
      invariant if ending == Answered then next(n) == None else asked == n
      invariant ending == LoopAborted ==> verdicts != [] && Last(verdicts) == Some(Abort)
      invariant Spent(events) == b.taskCalls - old(b.taskCalls)
      invariant forall i :: 0 <= i < |verdicts| && verdicts[i] == Some(Abort) ==>
                i == |verdicts| - 1 && ending == LoopAborted
      decreases ending == Exhausted, b.maxPerTask - b.taskCalls, b.turnCalls
    {
      ghost var before := events;
      if b.TurnLimitReached() {
        StaysInTask(events, [NewTurn]);
        WithoutTurnsStep(events, NewTurn);
        LogEnds(old(b.Book), events, verdicts, b.Book);
        CeilingsHold(old(b.Book), events, NewTurn, b.Book);
        events, verdicts := Record(old(b.Book), events, verdicts, b, NewTurn);
      } else {
        var request := next(asked);
        asked := asked + 1;
        if request == None {
          ending := Answered;
        } else {
          events, verdicts := Dispatch(old(b.Book), events, verdicts, b, request.value);
          ghost var asking := events[|before|..];
          assert before + asking == events;
          StaysInTask(before, asking);
          WithoutTurnsOf(before, asking);
          OneMoreAsked(next, n);
          n := n + 1;
          ending := if Last(verdicts) == Some(Abort) then LoopAborted else Exhausted;
        }
      }
    }
    LoggedNeverInARow(old(b.Book), events, verdicts, b.Book);
  }

  lemma NothingAsked(start: Account, next: nat -> Option<Request>)
    ensures WithoutTurns([]) == AskedFor(next, 0) == [] && WithinCeilings(start, [])
  {
  }

  lemma OneMoreAsked(next: nat -> Option<Request>, n: nat)
    requires next(n).Some?
    ensures AskedFor(next, n + 1) == AskedFor(next, n) + match next(n).value
                                                         case Tool(sig) => [Call(sig)]
                                                         case Program => [Envelope]
                                                         case IdleProgram(sig) => [Envelope, EmptyProgram(sig)]
  {
  }

  lemma LogEnds(start: Account, events: seq<Event>, verdicts: seq<Option<Verdict>>, now: Account)
    requires IsLog(start, events, verdicts, now)
    ensures now == After(start, events, |events|)
  {
  }

  lemma NothingLogged(start: Account)
    ensures IsLog(start, [], [], start) && SameTask([], 0, 0) && Spent([]) == 0
  {
  }

  lemma StaysInTask(es: seq<Event>, more: seq<Event>)
    requires SameTask(es, 0, |es|) && forall k :: 0 <= k < |more| ==> !more[k].NewTask?
    ensures SameTask(es + more, 0, |es + more|)
  {
  }

  /** One admitted request: a call, a program with steps, or a program that dispatched none. */
  method Dispatch(ghost start: Account, events: seq<Event>, verdicts: seq<Option<Verdict>>, b: ExecutionBudget,
                  r: Request)
      returns (events': seq<Event>, verdicts': seq<Option<Verdict>>)
    requires b.Valid() && IsLog(start, events, verdicts, b.Book)
    modifies b
    ensures b.Valid() && IsLog(start, events', verdicts', b.Book)
    ensures b.taskCalls == old(b.taskCalls) + 1
    ensures events' == events + (match r
                                 case Tool(sig) => [Call(sig)]
                                 case Program => [Envelope]
                                 case IdleProgram(sig) => [Envelope, EmptyProgram(sig)])
    ensures Spent(events') == Spent(events) + 1
    ensures verdicts' != [] && verdicts <= verdicts'
    ensures forall i :: |verdicts| <= i < |verdicts'| - 1 ==> verdicts'[i] == None
    ensures WithinCeilings(start, events) && old(b.Book.CanCall()) ==> WithinCeilings(start, events')
  {
    hide WithinCeilings, IsLog, After, Spent;
    LogEnds(start, events, verdicts, b.Book);
    ghost var fits := WithinCeilings(start, events) && b.Book.CanCall();
    match r
    case Tool(sig) =>
      if fits { CeilingsHold(start, events, Call(sig), b.Book); }
      events', verdicts' := Record(start, events, verdicts, b, Call(sig));
    case Program =>
      if fits { CeilingsHold(start, events, Envelope, b.Book); }
      events', verdicts' := Record(start, events, verdicts, b, Envelope);
    case IdleProgram(sig) =>
      if fits { CeilingsHold(start, events, Envelope, b.Book); }
      events', verdicts' := Record(start, events, verdicts, b, Envelope);
      LogEnds(start, events', verdicts', b.Book);
      if fits { CeilingsHold(start, events', EmptyProgram(sig), b.Book); }
      events', verdicts' := Record(start, events', verdicts', b, EmptyProgram(sig));
  }

  /** Applies one event to the budget object and appends it, with its verdict, to the log. */
  method Record(ghost start: Account, events: seq<Event>, verdicts: seq<Option<Verdict>>, b: ExecutionBudget, e: Event)
      returns (events': seq<Event>, verdicts': seq<Option<Verdict>>)
    requires b.Valid() && IsLog(start, events, verdicts, b.Book)
    modifies b
    ensures b.Valid() && IsLog(start, events', verdicts', b.Book)
    ensures b.Book == Apply(old(b.Book), e)
    ensures events' == events + [e] && |verdicts'| == |verdicts| + 1 && verdicts < verdicts'
    ensures Spent(events') == Spent(events) + (if e.Call? || e.Envelope? then 1 else 0)
    ensures e.Judges() || Last(verdicts') == None
  {
    var v: Option<Verdict> := None;
    match e {
      case Call(sig) => b.RegisterCall(sig); v := b.LoopVerdict();
      case Envelope => b.RegisterCount();
      case EmptyProgram(sig) => b.RegisterSignature(sig); v := b.LoopVerdict();
      case NewTurn => b.ResetTurn();
      case NewTask => b.ResetTask();
    }
    LogGrows(start, events, verdicts, old(b.Book), e, v);
    SpentOneMore(events, e);
    events', verdicts' := events + [e], verdicts + [v];
  }

  /** A log grows by one event and the verdict on it. */
  lemma {:induction false} LogGrows(start: Account, events: seq<Event>, verdicts: seq<Option<Verdict>>, now: Account,
                                    e: Event, v: Option<Verdict>)
    requires IsLog(start, events, verdicts, now) && v == VerdictOn(now, e)
    ensures IsLog(start, events + [e], verdicts + [v], Apply(now, e))
  {
    hide After, Apply, VerdictOn;
    var more := events + [e];
    assert more[..|events|] == events;
    forall i | 0 <= i <= |events| ensures After(start, events, i) == After(start, more, i) {
      AfterPrefix(start, events, more, i);
    }
    NextAccount(start, more, |events|);
    forall i | 0 <= i < |more| ensures (verdicts + [v])[i] == VerdictAt(start, more, i) {
      if i < |events| { assert more[i] == events[i]; }
    }
  }

  lemma SpentOneMore(events: seq<Event>, e: Event)
    ensures Spent(events + [e]) == Spent(events) + (if e.Call? || e.Envelope? then 1 else 0)
  {
    assert (events + [e])[..|events|] == events;
  }
}
