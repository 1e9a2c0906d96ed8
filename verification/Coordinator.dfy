/** Sub-agents run side by side, chunk by chunk, with a ledger of starts and finishes. */
module Coordinator {
  import opened Prelude
  import opened Delimited
  import opened Numerals

  datatype Config = Config(task: string, mode: string, session: Option<string>, timeoutSecs: nat)

  /** What the provider call of one agent comes to. */
  datatype Answer = Replied(output: string) | Refused(reason: string) | TimedOut | Panics(reason: string)

  datatype AgentResult = AgentResult(task: string, mode: string, output: string, success: bool, error: Option<string>)

  datatype Status = Done | Failed | Cancelled

  /** What the ledger is told; `run` stands for the identifier it gave out at the start. */
  datatype Event =
    | Started(run: nat, goal: string, mode: string, session: Option<string>)
    | Finished(run: nat, status: Status, result: Option<string>, error: Option<string>)

  const CANCELLED := "Cancelled"

  function Failure(c: Config, error: string): AgentResult {
    AgentResult(c.task, c.mode, "", false, Some(error))
  }

  function CancelledResult(c: Config): AgentResult {
    Failure(c, "Cancelled before execution")
  }

  function TimeoutText(secs: nat): string {
    "Timeout after " + Decimal(secs) + "s"
  }

  function Outcome(c: Config, a: Answer): AgentResult
    requires !a.Panics?
  {
    match a
    case Replied(output) => AgentResult(c.task, c.mode, output, true, None)
    case Refused(reason) => Failure(c, "LLM error: " + reason)
    case TimedOut => Failure(c, TimeoutText(c.timeoutSecs))
  }

  /** What joining the handle of a panicked agent gives. */
  function PanicResult(c: Config, reason: string): AgentResult {
    AgentResult(c.task, "unknown", "", false, Some("Agent task panicked: " + reason))
  }

  function StatusOf(r: AgentResult): Status {
    if r.success then Done
    else if r.error.Some? && First(r.error.value, CANCELLED).Some? then Cancelled
    else Failed
  }

  function Opened(run: nat, c: Config): Event {
    Started(run, c.task, c.mode, c.session)
  }

  function Closed(run: nat, r: AgentResult): Event {
    Finished(run, StatusOf(r), if r.output == "" then None else Some(r.output), r.error)
  }

  // ------------------------------------------------------------ the machine

  /** How far one agent is: its task runs from one await to the next without being observed. */
  datatype Phase =
    | Waiting
    | Begun
    | Asking
    | Settled(result: AgentResult)
    | Ended(result: AgentResult)
    | Panicked(reason: string)
  {
    predicate Terminal() {
      Ended? || Panicked?
    }
  }

  datatype Job = Job(configs: seq<Config>, width: nat)
  {
    predicate Valid() {
      width > 0
    }
  }

  /** `chunks` counts the chunks spawned so far, `results` holds the joined agents. */
  datatype State = State(chunks: nat, phases: seq<Phase>, cancels: seq<bool>, ledger: seq<Event>,
                         results: seq<AgentResult>)

  datatype Action =
    | Spawn
    | Begin(agent: nat)
    | Check(agent: nat)
    | Reply(agent: nat, answer: Answer)
    | Close(agent: nat)
    | Cancel(agent: nat)
    | Join

  function Spawned(j: Job, s: State): (n: nat)
    ensures n <= |j.configs|
  {
    Min(s.chunks * j.width, |j.configs|)
  }

  function Initial(j: Job): State {
    var n := |j.configs|;
    State(0, seq(n, _ => Waiting), seq(n, _ => false), [], [])
  }

  predicate Shaped(j: Job, s: State) {
    |s.phases| == |s.cancels| == |j.configs|
  }

  predicate Live(j: Job, s: State, i: nat)
    requires Shaped(j, s)
  {
    i < Spawned(j, s) && !s.phases[i].Terminal()
  }

  predicate Enabled(j: Job, s: State, a: Action)
    requires Shaped(j, s)
  {
    match a
    case Spawn => |s.results| == Spawned(j, s) < |j.configs|
    case Begin(i) => Live(j, s, i) && s.phases[i].Waiting?
    case Check(i) => Live(j, s, i) && s.phases[i].Begun?
    case Reply(i, _) => Live(j, s, i) && s.phases[i].Asking?
    case Close(i) => Live(j, s, i) && s.phases[i].Settled?
    case Cancel(i) => i < Spawned(j, s) && !s.cancels[i]
    case Join => |s.results| < Spawned(j, s) && s.phases[|s.results|].Terminal()
  }

  /** What joining a terminated agent returns. */
  function JoinResult(c: Config, p: Phase): AgentResult
    requires p.Terminal()
  {
    match p
    case Ended(r) => r
    case Panicked(reason) => PanicResult(c, reason)
  }

  function Next(j: Job, s: State, a: Action): (t: State)
    requires Shaped(j, s) && Enabled(j, s, a)
    ensures Shaped(j, t)
  {
    match a
    case Spawn => s.(chunks := s.chunks + 1)
    case Begin(i) => s.(phases := s.phases[i := Begun], ledger := s.ledger + [Opened(i, j.configs[i])])
    case Check(i) =>
      s.(phases := s.phases[i := if s.cancels[i] then Settled(CancelledResult(j.configs[i])) else Asking])
    case Reply(i, answer) =>
      var p := match answer case Panics(reason) => Panicked(reason) case _ => Settled(Outcome(j.configs[i], answer));
      s.(phases := s.phases[i := p])
    case Close(i) =>
      s.(phases := s.phases[i := Ended(s.phases[i].result)], ledger := s.ledger + [Closed(i, s.phases[i].result)])
    case Cancel(i) => s.(cancels := s.cancels[i := true])
    case Join => s.(results := s.results + [JoinResult(j.configs[|s.results|], s.phases[|s.results|])])
  }

  /** Where a run leads, if each of its actions is possible when it is taken. */
  function After(j: Job, run: seq<Action>): (s: Option<State>)
    ensures s.Some? ==> Shaped(j, s.value)
  {
    if run == [] then Some(Initial(j))
    else match After(j, run[..|run| - 1])
      case None => None
      case Some(s) => if Enabled(j, s, Last(run)) then Some(Next(j, s, Last(run))) else None
  }

  // ------------------------------------------------------------ what every run keeps

  /** The entries of one run in the ledger. */
  function Log(ledger: seq<Event>, i: nat): seq<Event> {
    if ledger == [] then []
    else Log(ledger[..|ledger| - 1], i) + if Last(ledger).run == i then [Last(ledger)] else []
  }

  /** What the ledger holds of an agent in a phase. */
  function LogOf(i: nat, c: Config, p: Phase): seq<Event> {
    match p
    case Waiting => []
    case Ended(r) => [Opened(i, c), Closed(i, r)]
    case _ => [Opened(i, c)]
  }

  /** An agent's phase, its ledger entries and its joined result agree. */
  ghost predicate AgentOk(j: Job, s: State, i: nat)
    requires Shaped(j, s) && i < |j.configs|
  {
    var c, p := j.configs[i], s.phases[i];
    && Log(s.ledger, i) == LogOf(i, c, p)
    && (i >= Spawned(j, s) ==> p.Waiting?)
    && (i < |s.results| ==> p.Terminal() && s.results[i] == JoinResult(c, p))
  }

  ghost predicate Inv(j: Job, s: State) {
    && Shaped(j, s)
    && |s.results| <= Spawned(j, s)
    && Spawned(j, s) <= |s.results| + j.width
    && (s.chunks - 1) * j.width <= |s.results|
    && (forall k :: 0 <= k < |s.ledger| ==> s.ledger[k].run < |j.configs|)
    && forall i: nat :: i < |j.configs| ==> AgentOk(j, s, i)
  }

  lemma LogAppended(ledger: seq<Event>, e: Event, i: nat)
    ensures Log(ledger + [e], i) == Log(ledger, i) + if e.run == i then [e] else []
  {
    assert (ledger + [e])[..|ledger|] == ledger;
  }

  lemma {:induction false} AgentsStart(j: Job)
    ensures j.Valid() ==> Inv(j, Initial(j))
  {
  }

  /** One more chunk: whole, or the rest. */
  lemma {:induction false} ChunkGrows(j: Job, s: State)
    requires j.Valid() && Shaped(j, s) && Spawned(j, s) < |j.configs|
    ensures var t := s.(chunks := s.chunks + 1);
            && Spawned(j, s) == s.chunks * j.width
            && Spawned(j, s) < Spawned(j, t) <= Spawned(j, s) + j.width
  {
    assert (s.chunks + 1) * j.width == s.chunks * j.width + j.width;
  }

  lemma {:induction false} StepKeepsAgents(j: Job, s: State, a: Action, i: nat)
    requires j.Valid() && Inv(j, s) && Enabled(j, s, a) && i < |j.configs|
    ensures AgentOk(j, Next(j, s, a), i)
  {
    hide Log, StatusOf, Outcome;
    assert AgentOk(j, s, i);
    if a.Spawn? { ChunkGrows(j, s); }
    if a.Begin? { LogAppended(s.ledger, Opened(a.agent, j.configs[a.agent]), i); }
    if a.Close? { LogAppended(s.ledger, Closed(a.agent, s.phases[a.agent].result), i); }
  }

  lemma {:induction false} StepKeeps(j: Job, s: State, a: Action)
    requires j.Valid() && Inv(j, s) && Enabled(j, s, a)
    ensures Inv(j, Next(j, s, a))
  {
    hide AgentOk;
    if a.Spawn? { ChunkGrows(j, s); }
    forall i: nat | i < |j.configs| ensures AgentOk(j, Next(j, s, a), i) {
      StepKeepsAgents(j, s, a, i);
    }
  }

  /** The invariant of every run, whatever the interleaving. */
  lemma {:induction false} RunKeeps(j: Job, run: seq<Action>)
    requires j.Valid() && After(j, run).Some?
    ensures Inv(j, After(j, run).value)
    decreases |run|
  {
    hide Inv, Next, Enabled, Initial;
    if run == [] {
      AgentsStart(j);
    } else {
      RunKeeps(j, run[..|run| - 1]);
      StepKeeps(j, After(j, run[..|run| - 1]).value, Last(run));
    }
  }

  // ------------------------------------------------------------ bounded concurrency

  /** The agents that are spawned and have not terminated. */
  function InFlight(j: Job, s: State): set<nat>
    requires Shaped(j, s)
  {
    set i: nat | i < |j.configs| && Live(j, s, i)
  }

  function Range(lo: nat, hi: nat): (r: set<nat>)
    requires lo <= hi
    ensures |r| == hi - lo
    ensures forall i :: i in r <==> lo <= i < hi
    decreases hi - lo
  {
    if lo == hi then {} else {lo} + Range(lo + 1, hi)
  }

  lemma {:induction false} SubsetIsSmaller(a: set<nat>, b: set<nat>)
    requires a <= b
    ensures |a| <= |b|
    decreases |a|
  {
    if a != {} {
      var x :| x in a;
      SubsetIsSmaller(a - {x}, b - {x});
    }
  }

  /** Never more than the configured number of agents at once, in any state of any run. */
  lemma {:induction false} NeverTooMany(j: Job, run: seq<Action>)
    requires j.Valid() && After(j, run).Some?
    ensures |InFlight(j, After(j, run).value)| <= j.width
  {
    var s := After(j, run).value;
    RunKeeps(j, run);
    hide After;
    forall i | i in InFlight(j, s) ensures |s.results| <= i < Spawned(j, s) {
      assert AgentOk(j, s, i);
    }
    SubsetIsSmaller(InFlight(j, s), Range(|s.results|, Spawned(j, s)));
  }

  /** The first agent of the chunk an agent belongs to. */
  function ChunkStart(i: nat, width: nat): (r: nat)
    requires width > 0
    ensures r <= i
  {
    i / width * width
  }

  /** Chunks are barriers: whoever has begun, every agent of the chunks before has terminated and been joined. */
  lemma {:induction false} ChunksAreBarriers(j: Job, run: seq<Action>, s: State, i: nat, earlier: nat)
    requires j.Valid() && After(j, run) == Some(s) && i < |j.configs|
    requires !s.phases[i].Waiting? && earlier < ChunkStart(i, j.width)
    ensures earlier < |s.results| && s.phases[earlier].Terminal()
  {
    hide After, ChunkStart, Log, LogOf, JoinResult;
    RunKeeps(j, run);
    assert AgentOk(j, s, i);
    WholeChunks(i, s.chunks, j.width);
    assert AgentOk(j, s, earlier);
  }

  lemma WholeChunks(i: nat, chunks: nat, width: nat)
    requires width > 0 && i < chunks * width
    ensures ChunkStart(i, width) <= (chunks - 1) * width
  {
    MoreChunks(chunks, i / width, width);
    MoreChunks(i / width, chunks - 1, width);
  }

  lemma MoreChunks(a: int, b: int, width: nat)
    ensures a <= b ==> a * width <= b * width
  {
  }

  // ------------------------------------------------------------ every run ends, with every result in order

  function Rank(p: Phase): nat {
    match p
    case Waiting => 4
    case Begun => 3
    case Asking => 2
    case Settled(_) => 1
    case _ => 0
  }

  function Steps(phases: seq<Phase>): nat {
    if phases == [] then 0 else Rank(phases[0]) + Steps(phases[1..])
  }

  function Uncancelled(cancels: seq<bool>): nat {
    if cancels == [] then 0 else (if cancels[0] then 0 else 1) + Uncancelled(cancels[1..])
  }

  /** How many actions can still follow at most. */
  function Remaining(j: Job, s: State): int
    requires Shaped(j, s)
  {
    Steps(s.phases) + Uncancelled(s.cancels) + (|j.configs| - Spawned(j, s)) + (|j.configs| - |s.results|)
  }

  lemma {:induction false} StepsUpdate(phases: seq<Phase>, i: nat, p: Phase)
    requires i < |phases|
    ensures Steps(phases[i := p]) == Steps(phases) - Rank(phases[i]) + Rank(p)
  {
    if i == 0 {
      assert phases[0 := p][1..] == phases[1..];
    } else {
      assert phases[i := p][1..] == phases[1..][i - 1 := p];
      StepsUpdate(phases[1..], i - 1, p);
    }
  }

  lemma {:induction false} UncancelledUpdate(cancels: seq<bool>, i: nat)
    requires i < |cancels| && !cancels[i]
    ensures Uncancelled(cancels[i := true]) == Uncancelled(cancels) - 1
  {
    if i == 0 {
      assert cancels[0 := true][1..] == cancels[1..];
    } else {
      assert cancels[i := true][1..] == cancels[1..][i - 1 := true];
      UncancelledUpdate(cancels[1..], i - 1);
    }
  }

  lemma {:induction false} StepCounts(j: Job, s: State, a: Action)
    requires j.Valid() && Shaped(j, s) && Enabled(j, s, a)
    ensures Remaining(j, Next(j, s, a)) < Remaining(j, s)
  {
    hide Steps, Uncancelled, Outcome, CancelledResult, Opened, Closed;
    match a
    case Spawn => ChunkGrows(j, s);
    case Begin(i) => StepsUpdate(s.phases, i, Begun);
    case Check(i) => StepsUpdate(s.phases, i, Next(j, s, a).phases[i]);
    case Reply(i, _) => StepsUpdate(s.phases, i, Next(j, s, a).phases[i]);
    case Close(i) => StepsUpdate(s.phases, i, Next(j, s, a).phases[i]);
    case Cancel(i) => UncancelledUpdate(s.cancels, i);
    case Join =>
  }

  lemma {:induction false} InitialCount(n: nat)
    ensures Steps(seq(n, _ => Waiting)) == 4 * n
    ensures Uncancelled(seq(n, _ => false)) == n
  {
    if n > 0 {
      InitialCount(n - 1);
      assert seq(n, _ => Waiting)[1..] == seq(n - 1, _ => Waiting);
      assert seq(n, _ => false)[1..] == seq(n - 1, _ => false);
    }
  }

  /** No run is longer than seven actions for each agent. */
  lemma {:induction false} RunsAreBounded(j: Job, run: seq<Action>)
    requires j.Valid() && After(j, run).Some?
    ensures |run| + Remaining(j, After(j, run).value) <= 7 * |j.configs|
    ensures |run| <= 7 * |j.configs|
    decreases |run|
  {
    hide Inv, Next, Enabled, Remaining, Spawned;
    RunKeeps(j, run);
    RemainingIsNatural(j, After(j, run).value);
    if run == [] {
      InitialRemaining(j);
    } else {
      RunsAreBounded(j, run[..|run| - 1]);
      StepCounts(j, After(j, run[..|run| - 1]).value, Last(run));
    }
  }

  lemma InitialRemaining(j: Job)
    ensures Remaining(j, Initial(j)) == 7 * |j.configs|
  {
    InitialCount(|j.configs|);
  }

  lemma RemainingIsNatural(j: Job, s: State)
    requires Inv(j, s)
    ensures Remaining(j, s) >= 0
  {
    hide AgentOk, Steps, Uncancelled;
  }

  /** The action the coordinator, or the agent it waits for, can take next. */
  function Progress(j: Job, s: State, a: Answer): Action
    requires Shaped(j, s)
  {
    var i := |s.results|;
    if i >= |s.phases| || i == Spawned(j, s) then Spawn
    else match s.phases[i]
      case Waiting => Begin(i)
      case Begun => Check(i)
      case Asking => Reply(i, a)
      case Settled(_) => Close(i)
      case _ => Join
  }

  /** No run gets stuck before all results are in, whatever the providers answer. */
  lemma {:induction false} NeverStuck(j: Job, run: seq<Action>, a: Answer)
    requires j.Valid() && After(j, run).Some?
    requires |After(j, run).value.results| < |j.configs|
    ensures After(j, run + [Progress(j, After(j, run).value, a)]).Some?
  {
    var s := After(j, run).value;
    RunKeeps(j, run);
    var next := run + [Progress(j, s, a)];
    assert next[..|run|] == run && Last(next) == Progress(j, s, a);
  }

  // ------------------------------------------------------------ where results come from

  /** What the provider answered an agent during a run. */
  function Answered(run: seq<Action>, i: nat): Option<Answer> {
    if run == [] then None
    else match Last(run)
      case Reply(k, a) => if k == i then Some(a) else Answered(run[..|run| - 1], i)
      case _ => Answered(run[..|run| - 1], i)
  }

  /** Agent `i` was cancelled before it looked whether it was. */
  ghost predicate CancelledInTime(run: seq<Action>, i: nat) {
    exists c: nat, k: nat :: c < k < |run| && run[c] == Cancel(i) && run[k] == Check(i)
  }

  lemma InTimeAppend(run: seq<Action>, a: Action, i: nat)
    ensures CancelledInTime(run + [a], i) <==> CancelledInTime(run, i) || (a == Check(i) && Cancel(i) in run)
    ensures Cancel(i) in run + [a] <==> Cancel(i) in run || a == Cancel(i)
  {
    var more := run + [a];
    assert forall k :: 0 <= k < |run| ==> more[k] == run[k];
    if CancelledInTime(run, i) {
      var c: nat, k: nat :| c < k < |run| && run[c] == Cancel(i) && run[k] == Check(i);
      assert more[c] == Cancel(i) && more[k] == Check(i);
    }
    if a == Check(i) && Cancel(i) in run {
      var c: nat :| c < |run| && run[c] == Cancel(i);
      assert more[c] == Cancel(i) && more[|run|] == Check(i);
    }
  }

  /** An agent that is past its check was not asked exactly when it was cancelled in time. */
  ghost predicate Heeded(j: Job, run: seq<Action>, s: State, i: nat)
    requires Shaped(j, s) && i < |j.configs|
  {
    && (s.cancels[i] <==> Cancel(i) in run)
    && match s.phases[i]
       case Waiting => !CancelledInTime(run, i)
       case Begun => !CancelledInTime(run, i)
       case Asking => !CancelledInTime(run, i) && Answered(run, i).None?
       case _ => Answered(run, i).None? <==> CancelledInTime(run, i)
  }

  lemma {:induction false} StepHeeds(j: Job, before: seq<Action>, s: State, a: Action, i: nat)
    requires Shaped(j, s) && Enabled(j, s, a) && i < |j.configs|
    requires Heeded(j, before, s, i) && Explained(j, before, s, i)
    ensures Heeded(j, before + [a], Next(j, s, a), i)
  {
    hide CancelledInTime, Outcome, CancelledResult, Opened, Closed, Gives;
    var run := before + [a];
    assert run[..|before|] == before && Last(run) == a;
    InTimeAppend(before, a, i);
  }

  lemma {:induction false} RunHeeds(j: Job, run: seq<Action>, i: nat)
    requires j.Valid() && After(j, run).Some? && i < |j.configs|
    ensures Heeded(j, run, After(j, run).value, i)
    decreases |run|
  {
    hide Inv, Next, Enabled;
    if run != [] {
      hide Heeded, Explained;
      var before := run[..|run| - 1];
      RunHeeds(j, before, i);
      RunExplains(j, before, i);
      StepHeeds(j, before, After(j, before).value, Last(run), i);
      FrontAndLast(run);
    }
  }

  /** An agent's phase follows from its answer, or from a cancellation before it asked. */
  predicate Explained(j: Job, run: seq<Action>, s: State, i: nat)
    requires Shaped(j, s) && i < |j.configs|
  {
    && (s.cancels[i] ==> Cancel(i) in run)
    && match s.phases[i]
       case Panicked(reason) => Answered(run, i) == Some(Panics(reason))
       case Settled(r) => Gives(j.configs[i], Answered(run, i), r) && (Answered(run, i).None? ==> Cancel(i) in run)
       case Ended(r) => Gives(j.configs[i], Answered(run, i), r) && (Answered(run, i).None? ==> Cancel(i) in run)
       case _ => Answered(run, i) == None
  }

  predicate Gives(c: Config, a: Option<Answer>, r: AgentResult) {
    match a
    case None => r == CancelledResult(c)
    case Some(answer) => !answer.Panics? && r == Outcome(c, answer)
  }

  lemma {:induction false} StepExplains(j: Job, before: seq<Action>, s: State, a: Action, i: nat)
    requires j.Valid() && Inv(j, s) && Enabled(j, s, a) && i < |j.configs| && Explained(j, before, s, i)
    ensures Explained(j, before + [a], Next(j, s, a), i)
  {
    hide AgentOk, Outcome, CancelledResult, Opened, Closed;
    var run := before + [a];
    assert run[..|before|] == before && Last(run) == a;
    assert Cancel(i) in before ==> Cancel(i) in run;
  }

  lemma {:induction false} RunExplains(j: Job, run: seq<Action>, i: nat)
    requires j.Valid() && After(j, run).Some? && i < |j.configs|
    ensures Explained(j, run, After(j, run).value, i)
    decreases |run|
  {
    hide Inv, Next, Enabled;
    if run != [] {
      hide Explained;
      var before := run[..|run| - 1];
      RunExplains(j, before, i);
      RunKeeps(j, before);
      StepExplains(j, before, After(j, before).value, Last(run), i);
      FrontAndLast(run);
    }
  }

  /** What comes back for a task whose provider answers so. */
  function Verdict(c: Config, a: Answer): AgentResult {
    match a
    case Panics(reason) => PanicResult(c, reason)
    case _ => Outcome(c, a)
  }

  /** A run that has joined all agents has their results in the order of the tasks, and a settled ledger. */
  lemma {:induction false} CompleteRuns(j: Job, run: seq<Action>, i: nat)
    requires j.Valid() && After(j, run).Some? && i < |j.configs|
    requires |After(j, run).value.results| == |j.configs|
    ensures var s, c, answer := After(j, run).value, j.configs[i], Answered(run, i);
            && s.results[i] == (if answer.Some? then Verdict(c, answer.value) else CancelledResult(c))
            && (answer.None? <==> CancelledInTime(run, i))
            && Log(s.ledger, i) ==
               [Opened(i, c)] + (if answer.Some? && answer.value.Panics? then [] else [Closed(i, s.results[i])])
  {
    hide After, Log, Opened, Closed, Answered, Outcome, CancelledResult, PanicResult, CancelledInTime;
    RunKeeps(j, run);
    RunExplains(j, run, i);
    RunHeeds(j, run, i);
    assert AgentOk(j, After(j, run).value, i);
  }

  /** Every provider answers its agent as given. */
  predicate Answering(run: seq<Action>, answers: seq<Answer>) {
    forall k :: 0 <= k < |run| ==>
      match run[k]
      case Reply(i, a) => i < |answers| && a == answers[i]
      case _ => true
  }

  predicate NobodyCancels(run: seq<Action>) {
    forall k :: 0 <= k < |run| ==> !run[k].Cancel?
  }

  predicate Undisturbed(run: seq<Action>, answers: seq<Answer>) {
    Answering(run, answers) && NobodyCancels(run)
  }

  lemma NoneIsInTime(run: seq<Action>, answers: seq<Answer>, i: nat)
    ensures Undisturbed(run, answers) ==> Answering(run, answers) && !CancelledInTime(run, i)
  {
    hide Answering;
  }

  lemma {:induction false} AnsweredAsGiven(run: seq<Action>, answers: seq<Answer>, i: nat)
    requires Answering(run, answers) && i < |answers|
    ensures Answered(run, i) in {None, Some(answers[i])}
    decreases |run|
  {
    if run != [] {
      assert run[|run| - 1] == Last(run);
      AnsweredAsGiven(run[..|run| - 1], answers, i);
    }
  }

  /**
   * The results depend on the answers, and on which agents were cancelled in time, alone:
   * a cancellation after an agent's check, and the interleaving, change nothing.
   */
  lemma {:induction false} LateCancelsAreInvisible(j: Job, run: seq<Action>, answers: seq<Answer>, i: nat)
    requires j.Valid() && After(j, run).Some? && Answering(run, answers)
    requires |After(j, run).value.results| == |j.configs| == |answers| && i < |answers|
    ensures After(j, run).value.results[i] ==
            if CancelledInTime(run, i) then CancelledResult(j.configs[i]) else Verdict(j.configs[i], answers[i])
    ensures var c, r := j.configs[i], After(j, run).value.results[i];
            if CancelledInTime(run, i)
            then r == AgentResult(c.task, c.mode, "", false, Some("Cancelled before execution"))
            else Reports(c, answers[i], r)
  {
    CancelledIsReported(j.configs[i]);
    VerdictIsReported(j.configs[i], answers[i]);
    hide After, Log, Answered, Verdict, CancelledResult, Inv, CancelledInTime, Reports;
    CompleteRuns(j, run, i);
    AnsweredAsGiven(run, answers, i);
  }

  /** Without cancellations every interleaving gives the same results, in task order. */
  lemma {:induction false} InterleavingIsInvisible(j: Job, run: seq<Action>, answers: seq<Answer>)
    requires j.Valid() && After(j, run).Some? && Undisturbed(run, answers)
    requires |After(j, run).value.results| == |j.configs| == |answers|
    ensures After(j, run).value.results ==
            seq(|answers|, i requires 0 <= i < |answers| => Verdict(j.configs[i], answers[i]))
  {
    hide After, Log, Answered, Verdict, CancelledResult, Inv, Undisturbed, Answering, CancelledInTime;
    forall i: nat | i < |answers| ensures After(j, run).value.results[i] == Verdict(j.configs[i], answers[i]) {
      NoneIsInTime(run, answers, i);
      LateCancelsAreInvisible(j, run, answers, i);
    }
  }

  // ------------------------------------------------------------ what the ledger says of a run

  lemma {:induction false} NoWordWithout(text: string, word: string, c: char)
    requires word != "" && word[0] == c && c !in text
    ensures First(text, word).None?
  {
    FirstIsLeftmost(text, word);
    if First(text, word).Some? {
      OccurrenceStarts(text, word, First(text, word).value);
    }
  }

  lemma OccursBehind(prefix: string, text: string, word: string, p: nat)
    ensures OccursAt(prefix + text, word, |prefix| + p) <==> OccursAt(text, word, p)
  {
    if p + |word| <= |text| {
      assert (prefix + text)[|prefix| + p..|prefix| + p + |word|] == text[p..p + |word|];
    }
  }

  lemma InPrefix(prefix: string, text: string, p: nat)
    ensures p < |prefix| ==> (prefix + text)[p] in prefix
  {
  }

  /** A prefix without the first letter of a word neither holds the word nor hides it. */
  lemma {:induction false} WordBehindPrefix(prefix: string, text: string, word: string)
    requires word != "" && word[0] !in prefix
    ensures First(prefix + text, word).Some? <==> First(text, word).Some?
  {
    hide OccursAt, First;
    var whole, n := prefix + text, |prefix|;
    FirstIsLeftmost(whole, word);
    FirstIsLeftmost(text, word);
    if First(whole, word).Some? {
      var p := First(whole, word).value;
      OccurrenceStarts(whole, word, p);
      InPrefix(prefix, text, p);
      OccursBehind(prefix, text, word, p - n);
    }
    if First(text, word).Some? {
      OccursBehind(prefix, text, word, First(text, word).value);
    }
  }

  /**
   * The ledger calls a run cancelled when it was cancelled before it asked, but also
   * when the provider's own refusal happens to speak of a cancellation.
   */
  lemma {:induction false} CancelledIff(c: Config, a: Answer)
    requires !a.Panics?
    ensures StatusOf(CancelledResult(c)) == Cancelled
    ensures StatusOf(Outcome(c, a)) == Cancelled <==> a.Refused? && First(a.reason, CANCELLED).Some?
    ensures StatusOf(Outcome(c, a)) == Done <==> a.Replied?
  {
    var text := "Cancelled before execution";
    FirstIsLeftmost(text, CANCELLED);
    assert text[0..0 + |CANCELLED|] == CANCELLED;
    assert OccursAt(text, CANCELLED, 0);
    match a
    case Replied(_) =>
    case Refused(reason) => WordBehindPrefix("LLM error: ", reason, CANCELLED);
    case TimedOut =>
      assert 'C' !in TimeoutText(c.timeoutSecs);
      NoWordWithout(TimeoutText(c.timeoutSecs), CANCELLED, 'C');
  }

  /** The failing case: nobody cancelled this run, and the ledger says it was. */
  lemma {:induction false} RefusalRecordedAsCancelled(c: Config)
    ensures Closed(0, Outcome(c, Refused("Cancelled by peer"))).status == Cancelled
  {
    var reason := "Cancelled by peer";
    FirstIsLeftmost(reason, CANCELLED);
    assert reason[0..9] == CANCELLED;
    assert OccursAt(reason, CANCELLED, 0);
    CancelledIff(c, Refused(reason));
  }

  // ------------------------------------------------------------ what callers and auditors are told

  /** The result of an agent whose provider answered so, case by case. */
  predicate Reports(c: Config, a: Answer, r: AgentResult) {
    && r.task == c.task
    && (!a.Panics? ==> r.mode == c.mode)
    && match a
       case Replied(output) => r.success && r.output == output && r.error.None?
       case Refused(reason) => !r.success && r.output == "" && r.error == Some("LLM error: " + reason)
       case TimedOut =>
         !r.success && r.output == "" && r.error == Some("Timeout after " + Decimal(c.timeoutSecs) + "s")
       case Panics(reason) =>
         !r.success && r.output == "" && r.error == Some("Agent task panicked: " + reason) && r.mode == "unknown"
  }

  /** The ledger entries of its run, case by case. */
  predicate Audited(run: nat, c: Config, a: Answer, log: seq<Event>) {
    && log != [] && log[0] == Started(run, c.task, c.mode, c.session)
    && match a
       case Replied(output) =>
         log[1..] == [Finished(run, Done, if |output| > 0 then Some(output) else None, None)]
       case Refused(reason) =>
         var status := if First(reason, "Cancelled").Some? then Cancelled else Failed;
         log[1..] == [Finished(run, status, None, Some("LLM error: " + reason))]
       case TimedOut =>
         log[1..] == [Finished(run, Failed, None, Some("Timeout after " + Decimal(c.timeoutSecs) + "s"))]
       case Panics(_) => log[1..] == []
  }

  lemma CancelledIsReported(c: Config)
    ensures CancelledResult(c) == AgentResult(c.task, c.mode, "", false, Some("Cancelled before execution"))
  {
  }

  lemma VerdictIsReported(c: Config, a: Answer)
    ensures Reports(c, a, Verdict(c, a))
  {
    hide Decimal;
  }

  lemma {:induction false} RunIsAudited(run: nat, c: Config, a: Answer)
    ensures Audited(run, c, a, [Opened(run, c)] + (if a.Panics? then [] else [Closed(run, Verdict(c, a))]))
  {
    hide Decimal, First, StatusOf;
    if !a.Panics? { CancelledIff(c, a); }
    StatusIsOneOfThree(Outcome(c, if a.Panics? then TimedOut else a));
  }

  lemma StatusIsOneOfThree(r: AgentResult)
    ensures r.success <==> StatusOf(r) == Done
  {
  }

  // ------------------------------------------------------------ running agents side by side

  datatype Error = NoChunkSize

  /** What the scheduler makes of an agent it picks. */
  function Move(s: State, i: nat, a: Answer): Action
    requires i < |s.phases| && !s.phases[i].Terminal()
  {
    match s.phases[i]
    case Waiting => Begin(i)
    case Begun => Check(i)
    case Asking => Reply(i, a)
    case Settled(_) => Close(i)
  }

  /** The state after an undisturbed run. */
  ghost predicate Reached(j: Job, answers: seq<Answer>, run: seq<Action>, s: State) {
    After(j, run) == Some(s) && Undisturbed(run, answers)
  }

  lemma TakesStep(j: Job, answers: seq<Answer>, run: seq<Action>, s: State, a: Action)
    requires Shaped(j, s) && Reached(j, answers, run, s) && Enabled(j, s, a)
    requires !a.Cancel? && (a.Reply? ==> a.agent < |answers| && a.answer == answers[a.agent])
    ensures Reached(j, answers, run + [a], Next(j, s, a))
  {
    assert (run + [a])[..|run|] == run;
  }

  /** One move of one agent; it brings the end nearer. */
  lemma TakesMove(j: Job, answers: seq<Answer>, run: seq<Action>, s: State, i: nat)
    requires j.Valid() && Shaped(j, s) && Reached(j, answers, run, s) && |answers| == |j.configs|
    requires i < |j.configs| && Live(j, s, i)
    ensures var a := Move(s, i, answers[i]);
            && Enabled(j, s, a) && Reached(j, answers, run + [a], Next(j, s, a))
            && Next(j, s, a).results == s.results && Next(j, s, a).chunks == s.chunks
            && 0 <= Remaining(j, Next(j, s, a)) < Remaining(j, s)
  {
    hide After, Undisturbed, Inv, Remaining;
    var a := Move(s, i, answers[i]);
    MoveStep(j, s, i, answers[i]);
    TakesStep(j, answers, run, s, a);
    RunKeeps(j, run + [a]);
    RemainingIsNatural(j, Next(j, s, a));
    StepCounts(j, s, a);
  }

  /**
   * Waits for the first agent not joined yet, while the scheduler moves whichever
   * agents it likes, and appends its result.
   */
  method JoinNext(j: Job, answers: seq<Answer>, before: State, ghost past: seq<Action>)
      returns (s: State, ghost run: seq<Action>)
    requires j.Valid() && Shaped(j, before) && Reached(j, answers, past, before) && |answers| == |j.configs|
    requires |before.results| < Spawned(j, before)
    ensures Shaped(j, s) && Reached(j, answers, run, s)
    ensures s.chunks == before.chunks && |s.results| == |before.results| + 1
  {
    hide Next, Enabled, Reached, Remaining;
    s, run := before, past;
    var awaited := |s.results|;
    while !s.phases[awaited].Terminal()
      invariant Shaped(j, s) && Reached(j, answers, run, s)
      invariant s.results == before.results && s.chunks == before.chunks
      decreases Remaining(j, s)
    {
      assert Live(j, s, awaited);
      var i: nat :| i < |j.configs| && Live(j, s, i);
      TakesMove(j, answers, run, s, i);
      var a := Move(s, i, answers[i]);
      s, run := Next(j, s, a), run + [a];
    }
    JoinStep(j, s);
    TakesStep(j, answers, run, s, Join);
    s, run := Next(j, s, Join), run + [Join];
  }

  /**
   * Spawns one chunk after the other and joins its agents in order. The results are
   * the verdicts in task order, and the ledger has each run opened once and, unless
   * it panicked, closed once.
   */
  method ParallelExecute(j: Job, answers: seq<Answer>) returns (r: Result<seq<AgentResult>, Error>, ledger: seq<Event>)
    requires |answers| == |j.configs|
    ensures !j.Valid() ==> r == Err(NoChunkSize) && ledger == []
    ensures j.Valid() ==> r == Ok(seq(|answers|, i requires 0 <= i < |answers| => Verdict(j.configs[i], answers[i])))
    ensures j.Valid() ==> forall i: nat :: i < |answers| ==> Reports(j.configs[i], answers[i], r.value[i])
    ensures j.Valid() ==> forall i: nat :: i < |answers| ==> Audited(i, j.configs[i], answers[i], Log(ledger, i))
  {
    hide Next, Enabled, Reached, Log, Initial, Verdict, Opened, Closed, Reports, Audited;
    if j.width == 0 { return Err(NoChunkSize), []; }
    var s := Initial(j);
    ghost var run: seq<Action> := [];
    StartsUndisturbed(j, answers);
    while |s.results| < |j.configs|
      invariant Shaped(j, s) && Reached(j, answers, run, s)
      invariant |s.results| == Spawned(j, s)
      decreases |j.configs| - |s.results|
    {
      ghost var joined := |s.results|;
      SpawnStep(j, s);
      TakesStep(j, answers, run, s, Spawn);
      s, run := Next(j, s, Spawn), run + [Spawn];
      while |s.results| < Spawned(j, s)
        invariant Shaped(j, s) && Reached(j, answers, run, s)
        invariant joined <= |s.results| <= Spawned(j, s) && joined < Spawned(j, s)
        decreases Spawned(j, s) - |s.results|
      {
        s, run := JoinNext(j, answers, s, run);
      }
    }
    AllJoined(j, answers, run, s);
    forall i: nat | i < |answers|
      ensures Reports(j.configs[i], answers[i], s.results[i]) && Audited(i, j.configs[i], answers[i], Log(s.ledger, i))
    {
      VerdictIsReported(j.configs[i], answers[i]);
      RunIsAudited(i, j.configs[i], answers[i]);
    }
    return Ok(s.results), s.ledger;
  }

  lemma StartsUndisturbed(j: Job, answers: seq<Answer>)
    ensures Shaped(j, Initial(j)) && Reached(j, answers, [], Initial(j))
    ensures Spawned(j, Initial(j)) == 0 && Initial(j).results == []
  {
  }

  lemma SpawnStep(j: Job, s: State)
    requires j.Valid() && Shaped(j, s) && |s.results| == Spawned(j, s) < |j.configs|
    ensures Enabled(j, s, Spawn) && Next(j, s, Spawn).results == s.results
    ensures Spawned(j, s) < Spawned(j, Next(j, s, Spawn))
  {
    ChunkGrows(j, s);
  }

  lemma MoveStep(j: Job, s: State, i: nat, a: Answer)
    requires Shaped(j, s) && i < |j.configs| && Live(j, s, i)
    ensures var m := Move(s, i, a);
            && Enabled(j, s, m) && !m.Cancel? && (m.Reply? ==> m == Reply(i, a))
            && Next(j, s, m).results == s.results && Spawned(j, Next(j, s, m)) == Spawned(j, s)
  {
  }

  lemma JoinStep(j: Job, s: State)
    requires Shaped(j, s) && |s.results| < Spawned(j, s) && s.phases[|s.results|].Terminal()
    ensures Enabled(j, s, Join) && Next(j, s, Join).chunks == s.chunks
    ensures Next(j, s, Join).results == s.results + [JoinResult(j.configs[|s.results|], s.phases[|s.results|])]
  {
  }

  lemma LedgerIsSettled(j: Job, answers: seq<Answer>, run: seq<Action>, s: State, i: nat)
    requires j.Valid() && Shaped(j, s) && Reached(j, answers, run, s) && i < |answers|
    requires |s.results| == |j.configs| == |answers|
    ensures Log(s.ledger, i) == [Opened(i, j.configs[i])] +
              (if answers[i].Panics? then [] else [Closed(i, Verdict(j.configs[i], answers[i]))])
  {
    hide After, Log, Answered, Verdict, CancelledResult, Inv, Opened, Closed, Undisturbed;
    CompleteRuns(j, run, i);
    NoneIsInTime(run, answers, i);
    AnsweredAsGiven(run, answers, i);
  }

  lemma AllJoined(j: Job, answers: seq<Answer>, run: seq<Action>, s: State)
    requires j.Valid() && Shaped(j, s) && Reached(j, answers, run, s)
    requires |s.results| == |j.configs| == |answers|
    ensures s.results == seq(|answers|, i requires 0 <= i < |answers| => Verdict(j.configs[i], answers[i]))
    ensures forall i: nat :: i < |answers| ==>
              Log(s.ledger, i) == [Opened(i, j.configs[i])] +
                (if answers[i].Panics? then [] else [Closed(i, Verdict(j.configs[i], answers[i]))])
  {
    hide After, Undisturbed, Log, Verdict, Opened, Closed;
    InterleavingIsInvisible(j, run, answers);
    hide Reached;
    forall i: nat | i < |answers|
      ensures Log(s.ledger, i) == [Opened(i, j.configs[i])] +
                (if answers[i].Panics? then [] else [Closed(i, Verdict(j.configs[i], answers[i]))])
    {
      LedgerIsSettled(j, answers, run, s, i);
    }
  }
}
