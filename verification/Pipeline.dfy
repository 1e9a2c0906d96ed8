/** Sub-agents one after the other, each with the output of the one before. */
module Pipeline {
  import opened Prelude
  import opened Numerals
  import opened Coordinator

  /** What the provider answers at a step, given the task it is asked. */
  type Provider = (nat, Config) -> Answer

  const SEPARATOR := "\n\n--- Context from previous step ---\n"

  function WithContext(c: Config, previous: string): Config {
    if previous == "" then c
    else c.(task := c.task + SEPARATOR + previous)
  }

  /** The task of step `i`, with the output of the step before as its context. */
  function Asked(configs: seq<Config>, steps: seq<AgentResult>, i: nat): Config
    requires i < |configs| && i <= |steps|
  {
    WithContext(configs[i], if i == 0 then "" else steps[i - 1].output)
  }

  /** Step `i` has the verdict of its provider on its task in context. */
  predicate StepOk(configs: seq<Config>, provider: Provider, steps: seq<AgentResult>, i: nat)
    requires i < |configs| && i < |steps|
  {
    var c := Asked(configs, steps, i);
    steps[i] == Verdict(c, provider(i, c))
  }

  /** Every step follows from the one before; only the last may fail. */
  predicate Chain(configs: seq<Config>, provider: Provider, steps: seq<AgentResult>) {
    && |steps| <= |configs|
    && (forall i: nat :: i < |steps| ==> StepOk(configs, provider, steps, i))
    && (forall i :: 0 <= i < |steps| - 1 ==> steps[i].success)
  }

  /** The chain ran to its end: through all tasks, or up to its first failure. */
  predicate Complete(configs: seq<Config>, steps: seq<AgentResult>) {
    steps != [] && (|steps| == |configs| || !Last(steps).success)
  }

  function EmptyPipeline(): AgentResult {
    AgentResult("empty pipeline", "none", "", false, Some("No tasks in pipeline"))
  }

  function FailedAt(step: nat, r: AgentResult): AgentResult {
    r.(success := false,
       error := Some("Pipeline failed at step " + Decimal(step) + ": "
                     + match r.error case Some(e) => e case None => ""))
  }

  function Summary(steps: seq<AgentResult>): AgentResult
    requires steps != []
  {
    if Last(steps).success then Last(steps) else FailedAt(|steps|, Last(steps))
  }

  /** What the ledger is told of step `i`. */
  function StepLog(configs: seq<Config>, provider: Provider, steps: seq<AgentResult>, i: nat): seq<Event>
    requires i < |configs| && i < |steps|
  {
    var c := Asked(configs, steps, i);
    [Opened(i, c)] + if provider(i, c).Panics? then [] else [Closed(i, steps[i])]
  }

  function Logs(configs: seq<Config>, provider: Provider, steps: seq<AgentResult>, n: nat): seq<Event>
    requires n <= |steps| <= |configs|
  {
    if n == 0 then [] else Logs(configs, provider, steps, n - 1) + StepLog(configs, provider, steps, n - 1)
  }

  lemma {:induction false} LogsGrow(configs: seq<Config>, provider: Provider, steps: seq<AgentResult>, r: AgentResult,
                                    n: nat)
    requires n <= |steps| < |configs|
    ensures Logs(configs, provider, steps + [r], n) == Logs(configs, provider, steps, n)
  {
    if n > 0 {
      LogsGrow(configs, provider, steps, r, n - 1);
    }
  }

  lemma LogAdded(configs: seq<Config>, provider: Provider, steps: seq<AgentResult>, r: AgentResult)
    requires |steps| < |configs|
    ensures var c := Asked(configs, steps, |steps|);
            Logs(configs, provider, steps + [r], |steps| + 1) ==
            Logs(configs, provider, steps, |steps|)
                + ([Opened(|steps|, c)] + if provider(|steps|, c).Panics? then [] else [Closed(|steps|, r)])
  {
    hide Opened, Closed, WithContext;
    LogsGrow(configs, provider, steps, r, |steps|);
    assert Asked(configs, steps + [r], |steps|) == Asked(configs, steps, |steps|);
  }

  lemma NoSteps(configs: seq<Config>, provider: Provider)
    ensures Chain(configs, provider, [])
  {
  }

  method PipelineExecute(configs: seq<Config>, provider: Provider)
    returns (r: AgentResult, ledger: seq<Event>, ghost steps: seq<AgentResult>)
    ensures configs == [] ==> r == EmptyPipeline() && ledger == []
    ensures configs != [] ==> Chain(configs, provider, steps) && Complete(configs, steps) && r == Summary(steps)
    ensures configs != [] ==> ledger == Logs(configs, provider, steps, |steps|)
    ensures AllTold(configs, provider, steps, ledger)
    ensures configs != [] && r.success ==>
              |steps| == |configs| && r == Last(steps)
    ensures configs != [] && !r.success ==>
              && r.task == Last(steps).task && r.mode == Last(steps).mode && r.output == ""
              && Last(steps).error.Some?
              && r.error == Some("Pipeline failed at step " + Decimal(|steps|) + ": " + Last(steps).error.value)
    ensures configs == [] ==> r == AgentResult("empty pipeline", "none", "", false, Some("No tasks in pipeline"))
  {
    hide Verdict, Opened, Closed, WithContext, Chain, FailedAt, Complete, Logs, AllTold, Decimal;
    NoStepsLogged(configs, provider);
    steps := [];
    NoSteps(configs, provider);
    if configs == [] { return EmptyPipeline(), [], []; }
    var previous, lastResult := "", None;
    ledger := [];
    for i := 0 to |configs|
      invariant |steps| == i <= |configs| && Chain(configs, provider, steps)
      invariant i > 0 ==> Last(steps).success && lastResult == Some(Last(steps)) && previous == Last(steps).output
      invariant i == 0 ==> previous == ""
      invariant ledger == Logs(configs, provider, steps, i)
    {
      var c := WithContext(configs[i], previous);
      var answer := provider(i, c);
      r := Verdict(c, answer);
      ghost var before := ledger;
      ledger := ledger + [Opened(i, c)];
      if !answer.Panics? { ledger := ledger + [Closed(i, r)]; }
      ChainGrows(configs, provider, steps, r);
      LogAdded(configs, provider, steps, r);
      Associate(before, [Opened(i, c)], if answer.Panics? then [] else [Closed(i, r)]);
      steps := steps + [r];
      assert ledger == Logs(configs, provider, steps, |steps|);
      if !r.success {
        StepsAreTold(configs, provider, steps);
        ChainEnds(configs, provider, steps);
        r := FailedAt(i + 1, r);
        return;
      }
      previous, lastResult := r.output, Some(r);
    }
    StepsAreTold(configs, provider, steps);
    ChainEnds(configs, provider, steps);
    r := lastResult.value;
  }

  lemma NoStepsLogged(configs: seq<Config>, provider: Provider)
    ensures Logs(configs, provider, [], 0) == [] && AllTold(configs, provider, [], [])
  {
  }

  lemma ContextIs(c: Config, previous: string)
    ensures WithContext(c, previous) == Contextual(c, previous)
  {
    assert c.task + SEPARATOR + previous == c.task + "\n\n--- Context from previous step ---\n" + previous;
  }

  /** Each step is logged under its own number, and nothing else is. */
  lemma {:induction false} StepIsLogged(configs: seq<Config>, provider: Provider, steps: seq<AgentResult>, n: nat,
                                        i: nat)
    requires n <= |steps| <= |configs|
    ensures Log(Logs(configs, provider, steps, n), i) == if i < n then StepLog(configs, provider, steps, i) else []
    decreases n
  {
    hide Log, Asked;
    NothingLogged(i);
    if n > 0 {
      StepIsLogged(configs, provider, steps, n - 1, i);
      var c := Asked(configs, steps, n - 1);
      var start, finish := Opened(n - 1, c), Closed(n - 1, steps[n - 1]);
      var before := Logs(configs, provider, steps, n - 1);
      LogAppended(before, start, i);
      LogAppended(before + [start], finish, i);
      Associate(before, [start], [finish]);
      assert [start] + [] == [start];
    }
  }

  lemma NothingLogged(i: nat)
    ensures Log([], i) == []
  {
  }

  /** A step of a chain is reported and audited as its provider answered the task in context. */
  lemma {:induction false} StepIsTold(configs: seq<Config>, provider: Provider, steps: seq<AgentResult>, i: nat)
    requires i < |steps| <= |configs| && StepOk(configs, provider, steps, i)
    ensures Told(configs, provider, steps, Logs(configs, provider, steps, |steps|), i)
  {
    hide Verdict, Opened, Closed, WithContext, Contextual, Logs, Log, Reports, Audited;
    ContextIs(configs[i], if i > 0 then steps[i - 1].output else "");
    var c := Asked(configs, steps, i);
    StepIsLogged(configs, provider, steps, |steps|, i);
    VerdictIsReported(c, provider(i, c));
    RunIsAudited(i, c, provider(i, c));
  }

  lemma {:induction false} StepsAreTold(configs: seq<Config>, provider: Provider, steps: seq<AgentResult>)
    requires Chain(configs, provider, steps)
    ensures |steps| <= |configs| && AllTold(configs, provider, steps, Logs(configs, provider, steps, |steps|))
  {
    hide Told, StepOk, Logs;
    forall i: nat | i < |steps| ensures Told(configs, provider, steps, Logs(configs, provider, steps, |steps|), i) {
      StepIsTold(configs, provider, steps, i);
    }
  }

  /** How a pipeline reports the end of its chain. */
  lemma {:induction false} ChainEnds(configs: seq<Config>, provider: Provider, steps: seq<AgentResult>)
    requires Chain(configs, provider, steps) && steps != []
    ensures Last(steps).success || (|steps| > 0 && Complete(configs, steps))
    ensures |steps| == |configs| ==> Complete(configs, steps)
    ensures !Last(steps).success ==>
              var r := FailedAt(|steps|, Last(steps));
              && r.task == Last(steps).task && r.mode == Last(steps).mode && r.output == "" && !r.success
              && Last(steps).error.Some?
              && r.error == Some("Pipeline failed at step " + Decimal(|steps|) + ": " + Last(steps).error.value)
  {
    hide Decimal, Verdict, WithContext;
    var i := |steps| - 1;
    assert StepOk(configs, provider, steps, i);
    var c := Asked(configs, steps, i);
    VerdictIsReported(c, provider(i, c));
  }

  /** The task behind the configured one, the separator and the output of the step before; the bare task without one. */
  function Contextual(c: Config, previous: string): Config {
    Config(if |previous| > 0 then c.task + "\n\n--- Context from previous step ---\n" + previous else c.task,
           c.mode, c.session, c.timeoutSecs)
  }

  /** Step `i` is reported and audited as its provider answered the task in context. */
  predicate Told(configs: seq<Config>, provider: Provider, steps: seq<AgentResult>, ledger: seq<Event>, i: nat)
    requires i < |configs| && i < |steps|
  {
    var c := Contextual(configs[i], if i > 0 then steps[i - 1].output else "");
    Reports(c, provider(i, c), steps[i]) && Audited(i, c, provider(i, c), Log(ledger, i))
  }

  predicate AllTold(configs: seq<Config>, provider: Provider, steps: seq<AgentResult>, ledger: seq<Event>) {
    forall i: nat :: i < |steps| && i < |configs| ==> Told(configs, provider, steps, ledger, i)
  }

  lemma StepKept(configs: seq<Config>, provider: Provider, steps: seq<AgentResult>, r: AgentResult, i: nat)
    requires i < |steps| < |configs| && StepOk(configs, provider, steps, i)
    ensures StepOk(configs, provider, steps + [r], i)
  {
    hide Verdict, WithContext;
  }

  lemma StepAdded(configs: seq<Config>, provider: Provider, steps: seq<AgentResult>, r: AgentResult)
    requires |steps| < |configs|
    requires var c := Asked(configs, steps, |steps|); r == Verdict(c, provider(|steps|, c))
    ensures StepOk(configs, provider, steps + [r], |steps|)
  {
    hide Verdict, WithContext;
    assert Asked(configs, steps + [r], |steps|) == Asked(configs, steps, |steps|);
  }

  lemma ChainGrows(configs: seq<Config>, provider: Provider, steps: seq<AgentResult>, r: AgentResult)
    requires Chain(configs, provider, steps) && |steps| < |configs|
    requires steps != [] ==> Last(steps).success
    requires var c := Asked(configs, steps, |steps|); r == Verdict(c, provider(|steps|, c))
    ensures Chain(configs, provider, steps + [r])
  {
    hide Verdict, WithContext, Asked, StepOk;
    StepAdded(configs, provider, steps, r);
    forall i: nat | i < |steps| ensures StepOk(configs, provider, steps + [r], i) {
      StepKept(configs, provider, steps, r, i);
    }
  }

  /** There is one complete chain, so the result and the ledger of a pipeline are determined. */
  lemma {:induction false} ChainIsUnique(configs: seq<Config>, provider: Provider, a: seq<AgentResult>,
                                         b: seq<AgentResult>)
    requires Chain(configs, provider, a) && Complete(configs, a)
    requires Chain(configs, provider, b) && Complete(configs, b)
    ensures a == b
  {
    hide Chain;
    ChainsAgree(configs, provider, a, b, |a|);
    ChainsAgree(configs, provider, b, a, |b|);
    OnlyLastFails(configs, provider, a, |b|);
    OnlyLastFails(configs, provider, b, |a|);
    assert |a| <= |b| ==> Last(a) == b[|a| - 1];
    assert |b| <= |a| ==> Last(b) == a[|b| - 1];
  }

  lemma OnlyLastFails(configs: seq<Config>, provider: Provider, steps: seq<AgentResult>, n: nat)
    requires Chain(configs, provider, steps)
    ensures |steps| <= |configs| && (0 < n < |steps| ==> steps[n - 1].success)
  {
    hide StepOk;
  }

  lemma {:induction false} ChainsAgree(configs: seq<Config>, provider: Provider, a: seq<AgentResult>,
                                       b: seq<AgentResult>, n: nat)
    requires Chain(configs, provider, a) && Chain(configs, provider, b) && n <= |a|
    ensures forall i :: 0 <= i < n && i < |b| ==> a[i] == b[i]
  {
    hide Verdict, WithContext;
    if n > 0 {
      ChainsAgree(configs, provider, a, b, n - 1);
      if n <= |b| {
        assert StepOk(configs, provider, a, n - 1) && StepOk(configs, provider, b, n - 1);
        assert Asked(configs, a, n - 1) == Asked(configs, b, n - 1);
      }
    }
  }

  lemma StepSucceedsIff(configs: seq<Config>, provider: Provider, steps: seq<AgentResult>, i: nat)
    requires i < |steps| <= |configs| && StepOk(configs, provider, steps, i)
    ensures steps[i].success <==> provider(i, Asked(configs, steps, i)).Replied?
  {
    hide Asked;
  }

  /** A pipeline succeeds exactly when every task ran and every provider replied. */
  lemma {:induction false} SucceedsIff(configs: seq<Config>, provider: Provider, steps: seq<AgentResult>)
    requires Chain(configs, provider, steps) && Complete(configs, steps)
    ensures Summary(steps).success <==>
            |steps| == |configs| && forall i :: 0 <= i < |steps| ==> provider(i, Asked(configs, steps, i)).Replied?
  {
    hide StepOk, Decimal, Asked;
    forall i: nat | i < |steps| ensures steps[i].success <==> provider(i, Asked(configs, steps, i)).Replied? {
      StepSucceedsIff(configs, provider, steps, i);
    }
  }

  /**
   * The task of a step carries the output of the step before, all of it, and nothing
   * from further back: two histories ask the same exactly when that output is the
   * same. In particular a step asks its bare task exactly after an empty output.
   */
  lemma {:induction false} ContextIsPreviousOutput(configs: seq<Config>, a: seq<AgentResult>, b: seq<AgentResult>,
                                                   i: nat)
    requires 0 < i < |configs| && i <= |a| && i <= |b|
    ensures Asked(configs, a, i) == Asked(configs, b, i) <==> a[i - 1].output == b[i - 1].output
    ensures Asked(configs, a, i) == configs[i] <==> a[i - 1].output == ""
  {
    ContextEndsTask(configs[i], a[i - 1].output);
    ContextEndsTask(configs[i], b[i - 1].output);
  }

  /** The context is what is left of the task behind the configured one and the separator. */
  lemma ContextEndsTask(c: Config, previous: string)
    ensures var task := WithContext(c, previous).task;
            if previous == "" then task == c.task
            else |task| == |c.task| + |SEPARATOR| + |previous| && task[|c.task| + |SEPARATOR|..] == previous
  {
  }
}
