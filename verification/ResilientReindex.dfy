/** The reindexer on top of the resilient provider: pairing from the server's answers to the stored rows. */
module ResilientReindex {
  import opened Prelude
  import opened MemoryStore
  import Embeddings
  import Reindexing = MemoryReindex

  /** The server's answer to a text, in a batch, an attempt at it, and a place in the batch: anything at all. */
  type Service = (nat, nat, nat, string) -> Result<Vector, string>

  /** An answer that is a vector is the vector of the text it was asked for. */
  ghost predicate HonestService(service: Service, embed: string -> Vector) {
    forall batch: nat, attempt: nat, i: nat, text: string ::
      service(batch, attempt, i, text).Ok? ==> service(batch, attempt, i, text).value == embed(text)
  }

  function ServerFor(service: Service, batch: nat, texts: seq<string>): Embeddings.Server {
    (attempt: nat, i: nat) => if i < |texts| then service(batch, attempt, i, texts[i]) else Err("")
  }

  /** How often and with which dimension the provider insists. */
  datatype Policy = Policy(maxRetries: nat, expected: Option<nat>)

  function ErrorText(f: Embeddings.Failure): string {
    match f case RequestFailed(message) => message case WrongDimension => "wrong dimension"
  }

  /** The resilient provider as the reindexer sees it: one settled call for each batch. */
  function ProviderOf(service: Service, schedule: nat -> Embeddings.Scheduler, policy: Policy): Reindexing.Provider {
    (batch: nat, texts: seq<string>) =>
      match Embeddings.Settled(ServerFor(service, batch, texts), schedule(batch), |texts|, policy.maxRetries,
                               policy.expected, 0)
      case Ok(vectors) => Ok(vectors)
      case Err(f) => Err(ErrorText(f))
  }

  /** Whatever the completion orders, the transient failures and the retries, the provider pairs texts and vectors. */
  lemma {:induction false} ProviderPairs(service: Service, schedule: nat -> Embeddings.Scheduler, policy: Policy,
                                         embed: string -> Vector)
    requires HonestService(service, embed) && forall batch: nat :: Embeddings.Fair(schedule(batch))
    ensures Reindexing.Honest(ProviderOf(service, schedule, policy), embed)
  {
    var provider := ProviderOf(service, schedule, policy);
    forall n: nat, texts: seq<string> | provider(n, texts).Ok?
      ensures forall i :: 0 <= i < |texts| ==>
              |provider(n, texts).value| == |texts| && provider(n, texts).value[i] == embed(texts[i])
    {
      Embeddings.SettledPairs(texts, ServerFor(service, n, texts), schedule(n), policy.maxRetries, policy.expected, 0,
                              embed);
    }
  }

  /** The call itself computes what the reindexer is told. */
  method Answer(service: Service, schedule: nat -> Embeddings.Scheduler, policy: Policy, batch: nat, texts: seq<string>)
      returns (r: Result<seq<Vector>, string>)
    requires forall n: nat :: Embeddings.Fair(schedule(n))
    ensures r == ProviderOf(service, schedule, policy)(batch, texts)
  {
    ghost var embed := (text: string) => [];
    var settled, outcomes :=
      Embeddings.EmbedResilient(texts, ServerFor(service, batch, texts), schedule(batch), policy.maxRetries,
                                policy.expected, embed);
    r := match settled case Ok(vectors) => Ok(vectors) case Err(f) => Err(ErrorText(f));
  }

  /** A vector changed only on a row that was pending, is not noise, and now holds the vector of its own content. */
  ghost predicate Paired(start: Rows, now: Rows, noise: string -> bool, embed: string -> Vector) {
    now.Keys <= start.Keys &&
    forall k :: k in now ==>
      && now[k].content == start[k].content
      && (now[k].vector == start[k].vector ||
          (start[k].vector.None? && !noise(start[k].content) && now[k].vector == Some(embed(start[k].content))))
  }

  /** Every surviving row that was pending holds the vector of its own content, save noise. */
  ghost predicate AllPaired(start: Rows, now: Rows, noise: string -> bool, embed: string -> Vector) {
    now.Keys <= start.Keys &&
    forall k :: k in now && start[k].vector.None? && !noise(start[k].content) && !now[k].expired ==>
      now[k].vector == Some(embed(now[k].content))
  }

  /**
   * Server, batches, retries and worker together: only the server is taken at its
   * word. Every vector a run writes is that of the row it is written on, and a run to
   * the end of an uncapped queue leaves each surviving pending row with its own.
   */
  method Reindex(store: Store, service: Service, schedule: nat -> Embeddings.Scheduler, policy: Policy,
                 options: Reindexing.Options, ghost embed: string -> Vector)
      returns (r: Result<Reindexing.Report, StoreError>)
    requires HonestService(service, embed) && forall batch: nat :: Embeddings.Fair(schedule(batch))
    modifies store
    ensures Paired(old(store.rows), store.rows, options.noise, embed)
    ensures r.Ok? && !r.value.stoppedEarly && options.maxEntries.None? ==>
              AllPaired(old(store.rows), store.rows, options.noise, embed)
    ensures r.Ok? && !store.workerRuns && !r.value.stoppedEarly ==>
              Reindexing.Completed(store.indexed, old(store.rows), store.rows, old(store.index), store.index, r.value,
                                   options.maxEntries, options.noise, embed)
  {
    var provider := ProviderOf(service, schedule, policy);
    ProviderPairs(service, schedule, policy, embed);
    ghost var examined, done;
    r, examined, done := Reindexing.Reindex(store, provider, options, embed);
  }
}
