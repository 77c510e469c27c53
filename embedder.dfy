/** Embedder: turns text chunks into vectors through the remote embedding
    service (`generate_query_embedding` and `generate_embeddings` in
    gpthistory/helpers.py), substituting a sentinel on failure so that the
    output stays aligned with the input.

    The service itself is not modelled: each call is represented by its
    outcome, `None` when the call raised and `Some(data)` holding the vectors
    of `response.data` in the order the service returned them. */
module Embedder {
  import opened Options
  import opened Batching

  type Vector = seq<real>

  /** Length of the sentinel vector. */
  const EMBEDDING_DIM: nat := 1536

  /** Chunks per service call in `generate_embeddings`. */
  const BATCH_SIZE: nat := 100

  /** Outcome of one call to the embedding service. */
  type ServiceOutcome = Option<seq<Vector>>

  /** The sentinel standing in for a failed embedding: `[0.0] * 1536`. */
  function ZeroVector(): Vector
  {
    seq(EMBEDDING_DIM, _ => 0.0)
  }

  predicate IsZero(v: Vector)
  {
    forall i :: 0 <= i < |v| ==> v[i] == 0.0
  }

  /** Embedding of a single query: the first vector of the response, or the
      sentinel when the call raised. A response without any vector makes
      `response.data[0]` raise inside the same `try`, so it yields the
      sentinel too. Never fails. */
  function GenerateQueryEmbedding(outcome: ServiceOutcome): (v: Vector)
    ensures outcome.None? ==> |v| == EMBEDDING_DIM && IsZero(v)
    ensures outcome.Some? && outcome.value == [] ==> |v| == EMBEDDING_DIM && IsZero(v)
    ensures outcome.Some? && outcome.value != [] ==> v == outcome.value[0]
  {
    match outcome
    case Some(data) => if |data| > 0 then data[0] else ZeroVector()
    case None => ZeroVector()
  }

  /** What one batch contributes: the service's vectors as returned, or one
      sentinel per chunk of the batch when the call raised. */
  function BatchVectors(batch: seq<string>, outcome: ServiceOutcome): seq<Vector>
  {
    match outcome
    case Some(data) => data
    case None => seq(|batch|, _ => ZeroVector())
  }

  /** The contributions of all batches, in batch order. */
  function BatchResults(batches: seq<seq<string>>, outcomes: seq<ServiceOutcome>): (results: seq<seq<Vector>>)
    requires |batches| == |outcomes|
    ensures |results| == |batches|
    ensures forall k :: 0 <= k < |results| ==> results[k] == BatchVectors(batches[k], outcomes[k])
  {
    seq(|batches|, k requires 0 <= k < |batches| => BatchVectors(batches[k], outcomes[k]))
  }

  /** The batches `generate_embeddings` sends, one service call each. */
  function Batches(conversations: seq<string>): seq<seq<string>>
  {
    SplitIntoBatches(conversations, BATCH_SIZE)
  }

  /** The vectors `generate_embeddings` produces for the given call outcomes:
      what each batch contributes, in batch order. When every successful call
      returned one vector per chunk, there is one vector per chunk. */
  function Embeddings(conversations: seq<string>, outcomes: seq<ServiceOutcome>): (vectors: seq<Vector>)
    requires |outcomes| == |Batches(conversations)|
    ensures ResponsesMatchBatches(conversations, outcomes) ==> |vectors| == |conversations|
  {
    var batches := Batches(conversations);
    var results := BatchResults(batches, outcomes);
    if ResponsesMatchBatches(conversations, outcomes) then
      // each batch contributes as many vectors as it has chunks
      FlattenSameShape(results, batches);
      FlattenSplit(conversations, BATCH_SIZE);
      Flatten(results)
    else
      Flatten(results)
  }

  /** Every successful call returned one vector per chunk it was sent, as
      the service promises. */
  predicate ResponsesMatchBatches(conversations: seq<string>, outcomes: seq<ServiceOutcome>)
    requires |outcomes| == |Batches(conversations)|
  {
    forall k :: 0 <= k < |outcomes| && outcomes[k].Some? ==>
      |outcomes[k].value| == |Batches(conversations)[k]|
  }

  /** Embeds `conversations` batch by batch; `outcomes[k]` is what the call for
      batch `k` did. A failed batch does not stop the loop. */
  method GenerateEmbeddings(conversations: seq<string>, outcomes: seq<ServiceOutcome>)
      returns (embeddings: seq<Vector>)
    requires |outcomes| == |Batches(conversations)|
    ensures embeddings == Embeddings(conversations, outcomes)
    ensures ResponsesMatchBatches(conversations, outcomes) ==> |embeddings| == |conversations|
  {
    var batches := SplitIntoBatches(conversations, BATCH_SIZE);
    embeddings := [];
    for i := 0 to |batches|
      invariant embeddings == Flatten(BatchResults(batches[..i], outcomes[..i]))
    {
      var batch := batches[i];
      match outcomes[i] {
        case Some(data) =>
          embeddings := embeddings + data;
        case None =>
          embeddings := embeddings + seq(|batch|, _ => ZeroVector());
      }
      assert BatchResults(batches[..i + 1], outcomes[..i + 1])
          == BatchResults(batches[..i], outcomes[..i]) + [BatchVectors(batch, outcomes[i])];
      FlattenSnoc(BatchResults(batches[..i], outcomes[..i]), BatchVectors(batch, outcomes[i]));
    }
    assert batches[..|batches|] == batches && outcomes[..|outcomes|] == outcomes;
  }

  /** The vector at position `p` belongs to chunk `p`: it is element
      `p % 100` of what batch `p / 100` contributed — the service's vector for
      that chunk, or the sentinel when that batch's call raised. */
  lemma EmbeddingsAlignWithChunks(conversations: seq<string>, outcomes: seq<ServiceOutcome>, p: nat)
    requires |outcomes| == |Batches(conversations)|
    requires ResponsesMatchBatches(conversations, outcomes)
    requires p < |conversations|
    ensures |Embeddings(conversations, outcomes)| == |conversations|
    ensures p / BATCH_SIZE < |Batches(conversations)|
    ensures p % BATCH_SIZE < |Batches(conversations)[p / BATCH_SIZE]|
    ensures Batches(conversations)[p / BATCH_SIZE][p % BATCH_SIZE] == conversations[p]
    ensures outcomes[p / BATCH_SIZE].None? ==> Embeddings(conversations, outcomes)[p] == ZeroVector()
    ensures outcomes[p / BATCH_SIZE].Some? ==>
              Embeddings(conversations, outcomes)[p] == outcomes[p / BATCH_SIZE].value[p % BATCH_SIZE]
  {
    var batches := Batches(conversations);
    var results := BatchResults(batches, outcomes);
    var k, i := p / BATCH_SIZE, p % BATCH_SIZE;
    SplitCount(conversations, BATCH_SIZE);
    assert k < |batches| by {
      if k >= |batches| {
        MulMonotone(|batches| - 1, k, BATCH_SIZE);
      }
    }
    SplitSlices(conversations, BATCH_SIZE, k);
    assert batches[k] == conversations[k * BATCH_SIZE .. Min(k * BATCH_SIZE + BATCH_SIZE, |conversations|)];
    BatchOffset(conversations, outcomes, k);
    FlattenIndex(results, k, i);
  }

  /** The batches before batch `k` hold exactly `k * 100` chunks, and their
      results exactly `k * 100` vectors. */
  lemma BatchOffset(conversations: seq<string>, outcomes: seq<ServiceOutcome>, k: nat)
    requires |outcomes| == |Batches(conversations)|
    requires ResponsesMatchBatches(conversations, outcomes)
    requires k < |Batches(conversations)|
    ensures |Flatten(BatchResults(Batches(conversations), outcomes)[..k])| == k * BATCH_SIZE
  {
    var batches := Batches(conversations);
    var results := BatchResults(batches, outcomes);
    SplitSlices(conversations, BATCH_SIZE, k);
    SplitPrefix(conversations, BATCH_SIZE, k);
    FlattenSameShape(results[..k], batches[..k]);
  }

  /** A failed batch is isolated: replacing batch `j`'s outcome by a failure
      yields sentinels at exactly that batch's positions and leaves every
      other vector, before and after it, as it was. */
  lemma FailureIsolation(conversations: seq<string>, outcomes: seq<ServiceOutcome>, j: nat, p: nat)
    requires |outcomes| == |Batches(conversations)|
    requires ResponsesMatchBatches(conversations, outcomes)
    requires j < |outcomes|
    requires p < |conversations|
    ensures |Embeddings(conversations, outcomes)| == |conversations|
    ensures |Embeddings(conversations, outcomes[j := None])| == |conversations|
    ensures p / BATCH_SIZE == j ==> Embeddings(conversations, outcomes[j := None])[p] == ZeroVector()
    ensures p / BATCH_SIZE != j ==>
              Embeddings(conversations, outcomes[j := None])[p] == Embeddings(conversations, outcomes)[p]
  {
    var failed := outcomes[j := None];
    assert ResponsesMatchBatches(conversations, failed);
    EmbeddingsAlignWithChunks(conversations, outcomes, p);
    EmbeddingsAlignWithChunks(conversations, failed, p);
  }

  /** When the service returns 1536-long vectors, every produced vector is
      1536 long: sentinels have the same length. */
  lemma EmbeddingsHaveDimension(conversations: seq<string>, outcomes: seq<ServiceOutcome>, p: nat)
    requires |outcomes| == |Batches(conversations)|
    requires ResponsesMatchBatches(conversations, outcomes)
    requires forall k, i :: 0 <= k < |outcomes| && outcomes[k].Some? && 0 <= i < |outcomes[k].value| ==>
               |outcomes[k].value[i]| == EMBEDDING_DIM
    requires p < |conversations|
    ensures |Embeddings(conversations, outcomes)| == |conversations|
    ensures |Embeddings(conversations, outcomes)[p]| == EMBEDDING_DIM
  {
    EmbeddingsAlignWithChunks(conversations, outcomes, p);
  }
}
