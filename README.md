# gpthistory indexing and ranking core, in Dafny

This project models the embedding-indexing and ranking pipeline of gpthistory
(`gpthistory/helpers.py`). gpthistory is a semantic search over an exported
chat history. The model covers four pieces:

- **Extractor** (`extractor.dfy`, module `Extractor`): `extract_text_parts`
  reads `message.content` from an exported conversation record. It returns
  the content's `parts` unchanged when `content_type` is `"text"`, and no
  chunks otherwise. Every key it reads may be missing, so each one is an
  `Option`.
- **Batching** (`batching.dfy`, module `Batching`): `split_into_batches` cuts
  a sequence into consecutive slices of at most `batchSize` elements.
  `Flatten` is the partner that concatenates the slices again.
- **Embedder** (`embedder.dfy`, module `Embedder`): `generate_query_embedding`
  and `generate_embeddings`. The remote embedding service is not modelled.
  Each call is given by its outcome: `None` when the call raised, or
  `Some(data)` holding the returned vectors in order. `GenerateEmbeddings` is
  a method whose loop walks the batches of 100. For each batch it appends the
  service's vectors, or one all-zero sentinel of length 1536 per chunk when
  that call failed. It is proved equal to the specification function
  `Embeddings`, and the alignment and failure-isolation facts are proved
  about that function.
- **Ranker** (`ranker.dfy`, module `Ranker`): `calculate_top_titles`. It
  scores every table row by the dot product with the query embedding and
  keeps the rows scoring at least 0.3. It sorts those rows by descending
  score, keeps the first `top_n`, and returns three aligned sequences: chat
  ids, texts and scores. If a row vector does not have the query's length,
  numpy raises, and the source turns that into the empty result. Scores are
  exact `real`s.

`options.dfy` (module `Options`) holds the `Option` datatype.

`generate_embeddings` is meant to return one vector per chunk. Its failure
branch pads with sentinels for exactly that reason. In the code, though, this
holds only when every successful call returns one vector per input: the
success branch appends `response.data` as it is. So the model appends
whatever a successful outcome holds. The alignment lemmas take the service's
one-vector-per-input promise (`ResponsesMatchBatches`) as a hypothesis.

## Model

| member | source | states |
|---|---|---|
| `Extractor.ExtractTextParts` | gpthistory/helpers.py:28-38 | No chunks when `message` is missing, when `content` is missing, or when `content_type` is not `"text"`. For text content: exactly `parts` (same elements, same order), or nothing when `parts` is missing. |
| `Batching.FlattenSplit` | gpthistory/helpers.py:44-45 | Concatenating the batches gives back the input. |
| `Batching.SplitSlices` | gpthistory/helpers.py:44-45 | Batch `j` starts inside the input and is the slice `a[j*k : j*k + k]`, clamped at the end as Python clamps it. So the recursive definition yields exactly what the range-stepping generator yields. |
| `Batching.SplitSizes` | gpthistory/helpers.py:44-45 | Every batch is non-empty and at most `batchSize` long. Every batch except the last is exactly `batchSize` long. |
| `Batching.SplitCount` | gpthistory/helpers.py:44-45 | No batches for an empty input. Otherwise the count `c` satisfies `(c-1)*k < n <= c*k`, so it is `ceil(n / k)`. |
| `Batching.SplitPrefix` | gpthistory/helpers.py:44-45 | The first `j` batches hold exactly the first `min(j*k, n)` elements, in order. |
| `Embedder.GenerateQueryEmbedding` | gpthistory/helpers.py:47-59 | A failed call gives the all-zero vector of length 1536. So does a response with no vector, because `data[0]` raises inside the same `try`. Otherwise the result is the first returned vector. |
| `Embedder.GenerateEmbeddings` | gpthistory/helpers.py:61-86 | The loop's result is the concatenation, batch by batch, of the service's vectors or of `len(batch)` sentinels. All batches are processed. With well-formed responses there is exactly one vector per chunk. |
| `Embedder.Embeddings` | gpthistory/helpers.py:65-79 | The specification of the loop: what each batch contributes, in batch order. When every successful call returns one vector per chunk, it holds exactly `len(conversations)` vectors. |
| `Embedder.BatchOffset` | gpthistory/helpers.py:66-79 | The vectors of the batches before batch `k` take exactly `100k` positions, so batch `k` starts at position `100k`. |
| `Embedder.EmbeddingsAlignWithChunks` | gpthistory/helpers.py:66-79 | Position `p` of the output belongs to chunk `p`. Chunk `p` is element `p % 100` of batch `p / 100`. The vector at `p` is the service's vector for that element, or the sentinel when that batch's call raised. |
| `Embedder.FailureIsolation` | gpthistory/helpers.py:68-79 | If batch `j`'s call raises instead, the output length does not change. Batch `j`'s positions become sentinels. Every other position, before and after batch `j`, keeps its vector. |
| `Embedder.EmbeddingsHaveDimension` | gpthistory/helpers.py:73-79 | When the service returns 1536-long vectors, every output vector is 1536 long, sentinels included. |
| `Ranker.Passing` | gpthistory/helpers.py:104-108 | The threshold mask never keeps more rows than the table has, and every kept row scores at least 0.3. It keeps nothing exactly when every row scores below 0.3. `PassingAppend` and `PassingOneRow` pin the result down exactly. |
| `Ranker.PassingAppend` | gpthistory/helpers.py:105-108 | The mask works row by row: the hits of `xs + ys` are the hits of `xs` followed by the hits of `ys`. With `PassingOneRow`, this fixes the result exactly: each row scoring at least 0.3 is kept once, in table order, as `dot_scores[mask]` and `df.loc[mask]` keep it. |
| `Ranker.PassingOneRow` | gpthistory/helpers.py:105-108 | A single row is kept, once, exactly when its score is at least 0.3. |
| `Ranker.PassingComesFromRows` | gpthistory/helpers.py:105-108 | Each kept hit is the (chat id, text, score) of some table row. |
| `Ranker.PassingKeepsQualifyingRows` | gpthistory/helpers.py:105-108 | Every table row scoring at least 0.3 is kept. |
| `Ranker.InsertDescending` | gpthistory/helpers.py:120 | Inserting into a descending list keeps it descending and adds exactly the inserted hit. |
| `Ranker.DotAppend` | gpthistory/helpers.py:98 | The score `Dot` is a sum over positions: cutting both vectors at the same place splits it into the two partial dot products. |
| `Ranker.DotWithZero` | gpthistory/helpers.py:98 | Any vector scores exactly 0 against the all-zero sentinel of its length. |
| `Ranker.SortDescending` | gpthistory/helpers.py:120 | The sorted hits are in non-increasing score order and are a permutation of the input. |
| `Ranker.SliceTo` | gpthistory/helpers.py:120 | Python's `[:n]`: a prefix of the input, `min(n, len)` long for `n >= 0`, and all but the last `-n` (or nothing) for a negative `n`. |
| `Ranker.RankAgainst` | gpthistory/helpers.py:98-132 | Three equal-length sequences, at most `top_n` long for `top_n >= 0`. Every score is at least 0.3 and scores never increase. A row whose vector length differs from the query's gives the empty triple. So does a table where no row reaches 0.3. |
| `Ranker.CalculateTopTitles` | gpthistory/helpers.py:88-132 | The same guarantees once the query embedding comes from the service outcome. A length mismatch against that embedding gives the empty triple. |
| `Ranker.RankedRowsComeFromTable` | gpthistory/helpers.py:105-127 | Position `i` of the chat ids, texts and scores comes from one and the same table row: its id, its text and its dot-product score. |
| `Ranker.RankedCount` | gpthistory/helpers.py:112-120 | The result holds `min(top_n, passing)` rows. For a negative `top_n` it holds all but the last `-top_n`, as Python's `[:top_n]` cuts. |
| `Ranker.AllPassingRowsReturned` | gpthistory/helpers.py:119-127 | When at most `top_n` rows pass, the result is a permutation of exactly those rows. |
| `Ranker.TruncationKeepsTheBest` | gpthistory/helpers.py:119-125 | A passing row that truncation leaves out scores no higher than any returned row. |
| `Ranker.FailedQueryRanksNothing` | gpthistory/helpers.py:51-59 | A failed query embedding, or one with no vector, ranks nothing. The sentinel scores 0 against every row of its length, and a row of another length is a failure. |
| `Ranker.ExampleMask` | gpthistory/helpers.py:104-108 | On a five-row table scoring 0.9, 0.4, 0.2, 0.31 and 0.05, the mask keeps the rows scoring 0.9, 0.4 and 0.31, in table order. |
| `Ranker.FiveRowExample` | gpthistory/helpers.py:88-127 | On that table, `calculate_top_titles` returns ids `a, b, d`, their texts, and scores `0.9, 0.4, 0.31`. |

## Left out

- OpenAI client construction, `.env` loading and `INDEX_PATH` (gpthistory/helpers.py:9-22) are credential and environment plumbing. The service is modelled only by per-call outcomes. The model name is not modelled.
- Logging (gpthistory/helpers.py:25-26, 58, 67, 76, 81-85, 101-102, 110, 113-116) is left out. This includes the score statistics and the "top 5 regardless" listing when nothing passes. Logging does not affect any returned value.
- Floating point is left out: dot products are exact `real` arithmetic, so rounding and NaN are not modelled. numpy and pandas representation is left out too: `top_n_dot_scores` is a numpy array in the source and a `seq<real>` here.
- Tie order is left out. `np.argsort` is not stable, and its reversal puts tied rows in no promised order. The model sorts by insertion. No contract or lemma about the ranking promises any order among equal scores: `SortKeepsDescending` and `RankedHitsOfDescendingPassing` apply only to strictly decreasing scores.
- Aliasing is left out. `[[0.0] * 1536] * len(batch)` puts the same list object in every failed position; the model has values only, and nothing mutates those lists.
- Batching.SplitIntoBatches: requires `batchSize > 0`. In the source, a step of 0 makes `range` raise and a negative step yields no batches. The only caller passes 100.
- Extractor.ExtractTextParts: the record is typed. Python inputs of other shapes are not represented: a truthy `message` that is not a dictionary (it raises), or `parts` that is `None` or a string (it raises, or is split into characters). An empty dictionary behaves like a missing key, so the model does not tell them apart.
- Ranker.RankAgainst: a length mismatch is the only failure modelled inside the ranking. Other failures (a missing column, a non-numeric vector) cannot arise in the typed table. An empty table makes numpy raise in the source; the model returns the same empty triple without raising.
- Embedder.GenerateEmbeddings: the service outcomes are given one per batch. A successful response with the wrong number of vectors is appended as it is, as in the source. The alignment, isolation and dimension lemmas assume one vector per input (`ResponsesMatchBatches`), which is the service's promise and not something the code checks.
