# Siamese/triplet retrieval: evaluation and epoch bookkeeping in Dafny

This project models the discrete logic of a small query–document relevance
repository. It does not model the neural networks. It covers:

- **Model-based precision-at-k** (`evaluate_query`). The trained model is a scoring
  function `score(query vector, document vector)`. Every evaluation record is
  scored against the chosen query's vector. The (id, score) pairs that score
  strictly above the threshold are *retrieved*. Of those, the pairs whose own
  query vector equals the chosen one and whose relevance label is 1 are
  *relevant*. The retrieved pairs are ranked highest first and cut to the first
  `k`. Precision is the number of relevant pairs in the top `k`, divided by `k`.
- **TF-IDF precision-at-k** (`evaluate_precision_at_k`). Each sampled query comes
  with the row index its closest match resolved to, or with nothing. A query
  without a match is skipped. For the others, the `k` positions with the largest
  values in the query's TF-IDF row are the predicted positives. Precision is
  scikit-learn's TP / (TP + FP) over 0/1 indicator vectors as long as the corpus.
- **Mean pooling** (`document_embedding`). The result is the coordinate-wise mean of
  the vectors of the in-vocabulary tokens, or a zero vector when there are none.
- **Epoch loss accumulators** of `SiameseTriplet`. This is a class with two loss
  lists. The step methods append to them. The epoch-end hook logs the mean of
  each non-empty list and then clears it. `SiameseNetworkPL` has a stateless
  counterpart: its epoch-end hook averages `'val_loss'` over the outputs it is given.

Scores, losses and vector coordinates are exact reals. Exceptions the Python
code raises are modelled as `Err` values of `Results.Result`:

- an index outside a list or matrix raises `IndexError`;
- a division by `k == 0` raises `ZeroDivisionError`;
- `random.sample` raises `ValueError` when asked for a negative number of items or more items than exist;
- `torch.stack([])` raises `RuntimeError`.

Python slicing is reproduced for every integer `k`:

- `evaluate_query` keeps `sorted[:k]`. A negative `k` drops items from the end.
- `evaluate_precision_at_k` keeps `argsort()[-k:]`. For `k = 0` this is `[0:]`, so every position is predicted positive.

Python's negative list indices are reproduced for `query_index`.

Files: `results.dfy` (Option/Result), `stats.dfy` (sum, mean),
`ranking.dfy` (ranking by score, top-prefix selection), `query_precision.dfy`,
`tfidf_precision.dfy`, `embedding.dfy`, `models.dfy`.

## Model

| member | source | states |
|---|---|---|
| QueryPrecision.EvaluateQuery | src/utils/utils.py:52-91 | An out-of-range `query_index` (Python indexing, negatives from the end) gives IndexError. Otherwise `k == 0` gives ZeroDivisionError, and every other `k` succeeds. On success: the report echoes `query_index`; `retrieved_documents` is `k`, not the number retrieved; `relevant_docids` is exactly the relevant set and lies inside the retrieved set; the top list has `min(k, #retrieved)` entries for `k >= 0` (Python slice length otherwise); it is a best-first selection of the retrieved pairs; precision is (#top entries that are relevant) / `k` and lies in [0, 1] for `k > 0`. |
| QueryPrecision.CollectHits | src/utils/utils.py:67-75 | The loop over the records builds exactly the retrieved and relevant sets defined record by record. |
| QueryPrecision.ResolveIndex | src/utils/utils.py:64 | An index is valid exactly when `-n <= i < n`. A non-negative index is used as is; a negative one counts back from the end. |
| QueryPrecision.Retrieved | src/utils/utils.py:67-73 | Every retrieved pair scores strictly above the threshold. |
| QueryPrecision.Relevant | src/utils/utils.py:74-75 | The relevant set is a subset of the retrieved set. |
| QueryPrecision.RetrievedMembership | src/utils/utils.py:67-73 | A pair is retrieved if and only if its score is strictly above the threshold and some record yields that (id, score) pair. |
| QueryPrecision.RelevantMembership | src/utils/utils.py:64-75 | A pair is relevant if and only if it scores above the threshold and some record yields it whose query vector equals the chosen query's vector and whose relevance is 1. |
| QueryPrecision.RepeatedRecordCollapses | src/utils/utils.py:72-73 | Visiting a record again adds nothing: equal (id, score) pairs collapse in the set. |
| QueryPrecision.RetrievedAtMostRecords | src/utils/utils.py:67-73 | There are never more retrieved pairs than records. |
| QueryPrecision.CountRelevant | src/utils/utils.py:82 | The relevant count never exceeds the length of the top list. |
| QueryPrecision.CountRelevantIsIntersection | src/utils/utils.py:82 | On a top list without repeats, the count equals the size of (top entries ∩ relevant set). |
| Ranking.SortByScore | src/utils/utils.py:78 | Sorting the retrieved set by score, highest first, lists every member exactly once with non-increasing scores. The order among equal scores is not fixed. |
| Ranking.InsertByScore | src/utils/utils.py:78 | Inserting into a best-first list keeps it best-first. The result is the old list plus exactly the one item, counting repeats (the multisets agree). A list free of repeats stays free of repeats when the item is new. |
| Ranking.PrefixOfRankingIsTop | src/utils/utils.py:78-79 | Any prefix of a best-first listing of a pool is a top selection: no pool member left out scores higher than one kept. |
| TfIdfPrecision.EvaluatePrecisionAtK | src/utils/utils.py:7-40 | A sample size outside `0..len(corpus)` gives ValueError. A matched row index outside the matrix gives IndexError. Otherwise the call succeeds with one value per matched sampled query, in sample order, and never more values than `num_queries_to_sample`. Each value is the corpus precision of a top-k selection of that query's row, and lies in [0, 1]. |
| TfIdfPrecision.MatchedRows | src/utils/utils.py:17-26 | Skipping the queries with no match leaves at most one row per sampled query. |
| TfIdfPrecision.TopKPositions | src/utils/utils.py:31-32 | For `k >= 1` the selection holds the `min(k, row length)` distinct positions with the largest values, listed highest first, and each chosen value is ≥ each unchosen one. For `k = 0` every position is selected. For `k < 0`, all but the `-k` lowest are selected. |
| TfIdfPrecision.ArgsortDescending | src/utils/utils.py:32 | `argsort` read from the end lists every position of the row once, with values non-increasing. |
| TfIdfPrecision.PrecisionScore | src/utils/utils.py:35-36 | Precision over label vectors lies in [0, 1]. |
| TfIdfPrecision.IndicatorCounts | src/utils/utils.py:35-36 | Over indicator vectors of length n: TP counts the predicted ∩ relevant positions below n, and TP + FP counts the predicted positions below n. |
| TfIdfPrecision.CorpusPrecisionIsRatio | src/utils/utils.py:28-36 | Precision is \|predicted ∩ relevant\| / \|predicted\|. Predicted are the selected positions below `len(corpus)`; relevant are all corpus indices labelled 1, whatever the query. Precision is 0 when nothing is predicted. |
| TfIdfPrecision.FourDocumentExample | src/utils/utils.py:28-36 | Labels [1,0,1,0], a row ranking 2,0,1,3, and k = 2: the top-2 rule allows exactly one selection, positions 2 then 0, and its precision is 1. |
| TfIdfPrecision.TopTwoIsForced | src/utils/utils.py:31-32 | In that row, every selection the top-2 rule allows is [2, 0]. |
| Embedding.DocumentEmbedding | src/utils/utils.py:43-48 | The embedding always has the model's vector size. |
| Embedding.KnownVectors | src/utils/utils.py:45 | The in-vocabulary vectors are vocabulary entries, at most one per token. |
| Embedding.KnownVectorsSum | src/utils/utils.py:45-48 | One vector per in-vocabulary occurrence. Column sums of the kept vectors equal the per-token coordinate sums. |
| Embedding.NoKnownTokenGivesZeros | src/utils/utils.py:46-47 | With no in-vocabulary token the result is the zero vector of `vector_size`. |
| Embedding.EmbeddingIsTokenMean | src/utils/utils.py:45-48 | Otherwise each coordinate is the arithmetic mean over the in-vocabulary token occurrences. Repeats count once per occurrence. |
| Embedding.OutOfVocabularyIgnored | src/utils/utils.py:45 | Removing the out-of-vocabulary tokens first does not change the embedding. |
| Embedding.RepeatedWord | src/utils/utils.py:45-48 | A document of one known word, repeated any number of times, embeds as that word's vector. |
| Models.SiameseTriplet.constructor | src/models/siamese_triplet.py:7-21 | Both accumulators start empty and nothing is logged. The settings are stored. The loss function starts as the layers at their initial weights composed with the triplet margin criterion. |
| Models.SiameseTriplet.TrainingStep | src/models/siamese_triplet.py:35-40 | Returns the object's current loss function applied to the batch, and appends exactly that loss to the training list. The validation list, the log and the weights are unchanged. |
| Models.SiameseTriplet.OptimizerStep | src/models/siamese_triplet.py:62-64 | An optimizer step replaces the loss function with the one at the updated weights, so the same batch can give a different loss at the next step. The accumulators and the log are unchanged. |
| Models.SiameseTriplet.ValidationStep | src/models/siamese_triplet.py:42-47 | Returns the object's current loss function applied to the batch, and appends exactly that loss to the validation list. The training list, the log and the weights are unchanged. |
| Models.SiameseTriplet.OnValidationEpochEnd | src/models/siamese_triplet.py:49-59 | Both lists are empty afterwards. The log gains the training mean under `train_epoch_average` if that list was non-empty, then the validation mean under `validation_epoch_average` if that list was non-empty. The weights (the loss function) are unchanged. |
| Models.Flush | src/models/siamese_triplet.py:50-54 | An empty list logs nothing. A non-empty one logs exactly one event under its key, whose value times the length is the sum of the losses. |
| Models.FlushedAverageBounds | src/models/siamese_triplet.py:51-52 | The logged epoch average lies between any bounds of the losses. |
| Models.RunEpoch | src/models/siamese_triplet.py:35-64 | Each training batch gets a training step followed by an optimizer step, so step `i` returns the loss at the weights left by the `i` updates before it. Each validation batch gets a validation step at the final weights. Then the hook runs twice. The first hook logs the mean of the losses the training steps returned, then the mean of the validation losses. The second logs nothing, because both lists are already empty. Either list can be flushed while the other is empty. |
| Models.StepLossesWithoutUpdates | src/models/siamese_triplet.py:35-40 | When no step changes the weights, the per-step losses are the losses under the one initial loss function. |
| Models.NetworkValidationStep | src/models/siamese_triplet.py:98-107 | The step's output carries the batch loss under `'val_loss'`. |
| Models.NetworkEpochOfSteps | src/models/siamese_triplet.py:98-112 | Feeding the hook one validation-step output per batch logs the mean of the batches' losses under `avg_val_loss`. |
| Models.NetworkOnValidationEpochEnd | src/models/siamese_triplet.py:109-112 | No outputs raise a RuntimeError (stacking an empty list). Otherwise the hook logs one value under `avg_val_loss`, whose product with the number of outputs is the sum of the `'val_loss'` fields. |
| Models.NetworkAverageBounds | src/models/siamese_triplet.py:109-112 | The logged average lies between the smallest and the largest validation loss. |
| Stats.MeanBounds | src/models/siamese_triplet.py:51 | A mean lies between any lower and upper bound of the values averaged. |

## Left out

- Network layers, forward passes, `TripletMarginLoss` and Adam (`forward_one`, `forward`, `configure_optimizers` of both classes, `SiameseNetworkPL.training_step`): floating-point tensor numerics and library calls. A batch's loss is the value of a `criterion` function: the network at its current weights composed with the loss. In `SiameseTriplet` it is a field set by the constructor and replaced by each optimizer step. The new function is an argument of the step, because Adam's arithmetic is not modelled. The stateless `SiameseNetworkPL` functions take it as a parameter.
- The scorer of `evaluate_query` is a parameter `score(query, doc)`. Neither model class's `forward` takes two vectors, so no class is wired in.
- `difflib.get_close_matches`, the lower-casing and stripping of query text, and `random.sample`: fuzzy matching and randomness. They are replaced by the given per-sample outcome (`matches`: a row index or nothing). Only the sample-size check of `random.sample` (ValueError) is kept.
- The no-match skip and out-of-corpus row indices cannot occur as written: the sampled queries are drawn from the corpus's own query texts (src/utils/utils.py:9-12), so the closest match always exists (the query itself) and resolves below `len(corpus.data)`. The model admits both cases anyway, so it covers every real run.
- Device selection, `model.eval()`, and tensor/NumPy conversions (`unsqueeze`, `permute`, `.item()`, `int(...)`, `float(...)`): framework plumbing. Ids and labels are integers and scores are reals from the start.
- `print` output is not modelled. `self.log` is modelled as an appended list of (key, value) events. For `SiameseNetworkPL` the event is returned.
- Floating-point rounding of means, scores and precision: exact reals are used.
- The tie order among equal scores (set iteration order, unstable `argsort`) is left open. The contracts allow every best-first order.
- Default argument values (`k=100`, `threshold=0.6`, `embedding_dim=120`, `margin=1.0`, `learning_rate=0.001`): every value is passed explicitly.
- Embedding.DocumentEmbedding: requires every vocabulary vector to have the model's `vector_size` (the word-vector library guarantees this). Ragged vectors, which would make `np.mean` fail, are not modelled.
- The unused `batch_idx` argument of the step methods is omitted.
