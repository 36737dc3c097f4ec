# Amelie benchmark runner: a verified model of the batch retrieval engine

This project models the batch retrieval engine of `benchmarking/AmelieBenchmarkRunner.py`.
For every benchmark sample (an "LOVD" with its phenotype ids), the runner does the following:

- It skips the sample when `<outDir>/<lovd>.tsv` already exists, so an interrupted job can be resumed.
- Otherwise it queries the Amelie scoring API once per gene chunk, in chunk order.
- Before every query it hands an elapsed time to the rate limiter. For the first query of the job this is measured from the negated start time `-time()`, so the first query is not delayed. For every later query it is the time since the previous query was answered.
- It merges each answer into a dictionary that is fresh for each sample.
- At the end of the sample it writes the genes, ranked by their first evidence score, to the sample's file.
- A failed query ends the whole job at once.

The modules follow the program's parts:

| module | file | models |
|---|---|---|
| `Evidence` | `evidence.dfy` | The per-sample dictionary. It is a Python dict with insertion-ordered keys, in which reassigning a key keeps its position. Also the digest of one gene's `[score, id]` pairs into `[id, score]` entries, and the merge of one answer. |
| `Ranking` | `ranking.dfy` | `retrieveSortedAmelieList`. It is a stable sort by descending first score, written as an insertion sort over the dictionary's keys. |
| `Report` | `report.dfy` | `writeLovdResultsToFile`. The writer's loops are methods that return the text the file receives. `FileText` specifies that text. A parser of that text proves the line format by reading it back. |
| `Runner` | `runner.dfy` | `retrieveAmelieResults`. Its loops over samples and chunks are methods over a `Job` record, holding the rate-limiter timestamp, the files and the trace of events. They are proved against the fold functions `Asks`, `SampleStep` and `Samples`. |
| `RunnerProperties` | `properties.dfy` | The skip, completion and abort rules. They are stated over the requests and file writes recorded in the trace. |
| `Pacing` | `pacing.dfy` | The rate-limiter timestamp across a whole run. |
| `Strings`, `Sequences` | `strings.dfy`, `sequences.dfy` | `Join` and `Split` on one separator, and small sequence facts. |

The outside world is a `World` value with four parts:

- the output files that exist before the job starts;
- the API, as a function from (request number, request) to an answer or a failure;
- the clock, as a function from reading number to a time;
- Python's `str(float)`, as the function `render`.

The job records what it does as a trace of `Wait(elapsed)`, `Post(request)` and `Write(path, text)` events.

Python's `sorted(..., reverse=True)` is stable, so genes with equal first scores keep the dictionary's insertion order. The docstring of `retrieveSortedAmelieList` (line 153) names no tie-break, so the stable `sorted` decides it, and the model proves exactly that order.

## Model

| member | source | states |
|---|---|---|
| Evidence.Dict.Put | benchmarking/AmelieBenchmarkRunner.py:145 | Assignment maps the gene to the new entries. An existing key keeps its place in the iteration order. A new key is appended at the end. |
| Evidence.Dict.PutKeepsValid | benchmarking/AmelieBenchmarkRunner.py:145 | Assignment keeps the keys distinct and exactly the mapped genes. |
| Evidence.Stored | benchmarking/AmelieBenchmarkRunner.py:135-141 | One entry per pair, in the API's order. Each `[score, id]` pair becomes `[id, score]`. |
| Evidence.DigestScores | benchmarking/AmelieBenchmarkRunner.py:135-141 | The append loop builds exactly `Stored(pairs)`. |
| Evidence.MergeResponse | benchmarking/AmelieBenchmarkRunner.py:133-145 | The loop over the answer yields exactly `Merge`, the element-by-element merge. |
| Evidence.MergeKeepsValid | benchmarking/AmelieBenchmarkRunner.py:133-145 | After a merge, the keys are still distinct and in step with the mapped genes. |
| Evidence.MergeKeepsNonEmpty | benchmarking/AmelieBenchmarkRunner.py:143-145 | A gene with an empty evidence list is never added, so every value stays non-empty. |
| Evidence.MergeOverwrites | benchmarking/AmelieBenchmarkRunner.py:133-145 | A gene with evidence in the answer holds exactly the stored entries of its last such element; earlier entries are replaced, not extended. Every other gene is unchanged, present or absent. |
| Evidence.MergeKeepsOrder | benchmarking/AmelieBenchmarkRunner.py:144-145 | The old iteration order is a prefix of the new one. Every key added has evidence in the answer. |
| Ranking.FirstScore | benchmarking/AmelieBenchmarkRunner.py:158 | The sort key gives a gene with entries the score of its first entry, as `lovdAmelieOutput[k][0][1]` does. |
| Ranking.RetrieveSortedAmelieList | benchmarking/AmelieBenchmarkRunner.py:158 | The ranking's first scores never increase from one gene to the next. RankingIsStableDescendingSort adds the permutation and tie-order facts. |
| Ranking.SortDescPermutes | benchmarking/AmelieBenchmarkRunner.py:158 | The sort is a permutation of its input. |
| Ranking.SortDescDescending | benchmarking/AmelieBenchmarkRunner.py:158 | Sort keys never increase along the sorted list. |
| Ranking.SortDescStable | benchmarking/AmelieBenchmarkRunner.py:158 | For every key value, the genes with that key appear in the same order as in the input. |
| Ranking.InsertStable | benchmarking/AmelieBenchmarkRunner.py:158 | Inserting a gene places it after every gene with an equal key and keeps the others' order. |
| Ranking.RankedGenes | benchmarking/AmelieBenchmarkRunner.py:158 | The ranking of a well-formed dictionary lists exactly its genes, each once. |
| Ranking.RankingIsStableDescendingSort | benchmarking/AmelieBenchmarkRunner.py:158 | The ranking is a permutation of the keys, with non-increasing first scores. Genes with equal first scores keep insertion order. |
| Report.WriteScores | benchmarking/AmelieBenchmarkRunner.py:178-181 | The inner loop writes the comma-join of `id:str(score)` over the entries, with no comma before the first. |
| Report.WriteLovdResultsToFile | benchmarking/AmelieBenchmarkRunner.py:170-182 | The writer produces exactly `FileText`: the header line, then one line per ranked gene. |
| Report.BodyIsJoin | benchmarking/AmelieBenchmarkRunner.py:173-182 | The written text is the newline-join of the header, the gene lines and an empty last piece. |
| Report.ItemRoundTrip | benchmarking/AmelieBenchmarkRunner.py:181 | An `id:score` item reads back as its id and its rendered score. |
| Report.LineRoundTrip | benchmarking/AmelieBenchmarkRunner.py:177-182 | A gene line reads back as the gene and its entries, in stored order. |
| Report.LineFree | benchmarking/AmelieBenchmarkRunner.py:177-182 | A gene line holds no newline when the gene symbol, the ids and the rendered scores hold none. |
| Report.FileLines | benchmarking/AmelieBenchmarkRunner.py:173-182 | For any names without a newline, the file's lines are exactly `gene\tscores`, one line per ranked gene, and nothing after the final newline. |
| Report.RowsRoundTrip | benchmarking/AmelieBenchmarkRunner.py:176-182 | The k-th gene line reads back as the k-th ranked gene with its entries. |
| Report.ReportRoundTrip | benchmarking/AmelieBenchmarkRunner.py:173-182 | The file has the dictionary's key count plus two lines, the header first and an empty last piece. It reads back as the ranked genes, each with its ids and rendered scores. |
| Runner.RetrieveChunks | benchmarking/AmelieBenchmarkRunner.py:111-145 | The chunk loop starts from `{}`. Its job state is `Asks`, and its dictionary is the answers merged in order up to the first failure. |
| Runner.RetrieveAmelieResults | benchmarking/AmelieBenchmarkRunner.py:82-148 | The sample loop ends with the status and trace of `Run`, the fold of `SampleStep` over the samples from the start state `requestTime = -time()`. |
| Runner.CollectedValid | benchmarking/AmelieBenchmarkRunner.py:111-145 | A sample's dictionary is well formed, and none of its values is empty. |
| Runner.SamplesAfterAbort | benchmarking/AmelieBenchmarkRunner.py:126-127 | Once a request has failed, no later sample does anything. |
| Runner.AsksAfterAbort | benchmarking/AmelieBenchmarkRunner.py:126-127 | Once a request has failed, no later chunk does anything. |
| Runner.AskEffect | benchmarking/AmelieBenchmarkRunner.py:118-127 | One chunk sends exactly its request, ending with the Post, counts one call and writes nothing. |
| Runner.AsksEffect | benchmarking/AmelieBenchmarkRunner.py:114-127 | A sample's chunks write nothing. When the sample goes through, it counts one call per chunk; when it stops, it counted at least one call and the last event is a request. |
| Runner.AsksRequests | benchmarking/AmelieBenchmarkRunner.py:114-124 | The requests a sample sends are those of its first chunks, in chunk order, one per call counted. |
| Runner.AsksReplies | benchmarking/AmelieBenchmarkRunner.py:114-130 | When a sample goes through, the API answered every one of its requests. When it stops, every request but the last was answered, and the last one failed with the failure the job stops with. |
| Runner.AsksAborted | benchmarking/AmelieBenchmarkRunner.py:114-127 | A sample that stops writes nothing and sends its first requests in chunk order. It stops right after the request that failed; every request before it was answered. |
| Runner.SentInOrder | benchmarking/AmelieBenchmarkRunner.py:123-124 | The i-th request carries the comma-joined i-th chunk and the sample's comma-joined phenotype ids. |
| RunnerProperties.SampleSkipped | benchmarking/AmelieBenchmarkRunner.py:101-106 | A sample whose file exists leaves the job unchanged: no request, no write. |
| RunnerProperties.SampleCompleted | benchmarking/AmelieBenchmarkRunner.py:111-148 | A completed sample sends one request per chunk, in chunk order, and the API answered all of them. It writes exactly its own file once, after the requests. |
| RunnerProperties.SampleWrite | benchmarking/AmelieBenchmarkRunner.py:111-148 | A completed sample's last event is the write of its file. The text ranks the dictionary built from `{}` with this sample's own answers only. |
| RunnerProperties.SampleAborted | benchmarking/AmelieBenchmarkRunner.py:114-127 | A failing sample writes no file. Its requests went out in chunk order, every one but the last was answered, and the last one, which is also the last event, failed with the job's failure. |
| RunnerProperties.SamplesCompleted | benchmarking/AmelieBenchmarkRunner.py:99-148 | With no failure, the job sends every chunk's request of each pending sample, in sample order. It writes the pending samples' files in the same order. |
| RunnerProperties.SamplesAborted | benchmarking/AmelieBenchmarkRunner.py:99-127 | On a failure, the job finished and wrote exactly the first n pending samples. It sent the first k requests of the next one; the first k - 1 were answered, and the k-th failed with the job's failure and is the last event. |
| Pacing.AskPaced | benchmarking/AmelieBenchmarkRunner.py:118-130 | Each wait measures from the timestamp in force. Only an answered request moves the timestamp. |
| Pacing.SamplePaced | benchmarking/AmelieBenchmarkRunner.py:99-148 | Skipping a sample or writing its file neither waits nor moves the timestamp. |
| Pacing.SamplesPaced | benchmarking/AmelieBenchmarkRunner.py:96-148 | The pacing invariant holds across samples. |
| Pacing.RunPaced | benchmarking/AmelieBenchmarkRunner.py:96-130 | Over a run, there is one wait per request. The first wait is measured from `-time()`. Every later wait is measured from the clock reading right after the previous request's answer, across sample boundaries. |

## Left out

- `main` and `parseCommandLine` (lines 31-79) are not modelled. They parse arguments and validate files.
- `BenchmarkGenerics` is not part of this model. `chunkList` becomes the given sequence of chunks. The samples and the gene set arrive already loaded.
- `waitTillElapsed` is recorded only as the elapsed time it receives (a `Wait` event). The sleep itself is not modelled.
- The clock is any function from reading number to time. The model does not assume it is monotone, and proves nothing that needs it to be.
- The HTTP call, `raise_for_status` and `response.json()` become the `server` function. It returns a typed answer or one of the three caught failures. Timeouts, TLS settings and the URL are not modelled.
- `float(...)` on the score text is left out: scores arrive as `real`. A malformed score is therefore not a case the model has.
- `float(...)` also accepts `nan` and `inf`. A NaN first score compares false both ways, so Python's sort no longer gives a non-increasing order. `real` has no NaN or infinity, so the ranking lemmas do not cover such scores.
- `str(float)` is the `render` parameter. Which digits it produces is not modelled.
- Report.ReportRoundTrip: the read-back holds only when gene symbols, ids and rendered scores contain no tab, comma, colon or newline. The writer does not escape these characters, so other names break the format.
- File opening, flushing and closing are not modelled. A write is one `Write(path, text)` event with the whole text, and existing files are a set of paths.
- The `print` progress messages are not modelled.
- `exit(e)` is the `Aborted` status. The process exit code is not modelled.
- Ranking.FirstScore: a gene whose list is empty, or that is not a key, gets the placeholder score 0.0. Python's `lovdAmelieOutput[k][0][1]` would raise IndexError for an empty list. The runner never builds such a list (Runner.CollectedValid: every value is non-empty), so the error is not modelled.
- Evidence.Dict.Lookup: it returns no entries for a gene outside the dictionary. The runner only looks up its own keys, so this default is never used in a run.
