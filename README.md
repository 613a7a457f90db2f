# LogSight-AI streaming core in Dafny

This project models the LogSight-AI path from a raw log line to an anomaly
alert, plus the small data helpers around it, and proves properties of the
model.

- **Native tokenizer** (`Tokenizer`). A model of `tokenize_line` in
  src/cpp/simd_tokenizer.cpp. It walks a NUL-terminated byte string and skips
  the six delimiters `' ' '\t' '=' ':' ',' ';'`. It ends each token with the
  lane-wise rule of the AVX2 comparison. It writes the 32-bit FNV-1a hash of
  each token (section 2 of the FNV IETF draft, draft-eastlake-fnv), read as a
  signed `int`, into the caller's array, at most `max` of them. The scan works
  one byte at a time. The byte at offset k from the token start ends the token
  only when it is NUL or equals lane k mod 8 of
  `[' ', '\t', '=', ':', ',', ';', 0, 0]`. So "hello world" is a single token:
  the space is at offset 5, whose lane holds `;`.
- **Collector** (`Collector`, `Deque`). A model of `TokenizerBridge` and of the
  loop of `main` in src/python/collector.py. Lines are truncated to 4095
  bytes, NUL-terminated in a reused 4096-byte buffer and tokenized into a
  reused 64-slot output buffer. The token lists go into a `deque(maxlen=1000)`,
  which is drained front to back once it holds 200 lists.
- **Anomaly engine** (`Anomaly`). A model of src/python/anomaly.py:
  - the mini-batch clusterer, refitted every 512 vectors;
  - the isolation forest, with its 5000-vector sliding window and its one-time
    training;
  - the fusion `0.6·hdb + 0.4·iso` and its Python-truthiness fallback;
  - the alert on a fused score above 0.8.
- **Alert store** (`Api`). A model of src/python/api.py: the `deque(maxlen=1000)`
  alert buffer, `push_alert`, `get_alerts` as the Python slice `[-limit:]`, and
  the gauge update in `metrics`.
- **Helpers** (`Inference`, `LogParser`, `Clustering`, `Records`):
  - `_assign_severity` and `classify_logs` of src/inference.py;
  - `parse_log` of processing/log_parser.py;
  - `cluster_logs` of analysis/clustering.py.

`Wrappers` holds `Option` and `Result`.

Methods follow the code's imperative form:
- the tokenizer's loops over the bytes and its writes into `out[]`;
- the bridge's reused arrays;
- the collector's drain loop;
- the model wrappers as classes whose methods update their fields;
- the `for` loop of `cluster_logs`.

Each method is proved against a specification function, and the properties
are lemmas about those functions.

Four behaviours of the code that the model keeps as written:
- A token id is the unsigned 32-bit hash cast to a signed `int`
  (src/cpp/simd_tokenizer.cpp:74), so ids can be negative
  (`Tokenizer.IdOfAIsNegative`).
- The bridge returns `[out[i] for i in range(n)]` for the native count n
  (src/python/collector.py:59) and raises nothing. A negative count yields an
  empty list, because `range(n)` is then empty.
- Capacities, thresholds and weights are module constants. The loop of `main`
  flushes the deque at 200 lists, so the deque's own eviction at 1000 never
  happens (`Collector.Ingest`).
- An untrained model's score is Python's `None` (`Option`), and the fusion
  falls back with `or`, which follows Python truthiness. When exactly one score
  is present, the result equals that score (`Anomaly.Fuse`).

`cluster_logs` groups by a dict, which finds its keys by Python's `==`: the
services `1`, `1.0` and `True` fall into one group, whose key is the first of
them seen (`Records.PyKey`, `Clustering.OneAndTrueShareAGroup`).

## Model

| member | source | states |
|---|---|---|
| Tokenizer.FnvFoldSnoc | src/cpp/simd_tokenizer.cpp:24-25 | hashing one more byte is one xor-then-multiply step on the hash of the bytes before it |
| Tokenizer.Fnv1aVectors | src/cpp/simd_tokenizer.cpp:21-27 | the empty string hashes to the offset basis 0x811c9dc5 and "a" to the FNV test value 0xe40c292c |
| Tokenizer.HashBytes | src/cpp/simd_tokenizer.cpp:21-27 | the `for` loop returns the FNV-1a hash of exactly the `len` bytes from `start`, in order |
| Tokenizer.ToInt32Wraps | src/cpp/simd_tokenizer.cpp:74 | the signed id lies in the 32-bit `int` range, equals the hash modulo 2^32, and is negative exactly when the hash's top bit is set |
| Tokenizer.SkipDelims | src/cpp/simd_tokenizer.cpp:51 | the skip loop stops at or after its start, on a NUL or a non-delimiter |
| Tokenizer.SkipDelimsSkipsDelims | src/cpp/simd_tokenizer.cpp:51 | every byte the skip loop passes is a non-NUL delimiter |
| Tokenizer.ScanEnd | src/cpp/simd_tokenizer.cpp:56-71 | the scan stops on a byte that is NUL or equals the lane of its offset, and does not run past the line |
| Tokenizer.ScanEndIsFirst | src/cpp/simd_tokenizer.cpp:56-71 | the scan stops at the first such byte: a delimiter at an offset whose lane holds another byte does not end the token |
| Tokenizer.IntendedScanEnd | src/cpp/simd_tokenizer.cpp:5 | the scan the header comment describes stops at or after its start, on a NUL or any of the six delimiters, and not past the line |
| Tokenizer.IntendedScanEndIsFirst | src/cpp/simd_tokenizer.cpp:5 | that scan stops at the first NUL or delimiter: every byte it passes is neither |
| Tokenizer.ScanEndNotBeforeIntended | src/cpp/simd_tokenizer.cpp:59-62 | the lane-wise comparison never ends a token before the first delimiter or NUL, only at it or later |
| Tokenizer.StopByteIsDelimOrNul | src/cpp/simd_tokenizer.cpp:38-43 | a byte that ends a token is NUL or one of the six delimiters |
| Tokenizer.Spans | src/cpp/simd_tokenizer.cpp:48-78 | the tokens found are at most the budget, and none are found from a NUL |
| Tokenizer.SpansInBounds | src/cpp/simd_tokenizer.cpp:48-78 | every token is a non-empty range inside the line, at or after where scanning began |
| Tokenizer.SpansAreTokens | src/cpp/simd_tokenizer.cpp:51-54 | every token is non-empty, starts on a byte that is neither NUL nor a delimiter, and ends where the lane rule first fires; the first token starts where the skip loop stops |
| Tokenizer.SpansInOrder | src/cpp/simd_tokenizer.cpp:73-77 | after each token exactly one stop byte is consumed, the delimiters are then skipped, and the next token starts there: tokens run left to right and never overlap |
| Tokenizer.TokenIds | src/cpp/simd_tokenizer.cpp:46-79 | one id per token, at most `max` of them, none when `max <= 0` |
| Tokenizer.SkipDelimiters | src/cpp/simd_tokenizer.cpp:51 | the imperative skip loop stops where `SkipDelims` says, never past the NUL |
| Tokenizer.ScanToken | src/cpp/simd_tokenizer.cpp:57-71 | the imperative scan stops where `ScanEnd` says, never past the NUL |
| Tokenizer.NextToken | src/cpp/simd_tokenizer.cpp:51-71 | one round of skip and scan yields the next token of the specification, or ends the line when the skip reaches a NUL |
| Tokenizer.EmitToken | src/cpp/simd_tokenizer.cpp:73-74 | the write to `out[tok]` stores id `tok` and leaves every other slot unchanged |
| Tokenizer.TokenizeLine | src/cpp/simd_tokenizer.cpp:36-80 | returns 0 <= n <= max(max, 0); `out[0..n)` holds the ids of the tokens in order; no slot at or after n is written |
| Tokenizer.OnlyDelimitersNoTokens | src/cpp/simd_tokenizer.cpp:48-52 | an empty line, or one made only of delimiters, yields no token |
| Tokenizer.SkipAgree | src/cpp/simd_tokenizer.cpp:51 | the skip loop never passes a NUL and reads no byte after it |
| Tokenizer.ScanAgree | src/cpp/simd_tokenizer.cpp:57-71 | the scan never passes a NUL and reads no byte after it |
| Tokenizer.SpansBeforeNul | src/cpp/simd_tokenizer.cpp:48-78 | no token reaches past the terminating NUL |
| Tokenizer.SpansAgree | src/cpp/simd_tokenizer.cpp:48-78 | two lines that agree up to a NUL have the same tokens |
| Tokenizer.TokenIdsAgree | src/cpp/simd_tokenizer.cpp:36-80 | two lines that agree up to a NUL get the same ids |
| Tokenizer.HelloWorldIsOneToken | src/cpp/simd_tokenizer.cpp:38-43 | "hello world" is a single token, because its space falls on the lane that holds ';' |
| Tokenizer.HelloWorldIntendedSplit | src/cpp/simd_tokenizer.cpp:59-62 | on "hello world" the intended scan ends the first token at index 5, the space, while the code's lane rule ends it at index 11, the NUL |
| Tokenizer.SpaceAtLaneZeroSplits | src/cpp/simd_tokenizer.cpp:38-43 | "abcdefgh ij" is two tokens, because its space falls on lane 0, which holds ' ' |
| Tokenizer.IdOfAIsNegative | src/cpp/simd_tokenizer.cpp:74 | the id of the line "a" is -468965076, the hash 0xe40c292c read as a signed int |
| Deque.LastN | src/python/anomaly.py:92 | the last min(len, n) elements |
| Deque.Append | src/python/collector.py:104 | `append` on a deque of capacity maxlen keeps at most maxlen elements, puts the new one last, and keeps the last maxlen of the old contents plus the new one |
| Deque.AppendKeepsLastN | src/python/api.py:45 | a deque built by appends holds the last maxlen elements ever appended |
| Deque.AppendBelowCapacity | src/python/collector.py:99-104 | below capacity `append` evicts nothing |
| Collector.Truncate | src/python/collector.py:54 | `[:4095]` keeps the first min(len, 4095) bytes and drops the rest |
| Collector.ReadIds | src/python/collector.py:59 | the first n output entries in order, and an empty list when n is negative |
| Collector.LineIdsBound | src/python/collector.py:43 | a line yields at most `MAX_IDS` = 64 ids |
| Collector.NulEndsLine | src/python/collector.py:53-59 | bytes after a NUL inside a line never reach a token |
| Collector.AllIds | src/python/collector.py:102-103 | one token list per line, in line order |
| Collector.TokenizerBridge.constructor | src/python/collector.py:49-51 | both buffers are fresh, of 4096 bytes and 64 ints |
| Collector.TokenizerBridge.Tokenize | src/python/collector.py:53-59 | the buffer starts with the truncated bytes followed by a NUL, which always lands inside the 4096 bytes, and keeps its old bytes after that; the ids returned are exactly those of the truncated line, they are the first entries of the output buffer, and the entries after them keep their old values; no earlier contents of either reused buffer affect the result |
| Collector.Enqueue | src/python/collector.py:103-109 | one loop iteration appends the line's ids, and at 200 lists drains them all, in order, into the sent log |
| Collector.Drain | src/python/collector.py:108-109 | the drain sends every queued list front to back and leaves the queue empty |
| Collector.Ingest | src/python/collector.py:96-109 | sent lists followed by the queue are the token lists of all lines, in order; each is sent once; the sent count is a multiple of 200; the queue holds lines mod 200 lists, so it stays below 200 and nothing is evicted |
| Anomaly.Clusterer.constructor | src/python/anomaly.py:67-70 | an empty buffer and no clusterer |
| Anomaly.Clusterer.PartialFit | src/python/anomaly.py:72-77 | appends the vector; on the 512th it refits on exactly the buffered vectors and clears the buffer; the buffer stays below 512; a fitted clusterer stays fitted |
| Anomaly.Clusterer.Score | src/python/anomaly.py:79-84 | `None` iff fewer than 512 vectors have ever arrived, otherwise the distance computed from the current clusterer |
| Anomaly.Forest.constructor | src/python/anomaly.py:89-92 | an empty window and a cold forest |
| Anomaly.Forest.PartialFit | src/python/anomaly.py:94-99 | the window is the last min(n, 5000) vectors; the forest is trained once, on the window of the call where it first fills; warm never reverts, and no later call retrains |
| Anomaly.Forest.Score | src/python/anomaly.py:101-105 | `None` iff cold (fewer than 5000 vectors), otherwise the negated sample score of the trained forest |
| Anomaly.Fuse | src/python/anomaly.py:129-132 | both present: 0.6·hdb + 0.4·iso; one present: that score; neither: 0.0 |
| Anomaly.FuseExamples | src/python/anomaly.py:129-132 | worked values: (0.95, 0.70) fuses to 0.85, a lone iso 0.0 to 0.0, a lone hdb 0.9 to 0.9 |
| Anomaly.AlertNeedsAModel | src/python/anomaly.py:129-134 | a fused score above 0.8 needs at least one trained model |
| Anomaly.Engine.constructor | src/python/anomaly.py:110-114 | fresh, untrained models built on the given vectorizer, clusterer distance and forest scorer, and no alert |
| Anomaly.Engine.EmitAlert | src/python/anomaly.py:138-144 | exactly one row with `ts_ns`, the score and `len(tokens)` goes to the writer |
| Anomaly.Engine.ProcessTokens | src/python/anomaly.py:117-136 | both models are trained on the vector before it is scored, so the clusterer's score is present iff at least 512 vectors have arrived counting this one, and the forest's iff at least 5000 have; the counter steps and one row is written iff the fused score exceeds 0.8, otherwise nothing changes |
| Anomaly.Engine.Push | src/python/anomaly.py:147-149 | processes the tokens with the request's timestamp, with the same score presence and alert outcome, and always acknowledges with status true |
| Api.SliceFrom | src/python/api.py:81 | Python's `s[start:]` is a suffix of s, with both ends clamped |
| Api.SliceFromNegated | src/python/api.py:81 | `s[-limit:]` is the last min(limit, len) for a positive limit, all of s for 0, and all but the first k for -k |
| Api.AlertStore.constructor | src/python/api.py:45-47 | an empty buffer and a gauge at 0 |
| Api.AlertStore.PushAlert | src/python/api.py:91-92 | appends at the back; when full the oldest alert is dropped; the buffer is always the last 1000 alerts pushed; the gauge is unchanged |
| Api.AlertStore.GetAlerts | src/python/api.py:78-81 | the last min(limit, len) alerts for a positive limit, the whole buffer for 0, and all but the first k for -k; it reads the buffer and changes nothing |
| Api.GetAlertsDefault | src/python/api.py:77-79 | without a limit, `get_alerts` returns the last min(len, 100) alerts of the buffer, which are also the last 100 alerts ever pushed |
| Api.AlertStore.Metrics | src/python/api.py:84-87 | sets the gauge to the buffer length and leaves the buffer unchanged |
| Api.BufferBounded | src/python/api.py:45 | the buffer never holds more than 1000 alerts |
| Api.NewestLast | src/python/api.py:78-81 | for any positive limit the newest alert pushed is the last one returned |
| Inference.AssignSeverity | src/inference.py:8-19 | CRITICAL iff score > 0.85, HIGH iff 0.70 < score <= 0.85, MEDIUM iff 0.60 < score <= 0.70, LOW iff score <= 0.60 |
| Inference.SeverityMonotone | src/inference.py:8-19 | a larger score never yields a lower tier |
| Inference.ClassifyLogs | src/inference.py:22-54 | fails with the ValueError message iff there is no `message` column; otherwise the copy keeps the columns and the rows in order; each row gains `anomaly_score`, `prediction` (score > threshold) and `severity` (the tier's name); every other field is unchanged |
| Inference.ErrorMentionsMessage | src/inference.py:39-40 | the error text contains "message" |
| Inference.DefaultPredictionIsNotLow | src/inference.py:22-50 | at the default threshold 0.60 a row is predicted anomalous iff its severity is not LOW |
| Inference.ClassifiesTestFrames | tests/test_inference.py:7-26 | a frame with a `message` column gains the three columns; a frame without one is rejected |
| LogParser.ParseLog | processing/log_parser.py:5-11 | exactly the four keys; each is the raw value if present, else "unknown", "INFO", "" or `None` |
| LogParser.ExtraKeysIgnored | processing/log_parser.py:5-11 | raw keys other than the four it reads make no difference |
| LogParser.ParsesTestLog | tests/test_pipeline.py:1-5 | the parser's test log parses to service "api" |
| Records.PyKeyIdempotent | analysis/clustering.py:10 | the representative of a value under Python's `==` is its own representative and `==` to the value |
| Records.PyEqExamples | analysis/clustering.py:10 | `1 == True == 1.0`, `0 == False`, `-2 == -2.0`, while `1` differs from `1.5` and from `"1"`, and `None` from `0` and from `False` |
| Clustering.Group | analysis/clustering.py:9-10 | a group has no more logs than the input |
| Clustering.ClusterLogs | analysis/clustering.py:7-11 | fails with `KeyError('service')` iff some log has no service; otherwise the keys are those of the dict, in insertion order, each group is found under its key's class under `==`, and each group is the logs whose service is `==` to that key, in input order; empty input gives an empty mapping |
| Clustering.NoGroupWithoutKey | analysis/clustering.py:9-10 | a service `==` to no key has no logs |
| Clustering.GroupMembers | analysis/clustering.py:9-10 | a log is in the group of k iff it is an input log whose service is `==` to k, so each log is in exactly one group |
| Clustering.KeysAreServices | analysis/clustering.py:8-11 | there is exactly one key for each class, under `==`, of the services that occur |
| Clustering.FirstsAreKeys | analysis/clustering.py:10 | the service of a log whose service is `==` to no earlier one becomes a key |
| Clustering.KeysAreFirsts | analysis/clustering.py:10 | every key is the service of a log whose service is `==` to no earlier one |
| Clustering.KeysFirstSeen | analysis/clustering.py:8-11 | the keys are exactly the services first seen in their class under `==`: a dict keeps the first key it is given |
| Clustering.KeysDistinct | analysis/clustering.py:8-10 | no two keys are `==` |
| Clustering.GroupSizesSum | analysis/clustering.py:9-10 | the group sizes add up to the number of input logs |
| Clustering.OneAndTrueShareAGroup | analysis/clustering.py:8-11 | services `1` then `True` give the single key `1`, whose group holds both logs in order, and that group is also found under `1.0` |

## Findings

| source | as written | input that shows it | evidently intended | confidence | as-written member | corrected member |
|---|---|---|---|---|---|---|
| src/cpp/simd_tokenizer.cpp:59-62 | the 32-byte chunk is compared lane by lane with the register `' ' '\t' '=' ':' ',' ';' 0 0` repeated, so a byte ends a token only when it equals the delimiter of its own lane | the line "hello world": the space is at offset 5, whose lane holds ';', so the line is one token | split at any of the six delimiters or the NUL, as the header comment (line 5) and the skip set (line 51) say | not executed | Tokenizer.HelloWorldIsOneToken | Tokenizer.IntendedScanEnd |

The rest of the model, `Tokenizer.TokenizeLine` and everything built on it, keeps the rule as written, because those ids are the ones the running pipeline produces. `Tokenizer.IntendedScanEndIsFirst` proves the intended property of the corrected scan. `Tokenizer.ScanEndNotBeforeIntended` shows the written rule only ever ends a token late. `Tokenizer.HelloWorldIntendedSplit` shows the two scans differ on the same input.

## Left out

- I/O and the network are not modelled: the file tailer (`log_tailer`, aiofiles, `asyncio.sleep`), the gRPC channel, stub and `serve`, the cffi `dlopen` and the Snowflake `print`. The tailer becomes a finite sequence of lines, `send` becomes a ghost log, and the writer becomes a ghost log of rows.
- Tokenizer.TokenizeLine: the AVX2 intrinsics are modelled byte by byte. The 32-byte unaligned load, which can read past the NUL or past the end of the 4096-byte buffer, is not modelled. The methods require a NUL inside the line, which the bridge always writes.
- Collector.TokenizerBridge.Tokenize: takes the line as the bytes of its UTF-8 encoding; `str.encode` itself is not modelled.
- Collector.Ingest: send timestamps (`time.time()`), the per-call timeout and transport errors are not modelled.
- The TF-IDF `Vectorizer`, `hdbscan.HDBSCAN`, `IsolationForest` and `np.linalg.norm` are foreign code. They are modelled as functions given to the constructors, so only which data each model is fitted on, and when, is modelled.
- Anomaly.Clusterer.Score: states the score as the given distance function applied to the data the clusterer was fitted on, not the minimum over cluster centres.
- Anomaly.Engine.EmitAlert: does not model `round(score, 3)`, because scores are reals, not IEEE-754 floats.
- Anomaly.Engine.ProcessTokens: the `SCORE_LATENCY` timer is left out, and the Prometheus `ALERT_COUNTER` is a plain counter field.
- Inference.ClassifyLogs: takes the scores as a parameter instead of `np.random.seed(42)` and `np.random.rand`, and does not return the latency (`pd.Timestamp.now`). Pandas frames are a column list plus one record per row.
- Api.AlertStore.PushAlert: stores `Alert` values rather than untyped dicts. The FastAPI routes, the health endpoint, OpenTelemetry and the Prometheus exposition text are left out.
- Concurrent `Push` calls on the async server are not modelled. The Prometheus, OpenTelemetry and MLflow exporters (observability/prometheus_metrics.py, experiments/mlflow_tracking.py) are side effects and are left out as well.
- Clustering.ClusterLogs: service values are `None`, booleans, integers, reals and strings. Unhashable values such as lists, which raise `TypeError`, and float NaN, which is not `==` to itself, are not modelled.
- api/main.py, ingestion/kafka_producer.py, the Streamlit apps, analysis/llm_interface.py and analysis/transformer_model.py are not part of this model. They are network, UI, mock or random code.
