# Aqua-Sentinel backend core, modelled in Dafny

Aqua-Sentinel watches water bodies for cyanobacteria blooms. Its backend
does three things:

- It analyses a location and raises a Tier 1 (probable) or Tier 2
  (confirmed) alert.
- It recalibrates the alert thresholds against uploaded ground truth (the
  "sandbox").
- It records every ingestion and calibration in an in-memory legal log. Each
  entry is timestamped and carries a SHA-256 digest of its details.

This project models that core as pure functions and proves properties of it.

| module | file | models |
|---|---|---|
| `Wrappers` | `wrappers.dfy` | `Option` and `Result` |
| `Records` | `records.dfy` | the JSON-like values the backend builds: `None`, `bool`, `int`, `float`, `str`, and `dict` as an insertion-ordered sequence of pairs |
| `Crypto` | `crypto.dfy` | `generate_hash` (SHA-256 of the key-sorted JSON text) and `timestamp_log` |
| `Ingestion` | `ingestion.dfy` | the alert classification of `analyze_water_quality` |
| `Metrics` | `metrics.dfy` | binary F1 with `zero_division=0` |
| `Sandbox` | `sandbox.dfy` | `mock_cyfi_predict`, `process_ground_truth`, `optimize_thresholds` |
| `LegalLog` | `legal_log.dfy` | `LEGAL_LOGS` and the `/ingest`, `/sandbox/train` and `/legal-logs` handlers |

## Modelling choices

Each handler is a transition from (log, request) to (log, reply). `Run`
serves a sequence of requests one after another. Code the handlers cannot
see is passed in as parameters:

- SHA-256 and the JSON text are a function `sha` applied to the canonical
  (recursively key-sorted) record.
- `float()` on a CSV cell is a function `parse`.
- The seeded draw of `mock_cyfi_predict` is a function `uniform` of the seed
  `lat + lon`.
- Clock readings and the analysis's random score arrive with each request.

Facts about the code that the model keeps:

- The code has no hash chain: an entry's digest covers only its own details.
- A row whose cells do not convert to numbers is skipped, and the rest of the upload is kept.
- The 400 for missing CSV columns is raised inside `train_sandbox`'s `try`.
  Its `except Exception` turns it into a 500.
- Cells are converted in the order latitude, longitude, density. Suppose the
  first required cell of a row that fails to convert is one the row lacks
  (`csv.DictReader` fills it with `None`). Then `float(None)` raises
  `TypeError`, which `except ValueError` does not catch: the upload fails with
  a 500 and nothing is logged. A short row whose required cells are all
  present is kept. A row whose first failing cell is present but malformed is
  skipped.
- The grid search keeps the first strictly better candidate. When nothing
  beats F1 = 0, `new_f1` stays the integer `0` and the Tier 1 threshold stays
  0.5.

## Model

| member | source | states |
|---|---|---|
| Records.LookupSound | backend/main.py:59 | `d[k]` succeeds exactly for the keys of `d` and returns a value stored under `k` |
| Crypto.SortByKeySorted | backend/crypto.py:9-10 | with distinct keys, sorting puts the items in strictly ascending Python string order |
| Crypto.SortByKeyPermutes | backend/crypto.py:9-10 | sorting only reorders: the multiset of items is unchanged |
| Crypto.SortedUnique | backend/crypto.py:9-10 | two key-sorted dictionaries with the same items are identical, so the sorted form does not depend on insertion order |
| Crypto.GenerateHashIgnoresOrder | backend/crypto.py:5-11 | dictionaries with the same key/value pairs at every depth get the same digest, whatever their insertion order |
| Crypto.CanonRespectsSamePairs | backend/crypto.py:9-10 | equal pairs at every depth give the same canonical record |
| Crypto.CanonReflectsSamePairs | backend/crypto.py:9-10 | the same canonical record means equal pairs at every depth, so the hashed text commits to every value |
| Crypto.HashedRecordIffSamePairs | backend/crypto.py:5-11 | two records hand SHA-256 the same input exactly when they have the same pairs (both directions) |
| Crypto.TimestampLog | backend/crypto.py:13-18 | the result has the old keys plus `timestamp`, `timestamp` maps to the clock reading, every other key keeps its value, an existing key is overwritten in place and a new one is appended, and distinct keys stay distinct |
| Crypto.TimestampLogWellFormed | backend/crypto.py:17-18 | stamping keeps a record well formed |
| Ingestion.Classify | backend/ingestion.py:34-38 | Tier 2 exactly when score >= 0.93; Tier 1 exactly when 0.85 <= score < 0.93; Normal exactly when score < 0.85 |
| Ingestion.RankCountsCutoffs | backend/ingestion.py:34-38 | the alert level is the number of cut-offs the score reaches |
| Ingestion.ClassifyMonotone | backend/ingestion.py:34-38 | a higher score never gives a lower alert level |
| Ingestion.EveryStatusReachable | backend/ingestion.py:32-38 | every status is produced by some draw in [0.70, 0.99] |
| Ingestion.AnalyzeWaterQuality | backend/ingestion.py:23-44 | the reported score is the draw, the status is the classification of that score, and the timestamp is the analysis clock |
| Ingestion.AnalysisRecord | backend/ingestion.py:40-44 | the analysis dictionary is a well-formed record |
| Metrics.TallyCounts | backend/sandbox.py:74-80 | TP, FP and FN are the numbers of rows that are observed and predicted bloom, predicted but not observed, and observed but not predicted |
| Metrics.TallyNoHit | backend/sandbox.py:80 | no true positive exactly when no row is both observed and predicted bloom |
| Metrics.TallyNoMiss | backend/sandbox.py:80 | no false positive or negative exactly when the predictions equal the truth |
| Metrics.F1 | backend/sandbox.py:80 | F1 lies in [0, 1]; it is 0 exactly when TP = 0, and 1 exactly when TP > 0 and there are no errors |
| Metrics.F1IsHarmonicMean | backend/sandbox.py:80 | 2TP/(2TP+FP+FN) equals the harmonic mean of precision and recall, with the `zero_division=0` cases included |
| Metrics.BinaryF1 | backend/sandbox.py:74 | the F1 of two label sequences lies in [0, 1] |
| Metrics.BinaryF1ZeroIffNoHit | backend/sandbox.py:74 | F1 is 0 exactly when no observed bloom is predicted |
| Metrics.BinaryF1OneIffPerfect | backend/sandbox.py:74 | F1 is 1 exactly when the predictions equal the truth and there is at least one bloom |
| Sandbox.PredictDependsOnSeed | backend/sandbox.py:10-17 | locations with the same `lat + lon` get the same score |
| Sandbox.PredictInUnitInterval | backend/sandbox.py:16-17 | scores lie in [0, 1] whenever the draw does |
| Sandbox.ParseRowOutcome | backend/sandbox.py:33-40 | a row is kept exactly when its three cells convert, and it raises exactly when the first cell that fails to convert is missing rather than malformed |
| Sandbox.ParseRows | backend/sandbox.py:31-42 | the loop succeeds exactly when no row raises; a failure is the missing-cell error; at most one sample per row |
| Sandbox.ProcessGroundTruth | backend/sandbox.py:19-42 | undecodable bytes fail to decode; a missing column fails before any row is read; otherwise it succeeds exactly when no row raises |
| Sandbox.MissingColumnRejectsBeforeRows | backend/sandbox.py:27-29 | with a required column missing from the header, the rows make no difference |
| Sandbox.ParsedRowsKeepOrder | backend/sandbox.py:31-42 | the samples are exactly the converting rows, each from its own row, in file order, none left out |
| Sandbox.SearchFrom | backend/sandbox.py:78-83 | the running best never decreases and ends at least as large as every entry searched |
| Sandbox.SearchFromTakesFirst | backend/sandbox.py:81-83 | the result is the starting best, or the first entry that strictly beats it and every earlier entry |
| Sandbox.SearchFindsFirstMax | backend/sandbox.py:78-83 | the search over a table finds the table's first largest entry whenever any entry beats the start |
| Sandbox.FirstMaxUnique | backend/sandbox.py:81 | there is only one first largest entry, so the tie-break is well defined |
| Sandbox.GridSearchFindsFirstBest | backend/sandbox.py:67-83 | `best_f1` is the grid's maximum F1 and `best_threshold` the lowest candidate reaching it; when no candidate beats 0 the threshold stays 0.5 and every candidate scores 0 |
| Sandbox.Tier2For | backend/sandbox.py:90 | Tier 2 is Tier 1 + 0.08 capped at 0.99, and lies strictly above Tier 1 whenever Tier 1 is below 0.99 |
| Sandbox.BaselineIsTier1OrAbove | backend/sandbox.py:72-74 | the baseline predictions at 0.85 are exactly the Tier 1-or-above alerts of the ingestion classifier |
| Sandbox.OptimizeThresholds | backend/sandbox.py:44-91 | no data gives the error result; otherwise `current_f1` is the F1 of the Tier 1-or-above alerts, `new_f1` is the best grid F1 (so `current_f1 <= new_f1`), the Tier 1 threshold is the first best candidate or 0.5 if none beats 0, and Tier 1 < Tier 2 <= 0.99 |
| Sandbox.ResultsRecord | backend/sandbox.py:64-91 | the results dictionary is a well-formed record |
| LegalLog.Seal | backend/main.py:52-54 | the sealed entry's hash is `generate_hash` of its details, its timestamp is the one stamped into the details, and the record keeps its other pairs |
| LegalLog.IngestData | backend/main.py:38-68 | an ingestion always appends exactly one sealed INGESTION entry, leaves earlier entries alone, and replies with that entry's details and hash |
| LegalLog.IngestRecordFields | backend/main.py:46-50 | the ingestion record holds exactly the request, the summary text and the analysis |
| LegalLog.IngestedEntryFields | backend/main.py:46-62 | the stored details hold the request coordinates, "Sentinel-2 Bands", the analysis of the draw and the sealing time |
| LegalLog.IngestedEntryKeys | backend/main.py:46-53 | the stored details have exactly four keys |
| LegalLog.TrainSandbox | backend/main.py:80-116 | a training run fails with 500 exactly when the upload does not parse, and then the log is unchanged; otherwise it appends one sealed CALIBRATION entry and replies with the optimisation results, the stored details and the hash |
| LegalLog.CalibrationRecordShape | backend/main.py:88-94 | the calibration record is well formed and has exactly its five keys |
| LegalLog.CalibrationDetails | backend/main.py:88-97 | every field of the calibration record survives the stamp |
| LegalLog.TrainedEntryFields | backend/main.py:88-113 | the stored calibration details record the parsed row count, the same results the reply returns, the event name, the initiator, the file name (`null` when absent) and the sealing time |
| LegalLog.GetLegalLogs | backend/main.py:118-123 | reading returns the whole log and changes nothing |
| LegalLog.Step | backend/main.py:33-123 | one request appends at most one entry and keeps the earlier ones; it appends exactly for an ingestion or a parsing upload; the new entry is sealed and carries the right event type |
| LegalLog.RunAppendOnly | backend/main.py:57-62 | the log only grows: the log before a run is a prefix of the log after it |
| LegalLog.LogNeverRewritten | backend/main.py:101-106 | the log a client reads after n requests is a prefix of the log after any later request |
| LegalLog.StepWrites | backend/main.py:57-62 | one request writes exactly the event types `Written` predicts from the request alone |
| LegalLog.RunAppendsWritten | backend/main.py:101-106 | the event types appended by a run are, in order, one per ingestion and one per parsing upload |
| LegalLog.RunLength | backend/main.py:57-62 | a run grows the log by exactly the number of writing requests |
| LegalLog.StepPreservesSealed | backend/main.py:53-62 | every step keeps every stored entry's hash equal to the digest of its details |
| LegalLog.RunPreservesSealed | backend/main.py:97-106 | the sealing invariant holds after any sequence of requests |
| LegalLog.ServedEntrySealed | backend/main.py:13 | starting from the empty list, every entry ever stored is sealed |
| LegalLog.ListLogsIdempotent | backend/main.py:118-123 | reading twice gives the same answer and leaves the log as it was |
| LegalLog.HashCoversTimestamp | backend/main.py:53-54 | sealed entries with different timestamps hand SHA-256 different records |
| LegalLog.DigestCoversTimestamp | backend/main.py:97-98 | unless SHA-256 collides on the two records it is handed, sealed entries with different timestamps carry different hashes |

## Left out

- The frontend, FastAPI routing, CORS, request validation (422) and multipart upload handling are left out; the handlers are modelled from the parsed request on.
- SHA-256, the exact `json.dumps` text and hex encoding are a parameter `sha` applied to the canonical record: they are foreign computations.
- `random`, `datetime.now()` and `isoformat()` are I/O. The ingestion draw and both clock readings arrive with each request. The seeded draw of `mock_cyfi_predict` is the function `uniform`, which every request shares. The coupling between requests through the global generator state, which `mock_cyfi_predict` reseeds, is not modelled.
- UTF-8 decoding and `csv.DictReader` tokenising are abstract: an upload is either undecodable or a header plus rows of optional cells. `float()` on text is the parameter `parse`.
- Sandbox.ProcessGroundTruth: rows are not tied to the header. A required column that a row lacks altogether counts as a missing cell, a case `csv.DictReader` never produces.
- Metrics.BinaryF1: computed exactly on reals; scikit-learn's floating-point arithmetic is left out.
- IEEE doubles are left out: samples, scores and thresholds are exact reals. So `float()` results `nan` and `inf`, which the source keeps as samples, have no counterpart. The rounding of `lat + lon` and of `t1 + 0.08` is also not modelled.
- A `csv.Error` from the reader is left out. In the source it becomes a 500 like every other failure of `train_sandbox`.
- Sandbox.OptimizeThresholds: the grid is exactly k/100 for k = 10..98. `np.arange(0.1, 0.99, 0.01)` produces floating-point values that drift slightly from these, and its length depends on rounding. So `current_f1 <= new_f1` holds in the model because 0.85 is on the grid, but it may fail by a hair in the source.
- `fetch_sentinel2_data` is left out: `analyze_water_quality` never reads its output.
- The `GET /` health message is left out: it touches no state.
- Concurrency between requests is left out: requests are served one at a time.
- The aliasing of the dictionary `timestamp_log` mutates and returns is left out: nothing changes it after sealing.
- Records.Value: Python's `1 == 1.0` is not modelled. `Int(1)` and `Num(1.0)` are different values, as they are in the JSON text that is hashed.
- `HTTPException`'s detail text is left out: a failure reply carries the cause, not the message string.
