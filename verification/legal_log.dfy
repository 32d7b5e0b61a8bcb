/**
  The API layer (backend/main.py): the in-memory `LEGAL_LOGS` list and the
  three handlers that read or extend it. Every handler is a transition from
  the log before the request to the log after it and the reply. The
  environment the handlers cannot see - SHA-256, `float()` on CSV text and
  the seeded score draw - is passed in as `Env`; clocks and random draws
  arrive with the request.
 */
module LegalLog {
  import opened Wrappers
  import opened Records
  import Crypto
  import Ingestion
  import Sandbox

  /** The status code of every error the handlers report. */
  const ServerErrorCode: nat := 500
  const RawDataSummary := "Sentinel-2 Bands"
  const CalibrationEventName := "CALIBRATION_ATTEMPT"
  const Initiator := "Authorized_User_1"

  /** The `event_type` of a stored entry. */
  datatype EventType = IngestionEvent | CalibrationEvent

  function EventTypeText(e: EventType): string
  {
    match e
    case IngestionEvent => "INGESTION"
    case CalibrationEvent => "CALIBRATION"
  }

  /** One element of `LEGAL_LOGS`: `hash`, `timestamp`, `event_type` and `details`. */
  datatype Entry = Entry(hash: Crypto.Digest, timestamp: string, eventType: EventType, details: Dict)

  type Log = seq<Entry>

  /** What the handlers call but cannot see. */
  datatype Env = Env(sha: Value -> Crypto.Digest, parse: string -> Option<real>, uniform: real -> real)

  /**
    The three endpoints. `draw` is `random.uniform(0.70, 0.99)` inside the
    analysis, `analysisClock` its `datetime.now()`, and `clock` the UTC time
    `timestamp_log` reads.
   */
  datatype Request =
    | Ingest(lat: real, lon: real, draw: real, analysisClock: string, clock: string)
    | Train(fileName: Option<string>, upload: Sandbox.Upload, clock: string)
    | ListLogs

  datatype Reply =
    | Ingested(logEntry: Dict, hash: Crypto.Digest)
    | Trained(results: Value, legalLog: Dict, hash: Crypto.Digest)
    | Logs(entries: Log)
    | ServerError(code: nat, cause: Sandbox.ParseError)

  datatype Transition = Transition(log: Log, reply: Reply)

  /**
    A stored entry is sealed when its hash is `generate_hash` of its details,
    its timestamp is the one stamped into the details, and the details are a
    well-formed record.
   */
  predicate EntrySealed(sha: Value -> Crypto.Digest, e: Entry)
  {
    && e.hash == Crypto.GenerateHash(sha, e.details)
    && Lookup(e.details, Crypto.TimestampKey) == Some(Str(e.timestamp))
    && WellFormed(Obj(e.details))
  }

  /** Every entry of the log is sealed, checked from the newest entry back. */
  predicate Sealed(sha: Value -> Crypto.Digest, log: Log)
    decreases |log|
  {
    |log| == 0 || (Sealed(sha, log[..|log| - 1]) && EntrySealed(sha, log[|log| - 1]))
  }

  /** In a sealed log, every entry is sealed. */
  lemma {:induction false} SealedAt(sha: Value -> Crypto.Digest, log: Log, i: nat)
    requires Sealed(sha, log) && i < |log|
    ensures EntrySealed(sha, log[i])
    decreases |log|
  {
    if i < |log| - 1 {
      var before := log[..|log| - 1];
      SealedAt(sha, before, i);
      assert before[i] == log[i];
    }
  }

  /**
    `timestamp_log` then `generate_hash` on a record, and the entry built
    from the two: the record keeps its pairs and gains the timestamp.
   */
  function Seal(sha: Value -> Crypto.Digest, eventType: EventType, record: Dict, clock: string): (e: Entry)
    requires WellFormed(Obj(record))
    ensures EntrySealed(sha, e)
    ensures e.eventType == eventType && e.timestamp == clock
    ensures Keys(e.details) == Keys(record) + {Crypto.TimestampKey}
    ensures forall k :: k != Crypto.TimestampKey ==> Lookup(e.details, k) == Lookup(record, k)
  {
    var details := Crypto.TimestampLog(record, clock);
    Crypto.TimestampLogWellFormed(record, clock);
    Entry(Crypto.GenerateHash(sha, details), clock, eventType, details)
  }

  /** `request.dict()` of the ingestion request. */
  function RequestRecord(lat: real, lon: real): Value
  {
    Obj([Field("lat", Num(lat)), Field("lon", Num(lon))])
  }

  /** The ingestion `log_entry` before it is stamped. */
  function IngestRecord(lat: real, lon: real, analysis: Value): Dict
  {
    [Field("request", RequestRecord(lat, lon)),
     Field("raw_data_summary", Str(RawDataSummary)),
     Field("analysis", analysis)]
  }

  /** The `calibration_log` before it is stamped. */
  function CalibrationRecord(fileName: Option<string>, recordCount: nat, results: Value): Dict
  {
    [Field("event_type", Str(CalibrationEventName)),
     Field("input_file_name", match fileName case None => Null case Some(n) => Str(n)),
     Field("record_count", Int(recordCount)),
     Field("optimization_results", results),
     Field("initiated_by", Str(Initiator))]
  }

  /**
    `ingest_data`: analyse, build the record, seal it and append one
    INGESTION entry whose details are the record the reply returns. Nothing
    in the handler can fail, so every ingestion writes.
   */
  function IngestData(env: Env, log: Log, lat: real, lon: real, draw: real, analysisClock: string, clock: string): (t: Transition)
    ensures |t.log| == |log| + 1 && t.log[..|log|] == log
    ensures EntrySealed(env.sha, t.log[|log|])
    ensures t.log[|log|].eventType == IngestionEvent && t.log[|log|].timestamp == clock
    ensures t.reply == Ingested(t.log[|log|].details, t.log[|log|].hash)
    ensures forall k :: k != Crypto.TimestampKey ==>
      Lookup(t.log[|log|].details, k) == Lookup(IngestRecord(lat, lon, Ingestion.AnalysisRecord(Ingestion.AnalyzeWaterQuality(draw, analysisClock))), k)
    ensures Keys(t.log[|log|].details) ==
      Keys(IngestRecord(lat, lon, Ingestion.AnalysisRecord(Ingestion.AnalyzeWaterQuality(draw, analysisClock)))) + {Crypto.TimestampKey}
  {
    var record := IngestRecord(lat, lon, Ingestion.AnalysisRecord(Ingestion.AnalyzeWaterQuality(draw, analysisClock)));
    IngestRecordFields(lat, lon, Ingestion.AnalysisRecord(Ingestion.AnalyzeWaterQuality(draw, analysisClock)));
    var e := Seal(env.sha, IngestionEvent, record, clock);
    Transition(log + [e], Ingested(e.details, e.hash))
  }

  /** The fields of an ingestion record. */
  lemma IngestRecordFields(lat: real, lon: real, analysis: Value)
    ensures WellFormed(analysis) ==> WellFormed(Obj(IngestRecord(lat, lon, analysis)))
    ensures Keys(IngestRecord(lat, lon, analysis)) == {"request", "raw_data_summary", "analysis"}
    ensures Lookup(IngestRecord(lat, lon, analysis), "request") == Some(RequestRecord(lat, lon))
    ensures Lookup(IngestRecord(lat, lon, analysis), "raw_data_summary") == Some(Str(RawDataSummary))
    ensures Lookup(IngestRecord(lat, lon, analysis), "analysis") == Some(analysis)
  {
    var record := IngestRecord(lat, lon, analysis);
    KeysCons(record[0], record[1..]);
    KeysCons(record[1], record[2..]);
    KeysCons(record[2], []);
    LookupFirst(record, 0);
    LookupFirst(record, 1);
    LookupFirst(record, 2);
  }

  /** A field of the record survives the stamp unchanged. */
  lemma StampedField(details: Dict, record: Dict, k: string, v: Value)
    requires forall k' :: k' != Crypto.TimestampKey ==> Lookup(details, k') == Lookup(record, k')
    requires k != Crypto.TimestampKey && Lookup(record, k) == Some(v)
    ensures Lookup(details, k) == Some(v)
  {
  }

  /** The ingestion entry stores the request, the summary, the analysis and the time it was sealed. */
  lemma IngestedEntryFields(env: Env, log: Log, lat: real, lon: real, draw: real, analysisClock: string, clock: string)
    ensures |IngestData(env, log, lat, lon, draw, analysisClock, clock).log| == |log| + 1
    ensures Lookup(IngestData(env, log, lat, lon, draw, analysisClock, clock).log[|log|].details, "request") ==
      Some(RequestRecord(lat, lon))
    ensures Lookup(IngestData(env, log, lat, lon, draw, analysisClock, clock).log[|log|].details, "raw_data_summary") ==
      Some(Str(RawDataSummary))
    ensures Lookup(IngestData(env, log, lat, lon, draw, analysisClock, clock).log[|log|].details, "analysis") ==
      Some(Ingestion.AnalysisRecord(Ingestion.AnalyzeWaterQuality(draw, analysisClock)))
    ensures Lookup(IngestData(env, log, lat, lon, draw, analysisClock, clock).log[|log|].details, Crypto.TimestampKey) ==
      Some(Str(clock))
  {
    var analysis := Ingestion.AnalysisRecord(Ingestion.AnalyzeWaterQuality(draw, analysisClock));
    var record := IngestRecord(lat, lon, analysis);
    var details := IngestData(env, log, lat, lon, draw, analysisClock, clock).log[|log|].details;
    IngestRecordFields(lat, lon, analysis);
    StampedField(details, record, "request", RequestRecord(lat, lon));
    StampedField(details, record, "raw_data_summary", Str(RawDataSummary));
    StampedField(details, record, "analysis", analysis);
  }

  /** The ingestion entry has the three record keys and the timestamp, and no other. */
  lemma IngestedEntryKeys(env: Env, log: Log, lat: real, lon: real, draw: real, analysisClock: string, clock: string)
    ensures |IngestData(env, log, lat, lon, draw, analysisClock, clock).log| == |log| + 1
    ensures Keys(IngestData(env, log, lat, lon, draw, analysisClock, clock).log[|log|].details) ==
      {"request", "raw_data_summary", "analysis", Crypto.TimestampKey}
  {
    IngestRecordFields(lat, lon, Ingestion.AnalysisRecord(Ingestion.AnalyzeWaterQuality(draw, analysisClock)));
  }

  /**
    `train_sandbox`: parse the upload, optimise, seal the calibration record
    and append one CALIBRATION entry. Any failure of the parse (including the
    400 for missing columns, which the handler's own `except` turns into a
    500) leaves the log as it was.
   */
  function TrainSandbox(env: Env, log: Log, fileName: Option<string>, upload: Sandbox.Upload, clock: string): (t: Transition)
    ensures t.reply.ServerError? <==> Sandbox.ProcessGroundTruth(env.parse, upload).Failure?
    ensures t.reply.ServerError? ==>
      t.log == log && t.reply == ServerError(ServerErrorCode, Sandbox.ProcessGroundTruth(env.parse, upload).error)
    ensures !t.reply.ServerError? ==>
      && |t.log| == |log| + 1 && t.log[..|log|] == log
      && EntrySealed(env.sha, t.log[|log|])
      && t.log[|log|].eventType == CalibrationEvent && t.log[|log|].timestamp == clock
      && t.reply == Trained(
           Sandbox.ResultsRecord(Sandbox.OptimizeThresholds(env.uniform, Sandbox.ProcessGroundTruth(env.parse, upload).value)),
           t.log[|log|].details, t.log[|log|].hash)
      && Keys(t.log[|log|].details) == Keys(CalibrationRecord(fileName, |Sandbox.ProcessGroundTruth(env.parse, upload).value|,
           Sandbox.ResultsRecord(Sandbox.OptimizeThresholds(env.uniform, Sandbox.ProcessGroundTruth(env.parse, upload).value)))) + {Crypto.TimestampKey}
      && forall k :: k != Crypto.TimestampKey ==>
           Lookup(t.log[|log|].details, k) == Lookup(CalibrationRecord(fileName, |Sandbox.ProcessGroundTruth(env.parse, upload).value|,
             Sandbox.ResultsRecord(Sandbox.OptimizeThresholds(env.uniform, Sandbox.ProcessGroundTruth(env.parse, upload).value))), k)
  {
    match Sandbox.ProcessGroundTruth(env.parse, upload)
    case Failure(cause) => Transition(log, ServerError(ServerErrorCode, cause))
    case Success(data) =>
      var results := Sandbox.ResultsRecord(Sandbox.OptimizeThresholds(env.uniform, data));
      CalibrationRecordShape(fileName, |data|, results);
      var e := Seal(env.sha, CalibrationEvent, CalibrationRecord(fileName, |data|, results), clock);
      Transition(log + [e], Trained(results, e.details, e.hash))
  }

  /** A calibration record is well formed and has exactly its five keys. */
  lemma CalibrationRecordShape(fileName: Option<string>, recordCount: nat, results: Value)
    ensures WellFormed(results) ==> WellFormed(Obj(CalibrationRecord(fileName, recordCount, results)))
    ensures Keys(CalibrationRecord(fileName, recordCount, results)) ==
      {"event_type", "input_file_name", "record_count", "optimization_results", "initiated_by"}
  {
    var record := CalibrationRecord(fileName, recordCount, results);
    KeysCons(record[0], record[1..]);
    KeysCons(record[1], record[2..]);
    KeysCons(record[2], record[3..]);
    KeysCons(record[3], record[4..]);
    KeysCons(record[4], []);
  }

  /**
    A successful calibration entry records the parsed row count, the
    optimisation results the reply returns, the fixed event name and
    initiator, the upload's file name (`null` when absent) and the time it
    was sealed.
   */
  lemma TrainedEntryFields(env: Env, log: Log, fileName: Option<string>, upload: Sandbox.Upload, clock: string)
    requires Sandbox.ProcessGroundTruth(env.parse, upload).Success?
    ensures |TrainSandbox(env, log, fileName, upload, clock).log| == |log| + 1
    ensures Lookup(TrainSandbox(env, log, fileName, upload, clock).log[|log|].details, "record_count") ==
      Some(Int(|Sandbox.ProcessGroundTruth(env.parse, upload).value|))
    ensures Lookup(TrainSandbox(env, log, fileName, upload, clock).log[|log|].details, "optimization_results") ==
      Some(TrainSandbox(env, log, fileName, upload, clock).reply.results)
    ensures Lookup(TrainSandbox(env, log, fileName, upload, clock).log[|log|].details, "event_type") ==
      Some(Str(CalibrationEventName))
    ensures Lookup(TrainSandbox(env, log, fileName, upload, clock).log[|log|].details, "initiated_by") ==
      Some(Str(Initiator))
    ensures Lookup(TrainSandbox(env, log, fileName, upload, clock).log[|log|].details, "input_file_name") ==
      Some(if fileName.Some? then Str(fileName.value) else Null)
    ensures Lookup(TrainSandbox(env, log, fileName, upload, clock).log[|log|].details, Crypto.TimestampKey) ==
      Some(Str(clock))
  {
    var data := Sandbox.ProcessGroundTruth(env.parse, upload).value;
    var results := Sandbox.ResultsRecord(Sandbox.OptimizeThresholds(env.uniform, data));
    CalibrationDetails(TrainSandbox(env, log, fileName, upload, clock).log[|log|].details, fileName, |data|, results);
  }

  /** A stamped calibration record still holds every field of the record. */
  lemma CalibrationDetails(details: Dict, fileName: Option<string>, recordCount: nat, results: Value)
    requires forall k :: k != Crypto.TimestampKey ==> Lookup(details, k) == Lookup(CalibrationRecord(fileName, recordCount, results), k)
    ensures Lookup(details, "event_type") == Some(Str(CalibrationEventName))
    ensures Lookup(details, "input_file_name") == Some(if fileName.Some? then Str(fileName.value) else Null)
    ensures Lookup(details, "record_count") == Some(Int(recordCount))
    ensures Lookup(details, "optimization_results") == Some(results)
    ensures Lookup(details, "initiated_by") == Some(Str(Initiator))
  {
    var record := CalibrationRecord(fileName, recordCount, results);
    LookupFirst(record, 0);
    StampedField(details, record, "event_type", Str(CalibrationEventName));
    LookupFirst(record, 1);
    StampedField(details, record, "input_file_name", if fileName.Some? then Str(fileName.value) else Null);
    LookupFirst(record, 2);
    StampedField(details, record, "record_count", Int(recordCount));
    LookupFirst(record, 3);
    StampedField(details, record, "optimization_results", results);
    LookupFirst(record, 4);
    StampedField(details, record, "initiated_by", Str(Initiator));
  }

  /** `get_legal_logs`: the whole log, unchanged. */
  function GetLegalLogs(log: Log): (t: Transition)
    ensures t.log == log
    ensures t.reply.Logs? && t.reply.entries == log
  {
    Transition(log, Logs(log))
  }

  /** One request against the log. */
  function Step(env: Env, log: Log, req: Request): (t: Transition)
    ensures |log| <= |t.log| <= |log| + 1 && t.log[..|log|] == log
    ensures |t.log| == |log| + 1 <==>
      req.Ingest? || (req.Train? && Sandbox.ProcessGroundTruth(env.parse, req.upload).Success?)
    ensures |t.log| == |log| + 1 ==>
      && EntrySealed(env.sha, t.log[|log|])
      && t.log[|log|].eventType == (if req.Ingest? then IngestionEvent else CalibrationEvent)
  {
    match req
    case Ingest(lat, lon, draw, analysisClock, clock) => IngestData(env, log, lat, lon, draw, analysisClock, clock)
    case Train(fileName, upload, clock) => TrainSandbox(env, log, fileName, upload, clock)
    case ListLogs => GetLegalLogs(log)
  }

  /** The log after serving `reqs` one after the other. */
  function Run(env: Env, log: Log, reqs: seq<Request>): Log
    decreases |reqs|
  {
    if |reqs| == 0 then log else Run(env, Step(env, log, reqs[0]).log, reqs[1..])
  }

  /**
    The event types a sequence of requests writes, from the requests alone:
    an ingestion always writes, a training run writes when its upload parses,
    and a read writes nothing.
   */
  function Written(parse: string -> Option<real>, reqs: seq<Request>): seq<EventType>
    decreases |reqs|
  {
    if |reqs| == 0 then [] else WrittenBy(parse, reqs[0]) + Written(parse, reqs[1..])
  }

  /** The event types one request writes. */
  function WrittenBy(parse: string -> Option<real>, req: Request): seq<EventType>
  {
    match req
    case Ingest(_, _, _, _, _) => [IngestionEvent]
    case Train(_, upload, _) => if Sandbox.ProcessGroundTruth(parse, upload).Success? then [CalibrationEvent] else []
    case ListLogs => []
  }

  function EventTypes(log: Log): (ts: seq<EventType>)
    ensures |ts| == |log|
    ensures forall i :: 0 <= i < |log| ==> ts[i] == log[i].eventType
  {
    seq(|log|, i requires 0 <= i < |log| => log[i].eventType)
  }

  /** The log is append-only: every earlier log is a prefix of every later one. */
  lemma {:induction false} RunAppendOnly(env: Env, log: Log, reqs: seq<Request>)
    ensures |log| <= |Run(env, log, reqs)| && Run(env, log, reqs)[..|log|] == log
    decreases |reqs|
  {
    if |reqs| > 0 {
      var next := Step(env, log, reqs[0]).log;
      RunAppendOnly(env, next, reqs[1..]);
      assert Run(env, log, reqs)[..|log|] == Run(env, log, reqs)[..|next|][..|log|];
    }
  }

  /** Serving `a` then `b` is serving `a + b`. */
  lemma {:induction false} RunConcat(env: Env, log: Log, a: seq<Request>, b: seq<Request>)
    ensures Run(env, log, a + b) == Run(env, Run(env, log, a), b)
    decreases |a|
  {
    if |a| > 0 {
      assert (a + b)[0] == a[0];
      assert (a + b)[1..] == a[1..] + b;
      RunConcat(env, Step(env, log, a[0]).log, a[1..], b);
    } else {
      assert a + b == b;
    }
  }

  /** What a client reads after the first n requests is never rewritten by the requests that follow. */
  lemma LogNeverRewritten(env: Env, log: Log, reqs: seq<Request>, n: nat)
    requires n <= |reqs|
    ensures |Run(env, log, reqs[..n])| <= |Run(env, log, reqs)|
    ensures Run(env, log, reqs)[..|Run(env, log, reqs[..n])|] == Run(env, log, reqs[..n])
  {
    assert reqs == reqs[..n] + reqs[n..];
    RunConcat(env, log, reqs[..n], reqs[n..]);
    RunAppendOnly(env, Run(env, log, reqs[..n]), reqs[n..]);
  }

  /** What a log gained in two steps is what it gained in the first followed by what it gained in the second. */
  lemma SuffixSplit(log: Log, next: Log, final: Log)
    requires |log| <= |next| <= |final| && final[..|next|] == next
    ensures final[|log|..] == next[|log|..] + final[|next|..]
  {
    assert final == next + final[|next|..];
  }

  lemma EventTypesAppend(a: Log, b: Log)
    ensures EventTypes(a + b) == EventTypes(a) + EventTypes(b)
  {
  }

  lemma WrittenCons(parse: string -> Option<real>, reqs: seq<Request>)
    requires |reqs| > 0
    ensures Written(parse, reqs) == Written(parse, [reqs[0]]) + Written(parse, reqs[1..])
  {
    assert [reqs[0]][1..] == [];
  }

  lemma AppendedTypes(log: Log, next: Log)
    requires |log| <= |next| <= |log| + 1
    ensures EventTypes(next[|log|..]) == if |next| == |log| then [] else [next[|log|].eventType]
  {
  }

  /** One request writes what `Written` says it writes. */
  lemma StepWrites(env: Env, log: Log, req: Request)
    ensures EventTypes(Step(env, log, req).log[|log|..]) == Written(env.parse, [req])
  {
    AppendedTypes(log, Step(env, log, req).log);
    assert [req][1..] == [];
  }

  /**
    The entries a run appends are, in order, one per ingestion and one per
    training run whose upload parses; reads append nothing.
   */
  lemma {:induction false} RunAppendsWritten(env: Env, log: Log, reqs: seq<Request>)
    ensures |log| <= |Run(env, log, reqs)|
    ensures EventTypes(Run(env, log, reqs)[|log|..]) == Written(env.parse, reqs)
    decreases |reqs|
  {
    RunAppendOnly(env, log, reqs);
    if |reqs| > 0 {
      var next := Step(env, log, reqs[0]).log;
      var final := Run(env, log, reqs);
      assert final == Run(env, next, reqs[1..]);
      StepWrites(env, log, reqs[0]);
      RunAppendsWritten(env, next, reqs[1..]);
      RunAppendOnly(env, next, reqs[1..]);
      SuffixSplit(log, next, final);
      EventTypesAppend(next[|log|..], final[|next|..]);
      WrittenCons(env.parse, reqs);
    } else {
      assert Run(env, log, reqs)[|log|..] == [];
    }
  }

  /** So the log grows by exactly the number of writing requests. */
  lemma RunLength(env: Env, log: Log, reqs: seq<Request>)
    ensures |Run(env, log, reqs)| == |log| + |Written(env.parse, reqs)|
  {
    RunAppendsWritten(env, log, reqs);
  }

  /** Appending at most one sealed entry keeps a sealed log sealed. */
  lemma SealedAppend(sha: Value -> Crypto.Digest, log: Log, next: Log)
    requires Sealed(sha, log)
    requires |log| <= |next| <= |log| + 1 && next[..|log|] == log
    requires |next| == |log| + 1 ==> EntrySealed(sha, next[|log|])
    ensures Sealed(sha, next)
  {
    if |next| == |log| + 1 {
      assert next[..|next| - 1] == log;
    } else {
      assert next == log;
    }
  }

  /** Every step keeps every stored entry sealed. */
  lemma StepPreservesSealed(env: Env, log: Log, req: Request)
    requires Sealed(env.sha, log)
    ensures Sealed(env.sha, Step(env, log, req).log)
  {
    SealedAppend(env.sha, log, Step(env, log, req).log);
  }

  lemma {:induction false} RunPreservesSealed(env: Env, log: Log, reqs: seq<Request>)
    requires Sealed(env.sha, log)
    ensures Sealed(env.sha, Run(env, log, reqs))
    decreases |reqs|
  {
    if |reqs| > 0 {
      StepPreservesSealed(env, log, reqs[0]);
      RunPreservesSealed(env, Step(env, log, reqs[0]).log, reqs[1..]);
    }
  }

  /** Starting from the empty list, every entry the server ever stores is sealed. */
  lemma ServedEntrySealed(env: Env, reqs: seq<Request>, i: nat)
    requires i < |Run(env, [], reqs)|
    ensures EntrySealed(env.sha, Run(env, [], reqs)[i])
  {
    RunPreservesSealed(env, [], reqs);
    SealedAt(env.sha, Run(env, [], reqs), i);
  }

  /** Reading the logs changes nothing, so reading twice gives the same answer. */
  lemma ListLogsIdempotent(env: Env, log: Log)
    ensures Step(env, Step(env, log, ListLogs).log, ListLogs) == Step(env, log, ListLogs)
    ensures Run(env, log, [ListLogs, ListLogs]) == log
  {
    assert [ListLogs, ListLogs][1..] == [ListLogs];
  }

  /**
    The hash covers the timestamp: two sealed entries stamped at different
    times hand SHA-256 different records.
   */
  lemma HashCoversTimestamp(sha: Value -> Crypto.Digest, e1: Entry, e2: Entry)
    requires EntrySealed(sha, e1) && EntrySealed(sha, e2)
    requires e1.timestamp != e2.timestamp
    ensures Crypto.Canon(Obj(e1.details)) != Crypto.Canon(Obj(e2.details))
  {
    var d1, d2 := e1.details, e2.details;
    LookupSound(d1, Crypto.TimestampKey);
    LookupSound(d2, Crypto.TimestampKey);
    var i :| 0 <= i < |d1| && d1[i] == Field(Crypto.TimestampKey, Str(e1.timestamp));
    var j :| 0 <= j < |d2| && d2[j] == Field(Crypto.TimestampKey, Str(e2.timestamp));
    assert SamePairs(Obj(d1), Obj(d2)) ==> SamePairs(d1[i].val, d2[j].val);
    assert !SamePairs(d1[i].val, d2[j].val);
    Crypto.HashedRecordIffSamePairs(d1, d2);
  }

  /**
    Unless SHA-256 collides on the two records it is handed, sealed entries
    stamped at different times carry different hashes.
   */
  lemma DigestCoversTimestamp(sha: Value -> Crypto.Digest, e1: Entry, e2: Entry)
    requires Crypto.Canon(Obj(e1.details)) != Crypto.Canon(Obj(e2.details)) ==>
      sha(Crypto.Canon(Obj(e1.details))) != sha(Crypto.Canon(Obj(e2.details)))
    requires EntrySealed(sha, e1) && EntrySealed(sha, e2)
    requires e1.timestamp != e2.timestamp
    ensures e1.hash != e2.hash
  {
    HashCoversTimestamp(sha, e1, e2);
  }
}
