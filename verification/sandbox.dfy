/**
  Threshold calibration (backend/sandbox.py): CSV ground truth in, the
  baseline F1 at the Tier 1 cut-off and a grid-searched Tier 1 / Tier 2
  threshold pair out.
 */
module Sandbox {
  import opened Wrappers
  import opened Records
  import opened Metrics
  import Ingestion

  /** Observed density at or above which a sample counts as a bloom. */
  const DensityCutoff: real := 10.0
  /** Threshold of the baseline F1 (`current_f1`). */
  const BaselineThreshold: real := 0.85
  /** Tier 1 threshold reported when no grid candidate beats F1 = 0. */
  const InitialThreshold: real := 0.5
  /** The grid is k / 100 for GridFirst <= k < GridStop, that is 0.10, 0.11, ..., 0.98. */
  const GridFirst: int := 10
  const GridStop: int := 99
  /** Tier 2 is Tier 1 plus this margin, capped at Tier2Cap. */
  const Tier2Margin: real := 0.08
  const Tier2Cap: real := 0.99

  const LatitudeColumn: string := "latitude"
  const LongitudeColumn: string := "longitude"
  const DensityColumn: string := "observed_cyanobacteria_density"
  const RequiredColumns: set<string> := {LatitudeColumn, LongitudeColumn, DensityColumn}

  /** One parsed ground-truth row. */
  datatype Sample = Sample(lat: real, lon: real, density: real)

  // ---------------------------------------------------------------------
  // The mocked model score
  // ---------------------------------------------------------------------

  /**
    `mock_cyfi_predict`: seeds Python's generator with `lat + lon` and draws
    from `random.uniform(0, 1)`. `uniform` is that draw as a function of the
    seed, so the score depends on the location only through `lat + lon`.
   */
  function MockPredict(uniform: real -> real, lat: real, lon: real): real
  {
    uniform(lat + lon)
  }

  /**
    Locations with the same `lat + lon` get the same score. This holds by
    construction: the seeded draw is modelled as a function of the seed.
   */
  lemma PredictDependsOnSeed(uniform: real -> real, lat1: real, lon1: real, lat2: real, lon2: real)
    requires lat1 + lon1 == lat2 + lon2
    ensures MockPredict(uniform, lat1, lon1) == MockPredict(uniform, lat2, lon2)
  {
  }

  /**
    Scores lie in [0, 1] whenever the draw does. The range is the premise
    about `random.uniform(0, 1)`; the score adds nothing to the draw.
   */
  lemma PredictInUnitInterval(uniform: real -> real, lat: real, lon: real)
    requires forall seed :: 0.0 <= uniform(seed) <= 1.0
    ensures 0.0 <= MockPredict(uniform, lat, lon) <= 1.0
  {
  }

  // ---------------------------------------------------------------------
  // CSV front end (`process_ground_truth`)
  // ---------------------------------------------------------------------

  /**
    One row of `csv.DictReader`: the cell under each column; `None` where
    the row ended before the column (the reader's `restval`).
   */
  type Row = map<string, Option<string>>

  /**
    The uploaded file: bytes that are not UTF-8, or the reader's view of
    the text, whose `fieldnames` is `None` for an empty file.
   */
  datatype Upload = NotUtf8 | Csv(fieldnames: Option<seq<string>>, rows: seq<Row>)

  /** The exceptions `process_ground_truth` lets escape. */
  datatype ParseError =
    | DecodeError     // UnicodeDecodeError from decoding the bytes
    | MissingColumns  // HTTPException with status 400
    | MissingCell     // TypeError from `float(None)`: a short row is not skipped

  /** What `float()` makes of one cell. */
  datatype Cell = Number(x: real) | NotANumber | NoValue

  /** Python's `float(row[column])`; `parse` is `float` on text, None where it raises ValueError. */
  function ReadCell(parse: string -> Option<real>, row: Row, column: string): Cell
  {
    var text := if column in row then row[column] else None;
    match text
    case None => NoValue
    case Some(t) =>
      match parse(t)
      case None => NotANumber
      case Some(x) => Number(x)
  }

  /** What the loop does with one row: keep it, skip it on ValueError, or let an exception escape. */
  datatype RowOutcome = Kept(sample: Sample) | Skipped | Raised

  /** One iteration of the parse loop: latitude, longitude and density are converted in that order. */
  function ParseRow(parse: string -> Option<real>, row: Row): RowOutcome
  {
    match ReadCell(parse, row, LatitudeColumn)
    case NoValue => Raised
    case NotANumber => Skipped
    case Number(lat) =>
      match ReadCell(parse, row, LongitudeColumn)
      case NoValue => Raised
      case NotANumber => Skipped
      case Number(lon) =>
        match ReadCell(parse, row, DensityColumn)
        case NoValue => Raised
        case NotANumber => Skipped
        case Number(density) => Kept(Sample(lat, lon, density))
  }

  /**
    The first failing conversion decides a row's fate: a row is kept exactly
    when all three cells convert, and an exception escapes exactly when the
    first cell that does not convert is missing rather than malformed.
   */
  lemma ParseRowOutcome(parse: string -> Option<real>, row: Row)
    ensures var lat, lon, density := ReadCell(parse, row, LatitudeColumn), ReadCell(parse, row, LongitudeColumn), ReadCell(parse, row, DensityColumn);
      && (ParseRow(parse, row).Kept? <==> lat.Number? && lon.Number? && density.Number?)
      && (ParseRow(parse, row).Kept? ==> lat.Number? && lon.Number? && density.Number? && ParseRow(parse, row).sample == Sample(lat.x, lon.x, density.x))
      && (ParseRow(parse, row).Raised? <==> lat.NoValue? || (lat.Number? && lon.NoValue?) || (lat.Number? && lon.Number? && density.NoValue?))
  {
  }

  /**
    The loop over the rows, as its state after the first |rows| iterations:
    skipped rows are dropped, and the first escaping exception ends the parse.
   */
  function ParseRows(parse: string -> Option<real>, rows: seq<Row>): (r: Result<seq<Sample>, ParseError>)
    ensures r.Success? <==> forall i :: 0 <= i < |rows| ==> !ParseRow(parse, rows[i]).Raised?
    ensures r.Failure? ==> r.error == MissingCell
    ensures r.Success? ==> |r.value| <= |rows|
    decreases |rows|
  {
    if |rows| == 0 then Success([])
    else
      var before := rows[..|rows| - 1];
      assert forall i :: 0 <= i < |before| ==> before[i] == rows[i];
      match ParseRows(parse, before)
      case Failure(e) => Failure(e)
      case Success(samples) =>
        match ParseRow(parse, rows[|rows| - 1])
        case Raised => Failure(MissingCell)
        case Skipped => Success(samples)
        case Kept(s) => Success(samples + [s])
  }

  function HeaderColumns(fieldnames: Option<seq<string>>): set<string>
  {
    match fieldnames
    case None => {}
    case Some(names) => set c | c in names
  }

  /** `process_ground_truth`: the column check comes first, then the rows. */
  function ProcessGroundTruth(parse: string -> Option<real>, upload: Upload): (r: Result<seq<Sample>, ParseError>)
    ensures upload.NotUtf8? ==> r == Failure(DecodeError)
    ensures upload.Csv? && !(RequiredColumns <= HeaderColumns(upload.fieldnames)) ==> r == Failure(MissingColumns)
    ensures r.Success? <==>
      && upload.Csv?
      && RequiredColumns <= HeaderColumns(upload.fieldnames)
      && forall i :: 0 <= i < |upload.rows| ==> !ParseRow(parse, upload.rows[i]).Raised?
    ensures r.Success? ==> |r.value| <= |upload.rows|
  {
    match upload
    case NotUtf8 => Failure(DecodeError)
    case Csv(fieldnames, rows) =>
      if !(RequiredColumns <= HeaderColumns(fieldnames)) then Failure(MissingColumns)
      else ParseRows(parse, rows)
  }

  /** A header without a required column is rejected before any row is read: the rows make no difference. */
  lemma MissingColumnRejectsBeforeRows(parse: string -> Option<real>, fieldnames: Option<seq<string>>, rows1: seq<Row>, rows2: seq<Row>)
    requires !(RequiredColumns <= HeaderColumns(fieldnames))
    ensures ProcessGroundTruth(parse, Csv(fieldnames, rows1)) == ProcessGroundTruth(parse, Csv(fieldnames, rows2)) == Failure(MissingColumns)
  {
  }

  /** Positions of the rows the loop keeps. */
  function KeptPositions(parse: string -> Option<real>, rows: seq<Row>): seq<nat>
    decreases |rows|
  {
    if |rows| == 0 then []
    else KeptPositions(parse, rows[..|rows| - 1]) + (if ParseRow(parse, rows[|rows| - 1]).Kept? then [|rows| - 1] else [])
  }

  lemma {:induction false} KeptPositionsMatch(parse: string -> Option<real>, rows: seq<Row>)
    requires ParseRows(parse, rows).Success?
    ensures |KeptPositions(parse, rows)| == |ParseRows(parse, rows).value|
    ensures forall k :: 0 <= k < |KeptPositions(parse, rows)| ==>
      && KeptPositions(parse, rows)[k] < |rows|
      && ParseRow(parse, rows[KeptPositions(parse, rows)[k]]) == Kept(ParseRows(parse, rows).value[k])
    decreases |rows|
  {
    if |rows| > 0 {
      var before := rows[..|rows| - 1];
      assert forall i :: 0 <= i < |before| ==> before[i] == rows[i];
      KeptPositionsMatch(parse, before);
      var out, idx := ParseRows(parse, rows).value, KeptPositions(parse, rows);
      var prevOut, prevIdx := ParseRows(parse, before).value, KeptPositions(parse, before);
      if ParseRow(parse, rows[|rows| - 1]).Kept? {
        assert out == prevOut + [ParseRow(parse, rows[|rows| - 1]).sample];
        assert idx == prevIdx + [|rows| - 1];
      } else {
        assert out == prevOut && idx == prevIdx;
      }
      forall k | 0 <= k < |idx| ensures idx[k] < |rows| && ParseRow(parse, rows[idx[k]]) == Kept(out[k]) {
        if k < |prevIdx| {
          assert idx[k] == prevIdx[k] && out[k] == prevOut[k];
        }
      }
    }
  }

  lemma {:induction false} KeptPositionsIncrease(parse: string -> Option<real>, rows: seq<Row>)
    ensures forall k :: 0 <= k < |KeptPositions(parse, rows)| ==> KeptPositions(parse, rows)[k] < |rows|
    ensures forall k, m :: 0 <= k < m < |KeptPositions(parse, rows)| ==>
      KeptPositions(parse, rows)[k] < KeptPositions(parse, rows)[m]
    decreases |rows|
  {
    if |rows| > 0 {
      var before := rows[..|rows| - 1];
      KeptPositionsIncrease(parse, before);
      var idx, prevIdx := KeptPositions(parse, rows), KeptPositions(parse, before);
      assert forall k :: 0 <= k < |prevIdx| ==> idx[k] == prevIdx[k];
    }
  }

  lemma {:induction false} KeptPositionsComplete(parse: string -> Option<real>, rows: seq<Row>)
    ensures forall i :: 0 <= i < |rows| && ParseRow(parse, rows[i]).Kept? ==> i in KeptPositions(parse, rows)
    decreases |rows|
  {
    if |rows| > 0 {
      var before := rows[..|rows| - 1];
      KeptPositionsComplete(parse, before);
      forall i | 0 <= i < |rows| && ParseRow(parse, rows[i]).Kept? ensures i in KeptPositions(parse, rows) {
        if i < |before| {
          assert rows[i] == before[i];
          assert i in KeptPositions(parse, before);
        }
      }
    }
  }

  /**
    `out` is the subsequence of `rows` that converts, at positions `idx`:
    entry k comes from row idx[k], the positions increase, and no row that
    converts is left out.
   */
  predicate KeptInOrder(parse: string -> Option<real>, rows: seq<Row>, out: seq<Sample>, idx: seq<nat>)
  {
    && |out| == |idx|
    && (forall k :: 0 <= k < |idx| ==> idx[k] < |rows| && ParseRow(parse, rows[idx[k]]) == Kept(out[k]))
    && (forall k, m :: 0 <= k < m < |idx| ==> idx[k] < idx[m])
    && (forall i :: 0 <= i < |rows| && ParseRow(parse, rows[i]).Kept? ==> i in idx)
  }

  /** The parsed samples are exactly the rows that convert, in their original order. */
  lemma ParsedRowsKeepOrder(parse: string -> Option<real>, upload: Upload)
    requires ProcessGroundTruth(parse, upload).Success?
    ensures |ProcessGroundTruth(parse, upload).value| <= |upload.rows|
    ensures KeptInOrder(parse, upload.rows, ProcessGroundTruth(parse, upload).value, KeptPositions(parse, upload.rows))
  {
    KeptPositionsMatch(parse, upload.rows);
    KeptPositionsIncrease(parse, upload.rows);
    KeptPositionsComplete(parse, upload.rows);
  }

  // ---------------------------------------------------------------------
  // Labels, scores and the grid search (`optimize_thresholds`)
  // ---------------------------------------------------------------------

  /** Ground truth: 1 exactly when the observed density reaches the cut-off. */
  function Truth(data: seq<Sample>): (y: seq<bool>)
    ensures |y| == |data|
  {
    seq(|data|, i requires 0 <= i < |data| => data[i].density >= DensityCutoff)
  }

  function Scores(uniform: real -> real, data: seq<Sample>): (s: seq<real>)
    ensures |s| == |data|
  {
    seq(|data|, i requires 0 <= i < |data| => MockPredict(uniform, data[i].lat, data[i].lon))
  }

  /** `[1 if s >= t else 0 for s in scores]`. */
  function Predict(scores: seq<real>, t: real): (p: seq<bool>)
    ensures |p| == |scores|
  {
    seq(|scores|, i requires 0 <= i < |scores| => scores[i] >= t)
  }

  /** The F1 of predicting "bloom" for every score at or above `t`. */
  function F1At(truth: seq<bool>, scores: seq<real>, t: real): real
    requires |truth| == |scores|
  {
    BinaryF1(truth, Predict(scores, t))
  }

  /** The k-th grid candidate, k / 100. */
  function Candidate(k: int): real
  {
    k as real / 100.0
  }

  /** The F1 of each grid candidate, in ascending order: entry n is candidate GridFirst + n. */
  function GridF1s(truth: seq<bool>, scores: seq<real>): (fs: seq<real>)
    requires |truth| == |scores|
    ensures |fs| == GridStop - GridFirst
    ensures forall n :: 0 <= n < |fs| ==> fs[n] == F1At(truth, scores, Candidate(GridFirst + n))
  {
    seq(GridStop - GridFirst, n requires 0 <= n < GridStop - GridFirst => F1At(truth, scores, Candidate(GridFirst + n)))
  }

  /** The running best of the search: `best_f1` and `best_threshold`. */
  datatype Best = Best(f1: real, threshold: real)

  /**
    The search loop from grid entry n on: a candidate replaces the running
    best only when its F1 is strictly greater.
   */
  function SearchFrom(fs: seq<real>, n: nat, best: Best): (r: Best)
    requires n <= |fs|
    ensures best.f1 <= r.f1
    ensures forall m :: n <= m < |fs| ==> fs[m] <= r.f1
    decreases |fs| - n
  {
    if n == |fs| then best
    else SearchFrom(fs, n + 1, if fs[n] > best.f1 then Best(fs[n], Candidate(GridFirst + n)) else best)
  }

  /** Entry m is where the search from n took its result: strictly better than the start and than every entry before m. */
  predicate TakenAt(fs: seq<real>, n: nat, best: Best, m: int, r: Best)
  {
    && n <= m < |fs|
    && r == Best(fs[m], Candidate(GridFirst + m))
    && best.f1 < r.f1
    && forall i :: n <= i < m ==> fs[i] < r.f1
  }

  /** The search result is the running best it started with, or the first entry that beat everything before it. */
  lemma {:induction false} SearchFromTakesFirst(fs: seq<real>, n: nat, best: Best)
    requires n <= |fs|
    ensures var r := SearchFrom(fs, n, best);
      r == best || exists m :: TakenAt(fs, n, best, m, r)
    decreases |fs| - n
  {
    if n < |fs| {
      var r := SearchFrom(fs, n, best);
      if fs[n] > best.f1 {
        var start := Best(fs[n], Candidate(GridFirst + n));
        SearchFromTakesFirst(fs, n + 1, start);
        if r == start {
          assert TakenAt(fs, n, best, n, r);
        } else {
          var m :| TakenAt(fs, n + 1, start, m, r);
          assert TakenAt(fs, n, best, m, r);
        }
      } else {
        SearchFromTakesFirst(fs, n + 1, best);
        if r != best {
          var m :| TakenAt(fs, n + 1, best, m, r);
          assert TakenAt(fs, n, best, m, r);
        }
      }
    }
  }

  /** The whole search: `best_f1 = 0`, `best_threshold = 0.5`, candidates in ascending order. */
  function GridSearch(truth: seq<bool>, scores: seq<real>): Best
    requires |truth| == |scores|
  {
    SearchFrom(GridF1s(truth, scores), 0, Best(0.0, InitialThreshold))
  }

  /** Entry m of `fs` is the first of its largest entries. */
  predicate FirstMax(fs: seq<real>, m: int)
  {
    && 0 <= m < |fs|
    && (forall n :: 0 <= n < |fs| ==> fs[n] <= fs[m])
    && (forall n :: 0 <= n < m ==> fs[n] < fs[m])
  }

  /** Candidate k is the first grid candidate whose F1 is the largest on the grid. */
  predicate FirstBest(truth: seq<bool>, scores: seq<real>, k: int)
    requires |truth| == |scores|
  {
    FirstMax(GridF1s(truth, scores), k - GridFirst)
  }

  /** There is at most one first largest entry. */
  lemma FirstMaxUnique(fs: seq<real>, m1: int, m2: int)
    requires FirstMax(fs, m1) && FirstMax(fs, m2)
    ensures m1 == m2
  {
    assert fs[m1] == fs[m2];
  }

  /** The search over a table of F1 values from its start finds the table's first largest entry, if any entry beats the start. */
  lemma SearchFindsFirstMax(fs: seq<real>, start: Best)
    ensures forall n :: 0 <= n < |fs| ==> fs[n] <= SearchFrom(fs, 0, start).f1
    ensures SearchFrom(fs, 0, start) == start || exists m :: FirstMax(fs, m) && SearchFrom(fs, 0, start) == Best(fs[m], Candidate(GridFirst + m))
    ensures SearchFrom(fs, 0, start) == start ==> forall n :: 0 <= n < |fs| ==> fs[n] <= start.f1
    ensures SearchFrom(fs, 0, start) != start ==> start.f1 < SearchFrom(fs, 0, start).f1
  {
    SearchFromTakesFirst(fs, 0, start);
    var r := SearchFrom(fs, 0, start);
    if r != start {
      var m :| TakenAt(fs, 0, start, m, r);
      assert FirstMax(fs, m);
    }
  }

  /**
    The search returns the grid's best F1; ties go to the lowest candidate;
    when no candidate reaches F1 > 0 the threshold stays 0.5 and the F1 is 0.
   */
  lemma GridSearchFindsFirstBest(truth: seq<bool>, scores: seq<real>)
    requires |truth| == |scores|
    ensures 0.0 <= GridSearch(truth, scores).f1 <= 1.0
    ensures forall j :: GridFirst <= j < GridStop ==> F1At(truth, scores, Candidate(j)) <= GridSearch(truth, scores).f1
    ensures GridSearch(truth, scores).f1 == 0.0 ==>
      && GridSearch(truth, scores).threshold == InitialThreshold
      && forall j :: GridFirst <= j < GridStop ==> F1At(truth, scores, Candidate(j)) == 0.0
    ensures GridSearch(truth, scores).f1 > 0.0 ==>
      exists k :: FirstBest(truth, scores, k) && GridSearch(truth, scores) == Best(F1At(truth, scores, Candidate(k)), Candidate(k))
  {
    var fs := GridF1s(truth, scores);
    var start := Best(0.0, InitialThreshold);
    var r := GridSearch(truth, scores);
    SearchFindsFirstMax(fs, start);
    forall j | GridFirst <= j < GridStop ensures F1At(truth, scores, Candidate(j)) <= r.f1 {
      assert fs[j - GridFirst] == F1At(truth, scores, Candidate(j));
    }
    if r == start {
      forall j | GridFirst <= j < GridStop ensures F1At(truth, scores, Candidate(j)) == 0.0 {
        assert fs[j - GridFirst] == F1At(truth, scores, Candidate(j));
      }
    } else {
      var m :| FirstMax(fs, m) && r == Best(fs[m], Candidate(GridFirst + m));
      assert FirstBest(truth, scores, GridFirst + m);
      assert r.f1 == F1At(truth, scores, Candidate(GridFirst + m));
    }
  }

  /** `min(t1 + 0.08, 0.99)`. */
  function Tier2For(tier1: real): (tier2: real)
    ensures tier2 <= Tier2Cap
    ensures tier2 == tier1 + Tier2Margin || tier2 == Tier2Cap
    ensures tier2 <= tier1 + Tier2Margin
    ensures tier1 < Tier2Cap ==> tier1 < tier2
  {
    if tier1 + Tier2Margin <= Tier2Cap then tier1 + Tier2Margin else Tier2Cap
  }

  /** What `optimize_thresholds` returns: the error dictionary, or the four figures. */
  datatype Optimization =
    | NoData
    | Calibrated(currentF1: real, newF1: real, tier1: real, tier2: real)

  /** Whether the ingestion classifier would raise Tier 1 or above for each score. */
  function Tier1OrAbove(scores: seq<real>): (p: seq<bool>)
    ensures |p| == |scores|
  {
    seq(|scores|, i requires 0 <= i < |scores| => Ingestion.Classify(scores[i]) != Ingestion.Normal)
  }

  /** The baseline predictions are exactly the ingestion classifier's Tier 1 or above alerts. */
  lemma BaselineIsTier1OrAbove(scores: seq<real>)
    ensures Predict(scores, BaselineThreshold) == Tier1OrAbove(scores)
  {
  }

  /** `optimize_thresholds` over already parsed samples; `uniform` is the seeded draw of `mock_cyfi_predict`. */
  function OptimizeThresholds(uniform: real -> real, data: seq<Sample>): (r: Optimization)
    ensures r.NoData? <==> |data| == 0
    ensures forall i :: 0 <= i < |data| ==> (Truth(data)[i] <==> data[i].density >= DensityCutoff)
    ensures r.Calibrated? ==> r.currentF1 == BinaryF1(Truth(data), Tier1OrAbove(Scores(uniform, data)))
    ensures r.Calibrated? ==> 0.0 <= r.currentF1 <= r.newF1 <= 1.0
    ensures r.Calibrated? ==> forall k :: GridFirst <= k < GridStop ==> F1At(Truth(data), Scores(uniform, data), Candidate(k)) <= r.newF1
    ensures r.Calibrated? && r.newF1 == 0.0 ==> r.tier1 == InitialThreshold
    ensures r.Calibrated? && r.newF1 > 0.0 ==>
      exists k :: FirstBest(Truth(data), Scores(uniform, data), k) && r.tier1 == Candidate(k) && r.newF1 == F1At(Truth(data), Scores(uniform, data), Candidate(k))
    ensures r.Calibrated? ==> r.tier2 == Tier2For(r.tier1) && r.tier1 < r.tier2 <= Tier2Cap
  {
    if |data| == 0 then NoData
    else
      var truth, scores := Truth(data), Scores(uniform, data);
      var current := BinaryF1(truth, Predict(scores, BaselineThreshold));
      var best := GridSearch(truth, scores);
      BaselineIsTier1OrAbove(scores);
      GridSearchFindsFirstBest(truth, scores);
      assert Candidate(85) == BaselineThreshold;
      assert best.threshold < Tier2Cap by {
        if best.f1 > 0.0 {
          var k :| FirstBest(truth, scores, k) && best == Best(F1At(truth, scores, Candidate(k)), Candidate(k));
          assert Candidate(k) <= Candidate(GridStop - 1);
        }
      }
      Calibrated(current, best.f1, best.threshold, Tier2For(best.threshold))
  }

  /** The optimisation results as stored in the calibration record. */
  function ResultsRecord(r: Optimization): (v: Value)
    ensures WellFormed(v)
  {
    match r
    case NoData => Obj([Field("error", Str("No valid data points"))])
    case Calibrated(current, newF1, tier1, tier2) =>
      Obj([Field("current_f1", Num(current)),
           // `best_f1` starts as the integer 0 and stays one when nothing beats it
           Field("new_f1", if newF1 == 0.0 then Int(0) else Num(newF1)),
           Field("recommended_tier1_threshold", Num(tier1)),
           Field("recommended_tier2_threshold", Num(tier2))])
  }
}
