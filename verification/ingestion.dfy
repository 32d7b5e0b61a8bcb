/**
  Water-quality analysis (backend/ingestion.py): the step function from a
  model score to an alert tier, and the analysis record it produces.
 */
module Ingestion {
  import opened Records

  /** Score at or above which a location is "Tier 1 (Probable)". */
  const Tier1Cutoff: real := 0.85
  /** Score at or above which a location is "Tier 2 (Confirmed)". */
  const Tier2Cutoff: real := 0.93

  /** Bounds of `random.uniform(0.70, 0.99)`, the placeholder score. */
  const DrawLow: real := 0.70
  const DrawHigh: real := 0.99

  datatype Status = Normal | Tier1Probable | Tier2Confirmed

  /** The status text stored in the analysis record. */
  function StatusText(s: Status): string
  {
    match s
    case Normal => "Normal"
    case Tier1Probable => "Tier 1 (Probable)"
    case Tier2Confirmed => "Tier 2 (Confirmed)"
  }

  /** Escalation level: how many tier cut-offs the status stands for. */
  function Rank(s: Status): nat
  {
    match s
    case Normal => 0
    case Tier1Probable => 1
    case Tier2Confirmed => 2
  }

  /** The status chosen by `analyze_water_quality` for a score. */
  function Classify(score: real): (s: Status)
    ensures s == Tier2Confirmed <==> score >= Tier2Cutoff
    ensures s == Tier1Probable <==> Tier1Cutoff <= score < Tier2Cutoff
    ensures s == Normal <==> score < Tier1Cutoff
  {
    if score >= Tier2Cutoff then Tier2Confirmed
    else if score >= Tier1Cutoff then Tier1Probable
    else Normal
  }

  /** The tier is the number of cut-offs the score reaches. */
  lemma RankCountsCutoffs(score: real)
    ensures Rank(Classify(score)) == (if score >= Tier1Cutoff then 1 else 0) + (if score >= Tier2Cutoff then 1 else 0)
  {
  }

  /** Raising the score never lowers the tier. */
  lemma ClassifyMonotone(a: real, b: real)
    requires a <= b
    ensures Rank(Classify(a)) <= Rank(Classify(b))
  {
    RankCountsCutoffs(a);
    RankCountsCutoffs(b);
  }

  datatype Analysis = Analysis(f1Score: real, status: Status, analysisTimestamp: string)

  /**
    `analyze_water_quality`: the score is the random draw `draw` (taken from
    `random.uniform(0.70, 0.99)`) and `clock` is `datetime.now().isoformat()`;
    the Sentinel-2 bands passed in are not read.
   */
  function AnalyzeWaterQuality(draw: real, clock: string): (a: Analysis)
    ensures a.f1Score == draw
    ensures a.status == Classify(a.f1Score)
    ensures a.analysisTimestamp == clock
  {
    Analysis(draw, Classify(draw), clock)
  }

  /** The analysis as the dictionary stored in the log. */
  function AnalysisRecord(a: Analysis): (v: Value)
    ensures WellFormed(v)
  {
    Obj([Field("f1_score", Num(a.f1Score)), Field("status", Str(StatusText(a.status))),
         Field("analysis_timestamp", Str(a.analysisTimestamp))])
  }

  /** Every status is produced by some draw in the placeholder's range. */
  lemma EveryStatusReachable(s: Status)
    ensures exists draw: real :: DrawLow <= draw <= DrawHigh && AnalyzeWaterQuality(draw, "").status == s
  {
    var draw := match s
      case Normal => 0.70
      case Tier1Probable => 0.85
      case Tier2Confirmed => 0.93;
    assert AnalyzeWaterQuality(draw, "").status == s;
  }
}
