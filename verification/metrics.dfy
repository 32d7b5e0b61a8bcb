/**
  Binary F1 as backend/sandbox.py obtains it from
  `f1_score(y_true, y_pred, zero_division=0)` with bloom (1) as the positive
  class, computed exactly from confusion counts.
 */
module Metrics {

  /** Confusion counts: true positives, false positives, false negatives. */
  datatype Confusion = Confusion(tp: nat, fp: nat, fn: nat)

  /** Counts the rows of `truth` (observed bloom) against `pred` (predicted bloom). */
  function Tally(truth: seq<bool>, pred: seq<bool>): (c: Confusion)
    requires |truth| == |pred|
    ensures c.tp + c.fp + c.fn <= |truth|
    decreases |truth|
  {
    if |truth| == 0 then Confusion(0, 0, 0)
    else
      var c := Tally(truth[1..], pred[1..]);
      if truth[0] && pred[0] then c.(tp := c.tp + 1)
      else if pred[0] then c.(fp := c.fp + 1)
      else if truth[0] then c.(fn := c.fn + 1)
      else c
  }

  /** No true positive exactly when no row is both observed and predicted bloom. */
  lemma {:induction false} TallyNoHit(truth: seq<bool>, pred: seq<bool>)
    requires |truth| == |pred|
    ensures Tally(truth, pred).tp == 0 <==> forall i :: 0 <= i < |truth| ==> !(truth[i] && pred[i])
    decreases |truth|
  {
    if |truth| > 0 {
      TallyNoHit(truth[1..], pred[1..]);
      assert forall i :: 1 <= i < |truth| ==> truth[i] == truth[1..][i - 1] && pred[i] == pred[1..][i - 1];
    }
  }

  /** No false positive or false negative exactly when the predictions equal the truth. */
  lemma {:induction false} TallyNoMiss(truth: seq<bool>, pred: seq<bool>)
    requires |truth| == |pred|
    ensures Tally(truth, pred).fp + Tally(truth, pred).fn == 0 <==> truth == pred
    decreases |truth|
  {
    if |truth| > 0 {
      TallyNoMiss(truth[1..], pred[1..]);
      assert truth == [truth[0]] + truth[1..] && pred == [pred[0]] + pred[1..];
    }
  }

  /** The rows from `lo` on whose observed and predicted labels are `observed` and `predicted`. */
  function RowsFrom(truth: seq<bool>, pred: seq<bool>, observed: bool, predicted: bool, lo: nat): set<int>
    requires |truth| == |pred|
  {
    set i | lo <= i < |truth| && truth[i] == observed && pred[i] == predicted
  }

  /** The rows whose observed and predicted labels are `observed` and `predicted`. */
  function Rows(truth: seq<bool>, pred: seq<bool>, observed: bool, predicted: bool): set<int>
    requires |truth| == |pred|
  {
    RowsFrom(truth, pred, observed, predicted, 0)
  }

  /** Row `lo` either is one of the matching rows from `lo` on or is not, and the rest start at `lo + 1`. */
  lemma RowsFromSplit(truth: seq<bool>, pred: seq<bool>, observed: bool, predicted: bool, lo: nat)
    requires |truth| == |pred| && lo < |truth|
    ensures |RowsFrom(truth, pred, observed, predicted, lo)| ==
      |RowsFrom(truth, pred, observed, predicted, lo + 1)| + (if truth[lo] == observed && pred[lo] == predicted then 1 else 0)
  {
    var rest := RowsFrom(truth, pred, observed, predicted, lo + 1);
    if truth[lo] == observed && pred[lo] == predicted {
      assert RowsFrom(truth, pred, observed, predicted, lo) == {lo} + rest;
      assert lo !in rest;
    } else {
      assert RowsFrom(truth, pred, observed, predicted, lo) == rest;
    }
  }

  lemma {:induction false} TallyCountsFrom(truth: seq<bool>, pred: seq<bool>, lo: nat)
    requires |truth| == |pred| && lo <= |truth|
    ensures Tally(truth[lo..], pred[lo..]).tp == |RowsFrom(truth, pred, true, true, lo)|
    ensures Tally(truth[lo..], pred[lo..]).fp == |RowsFrom(truth, pred, false, true, lo)|
    ensures Tally(truth[lo..], pred[lo..]).fn == |RowsFrom(truth, pred, true, false, lo)|
    decreases |truth| - lo
  {
    if lo == |truth| {
      assert RowsFrom(truth, pred, true, true, lo) == {};
      assert RowsFrom(truth, pred, false, true, lo) == {};
      assert RowsFrom(truth, pred, true, false, lo) == {};
    } else {
      TallyCountsFrom(truth, pred, lo + 1);
      assert truth[lo..][1..] == truth[lo + 1..] && pred[lo..][1..] == pred[lo + 1..];
      RowsFromSplit(truth, pred, true, true, lo);
      RowsFromSplit(truth, pred, false, true, lo);
      RowsFromSplit(truth, pred, true, false, lo);
    }
  }

  /**
    The counts are what `f1_score` counts: TP is the number of rows observed
    and predicted bloom, FP the number predicted but not observed, FN the
    number observed but not predicted.
   */
  lemma TallyCounts(truth: seq<bool>, pred: seq<bool>)
    requires |truth| == |pred|
    ensures Tally(truth, pred).tp == |Rows(truth, pred, true, true)|
    ensures Tally(truth, pred).fp == |Rows(truth, pred, false, true)|
    ensures Tally(truth, pred).fn == |Rows(truth, pred, true, false)|
  {
    TallyCountsFrom(truth, pred, 0);
    assert truth[0..] == truth && pred[0..] == pred;
  }

  /** F1 = 2TP / (2TP + FP + FN), and 0 when that denominator is 0. */
  function F1(c: Confusion): (f: real)
    ensures 0.0 <= f <= 1.0
    ensures f == 0.0 <==> c.tp == 0
    ensures f == 1.0 <==> c.tp > 0 && c.fp + c.fn == 0
  {
    var denominator := 2 * c.tp + c.fp + c.fn;
    assert (2 * c.tp) as real <= denominator as real;
    if denominator == 0 then 0.0 else (2 * c.tp) as real / denominator as real
  }

  /** TP / (TP + FP), 0 when nothing was predicted positive (`zero_division=0`). */
  function Precision(c: Confusion): real
  {
    if c.tp + c.fp == 0 then 0.0 else c.tp as real / (c.tp + c.fp) as real
  }

  /** TP / (TP + FN), 0 when nothing is positive (`zero_division=0`). */
  function Recall(c: Confusion): real
  {
    if c.tp + c.fn == 0 then 0.0 else c.tp as real / (c.tp + c.fn) as real
  }

  /** The textbook F1: the harmonic mean of precision and recall, 0 when both are 0. */
  function HarmonicF1(c: Confusion): real
  {
    var p, r := Precision(c), Recall(c);
    if p + r == 0.0 then 0.0 else 2.0 * p * r / (p + r)
  }

  /** The count formula agrees with the harmonic mean of precision and recall on every confusion. */
  lemma F1IsHarmonicMean(c: Confusion)
    ensures F1(c) == HarmonicF1(c)
  {
  }

  /** `f1_score(y_true, y_pred, zero_division=0)` for binary labels. */
  function BinaryF1(truth: seq<bool>, pred: seq<bool>): (f: real)
    requires |truth| == |pred|
    ensures 0.0 <= f <= 1.0
  {
    F1(Tally(truth, pred))
  }

  /** F1 is 0 exactly when no row is both observed and predicted bloom. */
  lemma BinaryF1ZeroIffNoHit(truth: seq<bool>, pred: seq<bool>)
    requires |truth| == |pred|
    ensures BinaryF1(truth, pred) == 0.0 <==> forall i :: 0 <= i < |truth| ==> !(truth[i] && pred[i])
  {
    TallyNoHit(truth, pred);
  }

  /** F1 is 1 exactly when the predictions match the truth and there is at least one bloom. */
  lemma BinaryF1OneIffPerfect(truth: seq<bool>, pred: seq<bool>)
    requires |truth| == |pred|
    ensures BinaryF1(truth, pred) == 1.0 <==> truth == pred && exists i :: 0 <= i < |truth| && truth[i]
  {
    TallyNoHit(truth, pred);
    TallyNoMiss(truth, pred);
    if truth == pred && exists i :: 0 <= i < |truth| && truth[i] {
      var i :| 0 <= i < |truth| && truth[i];
      assert truth[i] && pred[i];
    }
  }
}
