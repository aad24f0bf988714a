/**
 * SnowparkLogAnalyzer: the object that assembles the feature matrix, holds
 * the fitted vectorizer, scaler and isolation forest, and labels each row.
 * TF-IDF, standardisation and the forest are foreign numeric code: their
 * results enter as inputs (a k-column matrix, {-1, 1} labels, scores), and
 * the object records only their configuration and shape.
 */
module Analyzer {
  import opened Wrappers
  import opened Text
  import opened LogParser
  import opened Features

  /** The TfidfVectorizer configuration the analyzer fixes. */
  const MinDf: nat := 2
  const MaxDf: real := 0.8
  const NgramRange: (nat, nat) := (1, 2)
  const TokenPattern: string := "\\b[a-zA-Z]{2,}\\b"

  /** The IsolationForest configuration the analyzer fixes. */
  const NEstimators: nat := 100
  const RandomState: int := 42

  /** What `fit_transform` of the vectorizer gave this code: a matrix with
      `columns` TF-IDF columns, or an exception, which is caught. */
  datatype TfidfOutcome = TfidfMatrix(columns: nat, values: seq<seq<real>>) | TfidfRaised

  /** A TF-IDF result has one row per message, each `columns` wide. */
  predicate TfidfShaped(t: TfidfOutcome, n: nat) {
    t.TfidfMatrix? ==> |t.values| == n && forall i :: 0 <= i < n ==> |t.values[i]| == t.columns
  }

  /** The TF-IDF columns that join the matrix; a caught exception, like an
      empty TF-IDF frame, contributes none. */
  function TfidfWidth(t: TfidfOutcome): nat {
    if t.TfidfMatrix? then t.columns else 0
  }

  /** The fitted state kept in the analyzer's fields. */
  datatype VectorizerState = VectorizerState(
    maxFeatures: nat, minDf: nat, maxDf: real, ngramRange: (nat, nat), tokenPattern: string,
    vocabularySize: Option<nat>)
  /** The vectorizer after `fit_transform`: the fixed configuration, and the
      vocabulary size when fitting succeeded. */
  function Fitted(maxFeatures: nat, t: TfidfOutcome): (v: VectorizerState)
    ensures v.maxFeatures == maxFeatures && v.minDf == 2 && v.maxDf == 0.8 && v.ngramRange == (1, 2)
    ensures v.tokenPattern == TokenPattern
    ensures v.vocabularySize.Some? <==> t.TfidfMatrix?
    ensures t.TfidfMatrix? ==> v.vocabularySize == Some(t.columns)
  {
    VectorizerState(maxFeatures, MinDf, MaxDf, NgramRange, TokenPattern,
      if t.TfidfMatrix? then Some(t.columns) else None)
  }

  datatype ScalerState = ScalerUnfitted | ScalerFitted(columns: nat)
  datatype ForestState = ForestState(nEstimators: nat, contamination: real, randomState: int, columns: nat)

  /** One row of the returned frame. */
  datatype AnomalyResult = AnomalyResult(
    record: ParsedLog, features: FeatureRow,
    anomalyScore: int, anomalyProbability: real, isAnomaly: bool)

  /** The run-history row. */
  datatype RunRecord = RunRecord(fileName: string, totalLogs: nat, anomaliesDetected: nat, contaminationFactor: real)

  predicate IsLabel(x: int) {
    x == -1 || x == 1
  }

  // ---------------------------------------------------------------------------
  // Feature matrix
  // ---------------------------------------------------------------------------

  /** The structural block of the whole batch. */
  function StructuralBlock(batch: seq<ParsedLog>): (rows: seq<FeatureRow>)
    ensures |rows| == |batch|
    ensures forall i :: 0 <= i < |batch| ==> rows[i] == StructuralRow(batch, i)
  {
    seq(|batch|, i requires 0 <= i < |batch| => StructuralRow(batch, i))
  }

  function AsReals(c: seq<int>): (r: seq<real>)
    ensures |r| == |c|
    ensures forall j :: 0 <= j < |c| ==> r[j] == c[j] as real
  {
    seq(|c|, j requires 0 <= j < |c| => c[j] as real)
  }

  /** The feature matrix: the twelve structural columns in their fixed order,
      then the TF-IDF columns when there are any. */
  function FeatureMatrix(rows: seq<FeatureRow>, t: TfidfOutcome): (m: seq<seq<real>>)
    requires TfidfShaped(t, |rows|)
    ensures |m| == |rows|
    ensures forall i :: 0 <= i < |rows| ==>
      && |m[i]| == 12 + TfidfWidth(t)
      && forall j :: 0 <= j < 12 ==> m[i][j] == rows[i].Columns()[j] as real
    ensures t.TfidfMatrix? ==>
      forall i, j :: 0 <= i < |rows| && 0 <= j < t.columns ==> |m[i]| == 12 + t.columns && m[i][12 + j] == t.values[i][j]
  {
    seq(|rows|, i requires 0 <= i < |rows| =>
      AsReals(rows[i].Columns()) + (if t.TfidfMatrix? then t.values[i] else []))
  }

  /** When vectorisation fails the matrix is exactly twelve columns wide. */
  lemma StructuralOnlyWidth(rows: seq<FeatureRow>)
    ensures forall i :: 0 <= i < |rows| ==> |FeatureMatrix(rows, TfidfRaised)[i]| == 12
  {
  }

  // ---------------------------------------------------------------------------
  // Labels and counts
  // ---------------------------------------------------------------------------

  /** The returned rows: each parsed record with its structural features,
      the forest's label and score, and the derived anomaly flag. */
  function AnalysisRows(batch: seq<ParsedLog>, labels: seq<int>, probabilities: seq<real>): (rs: seq<AnomalyResult>)
    requires |labels| == |batch| && |probabilities| == |batch|
    ensures |rs| == |batch|
    ensures forall i :: 0 <= i < |batch| ==>
      && rs[i].record == batch[i] && rs[i].features == StructuralRow(batch, i)
      && rs[i].anomalyScore == labels[i] && rs[i].anomalyProbability == probabilities[i]
    ensures forall i :: 0 <= i < |rs| ==> (rs[i].isAnomaly <==> rs[i].anomalyScore == -1)
  {
    seq(|batch|, i requires 0 <= i < |batch| =>
      AnomalyResult(batch[i], StructuralRow(batch, i), labels[i], probabilities[i], labels[i] == -1))
  }

  function Scores(rs: seq<AnomalyResult>): (s: seq<int>)
    ensures |s| == |rs|
    ensures forall i :: 0 <= i < |rs| ==> s[i] == rs[i].anomalyScore
  {
    seq(|rs|, i requires 0 <= i < |rs| => rs[i].anomalyScore)
  }

  /** `results_df['is_anomaly'].sum()`. */
  function CountFlagged(rs: seq<AnomalyResult>): (n: nat)
    ensures n <= |rs|
    ensures n == 0 <==> forall i :: 0 <= i < |rs| ==> !rs[i].isAnomaly
  {
    if rs == [] then 0 else (if rs[0].isAnomaly then 1 else 0) + CountFlagged(rs[1..])
  }

  /** The sum of the flags equals the number of -1 labels. */
  lemma {:induction false} CountFlaggedIsMinusOnes(rs: seq<AnomalyResult>)
    requires forall i :: 0 <= i < |rs| ==> (rs[i].isAnomaly <==> rs[i].anomalyScore == -1)
    ensures CountFlagged(rs) == Occurrences(Scores(rs), -1)
  {
    if rs != [] {
      assert Scores(rs)[1..] == Scores(rs[1..]);
      CountFlaggedIsMinusOnes(rs[1..]);
    }
  }

  /** The two anomaly counts of a run agree: the flag sum of the returned rows
      is the number of -1 labels, and neither exceeds the row count. */
  lemma AnomalyCountsAgree(batch: seq<ParsedLog>, labels: seq<int>, probabilities: seq<real>)
    requires |labels| == |batch| && |probabilities| == |batch|
    ensures CountFlagged(AnalysisRows(batch, labels, probabilities)) == Occurrences(labels, -1) <= |batch|
  {
    var rs := AnalysisRows(batch, labels, probabilities);
    CountFlaggedIsMinusOnes(rs);
    assert forall i :: 0 <= i < |labels| ==> Scores(rs)[i] == labels[i];
    assert Scores(rs) == labels;
  }

  /** The run-history row of a run over `fileName` ("" for all files). */
  function RunSummary(fileName: string, results: seq<AnomalyResult>, contamination: real): (r: RunRecord)
    ensures r.totalLogs == |results| && r.anomaliesDetected <= r.totalLogs
    ensures r.anomaliesDetected == CountFlagged(results)
    ensures r.fileName == if fileName == "" then "ALL" else fileName
    ensures r.contaminationFactor == contamination
  {
    RunRecord(if fileName == "" then "ALL" else fileName, |results|, CountFlagged(results), contamination)
  }

  /** `SELECT * FROM raw_logs [WHERE file_name = ...]`, in table order. */
  function SelectRaw(raw: seq<RawLog>, fileName: string): (sel: seq<RawLog>)
    ensures fileName == "" ==> sel == raw
    ensures fileName != "" ==> forall r :: r in sel <==> r in raw && r.fileName == fileName
    ensures |sel| <= |raw|
  {
    if fileName == "" || raw == [] then raw
    else if raw[0].fileName == fileName then [raw[0]] + SelectRaw(raw[1..], fileName)
    else SelectRaw(raw[1..], fileName)
  }

  /** The selection keeps every row of the file as often as the table holds
      it, and no other row. */
  lemma {:induction false} SelectRawCounts(raw: seq<RawLog>, fileName: string, r: RawLog)
    requires fileName != ""
    ensures Occurrences(SelectRaw(raw, fileName), r) == if r.fileName == fileName then Occurrences(raw, r) else 0
  {
    if raw != [] {
      SelectRawCounts(raw[1..], fileName, r);
      if raw[0].fileName == fileName {
        assert ([raw[0]] + SelectRaw(raw[1..], fileName))[1..] == SelectRaw(raw[1..], fileName);
      }
    }
  }

  // ---------------------------------------------------------------------------
  // The analyzer object
  // ---------------------------------------------------------------------------

  class SnowparkLogAnalyzer {
    var vectorizer: Option<VectorizerState>
    var scaler: ScalerState
    var model: Option<ForestState>

    constructor ()
      ensures vectorizer == None && scaler == ScalerUnfitted && model == None
    {
      vectorizer := None;
      scaler := ScalerUnfitted;
      model := None;
    }

    /** extract_features_and_vectorize. `tfidf` is what the vectorizer's
        fit_transform gave; `labels` and `probabilities` are what the forest's
        fit_predict and the negated score_samples gave on the standardised
        matrix. An empty batch returns nothing and leaves the fields alone. */
    method ExtractFeaturesAndVectorize(
      batch: seq<ParsedLog>, maxFeatures: nat, contamination: real,
      tfidf: TfidfOutcome, labels: seq<int>, probabilities: seq<real>)
      returns (results: seq<AnomalyResult>, matrix: seq<seq<real>>, anomalyCount: nat)
      requires TfidfShaped(tfidf, |batch|)
      requires tfidf.TfidfMatrix? ==> tfidf.columns <= maxFeatures
      requires |labels| == |batch| && |probabilities| == |batch|
      requires forall i :: 0 <= i < |labels| ==> IsLabel(labels[i])
      modifies this
      ensures batch == [] ==> results == [] && matrix == [] && anomalyCount == 0 && unchanged(this)
      ensures batch != [] ==>
        && vectorizer == Some(Fitted(maxFeatures, tfidf))
        && scaler == ScalerFitted(12 + TfidfWidth(tfidf))
        && model == Some(ForestState(NEstimators, contamination, RandomState, 12 + TfidfWidth(tfidf)))
        && matrix == FeatureMatrix(StructuralBlock(batch), tfidf)
        && results == AnalysisRows(batch, labels, probabilities)
        && anomalyCount == Occurrences(labels, -1)
    {
      if batch == [] {
        return [], [], 0;
      }
      var featureArray := ExtractStructuralFeatures(batch);
      var rows := featureArray[..];
      assert rows == StructuralBlock(batch);
      vectorizer := Some(Fitted(maxFeatures, tfidf));
      matrix := FeatureMatrix(rows, tfidf);
      var width := 12 + TfidfWidth(tfidf);
      scaler := ScalerFitted(width);
      model := Some(ForestState(NEstimators, contamination, RandomState, width));
      results := AnalysisRows(batch, labels, probabilities);
      anomalyCount := Occurrences(labels, -1);
    }

    /** run_full_pipeline without its SQL: select, parse, analyse, and derive
        the run-history row; an empty selection records no run. */
    method RunFullPipeline(
      raw: seq<RawLog>, fileName: string, contamination: real, maxFeatures: nat,
      tfidf: TfidfOutcome, labels: seq<int>, probabilities: seq<real>)
      returns (results: seq<AnomalyResult>, run: Option<RunRecord>)
      requires var n := |SelectRaw(raw, fileName)|;
        && TfidfShaped(tfidf, n) && (tfidf.TfidfMatrix? ==> tfidf.columns <= maxFeatures)
        && |labels| == n && |probabilities| == n
        && forall i :: 0 <= i < |labels| ==> IsLabel(labels[i])
      modifies this
      ensures var parsed := ParseLogStructure(SelectRaw(raw, fileName));
        && results == (if parsed == [] then [] else AnalysisRows(parsed, labels, probabilities))
        && run == (if parsed == [] then None else Some(RunSummary(fileName, results, contamination)))
      ensures run.Some? ==> run.value.anomaliesDetected == Occurrences(labels, -1)
      ensures var parsed := ParseLogStructure(SelectRaw(raw, fileName));
        && (parsed == [] ==> unchanged(this))
        && (parsed != [] ==>
          && vectorizer == Some(Fitted(maxFeatures, tfidf))
          && scaler == ScalerFitted(12 + TfidfWidth(tfidf))
          && model == Some(ForestState(NEstimators, contamination, RandomState, 12 + TfidfWidth(tfidf))))
    {
      var parsed := ParseLogStructure(SelectRaw(raw, fileName));
      var matrix, count;
      results, matrix, count := ExtractFeaturesAndVectorize(parsed, maxFeatures, contamination, tfidf, labels, probabilities);
      if results == [] {
        return results, None;
      }
      AnomalyCountsAgree(parsed, labels, probabilities);
      run := Some(RunSummary(fileName, results, contamination));
    }
  }
}
