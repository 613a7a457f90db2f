/**
 * Batch classification of src/inference.py: `_assign_severity` maps a score
 * to one of four tiers, and `classify_logs` checks for a `message` column and
 * adds a score, a prediction and a severity to every row of a copy of the
 * frame. The scores are the mock's random draw, given here as a parameter.
 */
module Inference {
  import opened Wrappers
  import opened Records

  /** The four severity tiers, lowest first. */
  datatype Severity = Low | Medium | High | Critical

  /** The string stored in the `severity` column. */
  function Name(s: Severity): string {
    match s
    case Low => "LOW"
    case Medium => "MEDIUM"
    case High => "HIGH"
    case Critical => "CRITICAL"
  }

  /** The order of the tiers. */
  function Rank(s: Severity): nat {
    match s
    case Low => 0
    case Medium => 1
    case High => 2
    case Critical => 3
  }

  /** `_assign_severity(score)`: each tier is a half-open band of scores. */
  function AssignSeverity(score: real): (s: Severity)
    ensures s == Critical <==> score > 0.85
    ensures s == High <==> 0.70 < score <= 0.85
    ensures s == Medium <==> 0.60 < score <= 0.70
    ensures s == Low <==> score <= 0.60
  {
    if score > 0.85 then Critical
    else if score > 0.70 then High
    else if score > 0.60 then Medium
    else Low
  }

  /** A larger score never yields a lower tier. */
  lemma SeverityMonotone(a: real, b: real)
    requires a <= b
    ensures Rank(AssignSeverity(a)) <= Rank(AssignSeverity(b))
  {
  }

  /** The default `threshold` of `classify_logs`. */
  const DefaultThreshold: real := 0.60

  /** The message of the `ValueError` raised when the column is missing. */
  const MissingMessage: string := "Input dataframe must contain a 'message' column."

  /** A pandas frame: its column names in order and one record per row. */
  datatype Frame = Frame(columns: seq<string>, rows: seq<Record>)

  /** The three columns `classify_logs` adds. */
  const Added: set<string> := {"anomaly_score", "prediction", "severity"}

  /** `df[name] = ...`: a new column goes at the end, an existing one keeps its place. */
  function WithColumn(columns: seq<string>, name: string): seq<string> {
    if name in columns then columns else columns + [name]
  }

  /** One row of the result: the row with its score, its prediction and its severity name. */
  function ClassifyRow(row: Record, score: real, threshold: real): Record {
    row["anomaly_score" := Real(score)]
       ["prediction" := Bool(score > threshold)]
       ["severity" := Str(Name(AssignSeverity(score)))]
  }

  /**
   * `classify_logs(df, threshold)` without the latency: a frame without a
   * `message` column is rejected with the `ValueError` message; otherwise the
   * copy has the same rows in the same order, each with `anomaly_score` set
   * to its score, `prediction` true iff the score exceeds the threshold, and
   * `severity` the name of its tier, every other field unchanged. The
   * caller's frame is a value and so is never modified.
   */
  function ClassifyLogs(df: Frame, scores: seq<real>, threshold: real): (r: Result<Frame, string>)
    requires |scores| == |df.rows|
    ensures r.Failure? <==> "message" !in df.columns
    ensures r.Failure? ==> r.error == MissingMessage
    ensures r.Success? ==>
      && |r.value.rows| == |df.rows|
      && df.columns <= r.value.columns
      && (forall c :: c in Added ==> c in r.value.columns)
      && (forall c :: c in r.value.columns ==> c in df.columns || c in Added)
    ensures r.Success? ==> forall i :: 0 <= i < |df.rows| ==>
      && r.value.rows[i].Keys == df.rows[i].Keys + Added
      && r.value.rows[i]["anomaly_score"] == Real(scores[i])
      && r.value.rows[i]["prediction"] == Bool(scores[i] > threshold)
      && r.value.rows[i]["severity"] == Str(Name(AssignSeverity(scores[i])))
      && (forall k :: k in df.rows[i] && k !in Added ==> r.value.rows[i][k] == df.rows[i][k])
  {
    if "message" !in df.columns then
      Failure(MissingMessage)
    else
      var columns := WithColumn(WithColumn(WithColumn(df.columns, "anomaly_score"), "prediction"), "severity");
      var rows := seq(|df.rows|, i requires 0 <= i < |df.rows| => ClassifyRow(df.rows[i], scores[i], threshold));
      Success(Frame(columns, rows))
  }

  /** t occurs in s starting at index i. */
  predicate OccursAt(s: string, t: string, i: nat) {
    i + |t| <= |s| && s[i..i + |t|] == t
  }

  /** The error text mentions "message", as the classifier's test expects. */
  lemma ErrorMentionsMessage()
    ensures exists i :: OccursAt(MissingMessage, "message", i)
  {
    assert OccursAt(MissingMessage, "message", 32);
  }

  /** At the default threshold, a row is predicted anomalous iff its severity is not LOW. */
  lemma DefaultPredictionIsNotLow(score: real)
    ensures (score > DefaultThreshold) <==> AssignSeverity(score) != Low
  {
  }

  /**
   * The classifier's tests: a frame with only a `message` column gains the
   * three columns, and a frame without one is rejected.
   */
  lemma ClassifiesTestFrames(scores: seq<real>)
    requires |scores| == 2
    ensures var r := ClassifyLogs(Frame(["message"], [map["message" := Str("Service started")], map["message" := Str("Database error occurred")]]), scores, DefaultThreshold);
      r.Success? && "prediction" in r.value.columns && "anomaly_score" in r.value.columns && "severity" in r.value.columns
    ensures ClassifyLogs(Frame(["invalid_column"], [map["invalid_column" := Str("no message field")]]), scores[..1], DefaultThreshold).Failure?
  {
  }
}
