/**
  The training side of the heart-disease predictor: the decoded table without any row
  removed, and its split into the feature columns `X` and the label column `y`.
*/
module HeartModel {
  import opened Wrappers
  import opened HeartCodes

  /** `get_clean_data` of the training script: every row decoded, none dropped. */
  function GetCleanData(raw: seq<RawRecord>): (data: seq<DecodedRecord>)
    ensures |data| == |raw|
    ensures forall i :: 0 <= i < |raw| ==> data[i] == DecodeRecord(raw[i])
  {
    if |raw| == 0 then [] else [DecodeRecord(raw[0])] + GetCleanData(raw[1..])
  }

  /**
    Training rows keep their place, their numeric cells and `target`; an unknown code only
    empties its own cell.
  */
  lemma {:induction false} GetCleanDataKeepsRows(raw: seq<RawRecord>, i: int, c: CodedColumn)
    requires 0 <= i < |raw|
    ensures forall n :: ValueOf(GetCleanData(raw)[i], n) == ValueOf(raw[i], n)
    ensures CodeOf(raw[i], c).Some? && CodeOf(raw[i], c).value !in CodeTable(c) ==>
      CodeOf(GetCleanData(raw)[i], c).None?
    ensures CodeOf(raw[i], c).Some? && CodeOf(raw[i], c).value in CodeTable(c) ==>
      CodeOf(GetCleanData(raw)[i], c) == Some(CodeTable(c)[CodeOf(raw[i], c).value])
  {
  }

  /** On a table with known codes the training decode is undone by encoding the labels back. */
  lemma {:induction false} GetCleanDataInverse(raw: seq<RawRecord>)
    requires forall i :: 0 <= i < |raw| ==> KnownCodes(raw[i])
    ensures forall i :: 0 <= i < |raw| ==> EncodeRecord(GetCleanData(raw)[i]) == raw[i]
  {
    forall i | 0 <= i < |raw|
      ensures EncodeRecord(GetCleanData(raw)[i]) == raw[i]
    {
      DecodeRecordInverse(raw[i]);
    }
  }

  /** The column names of the file, in order. */
  const ColumnNames: seq<string> := ["age", "sex", "cp", "trestbps", "chol", "fbs", "restecg",
    "thalach", "exang", "oldpeak", "slope", "ca", "thal", "target"]

  /** `columns.drop([name])`: the other column names, in order. */
  function DropColumn(names: seq<string>, name: string): (r: seq<string>)
    ensures name !in r
    ensures forall x :: x in r <==> x in names && x != name
  {
    if |names| == 0 then []
    else if names[0] == name then DropColumn(names[1..], name)
    else [names[0]] + DropColumn(names[1..], name)
  }

  /** `X` keeps the thirteen columns before `target`, in the file's order. */
  lemma {:induction false} FeatureColumnNames()
    ensures DropColumn(ColumnNames, "target") == ColumnNames[..13]
  {
    var names := ColumnNames;
    assert names[13..] == ["target"];
    assert forall k :: 0 <= k < 13 ==> names[k] != "target";
    DropAbsent(names[..13], "target");
    DropColumnAppend(names[..13], ["target"], "target");
    assert names == names[..13] + ["target"];
  }

  lemma {:induction false} DropAbsent(names: seq<string>, name: string)
    requires forall k :: 0 <= k < |names| ==> names[k] != name
    ensures DropColumn(names, name) == names
  {
    if |names| > 0 {
      DropAbsent(names[1..], name);
    }
  }

  lemma {:induction false} DropColumnAppend(a: seq<string>, b: seq<string>, name: string)
    ensures DropColumn(a + b, name) == DropColumn(a, name) + DropColumn(b, name)
  {
    if |a| == 0 {
      assert a + b == b;
    } else {
      assert (a + b)[1..] == a[1..] + b;
      DropColumnAppend(a[1..], b, name);
    }
  }

  /** One row of `X`: every column but `target`. */
  datatype Features = Features(
    age: Option<real>, sex: Option<string>, cp: Option<string>, trestbps: Option<real>,
    chol: Option<real>, fbs: Option<string>, restecg: Option<string>, thalach: Option<real>,
    exang: Option<string>, oldpeak: Option<real>, slope: Option<string>, ca: Option<string>,
    thal: Option<string>)

  function FeaturesOf(d: DecodedRecord): Features {
    Features(d.age, d.sex, d.cp, d.trestbps, d.chol, d.fbs, d.restecg, d.thalach, d.exang,
      d.oldpeak, d.slope, d.ca, d.thal)
  }

  /** A feature row with its label put back as the last column. */
  function WithTarget(x: Features, y: Option<real>): DecodedRecord {
    Record(x.age, x.sex, x.cp, x.trestbps, x.chol, x.fbs, x.restecg, x.thalach, x.exang,
      x.oldpeak, x.slope, x.ca, x.thal, y)
  }

  /** `X = data.drop(['target'], axis=1)` and `y = data['target']`. */
  function SplitTarget(data: seq<DecodedRecord>): (xy: (seq<Features>, seq<Option<real>>))
    ensures |xy.0| == |data| && |xy.1| == |data|
    ensures forall i :: 0 <= i < |data| ==> xy.1[i] == ValueOf(data[i], Target)
  {
    if |data| == 0 then ([], [])
    else
      var rest := SplitTarget(data[1..]);
      ([FeaturesOf(data[0])] + rest.0, [data[0].target] + rest.1)
  }

  /** Nothing is lost by the split: each row of `X` with its `y` gives the row back. */
  lemma {:induction false} SplitTargetJoin(data: seq<DecodedRecord>)
    ensures var xy := SplitTarget(data);
      forall i :: 0 <= i < |data| ==> WithTarget(xy.0[i], xy.1[i]) == data[i]
  {
    if |data| > 0 {
      SplitTargetJoin(data[1..]);
      var xy := SplitTarget(data);
      var rest := SplitTarget(data[1..]);
      assert forall i :: 1 <= i < |data| ==> xy.0[i] == rest.0[i - 1] && xy.1[i] == rest.1[i - 1];
      assert forall i :: 1 <= i < |data| ==> data[i] == data[1..][i - 1];
    }
  }

  /** The features do not depend on the label: rows that differ only in `target` give the same `X` row. */
  lemma {:induction false} FeaturesIgnoreTarget(d: DecodedRecord, y: Option<real>)
    ensures FeaturesOf(d.(target := y)) == FeaturesOf(d)
    ensures WithTarget(FeaturesOf(d), y) == d.(target := y)
  {
  }
}
