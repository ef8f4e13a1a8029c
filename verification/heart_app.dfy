/**
  The web app side of the heart-disease predictor: the decoded table with every incomplete
  row dropped, and the min-max scaling of the user's inputs for the radar chart.
*/
module HeartApp {
  import opened Wrappers
  import opened Seqs
  import opened HeartCodes
  import HeartModel

  /** `get_clean_data` of the app: decode the eight coded columns, then `dropna`. */
  function GetCleanData(raw: seq<RawRecord>): (data: seq<DecodedRecord>)
    ensures forall i :: 0 <= i < |data| ==> Complete(data[i])
    ensures forall i :: 0 <= i < |data| ==> exists j :: 0 <= j < |raw| && data[i] == DecodeRecord(raw[j])
    ensures forall j :: 0 <= j < |raw| && Complete(DecodeRecord(raw[j])) ==> DecodeRecord(raw[j]) in data
  {
    if |raw| == 0 then []
    else
      var rest := GetCleanData(raw[1..]);
      assert forall j :: 1 <= j < |raw| ==> raw[j] == raw[1..][j - 1];
      var d := DecodeRecord(raw[0]);
      if Complete(d) then [d] + rest else rest
  }

  /**
    Read from the same raw table, the app's table is the training table with its incomplete
    rows removed, in order.
  */
  lemma {:induction false} GetCleanDataIsDropna(raw: seq<RawRecord>)
    ensures GetCleanData(raw) == Filter(HeartModel.GetCleanData(raw), Complete)
    ensures IsSubsequence(GetCleanData(raw), HeartModel.GetCleanData(raw))
  {
    if |raw| > 0 {
      GetCleanDataIsDropna(raw[1..]);
      var m := HeartModel.GetCleanData(raw);
      assert m[1..] == HeartModel.GetCleanData(raw[1..]);
    }
  }

  /** A row holding a code its table lacks never reaches the app's table. */
  lemma {:induction false} UnknownCodeDropped(raw: seq<RawRecord>, j: int, c: CodedColumn)
    requires 0 <= j < |raw|
    requires CodeOf(raw[j], c).Some? && CodeOf(raw[j], c).value !in CodeTable(c)
    ensures DecodeRecord(raw[j]) !in GetCleanData(raw)
  {
    assert CodeOf(DecodeRecord(raw[j]), c).None?;
    assert !Complete(DecodeRecord(raw[j]));
  }

  /** For instance chest-pain code 0: the `cp` table covers 1 to 4 only. */
  lemma {:induction false} ChestPainZeroDropped(raw: seq<RawRecord>, j: int)
    requires 0 <= j < |raw| && raw[j].cp == Some(0)
    ensures DecodeRecord(raw[j]) !in GetCleanData(raw)
  {
    UnknownCodeDropped(raw, j, Cp);
  }

  /** A row with every numeric cell and only known codes is kept. */
  lemma {:induction false} KnownRowKept(raw: seq<RawRecord>, j: int)
    requires 0 <= j < |raw|
    requires forall n :: ValueOf(raw[j], n).Some?
    requires forall c :: CodeOf(raw[j], c).Some? && CodeOf(raw[j], c).value in CodeTable(c)
    ensures DecodeRecord(raw[j]) in GetCleanData(raw)
  {
    CompleteIff(raw[j]);
  }

  // ---------------------------------------------------------------------------------------
  // `get_scaled_values`: min-max scaling of the five numeric inputs.

  /** A sidebar value: a slider number or a selected label. */
  datatype InputValue = Number(number: real) | Choice(choice: string)

  /** A scaled entry: `None` for a column outside `X`, a ratio, or the inf/NaN of a zero or empty range. */
  datatype Scaled = NoValue | Ratio(ratio: real) | NotFinite

  /** `value - min_val` on a label raises `TypeError`. */
  datatype ScaleError = TextInNumericColumn

  /** The columns of `X = data[['age', 'trestbps', 'chol', 'thalach', 'oldpeak']]`, by name. */
  function ScaledColumn(key: string): (r: Option<NumericColumn>)
    ensures r.Some? <==> key in {"age", "trestbps", "chol", "thalach", "oldpeak"}
    ensures r != Some(Target)
  {
    if key == "age" then Some(Age)
    else if key == "trestbps" then Some(Trestbps)
    else if key == "chol" then Some(Chol)
    else if key == "thalach" then Some(Thalach)
    else if key == "oldpeak" then Some(Oldpeak)
    else None
  }

  /** `X[key].min()`: the smallest present cell of a column; `None` (NaN) when there is none. */
  function ColumnMin(data: seq<DecodedRecord>, n: NumericColumn): (r: Option<real>)
    ensures r.None? <==> forall i :: 0 <= i < |data| ==> ValueOf(data[i], n).None?
    ensures r.Some? ==> exists i :: 0 <= i < |data| && ValueOf(data[i], n) == Some(r.value)
    ensures r.Some? ==> forall i :: 0 <= i < |data| && ValueOf(data[i], n).Some? ==> r.value <= ValueOf(data[i], n).value
  {
    if |data| == 0 then None
    else
      var rest := ColumnMin(data[1..], n);
      assert forall i :: 1 <= i < |data| ==> data[i] == data[1..][i - 1];
      var v := ValueOf(data[0], n);
      if v.None? then rest
      else if rest.None? || v.value <= rest.value then v
      else rest
  }

  /** `X[key].max()`: the largest present cell of a column; `None` (NaN) when there is none. */
  function ColumnMax(data: seq<DecodedRecord>, n: NumericColumn): (r: Option<real>)
    ensures r.None? <==> forall i :: 0 <= i < |data| ==> ValueOf(data[i], n).None?
    ensures r.Some? ==> exists i :: 0 <= i < |data| && ValueOf(data[i], n) == Some(r.value)
    ensures r.Some? ==> forall i :: 0 <= i < |data| && ValueOf(data[i], n).Some? ==> ValueOf(data[i], n).value <= r.value
  {
    if |data| == 0 then None
    else
      var rest := ColumnMax(data[1..], n);
      assert forall i :: 1 <= i < |data| ==> data[i] == data[1..][i - 1];
      var v := ValueOf(data[0], n);
      if v.None? then rest
      else if rest.None? || v.value >= rest.value then v
      else rest
  }

  /** `(value - min_val) / (max_val - min_val)`: NaN for an empty column, inf or NaN for a zero range. */
  function ScaleOne(v: real, lo: Option<real>, hi: Option<real>): (s: Scaled)
    ensures s.Ratio? <==> lo.Some? && hi.Some? && lo.value != hi.value
    ensures s.Ratio? ==> s.ratio * (hi.value - lo.value) == v - lo.value
  {
    if lo.None? || hi.None? || lo.value == hi.value then NotFinite
    else Ratio((v - lo.value) / (hi.value - lo.value))
  }

  /** A key scaled against the column it names; keys outside `X` map to `None`. */
  function ScaleEntry(key: string, v: InputValue, data: seq<DecodedRecord>): Scaled
    requires ScaledColumn(key).Some? ==> v.Number?
  {
    match ScaledColumn(key)
    case None => NoValue
    case Some(n) => ScaleOne(v.number, ColumnMin(data, n), ColumnMax(data, n))
  }

  /** Some numeric key of the input holds a label. */
  predicate HasTextInNumericColumn(input: map<string, InputValue>) {
    exists key :: key in input && ScaledColumn(key).Some? && input[key].Choice?
  }

  /** `get_scaled_values(input_dict)`, scaling against the app's cleaned table. */
  function GetScaledValues(input: map<string, InputValue>, raw: seq<RawRecord>): (r: Result<map<string, Scaled>, ScaleError>)
    ensures r.Failure? <==> HasTextInNumericColumn(input)
    ensures r.Success? ==> r.value.Keys == input.Keys
    ensures r.Success? ==> forall key :: key in input && ScaledColumn(key).None? ==> r.value[key] == NoValue
    ensures r.Success? ==> forall key :: key in input && ScaledColumn(key).Some? ==>
      && input[key].Number?
      && r.value[key] == ScaleOne(input[key].number,
           ColumnMin(GetCleanData(raw), ScaledColumn(key).value),
           ColumnMax(GetCleanData(raw), ScaledColumn(key).value))
  {
    if HasTextInNumericColumn(input) then Failure(TextInNumericColumn)
    else
      var data := GetCleanData(raw);
      Success(map key | key in input :: ScaleEntry(key, input[key], data))
  }

  lemma {:induction false} DivNonNegative(x: real, d: real)
    requires x >= 0.0 && d > 0.0
    ensures x / d >= 0.0
  {
  }

  lemma {:induction false} DivAdd(a: real, b: real, d: real)
    requires d > 0.0
    ensures a / d + b / d == (a + b) / d
  {
  }

  /** A ratio of a value within a non-empty range lies in [0, 1]. */
  lemma {:induction false} RatioBounds(v: real, lo: real, hi: real)
    requires lo < hi && lo <= v <= hi
    ensures 0.0 <= (v - lo) / (hi - lo) <= 1.0
  {
    var d := hi - lo;
    DivNonNegative(v - lo, d);
    DivNonNegative(hi - v, d);
    DivAdd(v - lo, hi - v, d);
    assert (v - lo) + (hi - v) == d;
    DivSelf(d);
  }

  lemma {:induction false} DivSelf(d: real)
    requires d > 0.0
    ensures d / d == 1.0
  {
  }

  /** One numeric input within a non-empty range: a ratio in [0, 1] that gives the value back. */
  lemma {:induction false} ScaleOneInRange(v: real, lo: Option<real>, hi: Option<real>)
    requires lo.Some? && hi.Some? && lo.value < hi.value && lo.value <= v <= hi.value
    ensures ScaleOne(v, lo, hi).Ratio?
    ensures 0.0 <= ScaleOne(v, lo, hi).ratio <= 1.0
    ensures lo.value + ScaleOne(v, lo, hi).ratio * (hi.value - lo.value) == v
  {
    RatioBounds(v, lo.value, hi.value);
  }

  /**
    A numeric input between its column's minimum `lo` and maximum `hi`, as the sliders
    allow, is scaled into [0, 1] by the column's own bounds.
  */
  lemma {:induction false} ScaledValueInRange(input: map<string, InputValue>, raw: seq<RawRecord>, key: string, lo: real, hi: real)
    requires GetScaledValues(input, raw).Success?
    requires key in input && ScaledColumn(key).Some?
    requires ColumnMin(GetCleanData(raw), ScaledColumn(key).value) == Some(lo)
    requires ColumnMax(GetCleanData(raw), ScaledColumn(key).value) == Some(hi)
    requires lo < hi && lo <= input[key].number <= hi
    ensures GetScaledValues(input, raw).value[key].Ratio?
    ensures 0.0 <= GetScaledValues(input, raw).value[key].ratio <= 1.0
    ensures GetScaledValues(input, raw).value[key] == ScaleOne(input[key].number, Some(lo), Some(hi))
  {
    var n, data := ScaledColumn(key).value, GetCleanData(raw);
    var r := GetScaledValues(input, raw).value[key];
    assert r == ScaleOne(input[key].number, Some(lo), Some(hi));
    ScaleOneInRange(input[key].number, Some(lo), Some(hi));
  }

  /** Any value the cleaned table itself holds lies between its column's minimum and maximum. */
  lemma {:induction false} TableValueWithinBounds(raw: seq<RawRecord>, n: NumericColumn, i: int)
    requires 0 <= i < |GetCleanData(raw)|
    ensures ColumnMin(GetCleanData(raw), n).Some? && ColumnMax(GetCleanData(raw), n).Some?
    ensures ColumnMin(GetCleanData(raw), n).value <= ValueOf(GetCleanData(raw)[i], n).value
      <= ColumnMax(GetCleanData(raw), n).value
  {
    var data := GetCleanData(raw);
    assert Complete(data[i]);
    var v := ValueOf(data[i], n);
    assert v.Some?;
    var lo, hi := ColumnMin(data, n), ColumnMax(data, n);
    assert lo.Some? && hi.Some?;
    assert lo.value <= v.value <= hi.value;
  }
}
