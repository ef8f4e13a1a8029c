/**
  The heart-disease table and its categorical decoding: eight columns hold small integer
  codes that `Series.map` turns into labels through fixed tables, and a code missing from
  its table (or an empty cell) becomes a missing value.
*/
module HeartCodes {
  import opened Wrappers

  /**
    One row of the table, in the column order of the file. Numeric cells are `None` when
    empty (NaN); the coded cells have type `C`: integer codes before decoding, labels after.
  */
  datatype Record<C> = Record(
    age: Option<real>, sex: C, cp: C, trestbps: Option<real>, chol: Option<real>, fbs: C,
    restecg: C, thalach: Option<real>, exang: C, oldpeak: Option<real>, slope: C, ca: C,
    thal: C, target: Option<real>)

  type RawRecord = Record<Option<int>>

  type DecodedRecord = Record<Option<string>>

  /** The eight categorical columns. */
  datatype CodedColumn = Sex | Cp | Fbs | Restecg | Exang | Ca | Thal | Slope

  /** The six numeric columns, `target` included. */
  datatype NumericColumn = Age | Trestbps | Chol | Thalach | Oldpeak | Target

  function CodeOf<C>(r: Record<C>, c: CodedColumn): C {
    match c
    case Sex => r.sex
    case Cp => r.cp
    case Fbs => r.fbs
    case Restecg => r.restecg
    case Exang => r.exang
    case Ca => r.ca
    case Thal => r.thal
    case Slope => r.slope
  }

  function ValueOf<C>(r: Record<C>, n: NumericColumn): Option<real> {
    match n
    case Age => r.age
    case Trestbps => r.trestbps
    case Chol => r.chol
    case Thalach => r.thalach
    case Oldpeak => r.oldpeak
    case Target => r.target
  }

  /** The dictionary handed to `Series.map` for each coded column. */
  function CodeTable(c: CodedColumn): map<int, string> {
    match c
    case Sex => map[1 := "male", 0 := "female"]
    case Cp => map[1 := "Typical Angina", 2 := "Atypical Angina", 3 := "Non-anginal Pain", 4 := "Asymptomatic"]
    case Fbs => map[1 := "High", 0 := "Low"]
    case Restecg => map[0 := "Normal", 1 := "ST-T Abnormality", 2 := "Left Ventricular Hypertrophy"]
    case Exang => map[1 := "Yes", 0 := "No"]
    case Ca => map[0 := "No Vessels Blocked", 1 := "1 Vessel Blocked", 2 := "2 Vessels Blocked", 3 := "3 Vessels Blocked"]
    case Thal => map[1 := "Fixed Defect", 2 := "Normal", 3 := "Reversible Defect"]
    case Slope => map[0 := "Upsloping", 1 := "Flat", 2 := "Downsloping"]
  }

  /** The codes each table covers. */
  lemma {:induction false} CodeTableDomains()
    ensures CodeTable(Sex).Keys == {0, 1} && CodeTable(Fbs).Keys == {0, 1} && CodeTable(Exang).Keys == {0, 1}
    ensures CodeTable(Cp).Keys == {1, 2, 3, 4}
    ensures CodeTable(Restecg).Keys == {0, 1, 2} && CodeTable(Slope).Keys == {0, 1, 2}
    ensures CodeTable(Ca).Keys == {0, 1, 2, 3}
    ensures CodeTable(Thal).Keys == {1, 2, 3}
  {
  }

  /** `Series.map(table)` on one cell: the label of a known code, missing otherwise. */
  function Decode(c: CodedColumn, code: Option<int>): (r: Option<string>)
    ensures r.Some? <==> code.Some? && code.value in CodeTable(c)
    ensures r.Some? ==> r.value in CodeTable(c).Values
  {
    if code.Some? && code.value in CodeTable(c) then Some(CodeTable(c)[code.value]) else None
  }

  /** The code behind a label: the inverse reading of a table. */
  function Encode(c: CodedColumn, name: Option<string>): (r: Option<int>)
    ensures r.Some? ==> name.Some? && r.value in CodeTable(c) && CodeTable(c)[r.value] == name.value
  {
    if name.None? then None else CodeFrom(c, name.value, 0)
  }

  /** Searches the codes `k`, `k + 1`, ... 4 for the one labelled `name`; every table's codes lie in 0..4. */
  function CodeFrom(c: CodedColumn, name: string, k: nat): (r: Option<int>)
    ensures r.Some? ==> r.value in CodeTable(c) && CodeTable(c)[r.value] == name
    ensures r.None? ==> forall j :: k <= j && j in CodeTable(c) ==> CodeTable(c)[j] != name
    decreases 5 - k
  {
    if k > 4 then None
    else if k in CodeTable(c) && CodeTable(c)[k] == name then Some(k)
    else CodeFrom(c, name, k + 1)
  }

  /** No table gives two codes the same label. */
  lemma {:induction false} CodeTableInjective(c: CodedColumn, j: int, k: int)
    requires j in CodeTable(c) && k in CodeTable(c) && CodeTable(c)[j] == CodeTable(c)[k]
    ensures j == k
  {
  }

  /** A known code survives the round trip through its label; so does a missing cell. */
  lemma {:induction false} EncodeDecode(c: CodedColumn, code: Option<int>)
    requires code.None? || code.value in CodeTable(c)
    ensures Encode(c, Decode(c, code)) == code
  {
    if code.Some? {
      var name := Decode(c, code).value;
      DecodeEncode(c, name);
      var k := Encode(c, Some(name));
      CodeTableInjective(c, k.value, code.value);
    }
  }

  /** A label of a table is decoded back from its code. */
  lemma {:induction false} DecodeEncode(c: CodedColumn, name: string)
    requires name in CodeTable(c).Values
    ensures Decode(c, Encode(c, Some(name))) == Some(name)
  {
    var k :| k in CodeTable(c) && CodeTable(c)[k] == name;
    CodesInRange(c);
    assert 0 <= k;
    assert CodeFrom(c, name, 0).Some?;
  }

  /** Every table's codes lie in 0..4, where `CodeFrom` searches. */
  lemma {:induction false} CodesInRange(c: CodedColumn)
    ensures forall k :: k in CodeTable(c) ==> 0 <= k <= 4
  {
    match c
    case Sex =>
    case Cp =>
    case Fbs =>
    case Restecg =>
    case Exang =>
    case Ca =>
    case Thal =>
    case Slope =>
  }

  /** The eight `df[col] = df[col].map(table)` assignments applied to one row. */
  function DecodeRecord(r: RawRecord): (d: DecodedRecord)
    ensures forall n :: ValueOf(d, n) == ValueOf(r, n)
    ensures forall c :: CodeOf(d, c) == Decode(c, CodeOf(r, c))
  {
    Record(r.age, Decode(Sex, r.sex), Decode(Cp, r.cp), r.trestbps, r.chol, Decode(Fbs, r.fbs),
      Decode(Restecg, r.restecg), r.thalach, Decode(Exang, r.exang), r.oldpeak,
      Decode(Slope, r.slope), Decode(Ca, r.ca), Decode(Thal, r.thal), r.target)
  }

  /** Every coded cell is empty or holds a code of its table. */
  predicate KnownCodes(r: RawRecord) {
    forall c :: CodeOf(r, c).None? || CodeOf(r, c).value in CodeTable(c)
  }

  /** Encoding every coded cell back. */
  function EncodeRecord(d: DecodedRecord): RawRecord {
    Record(d.age, Encode(Sex, d.sex), Encode(Cp, d.cp), d.trestbps, d.chol, Encode(Fbs, d.fbs),
      Encode(Restecg, d.restecg), d.thalach, Encode(Exang, d.exang), d.oldpeak,
      Encode(Slope, d.slope), Encode(Ca, d.ca), Encode(Thal, d.thal), d.target)
  }

  /** Decoding loses nothing on a row whose codes are all known. */
  lemma {:induction false} DecodeRecordInverse(r: RawRecord)
    requires KnownCodes(r)
    ensures EncodeRecord(DecodeRecord(r)) == r
  {
    EncodeDecode(Sex, CodeOf(r, Sex));
    EncodeDecode(Cp, CodeOf(r, Cp));
    EncodeDecode(Fbs, CodeOf(r, Fbs));
    EncodeDecode(Restecg, CodeOf(r, Restecg));
    EncodeDecode(Exang, CodeOf(r, Exang));
    EncodeDecode(Ca, CodeOf(r, Ca));
    EncodeDecode(Thal, CodeOf(r, Thal));
    EncodeDecode(Slope, CodeOf(r, Slope));
  }

  /** A row with no missing cell: what survives `dropna`. */
  predicate Complete(d: DecodedRecord) {
    && (forall n :: ValueOf(d, n).Some?)
    && (forall c :: CodeOf(d, c).Some?)
  }

  /**
    A decoded row is complete exactly when the raw row has every numeric cell and every
    code is in its table.
  */
  lemma {:induction false} CompleteIff(r: RawRecord)
    ensures Complete(DecodeRecord(r)) <==>
      (forall n :: ValueOf(r, n).Some?) && (forall c :: CodeOf(r, c).Some? && CodeOf(r, c).value in CodeTable(c))
  {
    var d := DecodeRecord(r);
    assert forall c :: CodeOf(d, c) == Decode(c, CodeOf(r, c));
  }
}
