/** The request-body validation of backend/main.py: the field constraints of the
    pydantic models `PatientBase` and `Patient`, both forbidding extra fields. */
module PatientSchema {
  import opened PatientTypes

  /** A JSON value as it arrives in a request body. */
  datatype JsonValue = JInt(i: int) | JNum(r: real) | JStr(s: string) | JBool(b: bool) | JNull

  type Payload = map<string, JsonValue>

  /** The constraint a declared field puts on its value. */
  datatype Constraint =
    | IntBetween(lo: int, hi: int)          // int = Field(ge=lo, le=hi)
    | AnyInt                                // int, unbounded
    | RealBetween(rlo: real, rhi: real)     // float = Field(ge=lo, le=hi)
    | OneOfText(texts: set<string>)         // Literal['a', 'b', ...]
    | OneOfInt(ints: set<int>)              // Literal[0, 1]

  predicate Admits(k: Constraint, v: JsonValue)
  {
    match k
    case IntBetween(lo, hi) => v.JInt? && lo <= v.i <= hi
    case AnyInt => v.JInt?
    case RealBetween(lo, hi) => (v.JInt? && lo <= v.i as real <= hi) || (v.JNum? && lo <= v.r <= hi)
    case OneOfText(texts) => v.JStr? && v.s in texts
    case OneOfInt(ints) => v.JInt? && v.i in ints
  }

  type Schema = seq<(string, Constraint)>

  /** `PatientBase`'s fields in declaration order. */
  const BaseSchema: Schema := [
    ("Age", IntBetween(0, 120)),
    ("Sex", OneOfText({"M", "F"})),
    ("ChestPainType", OneOfText({"TA", "ATA", "NAP", "ASY"})),
    ("RestingBP", IntBetween(0, 300)),
    ("Cholesterol", IntBetween(0, 1000)),
    ("FastingBS", OneOfInt({0, 1})),
    ("RestingECG", OneOfText({"Normal", "ST", "LVH"})),
    ("MaxHR", IntBetween(60, 202)),
    ("ExerciseAngina", OneOfText({"Y", "N"})),
    ("Oldpeak", RealBetween(-3.0, 10.0)),
    ("ST_Slope", OneOfText({"Up", "Flat", "Down"}))
  ]

  /** `Patient` adds `PatientID` (read from the key "id", its alias) and `HeartDisease`. */
  const PatientSchemaFields: Schema := BaseSchema + [("id", AnyInt), ("HeartDisease", OneOfInt({0, 1}))]

  datatype FieldError = Missing(field: string) | Invalid(field: string)

  /** The declared fields that are missing or whose value breaks their constraint, in declaration order. */
  function FieldErrors(schema: Schema, payload: Payload): (r: seq<FieldError>)
    ensures r == [] <==> forall i :: 0 <= i < |schema| ==> schema[i].0 in payload && Admits(schema[i].1, payload[schema[i].0])
  {
    if schema == [] then []
    else
      var (name, k) := schema[0];
      var here := if name !in payload then [Missing(name)]
                  else if !Admits(k, payload[name]) then [Invalid(name)]
                  else [];
      here + FieldErrors(schema[1..], payload)
  }

  datatype Validated<T> = Ok(value: T) | Rejected(errors: seq<FieldError>, extra: set<string>)

  function SexOf(s: string): Sex { if s == "M" then M else F }
  function ChestPainOf(s: string): ChestPainType
  {
    if s == "ATA" then ATA else if s == "NAP" then NAP else if s == "ASY" then ASY else TA
  }
  function EcgOf(s: string): RestingECG { if s == "Normal" then Normal else if s == "ST" then ST else LVH }
  function AnginaOf(s: string): ExerciseAngina { if s == "Y" then Y else N }
  function SlopeOf(s: string): StSlope { if s == "Up" then Up else if s == "Flat" then Flat else Down }
  function RealOf(v: JsonValue): real
  {
    match v
    case JInt(i) => i as real
    case JNum(r) => r
    case _ => 0.0
  }

  /** Every declared field of `BaseSchema` is present and admitted. */
  predicate BaseFieldsAdmitted(p: Payload)
  {
    forall i :: 0 <= i < |BaseSchema| ==> BaseSchema[i].0 in p && Admits(BaseSchema[i].1, p[BaseSchema[i].0])
  }

  /** The reference statement of what `PatientBase` accepts, written out field by field. */
  predicate BaseRangesHold(p: Payload)
  {
    && "Age" in p && p["Age"].JInt? && 0 <= p["Age"].i <= 120
    && "Sex" in p && p["Sex"].JStr? && p["Sex"].s in {"M", "F"}
    && "ChestPainType" in p && p["ChestPainType"].JStr? && p["ChestPainType"].s in {"TA", "ATA", "NAP", "ASY"}
    && "RestingBP" in p && p["RestingBP"].JInt? && 0 <= p["RestingBP"].i <= 300
    && "Cholesterol" in p && p["Cholesterol"].JInt? && 0 <= p["Cholesterol"].i <= 1000
    && "FastingBS" in p && p["FastingBS"].JInt? && p["FastingBS"].i in {0, 1}
    && "RestingECG" in p && p["RestingECG"].JStr? && p["RestingECG"].s in {"Normal", "ST", "LVH"}
    && "MaxHR" in p && p["MaxHR"].JInt? && 60 <= p["MaxHR"].i <= 202
    && "ExerciseAngina" in p && p["ExerciseAngina"].JStr? && p["ExerciseAngina"].s in {"Y", "N"}
    && "Oldpeak" in p && (p["Oldpeak"].JInt? || p["Oldpeak"].JNum?) && -3.0 <= RealOf(p["Oldpeak"]) <= 10.0
    && "ST_Slope" in p && p["ST_Slope"].JStr? && p["ST_Slope"].s in {"Up", "Flat", "Down"}
  }

  lemma BaseFieldsAdmittedIffRangesHold(p: Payload)
    ensures BaseFieldsAdmitted(p) <==> BaseRangesHold(p)
  {
    if BaseFieldsAdmitted(p) {
      assert Admits(BaseSchema[0].1, p["Age"]);
      assert Admits(BaseSchema[1].1, p["Sex"]);
      assert Admits(BaseSchema[2].1, p["ChestPainType"]);
      assert Admits(BaseSchema[3].1, p["RestingBP"]);
      assert Admits(BaseSchema[4].1, p["Cholesterol"]);
      assert Admits(BaseSchema[5].1, p["FastingBS"]);
      assert Admits(BaseSchema[6].1, p["RestingECG"]);
      assert Admits(BaseSchema[7].1, p["MaxHR"]);
      assert Admits(BaseSchema[8].1, p["ExerciseAngina"]);
      assert Admits(BaseSchema[9].1, p["Oldpeak"]);
      assert Admits(BaseSchema[10].1, p["ST_Slope"]);
    } else {
      var i :| 0 <= i < |BaseSchema| && !(BaseSchema[i].0 in p && Admits(BaseSchema[i].1, p[BaseSchema[i].0]));
    }
  }

  const BaseNames: set<string> := {
    "Age", "Sex", "ChestPainType", "RestingBP", "Cholesterol", "FastingBS",
    "RestingECG", "MaxHR", "ExerciseAngina", "Oldpeak", "ST_Slope"
  }

  /** `BaseNames` lists exactly the field names of `BaseSchema`. */
  lemma BaseNamesAreSchemaNames()
    ensures BaseNames == set i | 0 <= i < |BaseSchema| :: BaseSchema[i].0
  {
    var names := set i | 0 <= i < |BaseSchema| :: BaseSchema[i].0;
    assert BaseSchema[0].0 in names && BaseSchema[1].0 in names && BaseSchema[2].0 in names;
    assert BaseSchema[3].0 in names && BaseSchema[4].0 in names && BaseSchema[5].0 in names;
    assert BaseSchema[6].0 in names && BaseSchema[7].0 in names && BaseSchema[8].0 in names;
    assert BaseSchema[9].0 in names && BaseSchema[10].0 in names;
  }

  /** The payload keys each model declares. */
  const PatientNames: set<string> := BaseNames + {"id", "HeartDisease"}

  /** The typed record a `PatientBase` payload decodes to. */
  function DecodeInput(p: Payload): (r: PatientInput)
    requires BaseRangesHold(p)
    ensures r.age == p["Age"].i && SexText(r.sex) == p["Sex"].s
    ensures ChestPainText(r.chestPainType) == p["ChestPainType"].s
    ensures r.restingBP == p["RestingBP"].i && r.cholesterol == p["Cholesterol"].i
    ensures r.fastingBS == p["FastingBS"].i && EcgText(r.restingECG) == p["RestingECG"].s
    ensures r.maxHR == p["MaxHR"].i && AnginaText(r.exerciseAngina) == p["ExerciseAngina"].s
    ensures r.oldpeak == RealOf(p["Oldpeak"]) && SlopeText(r.stSlope) == p["ST_Slope"].s
  {
    PatientInput(
      p["Age"].i, SexOf(p["Sex"].s), ChestPainOf(p["ChestPainType"].s),
      p["RestingBP"].i, p["Cholesterol"].i, p["FastingBS"].i,
      EcgOf(p["RestingECG"].s), p["MaxHR"].i, AnginaOf(p["ExerciseAngina"].s),
      RealOf(p["Oldpeak"]), SlopeOf(p["ST_Slope"].s))
  }

  /** Validation of a request body against `PatientBase`: accepted with its typed value when every
      declared field is present and admitted and no other key is given; otherwise rejected with the
      failing declared fields (in declaration order) and the forbidden extra keys. */
  function ValidatePatientBase(p: Payload): (r: Validated<PatientInput>)
    ensures r.Ok? <==> BaseRangesHold(p) && p.Keys <= BaseNames
    ensures r.Ok? ==> r.value == DecodeInput(p)
    ensures r.Rejected? ==> r.extra == p.Keys - BaseNames
  {
    BaseFieldsAdmittedIffRangesHold(p);
    var errors := FieldErrors(BaseSchema, p);
    var extra := p.Keys - BaseNames;
    if errors == [] && extra == {} then Ok(DecodeInput(p)) else Rejected(errors, extra)
  }

  /** What `Patient` accepts: a valid `PatientBase` body plus an integer "id" and a 0/1 "HeartDisease". */
  predicate PatientRangesHold(p: Payload)
  {
    && BaseRangesHold(p)
    && "id" in p && p["id"].JInt?
    && "HeartDisease" in p && p["HeartDisease"].JInt? && p["HeartDisease"].i in {0, 1}
  }

  lemma PatientFieldsAdmittedIffRangesHold(p: Payload)
    ensures FieldErrors(PatientSchemaFields, p) == [] <==> PatientRangesHold(p)
  {
    var tail: Schema := [("id", AnyInt), ("HeartDisease", OneOfInt({0, 1}))];
    BaseFieldsAdmittedIffRangesHold(p);
    assert forall i :: 0 <= i < |BaseSchema| ==> PatientSchemaFields[i] == BaseSchema[i];
    assert PatientSchemaFields[11] == tail[0] && PatientSchemaFields[12] == tail[1];
  }

  function ValidatePatient(p: Payload): (r: Validated<Patient>)
    ensures r.Ok? <==> PatientRangesHold(p) && p.Keys <= PatientNames
    ensures r.Ok? ==> r.value.id == p["id"].i && r.value.heartDisease == p["HeartDisease"].i
    ensures r.Ok? ==> var b := DecodeInput(p);
      r.value == Patient(p["id"].i, b.age, b.sex, b.chestPainType, b.restingBP, b.cholesterol, b.fastingBS,
                         b.restingECG, b.maxHR, b.exerciseAngina, b.oldpeak, b.stSlope, p["HeartDisease"].i)
    ensures r.Rejected? ==> r.extra == p.Keys - PatientNames
  {
    PatientFieldsAdmittedIffRangesHold(p);
    var errors := FieldErrors(PatientSchemaFields, p);
    var extra := p.Keys - PatientNames;
    if errors == [] && extra == {} then
      var b := DecodeInput(p);
      Ok(Patient(p["id"].i, b.age, b.sex, b.chestPainType, b.restingBP, b.cholesterol, b.fastingBS,
                 b.restingECG, b.maxHR, b.exerciseAngina, b.oldpeak, b.stSlope, p["HeartDisease"].i))
    else Rejected(errors, extra)
  }

  /** A key neither model declares is rejected by both, and reported as extra. */
  lemma ExtraKeyRejected(p: Payload, k: string)
    requires k in p && k !in PatientNames
    ensures ValidatePatientBase(p).Rejected? && k in ValidatePatientBase(p).extra
    ensures ValidatePatient(p).Rejected? && k in ValidatePatient(p).extra
  {
  }

  /** `PatientID` is only readable under its alias "id": a body that spells the field name is rejected. */
  lemma FieldNameInsteadOfAliasRejected(p: Payload)
    requires "PatientID" in p
    ensures ValidatePatient(p).Rejected?
  {
    ExtraKeyRejected(p, "PatientID");
  }

  /** The declared ranges of a typed `PatientBase` record. */
  predicate InDeclaredRanges(x: PatientInput)
  {
    && 0 <= x.age <= 120 && 0 <= x.restingBP <= 300 && 0 <= x.cholesterol <= 1000
    && 60 <= x.maxHR <= 202 && -3.0 <= x.oldpeak <= 10.0
  }

  /** The JSON body a client sends for a record (`model_dump`). */
  function EncodeInput(x: PatientInput): (p: Payload)
    ensures p.Keys == BaseNames
  {
    map[
      "Age" := JInt(x.age), "Sex" := JStr(SexText(x.sex)),
      "ChestPainType" := JStr(ChestPainText(x.chestPainType)),
      "RestingBP" := JInt(x.restingBP), "Cholesterol" := JInt(x.cholesterol),
      "FastingBS" := JInt(x.fastingBS), "RestingECG" := JStr(EcgText(x.restingECG)),
      "MaxHR" := JInt(x.maxHR), "ExerciseAngina" := JStr(AnginaText(x.exerciseAngina)),
      "Oldpeak" := JNum(x.oldpeak), "ST_Slope" := JStr(SlopeText(x.stSlope))
    ]
  }

  /** A record within the declared ranges survives encoding and validation unchanged;
      one outside them is rejected. */
  lemma {:induction false} EncodeThenValidate(x: PatientInput)
    ensures InDeclaredRanges(x) ==> ValidatePatientBase(EncodeInput(x)) == Ok(x)
    ensures !InDeclaredRanges(x) ==> ValidatePatientBase(EncodeInput(x)).Rejected?
  {
    var p := EncodeInput(x);
    if InDeclaredRanges(x) {
      assert BaseRangesHold(p);
      var d := DecodeInput(p);
      assert d.sex == x.sex;
      assert d.chestPainType == x.chestPainType;
      assert d.restingECG == x.restingECG;
      assert d.exerciseAngina == x.exerciseAngina;
      assert d.stSlope == x.stSlope;
    }
  }
}
