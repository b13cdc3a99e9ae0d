/** The risk-prediction form (frontend/src/pages/dashboard/PredictionPage.tsx): a partial
    map from the eleven input names to the values entered so far, the risk level of the
    last evaluation and whether the shown result is still current. The prediction service
    is outside the model; its answer is a parameter of HandleSubmit. `Number(value)` is
    likewise a parameter, since its parsing of numeric text is not modelled. */
module PredictionForm {
  import opened PatientTypes

  /** A stored field value: `Number(value)` for numeric inputs, the raw text otherwise. */
  datatype FormValue = Num(x: real) | Str(s: string)

  /** `"high" | "normal"`; the page's `null` is `None` in an `Option<RiskLevel>`. */
  datatype RiskLevel = High | NormalRisk

  /** The `name` attributes of the eleven form controls. */
  const FormFields: set<string> := {
    "Age", "Sex", "ChestPainType", "RestingBP", "Cholesterol", "FastingBS",
    "RestingECG", "MaxHR", "ExerciseAngina", "Oldpeak", "ST_Slope"
  }

  lemma FormFieldCount()
    ensures |FormFields| == 11
  {
  }

  /** The names whose values `handleChange` converts with `Number(...)`. */
  predicate IsNumericField(name: string) {
    name == "Age" || name == "RestingBP" || name == "Cholesterol" || name == "MaxHR" ||
    name == "Oldpeak" || name == "FastingBS"
  }

  /** What `handleChange` stores for a non-empty value. */
  function StoredValue(name: string, value: string, toNumber: string -> real): FormValue
  {
    if IsNumericField(name) then Num(toNumber(value)) else Str(value)
  }

  /** The `setFormData` updater: the empty string deletes the key, any other value sets it. */
  function ChangedData(data: map<string, FormValue>, name: string, value: string, toNumber: string -> real): map<string, FormValue>
  {
    if value == "" then data - {name} else data[name := StoredValue(name, value, toNumber)]
  }

  /** Clearing a field removes exactly that key; every other key keeps its value. */
  lemma ClearingRemovesOnlyThatKey(data: map<string, FormValue>, name: string, toNumber: string -> real)
    ensures name !in ChangedData(data, name, "", toNumber)
    ensures forall k :: k != name ==>
      (k in ChangedData(data, name, "", toNumber) <==> k in data) &&
      (k in data ==> ChangedData(data, name, "", toNumber)[k] == data[k])
  {
  }

  /** Entering a value sets exactly that key; every other key keeps its value. */
  lemma SettingChangesOnlyThatKey(data: map<string, FormValue>, name: string, value: string, toNumber: string -> real)
    requires value != ""
    ensures name in ChangedData(data, name, value, toNumber)
    ensures forall k :: k != name ==>
      (k in ChangedData(data, name, value, toNumber) <==> k in data) &&
      (k in data ==> ChangedData(data, name, value, toNumber)[k] == data[k])
  {
  }

  /** Age, RestingBP, Cholesterol, MaxHR, Oldpeak and FastingBS are stored as numbers, the
      five other fields as the text entered. */
  lemma StoredTypes(data: map<string, FormValue>, name: string, value: string, toNumber: string -> real)
    requires name in FormFields && value != ""
    ensures name in {"Age", "RestingBP", "Cholesterol", "MaxHR", "Oldpeak", "FastingBS"} ==>
      ChangedData(data, name, value, toNumber)[name] == Num(toNumber(value))
    ensures name in {"Sex", "ChestPainType", "RestingECG", "ExerciseAngina", "ST_Slope"} ==>
      ChangedData(data, name, value, toNumber)[name] == Str(value)
  {
  }

  /** Making the same change twice leaves the same form data as making it once. */
  lemma ChangeIdempotent(data: map<string, FormValue>, name: string, value: string, toNumber: string -> real)
    ensures ChangedData(ChangedData(data, name, value, toNumber), name, value, toNumber) == ChangedData(data, name, value, toNumber)
  {
    var once := ChangedData(data, name, value, toNumber);
    var twice := ChangedData(once, name, value, toNumber);
    assert twice.Keys == once.Keys;
  }

  /** `prediction === 1 ? "high" : "normal"`. */
  function RiskFor(prediction: int): (r: RiskLevel)
    ensures r == High <==> prediction == 1
  {
    if prediction == 1 then High else NormalRisk
  }

  /** `Object.keys(formData).length === 11`. */
  predicate FormComplete(data: map<string, FormValue>) {
    |data| == 11
  }

  /** Over the eleven form names, eleven keys means every field has a value. */
  lemma FormCompleteIffAllFieldsPresent(data: map<string, FormValue>)
    requires data.Keys <= FormFields
    ensures FormComplete(data) <==> data.Keys == FormFields
  {
    FormFieldCount();
    if data.Keys != FormFields {
      ProperSubsetCardinality(data.Keys, FormFields);
    }
  }

  /** Clearing any field of a form holding only form names leaves it incomplete. */
  lemma ClearingMakesIncomplete(data: map<string, FormValue>, name: string, toNumber: string -> real)
    requires data.Keys <= FormFields && name in FormFields
    ensures !FormComplete(ChangedData(data, name, "", toNumber))
  {
    var cleared := ChangedData(data, name, "", toNumber);
    assert cleared.Keys < FormFields;
    FormFieldCount();
    ProperSubsetCardinality(cleared.Keys, FormFields);
  }

  /** Entering the one field still missing completes the form. */
  lemma FillingLastFieldCompletes(data: map<string, FormValue>, name: string, value: string, toNumber: string -> real)
    requires data.Keys == FormFields - {name} && name in FormFields && value != ""
    ensures FormComplete(ChangedData(data, name, value, toNumber))
  {
    FormFieldCount();
    assert ChangedData(data, name, value, toNumber).Keys == FormFields;
  }

  /** A proper subset is strictly smaller. */
  lemma ProperSubsetCardinality<T>(a: set<T>, b: set<T>)
    requires a < b
    ensures |a| < |b|
  {
    assert !(forall x :: x in b ==> x in a);
    var missing :| missing in b && missing !in a;
    SubsetCardinality(a, b - {missing});
  }

  lemma {:induction false} SubsetCardinality<T>(a: set<T>, b: set<T>)
    requires a <= b
    ensures |a| <= |b|
  {
    if a != {} {
      var x :| x in a;
      SubsetCardinality(a - {x}, b - {x});
    }
  }

  const HighRiskHeading := "High Risk Detected"
  const NormalHeading := "Normal Condition"
  const CompletePrompt := "Complete all fields and click \"Evaluate\" to assess risk"
  const StartPrompt := "Enter patient details to evaluate heart disease risk"

  /** The text of the results panel: the verdict once evaluated, otherwise one of two prompts. */
  function ResultText(data: map<string, FormValue>, riskLevel: Option<RiskLevel>, isEvaluated: bool): string
  {
    if isEvaluated then (if riskLevel == Some(High) then HighRiskHeading else NormalHeading)
    else if |data| > 0 then CompletePrompt
    else StartPrompt
  }

  /** Before an evaluation the panel asks to complete the form exactly when something has been
      entered, and to start entering otherwise; after one it shows the verdict for the risk level. */
  lemma ResultTextChoice(data: map<string, FormValue>, riskLevel: Option<RiskLevel>, isEvaluated: bool)
    ensures !isEvaluated ==> (ResultText(data, riskLevel, isEvaluated) == CompletePrompt <==> |data| > 0)
    ensures !isEvaluated ==> (ResultText(data, riskLevel, isEvaluated) == StartPrompt <==> |data| == 0)
    ensures isEvaluated ==> (ResultText(data, riskLevel, isEvaluated) == HighRiskHeading <==> riskLevel == Some(High))
    ensures isEvaluated ==> (ResultText(data, riskLevel, isEvaluated) == NormalHeading <==> riskLevel != Some(High))
  {
    assert |CompletePrompt| != |StartPrompt|;
    assert |HighRiskHeading| != |NormalHeading|;
  }

  /** The page's three `useState` hooks. */
  class PredictionState {
    var formData: map<string, FormValue>
    var riskLevel: Option<RiskLevel>
    var isEvaluated: bool

    /** Only form names are keys, and a shown result always has a risk level. */
    predicate Valid()
      reads this
    {
      formData.Keys <= FormFields && (isEvaluated ==> riskLevel.Some?)
    }

    constructor ()
      ensures Valid()
      ensures formData == map[] && riskLevel == None && !isEvaluated
    {
      formData, riskLevel, isEvaluated := map[], None, false;
    }

    /** `handleChange` for the control called `name`: updates one key and marks the shown
        result as stale. */
    method HandleChange(name: string, value: string, toNumber: string -> real)
      requires Valid() && name in FormFields
      modifies this
      ensures Valid()
      ensures formData == ChangedData(old(formData), name, value, toNumber)
      ensures riskLevel == old(riskLevel) && !isEvaluated
    {
      formData := ChangedData(formData, name, value, toNumber);
      isEvaluated := false;
    }

    /** The state updates of `handleSubmit` once the prediction has arrived. The submit button
        is disabled unless `isFormValid`, so the form can only be submitted complete. */
    method HandleSubmit(prediction: int)
      requires Valid() && FormComplete(formData)
      modifies this
      ensures Valid()
      ensures formData == old(formData)
      ensures riskLevel == Some(RiskFor(prediction)) && isEvaluated
    {
      riskLevel := Some(RiskFor(prediction));
      isEvaluated := true;
    }

    /** `isFormValid`: the gate HandleSubmit requires, since the submit button is disabled
        exactly when it is false. */
    function IsFormValid(): (r: bool)
      requires Valid()
      reads this
      ensures r <==> formData.Keys == FormFields
    {
      FormCompleteIffAllFieldsPresent(formData);
      FormComplete(formData)
    }

    /** The results panel for the current state. Because of `Valid()`, a shown verdict always
        comes from a prediction that was actually received. */
    function ResultPanel(): (r: string)
      requires Valid()
      reads this
      ensures isEvaluated ==> riskLevel.Some? && (r == HighRiskHeading <==> riskLevel.value == High)
      ensures isEvaluated ==> (r == NormalHeading <==> riskLevel.value == NormalRisk)
      ensures !isEvaluated ==> (r == CompletePrompt <==> |formData| > 0)
      ensures !isEvaluated ==> (r == StartPrompt <==> |formData| == 0)
    {
      ResultTextChoice(formData, riskLevel, isEvaluated);
      assert isEvaluated ==> riskLevel.Some?;
      assert riskLevel.Some? ==> riskLevel.value.High? || riskLevel.value.NormalRisk?;
      ResultText(formData, riskLevel, isEvaluated)
    }
  }
}
