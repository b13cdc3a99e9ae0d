/** The two texts backend/main.py gives a diagnosis: `HeartDiseaseFlag.__str__`
    and the `prediction_label` of the `/predict` response. */
module DiagnosisLabel {
  import opened PatientTypes

  /** `HeartDiseaseFlag.__str__`: the enumeration's value is 0 or 1. */
  function FlagText(flag: Bit): string
  {
    if flag == 1 then "Heart Disease" else "Normal"
  }

  /** `prediction_label` for the integer the model returned; any value but 1 reads "Normal". */
  function PredictionLabel(result: int): string
  {
    if result == 1 then "Heart Disease" else "Normal"
  }

  /** The enumeration's text and the prediction label agree on every flag value:
      1 is "Heart Disease", 0 is "Normal", and the two texts differ. */
  lemma LabelsAgree(flag: Bit)
    ensures FlagText(flag) == PredictionLabel(flag)
    ensures FlagText(flag) == "Heart Disease" <==> flag == 1
    ensures FlagText(flag) == "Normal" <==> flag == 0
  {
    assert "Heart Disease" != "Normal" by {
      assert "Heart Disease"[0] != "Normal"[0];
    }
  }
}
