/** The three placeholder records the patients page hands to the filtered table
    (frontend/src/pages/dashboard/PatientsPage.tsx), and the figures the filter and the
    analytics page compute from them. The records carry no id; they are numbered 1 to 3 here. */
module SampleData {
  import opened PatientTypes
  import opened PatientFilter
  import opened KpiCard
  import opened Analysis

  const Dummies: seq<Patient> := [
    Patient(1, 52, M, ATA, 125, 212, 0, Normal, 168, N, 1.0, Up, 0),
    Patient(2, 72, F, ASY, 130, 258, 0, Normal, 150, Y, 1.0, Flat, 1),
    Patient(3, 58, M, ASY, 136, 198, 1, LVH, 174, N, 1.55, Down, 1)
  ]

  /** Two of the three are high risk, the cholesterol values sum to 668, none is hypertensive,
      and the trend points up. */
  lemma DummyFigures()
    ensures HighRiskPatients(Dummies) == 2
    ensures CholesterolSum(Dummies) == 668
    ensures AvgCholesterol(Dummies) == 668.0 / 3.0
    ensures HypertensivePatients(Dummies) == 0 && HypertensionRate(Dummies) == 0.0
    ensures HighRiskTrend(Dummies) == TrendUp
  {
    assert Dummies[1..][1..][1..] == [];
  }

  /** Rounded for the cards: 67 percent high risk, an average cholesterol of 223 (above the
      200 threshold, so that card is drawn as a warning) and a 0 percent hypertension rate. */
  lemma DummyCards()
    ensures ToFixed0(HighRiskPercent(Dummies)) == 67
    ensures ToFixed0(AvgCholesterol(Dummies)) == 223
    ensures IsDanger(AnalysisCards(Dummies)[2].value, AnalysisCards(Dummies)[2].dangerThreshold)
    ensures !IsDanger(AnalysisCards(Dummies)[3].value, AnalysisCards(Dummies)[3].dangerThreshold)
  {
    DummyFigures();
    assert HighRiskPercent(Dummies) == 200.0 / 3.0;
  }

  /** A minimum age of 60 keeps only the 72-year-old; heart disease = 1 keeps the last two. */
  lemma DummyFilters()
    ensures Filter(Dummies, Criteria(Some(60), None, None, None)) == [Dummies[1]]
    ensures Filter(Dummies, Criteria(None, None, None, Some(1))) == Dummies[1..]
    ensures Filter(Dummies, Criteria(Some(55), Some(60), Some(M), None)) == [Dummies[2]]
  {
    assert Dummies[1..][1..][1..] == [];
  }
}
