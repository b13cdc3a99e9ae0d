/** The analytics page's key figures (frontend/src/pages/dashboard/AnalysisPage.tsx):
    counts, the guarded average cholesterol and hypertension rate, the high-risk
    percentage with its trend, and the four KPI cards built from them. Arithmetic
    is exact (`int` and `real`), where the page uses floating point. */
module Analysis {
  import opened PatientTypes
  import opened PatientFilter
  import opened KpiCard

  /** `highRiskPatients`: how many patients have HeartDisease === 1. */
  function HighRiskPatients(ps: seq<Patient>): (r: nat)
    ensures r <= |ps|
  {
    if ps == [] then 0
    else (if ps[0].heartDisease == 1 then 1 else 0) + HighRiskPatients(ps[1..])
  }

  /** The high-risk count is the number of rows the patient table shows when filtered to
      heart disease = 1. */
  lemma {:induction false} HighRiskIsFilteredRowCount(ps: seq<Patient>)
    ensures HighRiskPatients(ps) == |Filter(ps, Criteria(None, None, None, Some(1)))|
  {
    if ps != [] {
      HighRiskIsFilteredRowCount(ps[1..]);
    }
  }

  /** The count of patients whose RestingBP is at least 140 (the hypertension threshold is inclusive). */
  function HypertensivePatients(ps: seq<Patient>): (r: nat)
    ensures r <= |ps|
  {
    if ps == [] then 0
    else (if ps[0].restingBP >= 140 then 1 else 0) + HypertensivePatients(ps[1..])
  }

  /** Adding one patient raises the hypertension count exactly when its RestingBP is 140 or more. */
  lemma {:induction false} HypertensiveCountAppend(ps: seq<Patient>, p: Patient)
    ensures HypertensivePatients(ps + [p]) == HypertensivePatients(ps) + (if p.restingBP >= 140 then 1 else 0)
  {
    if ps == [] {
      assert ps + [p] == [p];
    } else {
      assert (ps + [p])[1..] == ps[1..] + [p];
      HypertensiveCountAppend(ps[1..], p);
    }
  }

  /** The `reduce` sum of Cholesterol. `p.Cholesterol || 0` only replaces 0 (or a missing value)
      by 0, so on integers it is the value itself. */
  function CholesterolSum(ps: seq<Patient>): int
  {
    if ps == [] then 0 else ps[0].cholesterol + CholesterolSum(ps[1..])
  }

  /** `patients.length || 1`: the length, or 1 for an empty list. */
  function GuardedLength(ps: seq<Patient>): (r: nat)
    ensures r >= 1 && (ps != [] ==> r == |ps|)
  {
    if |ps| == 0 then 1 else |ps|
  }

  /** `avgCholesterol`. */
  function AvgCholesterol(ps: seq<Patient>): (r: real)
    ensures ps == [] ==> r == 0.0
  {
    CholesterolSum(ps) as real / GuardedLength(ps) as real
  }

  /** `hypertensionRate`: the percentage of patients with RestingBP >= 140. */
  function HypertensionRate(ps: seq<Patient>): (r: real)
    ensures ps == [] ==> r == 0.0
    ensures 0.0 <= r <= 100.0
  {
    var ratio := HypertensivePatients(ps) as real / GuardedLength(ps) as real;
    assert ratio <= 1.0 by {
      if ps != [] {
        assert HypertensivePatients(ps) as real <= GuardedLength(ps) as real;
      }
    }
    ratio * 100.0
  }

  function MinCholesterol(ps: seq<Patient>): (r: int)
    requires ps != []
    ensures forall i :: 0 <= i < |ps| ==> r <= ps[i].cholesterol
    ensures exists i :: 0 <= i < |ps| && ps[i].cholesterol == r
  {
    if |ps| == 1 then ps[0].cholesterol
    else
      var m := MinCholesterol(ps[1..]);
      if ps[0].cholesterol <= m then ps[0].cholesterol else m
  }

  function MaxCholesterol(ps: seq<Patient>): (r: int)
    requires ps != []
    ensures forall i :: 0 <= i < |ps| ==> ps[i].cholesterol <= r
    ensures exists i :: 0 <= i < |ps| && ps[i].cholesterol == r
  {
    if |ps| == 1 then ps[0].cholesterol
    else
      var m := MaxCholesterol(ps[1..]);
      if ps[0].cholesterol >= m then ps[0].cholesterol else m
  }

  lemma {:induction false} CholesterolSumBounds(ps: seq<Patient>, lo: int, hi: int)
    requires forall i :: 0 <= i < |ps| ==> lo <= ps[i].cholesterol <= hi
    ensures |ps| * lo <= CholesterolSum(ps) <= |ps| * hi
  {
    if ps != [] {
      CholesterolSumBounds(ps[1..], lo, hi);
      assert |ps| * lo == lo + (|ps| - 1) * lo;
      assert |ps| * hi == hi + (|ps| - 1) * hi;
    }
  }

  lemma ProductAsReal(a: int, b: int)
    ensures (a * b) as real == a as real * b as real
  {
  }

  /** Dividing a sum bounded by n * lo and n * hi by n gives a value between lo and hi. */
  lemma MeanBetween(sum: real, n: real, lo: real, hi: real)
    requires n > 0.0 && n * lo <= sum <= n * hi
    ensures lo <= sum / n <= hi
  {
    assert sum / n * n == sum;
  }

  /** On a non-empty list the average lies between the smallest and the largest cholesterol value. */
  lemma AvgCholesterolBetweenMinAndMax(ps: seq<Patient>)
    requires ps != []
    ensures MinCholesterol(ps) as real <= AvgCholesterol(ps) <= MaxCholesterol(ps) as real
  {
    var lo, hi, n := MinCholesterol(ps), MaxCholesterol(ps), |ps|;
    CholesterolSumBounds(ps, lo, hi);
    ProductAsReal(n, lo);
    ProductAsReal(n, hi);
    MeanBetween(CholesterolSum(ps) as real, n as real, lo as real, hi as real);
  }

  /** The high-risk percentage as the page writes it, `(highRiskPatients / totalPatients) * 100`,
      with no guard: on an empty list it is 0 / 0, NaN, represented here by `None`. */
  function HighRiskPercentAsWritten(ps: seq<Patient>): Option<real>
  {
    if |ps| == 0 then None else Some(HighRiskPatients(ps) as real / |ps| as real * 100.0)
  }

  /** An empty patient list makes the high-risk percentage NaN. */
  lemma EmptyListHighRiskIsNaN()
    ensures HighRiskPercentAsWritten([]) == None
  {
  }

  /** The high-risk percentage with the `|| 1` guard the page's other two rates use. */
  function HighRiskPercent(ps: seq<Patient>): (r: real)
    ensures 0.0 <= r <= 100.0
    ensures ps == [] ==> r == 0.0
    ensures ps != [] ==> HighRiskPercentAsWritten(ps) == Some(r)
  {
    var ratio := HighRiskPatients(ps) as real / GuardedLength(ps) as real;
    assert ratio <= 1.0 by {
      if ps != [] {
        assert HighRiskPatients(ps) as real <= GuardedLength(ps) as real;
      }
    }
    ratio * 100.0
  }

  /** The high-risk card's trend: up when more than half of the patients are high risk. */
  function HighRiskTrend(ps: seq<Patient>): (t: Trend)
    ensures t == TrendUp <==> 2 * HighRiskPatients(ps) > |ps|
  {
    if HighRiskPatients(ps) as real > |ps| as real / 2.0 then TrendUp else TrendDown
  }

  /** `Number(x.toFixed(0))` on an exact value: the nearest integer, halves rounded away from zero. */
  function ToFixed0(x: real): (n: int)
    ensures x >= 0.0 ==> x - 0.5 < n as real <= x + 0.5
    ensures x < 0.0 ==> x - 0.5 <= n as real < x + 0.5
  {
    if x >= 0.0 then (x + 0.5).Floor else -((-x + 0.5).Floor)
  }

  /** The four KPI cards, in page order. The high-risk card takes the guarded percentage
      `HighRiskPercent`, so on an empty list it shows 0 where the page computes NaN. */
  function AnalysisCards(ps: seq<Patient>): (cards: seq<CardProps>)
    ensures |cards| == 4
    ensures forall i :: 0 <= i < 4 ==> cards[i].value.Number?
    ensures cards[0].value == Number(|ps|) && cards[0].unit == None && cards[0].dangerThreshold == None
    ensures cards[1].value == Number(ToFixed0(HighRiskPercent(ps))) && cards[1].unit == Some("%")
    ensures cards[1].trend == Some(HighRiskTrend(ps)) && cards[1].dangerThreshold == None
    ensures ps != [] ==> cards[1].value == Number(ToFixed0(HighRiskPercentAsWritten(ps).value))
    ensures cards[2].value == Number(ToFixed0(AvgCholesterol(ps))) && cards[2].unit == Some("mg/dL")
    ensures cards[2].dangerThreshold == Some(200)
    ensures cards[3].value == Number(ToFixed0(HypertensionRate(ps))) && cards[3].unit == Some("%")
    ensures cards[3].dangerThreshold == Some(30)
    ensures forall i :: 0 <= i < 4 && i != 1 ==> cards[i].trend == None
    ensures ps == [] ==> forall i :: 0 <= i < 4 ==> cards[i].value == Number(0)
    ensures 0 <= cards[1].value.n <= 100 && 0 <= cards[3].value.n <= 100
  {
    [
      CardProps("Total Patients", Number(|ps|), None, None, None),
      CardProps("High Risk Patients", Number(ToFixed0(HighRiskPercent(ps))), Some("%"), Some(HighRiskTrend(ps)), None),
      CardProps("Avg. Cholesterol", Number(ToFixed0(AvgCholesterol(ps))), Some("mg/dL"), None, Some(200)),
      CardProps("Hypertension Rate", Number(ToFixed0(HypertensionRate(ps))), Some("%"), None, Some(30))
    ]
  }

  /** Only the cholesterol and hypertension cards can warn: the first when the rounded average
      exceeds 200, the second when the rounded rate exceeds 30 percent. */
  lemma CardDangerRules(ps: seq<Patient>)
    ensures !IsDanger(AnalysisCards(ps)[0].value, AnalysisCards(ps)[0].dangerThreshold)
    ensures !IsDanger(AnalysisCards(ps)[1].value, AnalysisCards(ps)[1].dangerThreshold)
    ensures IsDanger(AnalysisCards(ps)[2].value, AnalysisCards(ps)[2].dangerThreshold) <==> ToFixed0(AvgCholesterol(ps)) > 200
    ensures IsDanger(AnalysisCards(ps)[3].value, AnalysisCards(ps)[3].dangerThreshold) <==> ToFixed0(HypertensionRate(ps)) > 30
  {
  }
}
