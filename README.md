# Heart-disease dashboard: filters, queries, validation and KPIs in Dafny

This project models the decision logic of a small heart-disease dashboard. The dashboard has a React
frontend and a FastAPI backend backed by SQLite. Every piece works on one patient record: age, sex,
chest-pain type, resting blood pressure, cholesterol, fasting blood sugar, resting ECG, maximum heart
rate, exercise angina, Oldpeak, ST slope and the 0/1 heart-disease flag.

- `patient_types.dfy` (`PatientTypes`): the record, its enumerations and their texts.
- `patient_filter.dfy` (`PatientFilter`): the patient table's client-side filter. It has four
  optional criteria combined by AND, held as component state with setters and a Reset button.
- `patients_query.dfy` (`PatientsQuery`): the `/patients` endpoint's SQL builder. One condition and
  one parameter are appended per query parameter and joined into a `WHERE` clause. A small
  evaluator gives the generated conditions their SQL meaning.
- `patient_schema.dfy` (`PatientSchema`): the request-body validation of the `PatientBase` and
  `Patient` models. Each field has a range or literal constraint, and extra keys are forbidden.
- `diagnosis_label.dfy` (`DiagnosisLabel`): the two texts the backend gives a 0/1 diagnosis.
- `analysis.dfy` (`Analysis`): the analytics page's figures (patient count, high-risk count,
  average cholesterol, hypertension rate, high-risk percentage and trend) and its four KPI cards.
- `kpi_card.dfy` (`KpiCard`): the KPI card's danger predicate and its value formatting.
- `prediction_form.dfy` (`PredictionForm`): the prediction form's state. It holds a partial map of
  the eleven inputs, the risk level and the "evaluated" flag.
- `sample_data.dfy` (`SampleData`): the three placeholder records of the patients page, with the
  figures computed from them.

The filter, the form and the query builder change state in the source. The filter and the form are
classes whose methods update fields. The query builder is a method that appends to two sequences.
Each is specified by pure functions, and the properties are proved as lemmas about those functions.
Arithmetic is exact: integers and `real` stand in for JavaScript numbers. The browser's
`toLocaleString`, `Number(text)` on form input and the prediction service are passed in as
parameters.

## Model

| member | source | states |
|---|---|---|
| PatientFilter.Keeps | frontend/src/components/PatientTableWithFilters.tsx:17-23 | the filter callback with its four early returns in source order; its meaning is stated by KeepsIffEverySetCriterion |
| PatientFilter.KeepsIffEverySetCriterion | frontend/src/components/PatientTableWithFilters.tsx:17-23 | the early-return filter callback keeps a patient iff every set criterion holds (AND of the set criteria) |
| PatientFilter.AgeBoundsInclusive | frontend/src/components/PatientTableWithFilters.tsx:18-19 | with only age criteria set, an age equal to ageMin or to ageMax (and within the other bound) is kept |
| PatientFilter.AgeOutsideBoundsDropped | frontend/src/components/PatientTableWithFilters.tsx:18-19 | whatever the other criteria, an age below a set ageMin or above a set ageMax is dropped |
| PatientFilter.CategoricalCriteriaNeedExactMatch | frontend/src/components/PatientTableWithFilters.tsx:20-21 | a set sex or heart-disease criterion keeps only patients whose field equals it |
| PatientFilter.Filter | frontend/src/components/PatientTableWithFilters.tsx:17-23 | the result is no longer than the input and holds exactly the input patients the callback keeps |
| PatientFilter.FilterIsSubsequence | frontend/src/components/PatientTableWithFilters.tsx:17 | the filtered list is an order-preserving subsequence of the input |
| PatientFilter.FilterUnsetIsIdentity | frontend/src/components/PatientTableWithFilters.tsx:17-23 | with all four criteria unset the filtered list is the input |
| PatientFilter.FilterIdempotent | frontend/src/components/PatientTableWithFilters.tsx:17-23 | filtering the filtered list again with the same criteria returns it unchanged |
| PatientFilter.FilterEmptyWhenAgeBoundsCross | frontend/src/components/PatientTableWithFilters.tsx:18-19 | with ageMin > ageMax, both set, no patient is kept |
| PatientFilter.FilterState.Filtered | frontend/src/components/PatientTableWithFilters.tsx:17-23 | the table's rows are a subsequence of the patients and hold exactly those meeting every criterion of the current state |
| PatientFilter.FilterState.constructor | frontend/src/components/PatientTableWithFilters.tsx:11-14 | all four criteria start unset |
| PatientFilter.FilterState.SetAgeMin | frontend/src/components/PatientTableWithFilters.tsx:36 | replaces ageMin and leaves the other three criteria as they were |
| PatientFilter.FilterState.SetAgeMax | frontend/src/components/PatientTableWithFilters.tsx:48 | replaces ageMax and leaves the other three criteria as they were |
| PatientFilter.FilterState.SetSex | frontend/src/components/PatientTableWithFilters.tsx:58 | replaces sex and leaves the other three criteria as they were |
| PatientFilter.FilterState.SetHeartDisease | frontend/src/components/PatientTableWithFilters.tsx:71-73 | replaces heartDisease and leaves the other three criteria as they were |
| PatientFilter.FilterState.Reset | frontend/src/components/PatientTableWithFilters.tsx:84-86 | all four criteria become unset, after which the table shows every patient unchanged |
| PatientsQuery.Conditions | backend/main.py:96-107 | the conditions appended, one per given query parameter, in the order age_min, age_max, gender, heart_disease; pinned by ConditionsInFixedOrder |
| PatientsQuery.Params | backend/main.py:96-107 | the parameters appended beside the conditions; pinned by ParamsBelongToConditions |
| PatientsQuery.WhereClause | backend/main.py:109-112 | "" without conditions, otherwise "WHERE " and the condition texts joined by " AND "; its placeholders are counted by PlaceholdersInWhereClause |
| PatientsQuery.ParamsMatchConditions | backend/main.py:93-107 | as many parameters as conditions; no condition at all iff no query parameter is given |
| PatientsQuery.ParamsBelongToConditions | backend/main.py:96-107 | the i-th parameter is the value of the query parameter whose condition is the i-th |
| PatientsQuery.ConditionsInFixedOrder | backend/main.py:96-107 | conditions follow the order age_min, age_max, gender, heart_disease, each at most once, and each is present iff its parameter is given |
| PatientsQuery.OnePlaceholderPerCondition | backend/main.py:97-106 | each condition text carries exactly one `?` |
| PatientsQuery.PlaceholdersInWhereClause | backend/main.py:109-112 | the WHERE clause holds one `?` per condition |
| PatientsQuery.PlaceholdersMatchParams | backend/main.py:93-114 | the full query holds exactly as many `?` as there are parameters |
| PatientsQuery.WhereAgreesWithFrontendFilter | backend/main.py:96-107 | a row satisfies the generated WHERE conditions with their parameters iff the frontend filter keeps it under the same criteria |
| PatientsQuery.GetPatientsQuery | backend/main.py:93-114 | the appended conditions and parameters are the fixed-order ones; their counts equal the query's `?` count; with no filter the query is exactly "SELECT * FROM patients " with its trailing space, otherwise it ends in "WHERE " and the conditions joined by " AND "; its rows are exactly those the frontend filter keeps |
| PatientSchema.FieldErrors | backend/main.py:41-52 | no field error iff every declared field is present and admitted by its constraint |
| PatientSchema.BaseFieldsAdmittedIffRangesHold | backend/main.py:42-52 | the schema's field constraints hold iff 0≤Age≤120, 0≤RestingBP≤300, 0≤Cholesterol≤1000, 60≤MaxHR≤202, -3≤Oldpeak≤10 and every categorical field is in its literal set |
| PatientSchema.BaseNamesAreSchemaNames | backend/main.py:41-52 | the set of accepted key names is exactly the set of field names declared in the schema |
| PatientSchema.DecodeInput | backend/main.py:41-52 | the typed record carries each payload field's value |
| PatientSchema.ValidatePatientBase | backend/main.py:41-55 | a body is accepted iff every field is in its declared range or literal set and no other key is present; an accepted body yields its decoded record; a rejected one reports exactly the extra keys |
| PatientSchema.PatientFieldsAdmittedIffRangesHold | backend/main.py:57-59 | the `Patient` constraints hold iff the `PatientBase` ranges hold, "id" is an integer and HeartDisease is 0 or 1 |
| PatientSchema.ValidatePatient | backend/main.py:57-62 | a body is accepted iff the `Patient` constraints hold and no key other than the declared ones (with "id" for PatientID) is present; the accepted record carries the body's eleven decoded fields, its "id" and its HeartDisease; a rejection reports the extra keys |
| PatientSchema.ExtraKeyRejected | backend/main.py:54-62 | a key that neither model declares makes both reject the body and is reported as extra |
| PatientSchema.FieldNameInsteadOfAliasRejected | backend/main.py:58 | a body that spells "PatientID" instead of its alias "id" is rejected |
| PatientSchema.EncodeInput | backend/main.py:41-52 | a record's JSON body has exactly the eleven declared keys |
| PatientSchema.EncodeThenValidate | backend/main.py:41-55 | a record within the declared ranges is encoded and validated back to itself; one outside them is rejected |
| DiagnosisLabel.FlagText | backend/main.py:39-40 | `HeartDiseaseFlag.__str__`: "Heart Disease" for 1, "Normal" otherwise; related to the label by LabelsAgree |
| DiagnosisLabel.PredictionLabel | backend/main.py:78 | `prediction_label`: "Heart Disease" for a result of 1, "Normal" for any other |
| DiagnosisLabel.LabelsAgree | backend/main.py:39-78 | `HeartDiseaseFlag.__str__` and `prediction_label` agree on every flag: 1 is "Heart Disease", 0 is "Normal" |
| Analysis.HighRiskPatients | frontend/src/pages/dashboard/AnalysisPage.tsx:13 | the high-risk count never exceeds the total number of patients |
| Analysis.HighRiskIsFilteredRowCount | frontend/src/pages/dashboard/AnalysisPage.tsx:13 | the high-risk count is the row count of the patient table filtered to heart disease = 1 |
| Analysis.HypertensivePatients | frontend/src/pages/dashboard/AnalysisPage.tsx:15 | the hypertensive count never exceeds the total number of patients |
| Analysis.HypertensiveCountAppend | frontend/src/pages/dashboard/AnalysisPage.tsx:15 | one more patient raises the hypertensive count exactly when its RestingBP is 140 or more (inclusive threshold) |
| Analysis.CholesterolSum | frontend/src/pages/dashboard/AnalysisPage.tsx:14 | the `reduce` sum of cholesterol values; bounded by CholesterolSumBounds and pinned on the sample records by DummyFigures |
| Analysis.GuardedLength | frontend/src/pages/dashboard/AnalysisPage.tsx:14-15 | the length-or-1 divisor is at least 1 and is the length for a non-empty list |
| Analysis.AvgCholesterol | frontend/src/pages/dashboard/AnalysisPage.tsx:14 | the average cholesterol of an empty list is 0 |
| Analysis.AvgCholesterolBetweenMinAndMax | frontend/src/pages/dashboard/AnalysisPage.tsx:14 | on a non-empty list the smallest cholesterol ≤ average ≤ the largest |
| Analysis.HypertensionRate | frontend/src/pages/dashboard/AnalysisPage.tsx:15 | the rate lies between 0 and 100 and is 0 for an empty list |
| Analysis.HighRiskPercentAsWritten | frontend/src/pages/dashboard/AnalysisPage.tsx:31 | the unguarded percentage, `None` standing for NaN on an empty list |
| Analysis.EmptyListHighRiskIsNaN | frontend/src/pages/dashboard/AnalysisPage.tsx:31 | the unguarded high-risk percentage of an empty list is 0/0, NaN |
| Analysis.HighRiskPercent | frontend/src/pages/dashboard/AnalysisPage.tsx:31 | the guarded percentage lies between 0 and 100, is 0 for an empty list and equals the page's percentage on every non-empty list |
| Analysis.HighRiskTrend | frontend/src/pages/dashboard/AnalysisPage.tsx:34 | the trend is up iff strictly more than half of the patients are high risk, otherwise down |
| Analysis.ToFixed0 | frontend/src/pages/dashboard/AnalysisPage.tsx:40 | `toFixed(0)` yields the integer nearest its argument, halves rounded away from zero |
| Analysis.AnalysisCards | frontend/src/pages/dashboard/AnalysisPage.tsx:22-54 | four cards in page order, all numeric: the patient count without unit; the rounded high-risk percentage with "%" and the trend (equal to the page's value on every non-empty list); the rounded average cholesterol with "mg/dL" and threshold 200; the rounded hypertension rate with "%" and threshold 30; only the high-risk card has a trend; percentages lie in 0..100; an empty list shows 0 on every card |
| Analysis.CardDangerRules | frontend/src/pages/dashboard/AnalysisPage.tsx:38-53 | the first two cards never warn; the cholesterol card warns iff the rounded average exceeds 200; the hypertension card warns iff the rounded rate exceeds 30 |
| SampleData.DummyFigures | frontend/src/pages/dashboard/PatientsPage.tsx:6-50 | on the three placeholder records: 2 high risk, cholesterol sum 668 and average 668/3, no hypertensive patient and rate 0, trend up |
| SampleData.DummyCards | frontend/src/pages/dashboard/PatientsPage.tsx:6-50 | on those records the cards show 67 % high risk and average cholesterol 223, which triggers the warning; the hypertension card does not warn |
| SampleData.DummyFilters | frontend/src/pages/dashboard/PatientsPage.tsx:6-50 | on those records ageMin 60 keeps the 72-year-old only, heart disease = 1 keeps the last two, and ages 55–60 with sex M keep the 58-year-old only |
| KpiCard.DangerNeedsNumberAboveThreshold | frontend/src/components/KPICard.tsx:13 | no threshold means no danger, a string value is never dangerous, a value equal to the threshold is not dangerous, one above it is |
| KpiCard.IsDanger | frontend/src/components/KPICard.tsx:13 | a threshold is given, the value is a number and it is strictly above the threshold; cases stated by DangerNeedsNumberAboveThreshold |
| KpiCard.DecimalString | frontend/src/components/KPICard.tsx:17 | `toFixed(0)` of an integer: a minus sign for negatives, then its digits; read back by DecimalRoundTrip |
| KpiCard.DisplayValue | frontend/src/components/KPICard.tsx:16-18 | the displayed text: digits and unit for a number with a non-empty unit, the locale rendering without one, a string unchanged; shapes stated by DisplayShapes |
| KpiCard.Digits | frontend/src/components/KPICard.tsx:17 | an integer's rendering is non-empty, all decimal digits, without a leading zero |
| KpiCard.DecimalRoundTrip | frontend/src/components/KPICard.tsx:17 | the rendered integer reads back as the same integer |
| KpiCard.DisplayShapes | frontend/src/components/KPICard.tsx:16-18 | a numeric value with unit "%" shows its digits directly followed by "%"; with any other non-empty unit, its digits, one space, then the unit; a string value is shown unchanged |
| PredictionForm.StoredValue | frontend/src/pages/dashboard/PredictionPage.tsx:36-38 | `Number(value)` for the six numeric names, the text otherwise; stated by StoredTypes |
| PredictionForm.ChangedData | frontend/src/pages/dashboard/PredictionPage.tsx:28-40 | the `setFormData` updater: delete on "", set otherwise; stated by the four lemmas below |
| PredictionForm.ClearingRemovesOnlyThatKey | frontend/src/pages/dashboard/PredictionPage.tsx:29-32 | changing a field to "" removes that key and leaves every other key and value as it was |
| PredictionForm.SettingChangesOnlyThatKey | frontend/src/pages/dashboard/PredictionPage.tsx:34-39 | changing a field to a non-empty value sets that key and leaves every other key and value as it was |
| PredictionForm.StoredTypes | frontend/src/pages/dashboard/PredictionPage.tsx:36-38 | Age, RestingBP, Cholesterol, MaxHR, Oldpeak and FastingBS are stored as numbers, the other five fields as the entered text |
| PredictionForm.ChangeIdempotent | frontend/src/pages/dashboard/PredictionPage.tsx:28-40 | making the same change twice leaves the same form data as making it once |
| PredictionForm.RiskFor | frontend/src/pages/dashboard/PredictionPage.tsx:50 | the risk is high iff the prediction is 1, normal otherwise |
| PredictionForm.FormComplete | frontend/src/pages/dashboard/PredictionPage.tsx:55 | exactly eleven keys; related to the field names by FormCompleteIffAllFieldsPresent |
| PredictionForm.FormCompleteIffAllFieldsPresent | frontend/src/pages/dashboard/PredictionPage.tsx:55 | over the form's own names, eleven keys means every field has a value |
| PredictionForm.ClearingMakesIncomplete | frontend/src/pages/dashboard/PredictionPage.tsx:29-32 | clearing any field leaves the form incomplete |
| PredictionForm.FillingLastFieldCompletes | frontend/src/pages/dashboard/PredictionPage.tsx:34-39 | entering the only missing field completes the form |
| PredictionForm.ResultText | frontend/src/pages/dashboard/PredictionPage.tsx:246-276 | the verdict heading once evaluated, otherwise one of the two prompts; stated by ResultTextChoice |
| PredictionForm.ResultTextChoice | frontend/src/pages/dashboard/PredictionPage.tsx:246-276 | before evaluation the panel asks to complete the form iff some field is filled and to enter details iff none is; after evaluation it shows "High Risk Detected" iff the risk is high, else "Normal Condition" |
| PredictionForm.PredictionState.constructor | frontend/src/pages/dashboard/PredictionPage.tsx:22-24 | empty form data, no risk level, not evaluated |
| PredictionForm.PredictionState.HandleChange | frontend/src/pages/dashboard/PredictionPage.tsx:26-42 | the form data becomes the updated map, the risk level is kept and the result is marked not evaluated; only form names are ever keys |
| PredictionForm.PredictionState.HandleSubmit | frontend/src/pages/dashboard/PredictionPage.tsx:45-52 | callable only on a complete form (the submit button is disabled otherwise, line 234); the risk level becomes the one for the prediction, the result is marked evaluated and the form data is unchanged |
| PredictionForm.PredictionState.ResultPanel | frontend/src/pages/dashboard/PredictionPage.tsx:246-276 | in a valid state an evaluated panel always has a risk level and shows "High Risk Detected" iff it is high and "Normal Condition" iff it is normal; before evaluation it asks to complete the form iff a field is filled and to enter details iff none is |
| PredictionForm.PredictionState.IsFormValid | frontend/src/pages/dashboard/PredictionPage.tsx:55 | the form is valid, and submit enabled, iff all eleven fields have a value |

## Left out

- Network and asynchronous plumbing are left out: fetching patients, the prediction request, the patients context and its provider, and the error `alert`. The prediction arrives as the parameter of `PredictionState.HandleSubmit`.
- Also left out: the machine-learning model, the pandas data frames, SQLite execution, `add_patient` with its row id, and HTTP 500 handling. These are foreign libraries and I/O. The meaning of the generated SQL conditions is given by `PatientsQuery.WhereHolds`.
- The database build scripts are one-shot CSV to SQLite file I/O, and are left out.
- Rendering and navigation are left out: routes, sidebar, top bar, layout, cards, styling, and the static column list of the patient table.
- Pagination and grouped chart aggregation are not implemented in the source, so they are not modelled.
- KpiCard.DisplayValue: only integer values are modelled, and `toLocaleString` (locale-dependent) is a parameter. `toFixed(0)` renders an integer as plain decimal digits only below 10^21 in magnitude; from 10^21 up it switches to exponential notation ("1e+21"), which `DecimalString` does not model. No card value comes near that bound.
- Analysis.AnalysisCards: the high-risk card shows the guarded percentage `HighRiskPercent`, so on an empty patient list it shows 0 % where the page shows "NaN%" (see Findings). On every non-empty list the two agree.
- Analysis.ToFixed0: rounds exact reals. The page rounds IEEE-754 doubles, and the division and `* 100` before `toFixed` can push an exact half just below it: for 29 high-risk patients out of 200, `(29 / 200) * 100` is 14.499999999999998 in doubles, so the page shows 14 % where `ToFixed0(14.5)` is 15. Every statement that a card equals the page's value (`Analysis.AnalysisCards`, `Analysis.HighRiskPercent`) holds under exact arithmetic only.
- PredictionForm.PredictionState.HandleChange: `Number(value)` is a parameter, and its parsing of numeric text (including NaN results) is not modelled. The `name` must be one of the eleven form controls; in the page it always is.
- PatientFilter.FilterState.SetAgeMin and PatientFilter.FilterState.SetAgeMax: the criteria are integers, so a fractional or unparsable age bound typed into the input is not modelled.
- PatientSchema.ValidatePatientBase and PatientSchema.ValidatePatient: typing is strict. Pydantic's lax coercions are not modelled: numeric strings, integral floats, booleans as integers. Error messages are reduced to the failing field names.
- PatientsQuery.GetPatientsQuery: SQLite type affinity and parameter binding are not modelled. The gender parameter is compared as its text "M"/"F", and heart_disease as 0/1.
- Analysis.CholesterolSum: `p.Cholesterol || 0` replaces only a falsy value by 0. On the integers modelled here that is the value itself, so a missing cholesterol value is not modelled.
- SampleData.Dummies: the page's placeholder records have no `id`, although the record type requires one. They are numbered 1 to 3 here.
- The form inputs render `formData.Age || ""` and similar. A stored 0 therefore displays as an empty input while its key stays present. Only the stored map is modelled, not the rendered input values.

## Findings

| source | as written | input that shows it | evidently intended | confidence | as-written member | corrected member |
|---|---|---|---|---|---|---|
| frontend/src/pages/dashboard/AnalysisPage.tsx:31 | the high-risk percentage divides by `totalPatients` with no length-or-1 guard | an empty patient list: 0 / 0 is NaN, and the card shows "NaN%" | the same length-or-1 guard as lines 14-15, giving 0 % on an empty list | not executed | Analysis.HighRiskPercentAsWritten, Analysis.EmptyListHighRiskIsNaN | Analysis.HighRiskPercent |
