/** The SQL text and parameter list that `get_patients` (backend/main.py) builds
    from its four optional query parameters, a small evaluator giving the
    generated conditions their SQL meaning, and the proof that this backend
    predicate agrees with the frontend's client-side filter. */
module PatientsQuery {
  import opened PatientTypes
  import opened PatientFilter

  /** A value bound to a `?` placeholder. */
  datatype SqlValue = SqlInt(i: int) | SqlText(s: string)

  /** The four condition fragments `get_patients` can append, named after what they test. */
  datatype Condition = AgeAtLeast | AgeAtMost | SexEquals | HeartDiseaseEquals

  /** The SQL text of each fragment. */
  function Text(cond: Condition): string
  {
    match cond
    case AgeAtLeast => "Age >= ?"
    case AgeAtMost => "Age <= ?"
    case SexEquals => "Sex = ?"
    case HeartDiseaseEquals => "HeartDisease = ?"
  }

  function Texts(conds: seq<Condition>): (r: seq<string>)
    ensures |r| == |conds|
    ensures forall i :: 0 <= i < |conds| ==> r[i] == Text(conds[i])
  {
    if conds == [] then [] else [Text(conds[0])] + Texts(conds[1..])
  }

  /** Python's `sep.join(xs)`. */
  function Join(xs: seq<string>, sep: string): string
  {
    if |xs| == 0 then ""
    else if |xs| == 1 then xs[0]
    else xs[0] + sep + Join(xs[1..], sep)
  }

  /** Number of occurrences of `ch` in `s`. */
  function CountChar(s: string, ch: char): nat
  {
    if s == [] then 0 else (if s[0] == ch then 1 else 0) + CountChar(s[1..], ch)
  }

  const SelectPrefix: string := "SELECT * FROM patients "

  /** The clause interpolated after the table name: empty without filters,
      otherwise "WHERE " and the condition texts joined by " AND ". */
  function WhereClause(filters: seq<Condition>): string
  {
    if filters == [] then "" else "WHERE " + Join(Texts(filters), " AND ")
  }

  /** The conditions `get_patients` appends, in its order, one per set parameter. */
  function Conditions(c: Criteria): seq<Condition>
  {
    (if c.ageMin.Some? then [AgeAtLeast] else [])
    + (if c.ageMax.Some? then [AgeAtMost] else [])
    + (if c.sex.Some? then [SexEquals] else [])
    + (if c.heartDisease.Some? then [HeartDiseaseEquals] else [])
  }

  /** The parameters `get_patients` appends alongside the conditions. */
  function Params(c: Criteria): seq<SqlValue>
  {
    (if c.ageMin.Some? then [SqlInt(c.ageMin.value)] else [])
    + (if c.ageMax.Some? then [SqlInt(c.ageMax.value)] else [])
    + (if c.sex.Some? then [SqlText(SexText(c.sex.value))] else [])
    + (if c.heartDisease.Some? then [SqlInt(c.heartDisease.value)] else [])
  }

  /** Position of a condition in the builder's fixed order. */
  function Rank(cond: Condition): nat
  {
    match cond
    case AgeAtLeast => 0
    case AgeAtMost => 1
    case SexEquals => 2
    case HeartDiseaseEquals => 3
  }

  /** The parameter that belongs to a condition under criteria `c`, when that criterion is set. */
  function ParamFor(c: Criteria, cond: Condition): Option<SqlValue>
  {
    match cond
    case AgeAtLeast => if c.ageMin.Some? then Some(SqlInt(c.ageMin.value)) else None
    case AgeAtMost => if c.ageMax.Some? then Some(SqlInt(c.ageMax.value)) else None
    case SexEquals => if c.sex.Some? then Some(SqlText(SexText(c.sex.value))) else None
    case HeartDiseaseEquals => if c.heartDisease.Some? then Some(SqlInt(c.heartDisease.value)) else None
  }

  /** What one generated condition means for a row once its placeholder is bound to `v`.
      A value of the wrong kind matches nothing. */
  predicate ConditionHolds(cond: Condition, v: SqlValue, row: Patient)
  {
    match cond
    case AgeAtLeast => v.SqlInt? && row.age >= v.i
    case AgeAtMost => v.SqlInt? && row.age <= v.i
    case SexEquals => v.SqlText? && SexText(row.sex) == v.s
    case HeartDiseaseEquals => v.SqlInt? && row.heartDisease == v.i
  }

  /** A row satisfies the WHERE clause when it satisfies every condition joined by AND,
      the i-th placeholder bound to the i-th parameter. */
  predicate WhereHolds(filters: seq<Condition>, params: seq<SqlValue>, row: Patient)
    requires |filters| == |params|
  {
    filters == [] || (ConditionHolds(filters[0], params[0], row) && WhereHolds(filters[1..], params[1..], row))
  }

  lemma {:induction false} WhereHoldsAppend(f1: seq<Condition>, p1: seq<SqlValue>, f2: seq<Condition>, p2: seq<SqlValue>, row: Patient)
    requires |f1| == |p1| && |f2| == |p2|
    ensures WhereHolds(f1 + f2, p1 + p2, row) <==> WhereHolds(f1, p1, row) && WhereHolds(f2, p2, row)
  {
    if f1 != [] {
      assert (f1 + f2)[1..] == f1[1..] + f2;
      assert (p1 + p2)[1..] == p1[1..] + p2;
      WhereHoldsAppend(f1[1..], p1[1..], f2, p2, row);
    } else {
      assert f1 + f2 == f2 && p1 + p2 == p2;
    }
  }

  lemma SexTextInjective(a: Sex, b: Sex)
    ensures SexText(a) == SexText(b) <==> a == b
  {
    if a != b {
      assert SexText(a)[0] != SexText(b)[0];
    }
  }

  /** One condition and one parameter per set criterion; none at all exactly when no criterion is set. */
  lemma ParamsMatchConditions(c: Criteria)
    ensures |Params(c)| == |Conditions(c)|
    ensures Conditions(c) == [] <==> c == Unset
  {
  }

  /** The i-th parameter is the value of the criterion whose condition is the i-th one. */
  lemma ParamsBelongToConditions(c: Criteria)
    ensures |Params(c)| == |Conditions(c)|
    ensures forall i :: 0 <= i < |Conditions(c)| ==> ParamFor(c, Conditions(c)[i]) == Some(Params(c)[i])
  {
  }

  /** Conditions appear in the fixed order age_min, age_max, gender, heart_disease,
      so each appears at most once, and a condition is present exactly when its criterion is set. */
  lemma ConditionsInFixedOrder(c: Criteria)
    ensures forall i, j :: 0 <= i < j < |Conditions(c)| ==> Rank(Conditions(c)[i]) < Rank(Conditions(c)[j])
    ensures AgeAtLeast in Conditions(c) <==> c.ageMin.Some?
    ensures AgeAtMost in Conditions(c) <==> c.ageMax.Some?
    ensures SexEquals in Conditions(c) <==> c.sex.Some?
    ensures HeartDiseaseEquals in Conditions(c) <==> c.heartDisease.Some?
  {
  }

  lemma {:induction false} CountCharAppend(a: string, b: string, ch: char)
    ensures CountChar(a + b, ch) == CountChar(a, ch) + CountChar(b, ch)
  {
    if a != [] {
      assert (a + b)[1..] == a[1..] + b;
      CountCharAppend(a[1..], b, ch);
    } else {
      assert a + b == b;
    }
  }

  lemma {:induction false} CountCharAbsent(s: string, ch: char)
    requires ch !in s
    ensures CountChar(s, ch) == 0
  {
    if s != [] {
      assert ch !in s[1..];
      CountCharAbsent(s[1..], ch);
    }
  }

  /** Joining strings that each hold one `ch` with a separator that holds none gives one `ch` per string. */
  lemma {:induction false} CountCharJoin(xs: seq<string>, sep: string, ch: char)
    requires forall i :: 0 <= i < |xs| ==> CountChar(xs[i], ch) == 1
    requires CountChar(sep, ch) == 0
    ensures CountChar(Join(xs, sep), ch) == |xs|
  {
    if |xs| > 1 {
      CountCharJoin(xs[1..], sep, ch);
      CountCharAppend(xs[0], sep, ch);
      CountCharAppend(xs[0] + sep, Join(xs[1..], sep), ch);
    }
  }

  /** Each fragment carries exactly one placeholder, at its end. */
  lemma OnePlaceholderPerCondition(cond: Condition)
    ensures CountChar(Text(cond), '?') == 1
  {
    var body := Text(cond)[..|Text(cond)| - 1];
    assert Text(cond) == body + "?";
    assert '?' !in body;
    CountCharAbsent(body, '?');
    CountCharAppend(body, "?", '?');
  }

  /** The fixed parts of the query carry no placeholder. */
  lemma NoPlaceholderInSelect()
    ensures CountChar(SelectPrefix, '?') == 0
  {
    CountCharAbsent(SelectPrefix, '?');
  }

  lemma NoPlaceholderInKeywords()
    ensures CountChar("WHERE ", '?') == 0
    ensures CountChar(" AND ", '?') == 0
  {
    CountCharAbsent("WHERE ", '?');
    CountCharAbsent(" AND ", '?');
  }

  /** The number of `?` placeholders in the WHERE clause equals the number of conditions. */
  lemma PlaceholdersInWhereClause(fs: seq<Condition>)
    ensures CountChar(WhereClause(fs), '?') == |fs|
  {
    if fs != [] {
      var texts := Texts(fs);
      NoPlaceholderInKeywords();
      forall i | 0 <= i < |texts| ensures CountChar(texts[i], '?') == 1 {
        OnePlaceholderPerCondition(fs[i]);
      }
      CountCharJoin(texts, " AND ", '?');
      CountCharAppend("WHERE ", Join(texts, " AND "), '?');
    }
  }

  /** The number of `?` placeholders in the query equals the number of parameters. */
  lemma PlaceholdersMatchParams(c: Criteria)
    ensures CountChar(SelectPrefix + WhereClause(Conditions(c)), '?') == |Params(c)|
  {
    var w := WhereClause(Conditions(c));
    PlaceholdersInWhereClause(Conditions(c));
    NoPlaceholderInSelect();
    CountCharAppend(SelectPrefix, w, '?');
  }

  lemma WhereHoldsSingle(cond: Condition, v: SqlValue, row: Patient)
    ensures WhereHolds([cond], [v], row) <==> ConditionHolds(cond, v, row)
  {
  }

  /** A row satisfies the generated WHERE clause exactly when the frontend filter keeps it
      under the same criteria. */
  lemma WhereAgreesWithFrontendFilter(c: Criteria, row: Patient)
    ensures |Params(c)| == |Conditions(c)|
    ensures WhereHolds(Conditions(c), Params(c), row) <==> Keeps(c, row)
  {
    var f1 := if c.ageMin.Some? then [AgeAtLeast] else [];
    var f2 := if c.ageMax.Some? then [AgeAtMost] else [];
    var f3 := if c.sex.Some? then [SexEquals] else [];
    var f4 := if c.heartDisease.Some? then [HeartDiseaseEquals] else [];
    var p1 := if c.ageMin.Some? then [SqlInt(c.ageMin.value)] else [];
    var p2 := if c.ageMax.Some? then [SqlInt(c.ageMax.value)] else [];
    var p3 := if c.sex.Some? then [SqlText(SexText(c.sex.value))] else [];
    var p4 := if c.heartDisease.Some? then [SqlInt(c.heartDisease.value)] else [];
    WhereHoldsAppend(f1 + f2 + f3, p1 + p2 + p3, f4, p4, row);
    WhereHoldsAppend(f1 + f2, p1 + p2, f3, p3, row);
    WhereHoldsAppend(f1, p1, f2, p2, row);
    if c.sex.Some? {
      SexTextInjective(row.sex, c.sex.value);
    }
    KeepsIffEverySetCriterion(c, row);
  }

  /** `get_patients` up to the query execution: one condition and one parameter are appended
      per given query parameter, then the conditions are joined into the WHERE clause. */
  method GetPatientsQuery(ageMin: Option<int>, ageMax: Option<int>, gender: Option<Sex>, heartDisease: Option<Bit>)
    returns (filters: seq<Condition>, params: seq<SqlValue>, query: string)
    ensures filters == Conditions(Criteria(ageMin, ageMax, gender, heartDisease))
    ensures params == Params(Criteria(ageMin, ageMax, gender, heartDisease))
    ensures |params| == |filters| == CountChar(query, '?')
    ensures filters == [] ==> query == "SELECT * FROM patients "
    ensures filters != [] ==> query == SelectPrefix + "WHERE " + Join(Texts(filters), " AND ")
    ensures forall row :: WhereHolds(filters, params, row) <==> Keeps(Criteria(ageMin, ageMax, gender, heartDisease), row)
  {
    ghost var c := Criteria(ageMin, ageMax, gender, heartDisease);
    ghost var f1, p1 := if ageMin.Some? then [AgeAtLeast] else [], if ageMin.Some? then [SqlInt(ageMin.value)] else [];
    ghost var f2, p2 := if ageMax.Some? then [AgeAtMost] else [], if ageMax.Some? then [SqlInt(ageMax.value)] else [];
    ghost var f3, p3 := if gender.Some? then [SexEquals] else [], if gender.Some? then [SqlText(SexText(gender.value))] else [];
    ghost var f4, p4 := if heartDisease.Some? then [HeartDiseaseEquals] else [], if heartDisease.Some? then [SqlInt(heartDisease.value)] else [];
    filters := [];
    params := [];
    if ageMin.Some? {
      filters := filters + [AgeAtLeast];
      params := params + [SqlInt(ageMin.value)];
    }
    assert filters == f1 && params == p1;
    if ageMax.Some? {
      filters := filters + [AgeAtMost];
      params := params + [SqlInt(ageMax.value)];
    }
    assert filters == f1 + f2 && params == p1 + p2;
    if gender.Some? {
      filters := filters + [SexEquals];
      params := params + [SqlText(SexText(gender.value))];
    }
    assert filters == f1 + f2 + f3 && params == p1 + p2 + p3;
    if heartDisease.Some? {
      filters := filters + [HeartDiseaseEquals];
      params := params + [SqlInt(heartDisease.value)];
    }
    assert filters == f1 + f2 + f3 + f4 && params == p1 + p2 + p3 + p4;
    assert filters == Conditions(c) && params == Params(c);
    var whereClause := "";
    if filters != [] {
      whereClause := "WHERE " + Join(Texts(filters), " AND ");
    }
    query := SelectPrefix + whereClause;
    assert whereClause == WhereClause(filters);
    PlaceholdersMatchParams(c);
    forall row ensures WhereHolds(filters, params, row) <==> Keeps(c, row) {
      WhereAgreesWithFrontendFilter(c, row);
    }
  }
}
