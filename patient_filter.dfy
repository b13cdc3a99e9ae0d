/** The patient table's client-side filter
    (frontend/src/components/PatientTableWithFilters.tsx): four optional criteria,
    combined by AND inside `Array.filter`, held as component state that a Reset
    button clears. */
module PatientFilter {
  import opened PatientTypes

  /** The four criteria. `None` stands for the empty string the component stores
      when a criterion is unset; the backend's query parameters use the same
      shape with `None` for an absent parameter. */
  datatype Criteria = Criteria(
    ageMin: Option<int>,
    ageMax: Option<int>,
    sex: Option<Sex>,
    heartDisease: Option<Bit>
  )

  /** Every criterion unset: the initial state and the state after Reset. */
  const Unset := Criteria(None, None, None, None)

  /** The callback passed to `Array.filter`, with its early returns in source order. */
  predicate Keeps(c: Criteria, p: Patient) {
    if c.ageMin.Some? && p.age < c.ageMin.value then false
    else if c.ageMax.Some? && p.age > c.ageMax.value then false
    else if c.sex.Some? && p.sex != c.sex.value then false
    else if c.heartDisease.Some? && p.heartDisease != c.heartDisease.value then false
    else true
  }

  /** Reference meaning of the criteria: every criterion that is set holds of the patient. */
  predicate SatisfiesEverySetCriterion(c: Criteria, p: Patient) {
    && (c.ageMin.Some? ==> c.ageMin.value <= p.age)
    && (c.ageMax.Some? ==> p.age <= c.ageMax.value)
    && (c.sex.Some? ==> p.sex == c.sex.value)
    && (c.heartDisease.Some? ==> p.heartDisease == c.heartDisease.value)
  }

  /** The early-return callback keeps a patient exactly when every set criterion holds. */
  lemma KeepsIffEverySetCriterion(c: Criteria, p: Patient)
    ensures Keeps(c, p) <==> SatisfiesEverySetCriterion(c, p)
  {
  }

  /** Age bounds are inclusive at both ends: with only age criteria set, an age equal to a
      bound is kept. */
  lemma AgeBoundsInclusive(c: Criteria, p: Patient)
    requires c.sex.None? && c.heartDisease.None?
    ensures c.ageMin == Some(p.age) && (c.ageMax.None? || p.age <= c.ageMax.value) ==> Keeps(c, p)
    ensures c.ageMax == Some(p.age) && (c.ageMin.None? || c.ageMin.value <= p.age) ==> Keeps(c, p)
  {
  }

  /** Whatever the other criteria, an age strictly outside a set bound is dropped. */
  lemma AgeOutsideBoundsDropped(c: Criteria, p: Patient)
    ensures c.ageMin.Some? && p.age < c.ageMin.value ==> !Keeps(c, p)
    ensures c.ageMax.Some? && p.age > c.ageMax.value ==> !Keeps(c, p)
  {
  }

  /** A set sex or heart-disease criterion keeps only exact matches. */
  lemma CategoricalCriteriaNeedExactMatch(c: Criteria, p: Patient)
    ensures c.sex.Some? && Keeps(c, p) ==> p.sex == c.sex.value
    ensures c.heartDisease.Some? && Keeps(c, p) ==> p.heartDisease == c.heartDisease.value
  {
  }

  /** `patients.filter(...)`: the patients the callback keeps, in input order. */
  function Filter(ps: seq<Patient>, c: Criteria): (r: seq<Patient>)
    ensures |r| <= |ps|
    ensures forall p :: p in r <==> p in ps && Keeps(c, p)
  {
    if ps == [] then []
    else (if Keeps(c, ps[0]) then [ps[0]] else []) + Filter(ps[1..], c)
  }

  /** `a` is `b` with some elements dropped and the rest in their original order. */
  ghost predicate IsSubsequence<T>(a: seq<T>, b: seq<T>)
    decreases |b|
  {
    if a == [] then true
    else if b == [] then false
    else (a[0] == b[0] && IsSubsequence(a[1..], b[1..])) || IsSubsequence(a, b[1..])
  }

  lemma {:induction false} FilterIsSubsequence(ps: seq<Patient>, c: Criteria)
    ensures IsSubsequence(Filter(ps, c), ps)
  {
    if ps != [] {
      FilterIsSubsequence(ps[1..], c);
      var rest := Filter(ps[1..], c);
      if Keeps(c, ps[0]) {
        assert Filter(ps, c) == [ps[0]] + rest;
        assert ([ps[0]] + rest)[1..] == rest;
      } else {
        assert Filter(ps, c) == rest;
        if rest != [] {
          assert IsSubsequence(rest, ps[1..]);
        }
      }
    }
  }

  /** With every criterion unset the filter returns its input unchanged. */
  lemma {:induction false} FilterUnsetIsIdentity(ps: seq<Patient>)
    ensures Filter(ps, Unset) == ps
  {
    if ps != [] {
      FilterUnsetIsIdentity(ps[1..]);
      assert [ps[0]] + ps[1..] == ps;
    }
  }

  /** Filtering the filtered list again with the same criteria changes nothing. */
  lemma {:induction false} FilterIdempotent(ps: seq<Patient>, c: Criteria)
    ensures Filter(Filter(ps, c), c) == Filter(ps, c)
  {
    if ps != [] {
      FilterIdempotent(ps[1..], c);
      var rest := Filter(ps[1..], c);
      if Keeps(c, ps[0]) {
        assert Filter(ps, c) == [ps[0]] + rest;
        assert ([ps[0]] + rest)[1..] == rest;
        assert Filter([ps[0]] + rest, c) == [ps[0]] + Filter(rest, c);
      } else {
        assert Filter(ps, c) == rest;
      }
    }
  }

  /** Crossed age bounds (ageMin > ageMax, both set) keep nobody. */
  lemma {:induction false} FilterEmptyWhenAgeBoundsCross(ps: seq<Patient>, c: Criteria)
    requires c.ageMin.Some? && c.ageMax.Some? && c.ageMin.value > c.ageMax.value
    ensures Filter(ps, c) == []
  {
    if ps != [] {
      FilterEmptyWhenAgeBoundsCross(ps[1..], c);
      assert !Keeps(c, ps[0]);
    }
  }

  /** The component's four `useState` hooks. Each setter replaces one criterion;
      Reset clears all four. */
  class FilterState {
    var ageMin: Option<int>
    var ageMax: Option<int>
    var sex: Option<Sex>
    var heartDisease: Option<Bit>

    function Current(): Criteria
      reads this
    {
      Criteria(ageMin, ageMax, sex, heartDisease)
    }

    /** The list the table renders for the current criteria. */
    function Filtered(patients: seq<Patient>): (r: seq<Patient>)
      reads this
      ensures IsSubsequence(r, patients)
      ensures forall p :: p in r <==> p in patients && SatisfiesEverySetCriterion(Current(), p)
    {
      FilterIsSubsequence(patients, Current());
      forall p ensures Keeps(Current(), p) <==> SatisfiesEverySetCriterion(Current(), p) {
        KeepsIffEverySetCriterion(Current(), p);
      }
      Filter(patients, Current())
    }

    constructor ()
      ensures Current() == Unset
    {
      ageMin, ageMax, sex, heartDisease := None, None, None, None;
    }

    method SetAgeMin(v: Option<int>)
      modifies this
      ensures Current() == old(Current()).(ageMin := v)
    {
      ageMin := v;
    }

    method SetAgeMax(v: Option<int>)
      modifies this
      ensures Current() == old(Current()).(ageMax := v)
    {
      ageMax := v;
    }

    method SetSex(v: Option<Sex>)
      modifies this
      ensures Current() == old(Current()).(sex := v)
    {
      sex := v;
    }

    method SetHeartDisease(v: Option<Bit>)
      modifies this
      ensures Current() == old(Current()).(heartDisease := v)
    {
      heartDisease := v;
    }

    /** The Reset button: all four criteria back to unset, so the table shows every patient. */
    method Reset()
      modifies this
      ensures Current() == Unset
      ensures forall ps :: Filtered(ps) == ps
    {
      SetAgeMin(None);
      SetAgeMax(None);
      SetSex(None);
      SetHeartDisease(None);
      forall ps ensures Filtered(ps) == ps {
        FilterUnsetIsIdentity(ps);
      }
    }
  }
}
