/** The KPI card's two computed values (frontend/src/components/KPICard.tsx):
    whether the card is drawn in its danger style, and the text it shows for its value.
    Numeric values are restricted to integers, so `toFixed(0)` is plain decimal rendering;
    `toLocaleString` depends on the browser's locale and is passed in as a function. */
module KpiCard {
  import opened PatientTypes

  /** The `value` prop: `string | number`. */
  datatype CardValue = Number(n: int) | Text(s: string)

  /** The `trend` prop. */
  datatype Trend = TrendUp | TrendDown

  /** The props that decide how a card looks; the description and icon are decoration only. */
  datatype CardProps = CardProps(
    title: string,
    value: CardValue,
    unit: Option<string>,
    trend: Option<Trend>,
    dangerThreshold: Option<int>
  )

  /** `isDanger`: a threshold is given, the value is a number, and it is strictly above the threshold. */
  predicate IsDanger(value: CardValue, dangerThreshold: Option<int>)
  {
    dangerThreshold.Some? && value.Number? && value.n > dangerThreshold.value
  }

  /** Only a numeric value strictly above a given threshold is dangerous. */
  lemma DangerNeedsNumberAboveThreshold(value: CardValue, dangerThreshold: Option<int>)
    ensures dangerThreshold.None? ==> !IsDanger(value, dangerThreshold)
    ensures value.Text? ==> !IsDanger(value, dangerThreshold)
    ensures value.Number? && dangerThreshold == Some(value.n) ==> !IsDanger(value, dangerThreshold)
    ensures value.Number? && dangerThreshold.Some? && value.n == dangerThreshold.value + 1 ==> IsDanger(value, dangerThreshold)
  {
  }

  function DigitChar(d: nat): (c: char)
    requires d < 10
    ensures '0' <= c <= '9'
  {
    "0123456789"[d]
  }

  function DigitValue(c: char): nat
  {
    if '0' <= c <= '9' then (c - '0') as nat else 0
  }

  /** The decimal digits of a natural number, most significant first, without leading zeros. */
  function Digits(n: nat): (s: string)
    ensures |s| >= 1
    ensures forall i :: 0 <= i < |s| ==> '0' <= s[i] <= '9'
    ensures n >= 10 ==> s[0] != '0'
  {
    if n < 10 then [DigitChar(n)] else Digits(n / 10) + [DigitChar(n % 10)]
  }

  /** `n.toFixed(0)` for an integer `n`: its decimal digits, after a minus sign when negative. */
  function DecimalString(n: int): string
  {
    if n < 0 then "-" + Digits(-n) else Digits(n)
  }

  /** Reads back a string of decimal digits. */
  function ParseDigits(s: string): nat
  {
    if s == [] then 0 else ParseDigits(s[..|s| - 1]) * 10 + DigitValue(s[|s| - 1])
  }

  /** Reads back an optionally signed decimal number. */
  function ParseDecimal(s: string): int
  {
    if |s| > 0 && s[0] == '-' then -(ParseDigits(s[1..]) as int) else ParseDigits(s)
  }

  lemma DigitRoundTrip(d: nat)
    requires d < 10
    ensures DigitValue(DigitChar(d)) == d
  {
  }

  lemma {:induction false} DigitsRoundTrip(n: nat)
    ensures ParseDigits(Digits(n)) == n
  {
    if n < 10 {
      DigitRoundTrip(n);
      assert Digits(n)[..0] == [];
    } else {
      var s := Digits(n);
      assert s[..|s| - 1] == Digits(n / 10);
      DigitsRoundTrip(n / 10);
      DigitRoundTrip(n % 10);
    }
  }

  lemma ParseAfterMinus(d: string)
    ensures ParseDecimal("-" + d) == -(ParseDigits(d) as int)
  {
    assert ("-" + d)[1..] == d;
  }

  lemma {:induction false} NegativeRoundTrip(m: nat)
    requires m > 0
    ensures ParseDecimal(DecimalString(0 - m as int)) == 0 - m as int
  {
    assert DecimalString(0 - m as int) == "-" + Digits(m);
    ParseAfterMinus(Digits(m));
    DigitsRoundTrip(m);
  }

  /** The rendered integer reads back as the same integer. */
  lemma {:induction false} DecimalRoundTrip(n: int)
    ensures ParseDecimal(DecimalString(n)) == n
  {
    if n < 0 {
      NegativeRoundTrip(-n);
    } else {
      assert Digits(n)[0] != '-';
      DigitsRoundTrip(n);
    }
  }

  /** `displayValue`. A numeric value with a non-empty unit is rendered with `toFixed(0)` and
      followed by the unit, directly for "%" and after one space otherwise; a numeric value
      without a unit (undefined or the empty string, both falsy) goes through `toLocaleString`;
      a string is shown as it is. */
  function DisplayValue(value: CardValue, unit: Option<string>, localeString: int -> string): string
  {
    match value
    case Number(n) =>
      if unit.Some? && unit.value != "" then
        DecimalString(n) + (if unit.value == "%" then "%" else " " + unit.value)
      else localeString(n)
    case Text(s) => s
  }

  /** The three display shapes: "%" directly after the digits, any other unit after exactly one
      space, a string unchanged; in the first two the leading part reads back as the value. */
  lemma DisplayShapes(value: CardValue, unit: Option<string>, localeString: int -> string)
    ensures value.Number? && unit == Some("%") ==>
      var d := DisplayValue(value, unit, localeString);
      var k := |DecimalString(value.n)|;
      |d| == k + 1 && d[k] == '%' && ParseDecimal(d[..k]) == value.n
    ensures value.Number? && unit.Some? && unit.value != "" && unit.value != "%" ==>
      var d := DisplayValue(value, unit, localeString);
      var k := |DecimalString(value.n)|;
      |d| == k + 1 + |unit.value| && d[k] == ' ' && d[k + 1..] == unit.value && ParseDecimal(d[..k]) == value.n
    ensures value.Text? ==> DisplayValue(value, unit, localeString) == value.s
  {
    if value.Number? {
      DecimalRoundTrip(value.n);
      var d := DisplayValue(value, unit, localeString);
      var k := |DecimalString(value.n)|;
      if unit.Some? && unit.value != "" {
        assert d[..k] == DecimalString(value.n);
      }
    }
  }
}
