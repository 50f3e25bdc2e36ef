/** The custom progress bar: the value clamped to `[0, max]` and its
    share of `max` in percent. */
module Progress {
  import opened Wrappers

  /** The default `max`. */
  const DefaultMax: real := 100.0

  function Min(a: real, b: real): real { if a <= b then a else b }
  function Max(a: real, b: real): real { if a >= b then a else b }

  /** `Math.max(0, Math.min(value, max))`. */
  function Clamp(value: real, max: real): (r: real)
    ensures r >= 0.0
    ensures max >= 0.0 ==> r <= max
    ensures 0.0 <= value <= max ==> r == value
    ensures value <= 0.0 ==> r == 0.0
    ensures max >= 0.0 && value >= max ==> r == max
  {
    Max(0.0, Min(value, max))
  }

  /** `(clampedValue / max) * 100`; `None` stands for the `NaN` of a zero
      `max`. */
  function Percentage(value: real, max: real): (r: Option<real>)
    ensures r.None? <==> max == 0.0
  {
    if max == 0.0 then None else Some(Clamp(value, max) / max * 100.0)
  }

  /** For a positive `max` the percentage lies in `[0, 100]`, is 100 from
      `max` up and 0 from 0 down. */
  lemma PercentageBounds(value: real, max: real)
    requires max > 0.0
    ensures 0.0 <= Percentage(value, max).value <= 100.0
    ensures value >= max ==> Percentage(value, max).value == 100.0
    ensures value <= 0.0 ==> Percentage(value, max).value == 0.0
  {
    var c := Clamp(value, max);
    assert c / max <= 1.0;
  }

  /** With the default `max` the percentage is the clamped value itself. */
  lemma PercentageOfDefaultMax(value: real)
    ensures Percentage(value, DefaultMax).value == Clamp(value, DefaultMax)
  {
  }
}
