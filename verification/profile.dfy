/** The attendance card of the student profile: the status colour of the
    percentage, the progress-bar colour and the warning below 75%. The
    percentage comes from a statistics helper whose source is not part of
    this model, so it is a parameter. */
module Profile {
  datatype Tone = Success | Warning | Destructive

  /** `getStatusColor`: success from 85, warning from 75, destructive
      below. */
  function StatusColor(percentage: real): Tone {
    if percentage >= 85.0 then Success else if percentage >= 75.0 then Warning else Destructive
  }

  /** The progress indicator's class, chosen by its own conditional. */
  function IndicatorColor(percentage: real): Tone {
    if percentage >= 85.0 then Success
    else if percentage >= 75.0 then Warning
    else Destructive
  }

  /** The warning alert is rendered. */
  predicate ShowsWarning(percentage: real) {
    percentage < 75.0
  }

  /** The indicator agrees with the status colour everywhere, and the
      warning shows exactly when the colour is destructive. */
  lemma ProfileThresholds(percentage: real)
    ensures IndicatorColor(percentage) == StatusColor(percentage)
    ensures ShowsWarning(percentage) <==> StatusColor(percentage) == Destructive
    ensures StatusColor(percentage) == Success <==> percentage >= 85.0
    ensures StatusColor(percentage) == Warning <==> 75.0 <= percentage < 85.0
  {
  }

  /** A higher percentage never gives a worse colour. */
  lemma StatusColorMonotone(a: real, b: real)
    requires a <= b
    ensures StatusColor(a) == Success ==> StatusColor(b) == Success
    ensures StatusColor(b) == Destructive ==> StatusColor(a) == Destructive
  {
  }
}
