/** The attendance marker button: its label and the arguments of its
    `onChange` call. */
module Marker {
  /** The call `onChange(rollNumber, !isPresent)`. */
  datatype Change = Change(rollNumber: string, isPresent: bool)

  /** The label shown on the button. */
  function Label(isPresent: bool): (r: string)
    ensures r == "Present" <==> isPresent
  {
    if isPresent then "Present" else "Absent"
  }

  /** A click reports the marker's own roll number with the status flipped. */
  function Click(rollNumber: string, isPresent: bool): (c: Change)
    ensures c.rollNumber == rollNumber
    ensures c.isPresent != isPresent
  {
    Change(rollNumber, !isPresent)
  }

  /** Two clicks restore the original status. */
  lemma ClickTwiceRestores(rollNumber: string, isPresent: bool)
    ensures Click(Click(rollNumber, isPresent).rollNumber, Click(rollNumber, isPresent).isPresent)
         == Change(rollNumber, isPresent)
  {
  }
}
