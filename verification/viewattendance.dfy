/** The attendance-record page: the present/absent split of the roster,
    the rounded percentage, the bar colour and the guard in front of copy
    and share. */
module ViewAttendance {
  import opened Wrappers
  import opened Seqs
  import opened Model

  function MarkedPresent(present: seq<string>): Student -> bool {
    (s: Student) => s.rollNumber in present
  }

  function MarkedAbsent(present: seq<string>): Student -> bool {
    (s: Student) => s.rollNumber !in present
  }

  /** The roster students whose roll is in the record, in roster order. */
  function PresentStudents(roster: seq<Student>, present: seq<string>): (r: seq<Student>)
    ensures forall i :: 0 <= i < |r| ==> r[i] in roster && r[i].rollNumber in present
    ensures forall i :: 0 <= i < |roster| && roster[i].rollNumber in present ==> roster[i] in r
  {
    Filter(roster, MarkedPresent(present))
  }

  /** The other roster students, in roster order. */
  function AbsentStudents(roster: seq<Student>, present: seq<string>): (r: seq<Student>)
    ensures forall i :: 0 <= i < |r| ==> r[i] in roster && r[i].rollNumber !in present
    ensures forall i :: 0 <= i < |roster| && roster[i].rollNumber !in present ==> roster[i] in r
  {
    Filter(roster, MarkedAbsent(present))
  }

  /** Present and absent split the roster: both keep roster order, their
      sizes add up to the roster's and together they hold every roster
      entry exactly as often as the roster does. */
  lemma PresentAbsentPartition(roster: seq<Student>, present: seq<string>)
    ensures |PresentStudents(roster, present)| + |AbsentStudents(roster, present)| == |roster|
    ensures multiset(PresentStudents(roster, present)) + multiset(AbsentStudents(roster, present))
         == multiset(roster)
    ensures IsSubsequence(PresentStudents(roster, present), roster)
    ensures IsSubsequence(AbsentStudents(roster, present), roster)
  {
    FilterPartition(roster, MarkedPresent(present), MarkedAbsent(present));
    FilterIsSubsequence(roster, MarkedPresent(present));
    FilterIsSubsequence(roster, MarkedAbsent(present));
  }

  /** Rolls in the record that are not on the roster are counted nowhere. */
  lemma ExtraRollsIgnored(roster: seq<Student>, present: seq<string>, extra: seq<string>)
    requires forall r :: r in extra ==> r !in Rolls(roster)
    ensures PresentStudents(roster, present + extra) == PresentStudents(roster, present)
    ensures AbsentStudents(roster, present + extra) == AbsentStudents(roster, present)
  {
    forall i | 0 <= i < |roster|
      ensures roster[i].rollNumber in present + extra <==> roster[i].rollNumber in present
    {
      assert Rolls(roster)[i] == roster[i].rollNumber;
    }
    FilterCongruent(roster, MarkedPresent(present + extra), MarkedPresent(present));
    FilterCongruent(roster, MarkedAbsent(present + extra), MarkedAbsent(present));
  }

  /** `Math.round(p / n * 100) || 0` in exact arithmetic: `100p/n` rounded
      half up, and 0 for an empty roster, where the quotient is `NaN`. */
  function RoundedPercent(p: nat, n: nat): (r: nat)
    ensures n > 0 ==> 2 * n * r <= 200 * p + n < 2 * n * (r + 1)
    ensures n == 0 ==> r == 0
    ensures p <= n ==> r <= 100
  {
    if n == 0 then 0
    else
      var r := (200 * p + n) / (2 * n);
      DivBounds(200 * p + n, 2 * n);
      MulMonotone(2 * n, r, 101);
      r
  }

  lemma DivBounds(a: nat, b: nat)
    requires b > 0
    ensures b * (a / b) <= a < b * (a / b + 1)
  {
  }

  /** The page's percentage. */
  function AttendancePercentage(roster: seq<Student>, present: seq<string>): (r: nat)
    ensures r <= 100
  {
    PresentAbsentPartition(roster, present);
    RoundedPercent(|PresentStudents(roster, present)|, |roster|)
  }

  /** Division is determined by a quotient and an in-range remainder. */
  lemma DivUnique(a: nat, b: nat, q: nat, m: nat)
    requires b > 0 && a == b * q + m && m < b
    ensures a / b == q
  {
    DivBounds(a, b);
    MulMonotone(b, a / b, q + 1);
    MulMonotone(b, q, a / b + 1);
  }

  lemma MulMonotone(b: nat, x: nat, y: nat)
    ensures x >= y ==> b * x >= b * y
  {
    if x >= y {
      var d: nat := x - y;
      assert b * x == b * y + b * d;
    }
  }

  /** Everybody present gives 100. */
  lemma AllPresentIsHundred(roster: seq<Student>, present: seq<string>)
    requires |roster| > 0
    requires forall i :: 0 <= i < |roster| ==> roster[i].rollNumber in present
    ensures AttendancePercentage(roster, present) == 100
  {
    FilterAll(roster, MarkedPresent(present));
    var n := |roster|;
    DivUnique(200 * n + n, 2 * n, 100, n);
  }

  /** Nobody present gives 0. */
  lemma NonePresentIsZero(roster: seq<Student>, present: seq<string>)
    requires forall i :: 0 <= i < |roster| ==> roster[i].rollNumber !in present
    ensures AttendancePercentage(roster, present) == 0
  {
    FilterNone(roster, MarkedPresent(present));
    var n := |roster|;
    if n > 0 {
      DivUnique(n, 2 * n, 0, n);
    }
  }

  datatype BarColor = Success | Warning | Destructive

  /** The bar colour: success from 75, warning from 50, destructive below. */
  function ProgressBarColor(percent: int): BarColor {
    if percent >= 75 then Success else if percent >= 50 then Warning else Destructive
  }

  /** How bad a colour is: 0 for success, 2 for destructive. */
  function Severity(c: BarColor): nat {
    match c
    case Success => 0
    case Warning => 1
    case Destructive => 2
  }

  /** The colour is monotone in the percentage, with the thresholds 75
      and 50. */
  lemma ProgressBarColorThresholds(a: int, b: int)
    ensures a <= b ==> Severity(ProgressBarColor(b)) <= Severity(ProgressBarColor(a))
    ensures ProgressBarColor(a) == Success <==> a >= 75
    ensures ProgressBarColor(a) == Destructive <==> a < 50
  {
  }

  /** Copy and share build the report only when the record and the class
      were loaded and the roster is not empty; `format` stands for the
      report formatter, whose source is not part of this model. */
  function ReportToShare(record: Option<AttendanceRecord>, classData: Option<ClassRoom>,
                         students: seq<Student>,
                         format: (ClassRoom, seq<Student>, seq<string>, string) -> string)
    : (r: Option<string>)
    ensures r.None? <==> record.None? || classData.None? || |students| == 0
    ensures r.Some? ==>
              r.value == format(classData.value, students, record.value.presentStudents, record.value.date)
  {
    if record.None? || classData.None? || |students| == 0 then None
    else Some(format(classData.value, students, record.value.presentStudents, record.value.date))
  }
}
