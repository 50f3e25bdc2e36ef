/** The roster in the take-attendance screen: the searched students, each
    row showing its status and toggling by its own roll number. */
module AttendanceList {
  import opened Seqs
  import opened Model
  import opened Search

  /** One row: the student, whether it shows Present, and the argument
      its button passes to `toggleAttendance`. */
  datatype Row = Row(student: Student, isPresent: bool, toggleArgument: string)

  /** The rows for the students matching `query`, in roster order. */
  function Rows(students: seq<Student>, presentStudents: seq<string>, query: string): (rows: seq<Row>)
    ensures |rows| == |FilterStudents(students, query)|
    ensures forall i :: 0 <= i < |rows| ==>
              && rows[i].student == FilterStudents(students, query)[i]
              && (rows[i].isPresent <==> rows[i].student.rollNumber in presentStudents)
              && rows[i].toggleArgument == rows[i].student.rollNumber
  {
    var shown := FilterStudents(students, query);
    seq(|shown|, i requires 0 <= i < |shown| =>
          Row(shown[i], shown[i].rollNumber in presentStudents, shown[i].rollNumber))
  }

  /** The no-match message is shown. */
  predicate ShowsNoMatch(students: seq<Student>, query: string) {
    |FilterStudents(students, query)| == 0
  }

  /** The no-match message shows exactly when no student's name or roll
      number contains the query; it never shows for the empty query over a
      non-empty roster. */
  lemma ShowsNoMatchIff(students: seq<Student>, query: string)
    ensures ShowsNoMatch(students, query) <==>
              forall i :: 0 <= i < |students| ==>
                !FieldMatches(students[i].name, query) && !FieldMatches(students[i].rollNumber, query)
    ensures |students| > 0 ==> !ShowsNoMatch(students, "")
  {
    FilterStudentsSpec(students, "", "");
    if !ShowsNoMatch(students, query) {
      var r := FilterStudents(students, query);
      assert r[0] in students;
    }
  }
}
