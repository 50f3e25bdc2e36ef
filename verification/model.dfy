/** The records the application stores: students, classes with their
    rosters, and one attendance record per class and date. */
module Model {
  import opened Wrappers

  datatype Student = Student(
    id: string,
    rollNumber: string,
    name: string,
    section: string,
    batch: string,
    avatar: Option<string>)

  /** A class and its ordered roster. */
  datatype ClassRoom = ClassRoom(
    id: string,
    name: string,
    section: string,
    batch: string,
    students: seq<Student>)

  /** Attendance of one class on one date: the roll numbers marked present. */
  datatype AttendanceRecord = AttendanceRecord(
    id: string,
    classId: string,
    date: string,
    presentStudents: seq<string>)

  /** The roll numbers of a roster, in order. */
  function Rolls(students: seq<Student>): (r: seq<string>)
    ensures |r| == |students|
    ensures forall i :: 0 <= i < |r| ==> r[i] == students[i].rollNumber
  {
    seq(|students|, i requires 0 <= i < |students| => students[i].rollNumber)
  }
}
