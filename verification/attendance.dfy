/** `getAttendanceRecord`, with the loaded record list as a parameter. */
module Attendance {
  import opened Wrappers
  import opened Seqs
  import opened Model

  /** The record is for the class `classId` on `date`. */
  function IsRecordFor(classId: string, date: string): AttendanceRecord -> bool {
    (r: AttendanceRecord) => r.classId == classId && r.date == date
  }

  /** `records.find(r => r.classId === classId && r.date === date)`. */
  function GetAttendanceRecord(records: seq<AttendanceRecord>, classId: string, date: string)
    : (r: Option<AttendanceRecord>)
    ensures r.Some? ==> r.value.classId == classId && r.value.date == date
    ensures r.Some? ==>
              exists i :: 0 <= i < |records| && records[i] == r.value &&
                forall j :: 0 <= j < i ==> !(records[j].classId == classId && records[j].date == date)
    ensures r.None? <==>
              forall j :: 0 <= j < |records| ==> !(records[j].classId == classId && records[j].date == date)
  {
    Find(records, IsRecordFor(classId, date))
  }

  /** Records in front of the list shadow later ones for the same class and
      date, and records for other classes or dates make no difference. */
  lemma GetAttendanceRecordShadowing(front: seq<AttendanceRecord>, back: seq<AttendanceRecord>,
                                     classId: string, date: string)
    ensures GetAttendanceRecord(front, classId, date).Some? ==>
              GetAttendanceRecord(front + back, classId, date) == GetAttendanceRecord(front, classId, date)
    ensures GetAttendanceRecord(front, classId, date).None? ==>
              GetAttendanceRecord(front + back, classId, date) == GetAttendanceRecord(back, classId, date)
  {
    FindAppend(front, back, IsRecordFor(classId, date));
  }
}
