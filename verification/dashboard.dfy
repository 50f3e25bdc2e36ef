/** The dashboard figures: total students, today's records and the classes
    still waiting for today's attendance. The current date is a
    parameter. */
module Dashboard {
  import opened Seqs
  import opened Model

  /** `classes.reduce((total, cls) => total + cls.students.length, 0)`. */
  function TotalStudents(classes: seq<ClassRoom>): nat {
    if |classes| == 0 then 0
    else TotalStudents(classes[..|classes| - 1]) + |classes[|classes| - 1].students|
  }

  /** The total is additive over the class list, and a single class
      contributes its roster size. */
  lemma {:induction false} TotalStudentsAppend(a: seq<ClassRoom>, b: seq<ClassRoom>)
    ensures TotalStudents(a + b) == TotalStudents(a) + TotalStudents(b)
    decreases |b|
  {
    if |b| == 0 {
      assert a + b == a;
    } else {
      assert (a + b)[..|a + b| - 1] == a + b[..|b| - 1];
      TotalStudentsAppend(a, b[..|b| - 1]);
    }
  }

  lemma TotalStudentsSingle(c: ClassRoom)
    ensures TotalStudents([c]) == |c.students|
  {
    assert [c][..0] == [];
  }

  function IsOn(date: string): AttendanceRecord -> bool {
    (r: AttendanceRecord) => r.date == date
  }

  /** The records dated `currentDate`, in input order. */
  function TodayRecords(records: seq<AttendanceRecord>, currentDate: string): (r: seq<AttendanceRecord>)
    ensures forall i :: 0 <= i < |r| ==> r[i] in records && r[i].date == currentDate
    ensures forall i :: 0 <= i < |records| && records[i].date == currentDate ==> records[i] in r
  {
    Filter(records, IsOn(currentDate))
  }

  /** Every copy of a record dated today is kept, and no other record is:
      the "Today" figure counts duplicates as often as they occur. */
  lemma TodayRecordsMultiplicity(records: seq<AttendanceRecord>, currentDate: string, x: AttendanceRecord)
    ensures multiset(TodayRecords(records, currentDate))[x]
         == if x.date == currentDate then multiset(records)[x] else 0
  {
    FilterMultiplicity(records, IsOn(currentDate), x);
  }

  /** Today's records keep input order. */
  lemma TodayRecordsOrdered(records: seq<AttendanceRecord>, currentDate: string)
    ensures IsSubsequence(TodayRecords(records, currentDate), records)
  {
    FilterIsSubsequence(records, IsOn(currentDate));
  }

  /** The class ids of today's records. */
  function ClassesWithAttendanceToday(records: seq<AttendanceRecord>, currentDate: string)
    : (ids: seq<string>)
    ensures forall id :: id in ids <==>
              exists i :: 0 <= i < |records| && records[i].date == currentDate && records[i].classId == id
  {
    var today := TodayRecords(records, currentDate);
    var ids := seq(|today|, i requires 0 <= i < |today| => today[i].classId);
    assert forall i :: 0 <= i < |today| ==> ids[i] == today[i].classId;
    ids
  }

  function Pending(done: seq<string>): ClassRoom -> bool {
    (c: ClassRoom) => c.id !in done
  }

  /** The classes with no record today, in class order. */
  function PendingClasses(classes: seq<ClassRoom>, records: seq<AttendanceRecord>, currentDate: string)
    : seq<ClassRoom>
  {
    Filter(classes, Pending(ClassesWithAttendanceToday(records, currentDate)))
  }

  /** `recentClasses`: the first three pending classes. */
  function RecentClasses(classes: seq<ClassRoom>, records: seq<AttendanceRecord>, currentDate: string)
    : (r: seq<ClassRoom>)
    ensures |r| <= 3
  {
    Take(PendingClasses(classes, records, currentDate), 3)
  }

  /** The recent classes are the first ones, in class order, that have no
      record today; with fewer than three such classes all of them are
      shown, and otherwise exactly three are. */
  lemma RecentClassesSpec(classes: seq<ClassRoom>, records: seq<AttendanceRecord>, currentDate: string)
    ensures var r := RecentClasses(classes, records, currentDate);
            && (forall i, j :: 0 <= i < |r| && 0 <= j < |records| && records[j].date == currentDate
                  ==> records[j].classId != r[i].id)
            && r <= PendingClasses(classes, records, currentDate)
            && IsSubsequence(PendingClasses(classes, records, currentDate), classes)
            && (|PendingClasses(classes, records, currentDate)| < 3 ==> r == PendingClasses(classes, records, currentDate))
            && (|PendingClasses(classes, records, currentDate)| >= 3 ==> |r| == 3)
    ensures forall i :: 0 <= i < |classes| ==>
              (classes[i] in PendingClasses(classes, records, currentDate)
               <== forall j :: 0 <= j < |records| && records[j].date == currentDate ==> records[j].classId != classes[i].id)
  {
    var done := ClassesWithAttendanceToday(records, currentDate);
    var pending := PendingClasses(classes, records, currentDate);
    var r := RecentClasses(classes, records, currentDate);
    FilterIsSubsequence(classes, Pending(done));
    forall i | 0 <= i < |r|
      ensures r[i].id !in done
    {
      assert r[i] == pending[i];
    }
  }

  /** The "Today" figure counts records, not classes: two records for one
      class on the same day count twice. */
  lemma TodayCountsRecords(c: string, d: string)
    ensures var records := [AttendanceRecord("r1", c, d, []), AttendanceRecord("r2", c, d, [])];
            && |TodayRecords(records, d)| == 2
            && (forall id :: id in ClassesWithAttendanceToday(records, d) <==> id == c)
  {
    var records := [AttendanceRecord("r1", c, d, []), AttendanceRecord("r2", c, d, [])];
    FilterAll(records, IsOn(d));
  }
}
