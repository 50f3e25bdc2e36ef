/** `deleteClass` of the classes page over three abstract tables. Whether
    each remote delete fails is a parameter; a failed delete removes
    nothing and stops the cascade. */
module Classes {
  import opened Seqs
  import opened Model

  /** A row of the students table, tagged with its class. */
  datatype StudentRow = StudentRow(classId: string, student: Student)

  datatype Tables = Tables(students: seq<StudentRow>, records: seq<AttendanceRecord>, classes: seq<ClassRoom>)

  /** Which of the three deletes report an error. */
  datatype Failures = Failures(studentsFail: bool, recordsFail: bool, classFail: bool)

  /** The tables after the cascade, the page's class list, and whether the
      success toast was shown. */
  datatype Deletion = Deletion(tables: Tables, local: seq<ClassRoom>, deleted: bool)

  function NotOfClass(classId: string): StudentRow -> bool {
    (r: StudentRow) => r.classId != classId
  }

  function RecordNotOfClass(classId: string): AttendanceRecord -> bool {
    (r: AttendanceRecord) => r.classId != classId
  }

  function OtherClass(classId: string): ClassRoom -> bool {
    (c: ClassRoom) => c.id != classId
  }

  /** Students, then records, then the class; the first failure skips the
      rest and leaves the page's list as it was. */
  function DeleteClass(t: Tables, local: seq<ClassRoom>, classId: string, f: Failures): (d: Deletion)
    ensures d.deleted <==> !f.studentsFail && !f.recordsFail && !f.classFail
    ensures !d.deleted ==> d.local == local
  {
    if f.studentsFail then Deletion(t, local, false)
    else
      var t1 := t.(students := Filter(t.students, NotOfClass(classId)));
      if f.recordsFail then Deletion(t1, local, false)
      else
        var t2 := t1.(records := Filter(t1.records, RecordNotOfClass(classId)));
        if f.classFail then Deletion(t2, local, false)
        else
          var t3 := t2.(classes := Filter(t2.classes, OtherClass(classId)));
          Deletion(t3, Filter(local, OtherClass(classId)), true)
  }

  /** After a full success nothing refers to the class any more, the rows
      of other classes are all still there in their order, and the page's
      list is the old one without that class. */
  lemma DeleteClassSuccess(t: Tables, local: seq<ClassRoom>, classId: string)
    ensures var d := DeleteClass(t, local, classId, Failures(false, false, false));
            && d.deleted
            && (forall i :: 0 <= i < |d.tables.students| ==> d.tables.students[i].classId != classId)
            && (forall i :: 0 <= i < |d.tables.records| ==> d.tables.records[i].classId != classId)
            && (forall i :: 0 <= i < |d.tables.classes| ==> d.tables.classes[i].id != classId)
            && (forall i :: 0 <= i < |t.students| && t.students[i].classId != classId
                  ==> t.students[i] in d.tables.students)
            && (forall i :: 0 <= i < |t.records| && t.records[i].classId != classId
                  ==> t.records[i] in d.tables.records)
            && (forall i :: 0 <= i < |t.classes| && t.classes[i].id != classId
                  ==> t.classes[i] in d.tables.classes)
            && IsSubsequence(d.tables.students, t.students)
            && IsSubsequence(d.tables.records, t.records)
            && IsSubsequence(d.tables.classes, t.classes)
            && IsSubsequence(d.local, local)
            && (forall i :: 0 <= i < |d.local| ==> d.local[i].id != classId)
            && (forall i :: 0 <= i < |local| && local[i].id != classId ==> local[i] in d.local)
  {
    FilterIsSubsequence(t.students, NotOfClass(classId));
    FilterIsSubsequence(t.records, RecordNotOfClass(classId));
    FilterIsSubsequence(t.classes, OtherClass(classId));
    FilterIsSubsequence(local, OtherClass(classId));
  }

  /** After a full success every copy of a row of another class survives,
      in each table and in the page's list, and no row of the class does. */
  lemma DeleteClassSuccessMultiplicity(t: Tables, local: seq<ClassRoom>, classId: string,
                                       row: StudentRow, rec: AttendanceRecord, c: ClassRoom)
    ensures var d := DeleteClass(t, local, classId, Failures(false, false, false));
            && multiset(d.tables.students)[row] == (if row.classId != classId then multiset(t.students)[row] else 0)
            && multiset(d.tables.records)[rec] == (if rec.classId != classId then multiset(t.records)[rec] else 0)
            && multiset(d.tables.classes)[c] == (if c.id != classId then multiset(t.classes)[c] else 0)
            && multiset(d.local)[c] == (if c.id != classId then multiset(local)[c] else 0)
  {
    FilterMultiplicity(t.students, NotOfClass(classId), row);
    FilterMultiplicity(t.records, RecordNotOfClass(classId), rec);
    FilterMultiplicity(t.classes, OtherClass(classId), c);
    FilterMultiplicity(local, OtherClass(classId), c);
  }

  /** A failure skips every later step: a failed student delete changes no
      table; a failed record delete leaves records and classes; a failed
      class delete leaves the classes. */
  lemma DeleteClassFailure(t: Tables, local: seq<ClassRoom>, classId: string, f: Failures)
    ensures var d := DeleteClass(t, local, classId, f);
            && (f.studentsFail ==> d.tables == t)
            && (f.studentsFail || f.recordsFail ==> d.tables.records == t.records)
            && (f.studentsFail || f.recordsFail || f.classFail ==> d.tables.classes == t.classes)
            && (!f.studentsFail ==> d.tables.students == Filter(t.students, NotOfClass(classId)))
  {
  }
}
