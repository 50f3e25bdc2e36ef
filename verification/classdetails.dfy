/** The class page: the class found by the route id and its searched
    roster. */
module ClassDetails {
  import opened Wrappers
  import opened Seqs
  import opened Model
  import opened Search

  function HasId(classId: string): ClassRoom -> bool {
    (c: ClassRoom) => c.id == classId
  }

  /** `classes.find(c => c.id === classId)`. */
  function FindClass(classes: seq<ClassRoom>, classId: string): (r: Option<ClassRoom>)
    ensures r.Some? ==> r.value.id == classId && r.value in classes
    ensures r.None? <==> forall i :: 0 <= i < |classes| ==> classes[i].id != classId
  {
    Find(classes, HasId(classId))
  }

  /** `classData?.students.filter(...) || []`. */
  function ClassStudents(classes: seq<ClassRoom>, classId: string, query: string): (r: seq<Student>)
    ensures FindClass(classes, classId).None? ==> r == []
    ensures FindClass(classes, classId).Some? ==>
              r == FilterStudents(FindClass(classes, classId).value.students, query)
  {
    match FindClass(classes, classId)
    case None => []
    case Some(c) => FilterStudents(c.students, query)
  }

  /** For a found class the list is an order-preserving part of its
      roster, and the empty query shows the whole roster. */
  lemma ClassStudentsSpec(classes: seq<ClassRoom>, classId: string, query: string)
    ensures FindClass(classes, classId).Some? ==>
              IsSubsequence(ClassStudents(classes, classId, query), FindClass(classes, classId).value.students)
    ensures FindClass(classes, classId).Some? ==>
              ClassStudents(classes, classId, "") == FindClass(classes, classId).value.students
  {
    match FindClass(classes, classId) {
      case None =>
      case Some(c) => FilterStudentsSpec(c.students, query, query);
    }
  }
}
