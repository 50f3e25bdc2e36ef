/** The student page's lookup: the first class, in list order, whose
    roster holds the roll number, and the first such roster entry. */
module StudentDetails {
  import opened Wrappers
  import opened Seqs
  import opened Model

  function HasRoll(roll: string): Student -> bool {
    (s: Student) => s.rollNumber == roll
  }

  /** The class's roster holds a student with the roll number. */
  predicate ContainsRoll(c: ClassRoom, roll: string) {
    exists j :: 0 <= j < |c.students| && c.students[j].rollNumber == roll
  }

  /** A reference for the loop: the first class containing the roll, found
      by a first-match search over the classes. */
  function FirstClassWithRoll(classes: seq<ClassRoom>, roll: string): Option<ClassRoom> {
    Find(classes, (c: ClassRoom) => ContainsRoll(c, roll))
  }

  /** The `for ... of` loop with its `break`: the student and class found,
      or neither. */
  method FindStudent(classes: seq<ClassRoom>, roll: string)
    returns (student: Option<Student>, classData: Option<ClassRoom>)
    ensures student.Some? <==> classData.Some?
    ensures classData.None? <==> forall k :: 0 <= k < |classes| ==> !ContainsRoll(classes[k], roll)
    ensures classData.Some? ==>
              exists k :: 0 <= k < |classes| && classes[k] == classData.value &&
                forall m :: 0 <= m < k ==> !ContainsRoll(classes[m], roll)
    ensures student.Some? ==> student.value.rollNumber == roll && student.value in classData.value.students
    ensures student.Some? ==> student == Find(classData.value.students, HasRoll(roll))
    ensures classData == FirstClassWithRoll(classes, roll)
  {
    var i := 0;
    while i < |classes|
      invariant 0 <= i <= |classes|
      invariant forall k :: 0 <= k < i ==> !ContainsRoll(classes[k], roll)
    {
      var found := Find(classes[i].students, HasRoll(roll));
      if found.Some? {
        FirstIndexAt(classes, (c: ClassRoom) => ContainsRoll(c, roll), i);
        return found, Some(classes[i]);
      }
      i := i + 1;
    }
    FindNone(classes, (c: ClassRoom) => ContainsRoll(c, roll));
    return None, None;
  }

  /** Classes after the first one holding the roll are never consulted. */
  lemma LaterClassesIgnored(classes: seq<ClassRoom>, later: seq<ClassRoom>, roll: string)
    requires FirstClassWithRoll(classes, roll).Some?
    ensures FirstClassWithRoll(classes + later, roll) == FirstClassWithRoll(classes, roll)
  {
    FindAppend(classes, later, (c: ClassRoom) => ContainsRoll(c, roll));
  }
}
