/** The case-insensitive search boxes: a class matches when the query
    occurs in its name, section or batch; a student when it occurs in the
    name or the roll number. Case is folded over ASCII. */
module Search {
  import opened Text
  import opened Seqs
  import opened Model

  /** `field.toLowerCase().includes(query.toLowerCase())`. */
  predicate FieldMatches(field: string, query: string) {
    Includes(Lower(field), Lower(query))
  }

  function ClassMatches(query: string): ClassRoom -> bool {
    (c: ClassRoom) => FieldMatches(c.name, query) || FieldMatches(c.section, query) || FieldMatches(c.batch, query)
  }

  function StudentMatches(query: string): Student -> bool {
    (s: Student) => FieldMatches(s.name, query) || FieldMatches(s.rollNumber, query)
  }

  /** `filteredClasses`. */
  function FilterClasses(classes: seq<ClassRoom>, query: string): (r: seq<ClassRoom>)
    ensures forall i :: 0 <= i < |r| ==>
              r[i] in classes &&
              (FieldMatches(r[i].name, query) || FieldMatches(r[i].section, query) || FieldMatches(r[i].batch, query))
    ensures forall i :: 0 <= i < |classes| &&
              (FieldMatches(classes[i].name, query) || FieldMatches(classes[i].section, query)
               || FieldMatches(classes[i].batch, query))
              ==> classes[i] in r
  {
    Filter(classes, ClassMatches(query))
  }

  /** `filteredStudents`. */
  function FilterStudents(students: seq<Student>, query: string): (r: seq<Student>)
    ensures forall i :: 0 <= i < |r| ==>
              r[i] in students && (FieldMatches(r[i].name, query) || FieldMatches(r[i].rollNumber, query))
    ensures forall i :: 0 <= i < |students| &&
              (FieldMatches(students[i].name, query) || FieldMatches(students[i].rollNumber, query))
              ==> students[i] in r
  {
    Filter(students, StudentMatches(query))
  }

  /** Every field matches the empty query. */
  lemma EmptyQueryMatches(field: string)
    ensures FieldMatches(field, "")
  {
    assert Lower("") == "";
    EmptyIncluded(Lower(field));
  }

  /** A field matching a longer query (one containing the shorter) matches
      the shorter one too. */
  lemma LongerQueryMatchesLess(field: string, short: string, long: string)
    requires Includes(long, short)
    ensures FieldMatches(field, long) ==> FieldMatches(field, short)
  {
    LowerIncludes(long, short);
    if FieldMatches(field, long) {
      IncludesTransitive(Lower(field), Lower(long), Lower(short));
    }
  }

  /** The class search keeps an order-preserving subsequence; the empty
      query keeps every class; lengthening the query can only drop more
      classes. */
  lemma FilterClassesSpec(classes: seq<ClassRoom>, query: string, longer: string)
    ensures IsSubsequence(FilterClasses(classes, query), classes)
    ensures FilterClasses(classes, "") == classes
    ensures Includes(longer, query) ==>
              IsSubsequence(FilterClasses(classes, longer), FilterClasses(classes, query))
  {
    FilterIsSubsequence(classes, ClassMatches(query));
    forall c: ClassRoom
      ensures ClassMatches("")(c)
    {
      EmptyQueryMatches(c.name);
    }
    FilterAll(classes, ClassMatches(""));
    if Includes(longer, query) {
      forall c: ClassRoom
        ensures ClassMatches(longer)(c) ==> ClassMatches(query)(c)
      {
        LongerQueryMatchesLess(c.name, query, longer);
        LongerQueryMatchesLess(c.section, query, longer);
        LongerQueryMatchesLess(c.batch, query, longer);
      }
      FilterMonotone(classes, ClassMatches(longer), ClassMatches(query));
    }
  }

  /** The class search keeps every copy of a matching class and no copy of
      any other. */
  lemma FilterClassesMultiplicity(classes: seq<ClassRoom>, query: string, c: ClassRoom)
    ensures multiset(FilterClasses(classes, query))[c]
         == if FieldMatches(c.name, query) || FieldMatches(c.section, query) || FieldMatches(c.batch, query)
            then multiset(classes)[c] else 0
  {
    FilterMultiplicity(classes, ClassMatches(query), c);
  }

  /** The student search keeps every copy of a matching student and no
      copy of any other. */
  lemma FilterStudentsMultiplicity(students: seq<Student>, query: string, s: Student)
    ensures multiset(FilterStudents(students, query))[s]
         == if FieldMatches(s.name, query) || FieldMatches(s.rollNumber, query)
            then multiset(students)[s] else 0
  {
    FilterMultiplicity(students, StudentMatches(query), s);
  }

  /** The student search keeps an order-preserving subsequence; the empty
      query keeps the whole roster; lengthening the query can only drop
      more students. */
  lemma FilterStudentsSpec(students: seq<Student>, query: string, longer: string)
    ensures IsSubsequence(FilterStudents(students, query), students)
    ensures FilterStudents(students, "") == students
    ensures Includes(longer, query) ==>
              IsSubsequence(FilterStudents(students, longer), FilterStudents(students, query))
  {
    FilterIsSubsequence(students, StudentMatches(query));
    forall s: Student
      ensures StudentMatches("")(s)
    {
      EmptyQueryMatches(s.name);
    }
    FilterAll(students, StudentMatches(""));
    if Includes(longer, query) {
      forall s: Student
        ensures StudentMatches(longer)(s) ==> StudentMatches(query)(s)
      {
        LongerQueryMatchesLess(s.name, query, longer);
        LongerQueryMatchesLess(s.rollNumber, query, longer);
      }
      FilterMonotone(students, StudentMatches(longer), StudentMatches(query));
    }
  }
}
