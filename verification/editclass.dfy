/** The class-editing page: the form's length rules, the pre-filled
    values, and the update of the stored class list by id. */
module EditClass {
  import opened Wrappers
  import opened Seqs
  import opened Model
  import opened ClassDetails

  datatype FormValues = FormValues(name: string, section: string, batch: string)

  /** The messages of `formSchema`, one per broken rule, in field order. */
  function Validate(v: FormValues): (errors: seq<string>)
    ensures |errors| <= 3
  {
    (if |v.name| < 2 then ["Class name must be at least 2 characters."] else [])
    + (if |v.section| < 1 then ["Section is required"] else [])
    + (if |v.batch| < 1 then ["Batch year is required"] else [])
  }

  /** The form is accepted exactly when the name has at least two
      characters and section and batch are not empty; each broken rule adds
      one message. */
  lemma ValidateAccepts(v: FormValues)
    ensures Validate(v) == [] <==> |v.name| >= 2 && v.section != "" && v.batch != ""
    ensures |Validate(v)| == (if |v.name| < 2 then 1 else 0) + (if v.section == "" then 1 else 0)
                             + (if v.batch == "" then 1 else 0)
  {
  }

  /** The values the form shows after loading: the found class's fields,
      else the empty defaults. */
  function Prefill(classes: seq<ClassRoom>, classId: string): (v: FormValues)
    ensures FindClass(classes, classId).None? ==> v == FormValues("", "", "")
  {
    match FindClass(classes, classId)
    case None => FormValues("", "", "")
    case Some(c) => FormValues(c.name, c.section, c.batch)
  }

  /** The first class with the id pre-fills the form with its current
      values. */
  lemma PrefillFound(classes: seq<ClassRoom>, classId: string, i: nat)
    requires i < |classes| && classes[i].id == classId
    requires forall j :: 0 <= j < i ==> classes[j].id != classId
    ensures Prefill(classes, classId) == FormValues(classes[i].name, classes[i].section, classes[i].batch)
  {
    FirstIndexAt(classes, HasId(classId), i);
  }

  /** `classes.map(c => c.id === classId ? { ...c, name, section, batch } : c)`. */
  function UpdateClass(classes: seq<ClassRoom>, classId: string, v: FormValues): (r: seq<ClassRoom>)
    ensures |r| == |classes|
  {
    seq(|classes|, i requires 0 <= i < |classes| =>
          if classes[i].id == classId
          then classes[i].(name := v.name, section := v.section, batch := v.batch)
          else classes[i])
  }

  /** Matching classes take the new name, section and batch and keep their
      id and students; every other class is unchanged, in place; with no
      match the list is unchanged. */
  lemma UpdateClassSpec(classes: seq<ClassRoom>, classId: string, v: FormValues)
    ensures var r := UpdateClass(classes, classId, v);
            forall i :: 0 <= i < |classes| ==>
              if classes[i].id == classId
              then r[i].id == classId && r[i].students == classes[i].students
                   && r[i].name == v.name && r[i].section == v.section && r[i].batch == v.batch
              else r[i] == classes[i]
    ensures (forall i :: 0 <= i < |classes| ==> classes[i].id != classId) ==>
              UpdateClass(classes, classId, v) == classes
  {
  }

  /** Saving the values the form was pre-filled with changes nothing. */
  lemma UpdateWithPrefillIsIdentity(classes: seq<ClassRoom>, classId: string)
    requires forall i, j :: 0 <= i < j < |classes| ==> classes[i].id != classes[j].id
    ensures UpdateClass(classes, classId, Prefill(classes, classId)) == classes
  {
    var v := Prefill(classes, classId);
    var r := UpdateClass(classes, classId, v);
    forall i | 0 <= i < |classes| && classes[i].id == classId
      ensures r[i] == classes[i]
    {
      assert forall j :: 0 <= j < i ==> classes[j].id != classId;
      PrefillFound(classes, classId, i);
    }
  }
}
