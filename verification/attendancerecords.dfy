/** The attendance-records page: the id-to-class map, the class name and
    details shown per record, and the plain-text report shared for a
    record. Dates are opaque display strings. */
module AttendanceRecords {
  import opened Text
  import opened Digits
  import opened Model
  import opened ViewAttendance

  /** The map built by `forEach(cls => classes[cls.id] = cls)`: a later
      class with the same id overwrites an earlier one. */
  function ClassesMap(classes: seq<ClassRoom>): (m: map<string, ClassRoom>)
    ensures forall id :: id in m <==> exists i :: 0 <= i < |classes| && classes[i].id == id
    ensures forall id :: id in m ==> m[id].id == id
  {
    if |classes| == 0 then map[]
    else
      var last := classes[|classes| - 1];
      ClassesMap(classes[..|classes| - 1])[last.id := last]
  }

  /** The map holds, for each id, the last class carrying it. */
  lemma {:induction false} ClassesMapLastWins(classes: seq<ClassRoom>, i: nat)
    requires i < |classes|
    requires forall j :: i < j < |classes| ==> classes[j].id != classes[i].id
    ensures classes[i].id in ClassesMap(classes)
    ensures ClassesMap(classes)[classes[i].id] == classes[i]
    decreases |classes|
  {
    if i < |classes| - 1 {
      var init := classes[..|classes| - 1];
      assert init[i] == classes[i];
      ClassesMapLastWins(init, i);
    }
  }

  /** `classesMap[classId]?.name || 'Unknown Class'`: an unknown id and an
      empty name both fall back. */
  function GetClassName(classesMap: map<string, ClassRoom>, classId: string): (r: string)
    ensures classId in classesMap && classesMap[classId].name != "" ==> r == classesMap[classId].name
    ensures classId !in classesMap || classesMap[classId].name == "" ==> r == "Unknown Class"
  {
    if classId in classesMap && classesMap[classId].name != "" then classesMap[classId].name
    else "Unknown Class"
  }

  /** `'name | Section s | Batch b'`, or `'Unknown'` for an unknown id. */
  function GetClassDetails(classesMap: map<string, ClassRoom>, classId: string): (r: string)
    ensures classId !in classesMap <==> r == "Unknown"
  {
    if classId !in classesMap then "Unknown"
    else
      var cls := classesMap[classId];
      cls.name + " | Section " + cls.section + " | Batch " + cls.batch
  }

  /** The known case is the name, then the section and the batch behind
      their markers; when no field contains `'|'`, splitting the text at
      `'|'` reads the three fields back. */
  lemma GetClassDetailsKnown(classesMap: map<string, ClassRoom>, classId: string)
    requires classId in classesMap
    ensures var cls := classesMap[classId];
            var r := GetClassDetails(classesMap, classId);
            && IsPrefix(cls.name + " | Section ", r)
            && r[|cls.name + " | Section "|..] == cls.section + " | Batch " + cls.batch
    ensures var cls := classesMap[classId];
            '|' !in cls.name && '|' !in cls.section && '|' !in cls.batch ==>
              Split(GetClassDetails(classesMap, classId), '|')
                == [cls.name + " ", " Section " + cls.section + " ", " Batch " + cls.batch]
  {
    var cls := classesMap[classId];
    var r := GetClassDetails(classesMap, classId);
    assert r == (cls.name + " | Section ") + (cls.section + " | Batch " + cls.batch);
    if '|' !in cls.name && '|' !in cls.section && '|' !in cls.batch {
      DetailsSplit(cls.name, cls.section, cls.batch);
    }
  }

  lemma DetailsSplit(name: string, section: string, batch: string)
    requires '|' !in name && '|' !in section && '|' !in batch
    ensures Split(name + " | Section " + section + " | Batch " + batch, '|')
         == [name + " ", " Section " + section + " ", " Batch " + batch]
  {
    var a, b, c := name + " ", " Section " + section + " ", " Batch " + batch;
    assert '|' !in a && '|' !in b && '|' !in c;
    DetailsText(name, section, batch);
    JoinThree(a, b, c, '|');
    SplitJoin([a, b, c], '|');
  }

  /** The details text is its three fields joined at the bars. */
  lemma DetailsText(name: string, section: string, batch: string)
    ensures name + " | Section " + section + " | Batch " + batch
         == (name + " ") + ['|'] + (" Section " + section + " ") + ['|'] + (" Batch " + batch)
  {
    assert " | Section " == " " + ['|'] + " Section ";
    assert " | Batch " == " " + ['|'] + " Batch ";
  }

  /** End to end: the name shown for an id is that of the last class
      carrying it, or `Unknown Class` when that name is empty. */
  lemma ClassNameOfLastClass(classes: seq<ClassRoom>, i: nat)
    requires i < |classes|
    requires forall j :: i < j < |classes| ==> classes[j].id != classes[i].id
    ensures GetClassName(ClassesMap(classes), classes[i].id)
         == if classes[i].name != "" then classes[i].name else "Unknown Class"
  {
    ClassesMapLastWins(classes, i);
  }

  /** End to end: an id that no class carries shows `Unknown Class`. */
  lemma ClassNameOfUnknownId(classes: seq<ClassRoom>, classId: string)
    requires forall i :: 0 <= i < |classes| ==> classes[i].id != classId
    ensures GetClassName(ClassesMap(classes), classId) == "Unknown Class"
  {
  }

  /** `1. roll - name` lines for `students`, numbered from `first`. */
  function NumberedLines(students: seq<Student>, first: nat): (r: seq<string>)
    ensures |r| == |students|
    ensures forall i :: 0 <= i < |r| ==>
              r[i] == NatToString(first + i) + ". " + students[i].rollNumber + " - " + students[i].name
  {
    seq(|students|, i requires 0 <= i < |students| =>
          NatToString(first + i) + ". " + students[i].rollNumber + " - " + students[i].name)
  }

  const Footer: string := "Generated by HighClass Attendance App"

  /** The percentage as printed: `Math.round` of the ratio, which is `NaN`
      for an empty roster. */
  function PercentText(p: nat, n: nat): string {
    if n == 0 then "NaN" else NatToString(RoundedPercent(p, n))
  }

  /** Title, date, class, section and batch, then a blank line. */
  function HeaderLines(date: string, cls: ClassRoom): seq<string> {
    [ "*Attendance Report*", "",
      "\U{1F4C6} *Date:* " + date,
      "\U{1F4DA} *Class:* " + cls.name,
      "\U{1F465} *Section:* " + cls.section,
      "\U{1F393} *Batch:* " + cls.batch, "" ]
  }

  /** A block header followed by its numbered students. */
  function Block(header: string, students: seq<Student>): (r: seq<string>)
    ensures |r| == |students| + 1
  {
    [header] + NumberedLines(students, 1)
  }

  function PresentHeader(p: nat, n: nat): string {
    "\U{2705} *Present (" + NatToString(p) + "/" + NatToString(n) + ")*"
  }

  function AbsentHeader(a: nat, n: nat): string {
    "\U{274C} *Absent (" + NatToString(a) + "/" + NatToString(n) + ")*"
  }

  function PercentLine(p: nat, n: nat): string {
    "\U{1F4CA} *Attendance Percentage:* " + PercentText(p, n) + "%"
  }

  /** The percentage and the footer, each after a blank line. */
  function TailLines(p: nat, n: nat): seq<string> {
    ["", PercentLine(p, n), "", Footer]
  }

  /** The report, line by line. */
  function ReportLines(date: string, cls: ClassRoom, students: seq<Student>, present: seq<string>)
    : seq<string>
  {
    var p := PresentStudents(students, present);
    var a := AbsentStudents(students, present);
    Assemble(HeaderLines(date, cls), Block(PresentHeader(|p|, |students|), p),
             Block(AbsentHeader(|a|, |students|), a), TailLines(|p|, |students|))
  }

  /** The header, the present block, a blank line, the absent block and
      the tail, in this order. */
  function Assemble(header: seq<string>, presentBlock: seq<string>, absentBlock: seq<string>,
                    tail: seq<string>): seq<string>
  {
    header + presentBlock + [""] + absentBlock + tail
  }

  lemma AssembleLayout(h: seq<string>, bp: seq<string>, ba: seq<string>, t: seq<string>)
    requires |h| == 7 && |t| == 4
    ensures var lines := Assemble(h, bp, ba, t);
            && |lines| == 12 + |bp| + |ba|
            && lines[..7] == h
            && lines[7..7 + |bp|] == bp
            && lines[7 + |bp|] == ""
            && lines[8 + |bp|..8 + |bp| + |ba|] == ba
            && lines[|lines| - 4..] == t
  {
    ConcatSlices(h, bp, [""], ba, t);
  }

  /** The message of `shareAttendanceOnWhatsApp`: the lines joined by
      newlines. */
  function AttendanceReport(date: string, cls: ClassRoom, students: seq<Student>, present: seq<string>)
    : string
  {
    Join(ReportLines(date, cls, students, present), '\n')
  }

  /** A block lists its students numbered from 1, in order. */
  lemma BlockLines(header: string, students: seq<Student>)
    ensures Block(header, students)[0] == header
    ensures forall i :: 0 <= i < |students| ==>
              Block(header, students)[1 + i]
              == NatToString(i + 1) + ". " + students[i].rollNumber + " - " + students[i].name
  {
  }

  /** The report opens with title, date, class, section and batch; then
      the present block, whose header counts `p` of `n` and which lists
      the present students numbered from 1 in roster order; a blank line;
      then the absent block likewise. */
  lemma ReportLayout(date: string, cls: ClassRoom, students: seq<Student>, present: seq<string>)
    ensures var lines := ReportLines(date, cls, students, present);
            var p := PresentStudents(students, present);
            var a := AbsentStudents(students, present);
            && 10 + |p| + |a| <= |lines|
            && lines[..7] == HeaderLines(date, cls)
            && lines[7..8 + |p|] == Block(PresentHeader(|p|, |students|), p)
            && lines[8 + |p|] == ""
            && lines[9 + |p|..10 + |p| + |a|] == Block(AbsentHeader(|a|, |students|), a)
  {
    var p := PresentStudents(students, present);
    var a := AbsentStudents(students, present);
    AssembleLayout(HeaderLines(date, cls), Block(PresentHeader(|p|, |students|), p),
                   Block(AbsentHeader(|a|, |students|), a), TailLines(|p|, |students|));
  }

  /** The two blocks together list every roster student once, so the
      report has `14 + n` lines. */
  lemma ReportLength(date: string, cls: ClassRoom, students: seq<Student>, present: seq<string>)
    ensures |ReportLines(date, cls, students, present)| == 14 + |students|
  {
    PresentAbsentPartition(students, present);
  }

  /** The report closes with the percentage line and the footer. */
  lemma ReportTail(date: string, cls: ClassRoom, students: seq<Student>, present: seq<string>)
    ensures var lines := ReportLines(date, cls, students, present);
            && |lines| >= 4
            && lines[|lines| - 4..] == TailLines(|PresentStudents(students, present)|, |students|)
  {
    var p := PresentStudents(students, present);
    var a := AbsentStudents(students, present);
    AssembleLayout(HeaderLines(date, cls), Block(PresentHeader(|p|, |students|), p),
                   Block(AbsentHeader(|a|, |students|), a), TailLines(|p|, |students|));
  }

  /** Where the parts of a five-part concatenation sit. */
  lemma ConcatSlices<T>(a: seq<T>, b: seq<T>, c: seq<T>, d: seq<T>, e: seq<T>)
    ensures var s := a + b + c + d + e;
            && |s| == |a| + |b| + |c| + |d| + |e|
            && s[..|a|] == a
            && s[|a|..|a| + |b|] == b
            && s[|a| + |b|..|a| + |b| + |c|] == c
            && s[|a| + |b| + |c|..|a| + |b| + |c| + |d|] == d
            && s[|s| - |e|..] == e
  {
  }

  /** The message opens with the title and closes with the footer. */
  lemma ReportEnds(date: string, cls: ClassRoom, students: seq<Student>, present: seq<string>)
    ensures var m := AttendanceReport(date, cls, students, present);
            && IsPrefix("*Attendance Report*\n", m)
            && |m| >= |Footer| && m[|m| - |Footer|..] == Footer
  {
    var lines := ReportLines(date, cls, students, present);
    ReportLayout(date, cls, students, present);
    ReportTail(date, cls, students, present);
    assert lines[0] == HeaderLines(date, cls)[0];
    assert lines[|lines| - 1] == Footer by {
      assert lines[|lines| - 1] == lines[|lines| - 4..][3];
      assert TailLines(|PresentStudents(students, present)|, |students|)[3] == Footer;
    }
    JoinCons(lines[0], lines[1..], '\n');
    assert [lines[0]] + lines[1..] == lines;
    JoinSnoc(lines[..|lines| - 1], Footer, '\n');
    assert lines[..|lines| - 1] + [Footer] == lines;
  }

  /** Above the empty roster the percentage line shows the rounded
      percentage; for the empty roster it shows `NaN`. */
  lemma PercentTextCases(p: nat, n: nat)
    ensures n == 0 ==> PercentText(p, n) == "NaN"
    ensures n > 0 ==> AllDigits(PercentText(p, n)) && ParseNat(PercentText(p, n)) == RoundedPercent(p, n)
  {
    if n > 0 {
      ParseNatToString(RoundedPercent(p, n));
    }
  }
}
