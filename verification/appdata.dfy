/** `generateStudentsFromRollNumbers`, the default classes built with it,
    and `initializeAppData` with the stored class list as a plain value. */
module AppData {
  import opened Wrappers
  import opened Digits
  import opened Model
  import opened RollNumbers

  /** One `{ start, end }` range. `end` is `None` when the form had no `'-'`
      in the piece, where the source passes `undefined`. */
  datatype RollRange = RollRange(start: string, end: Option<string>)

  /** How a call ends: with the generated students; by throwing (an
      `undefined` end reaches `isLessOrEqual`, which reads `.match` of it);
      or still looping after the fuel of some range ran out. */
  datatype Generation = Generated(students: seq<Student>) | Threw | Diverged

  /** The record pushed for one roll number. */
  function MakeStudent(roll: string, section: string, batch: string): Student {
    Student("student-" + roll, roll, "Student " + roll, section, batch, Some("/placeholder.svg"))
  }

  /** The records for a run of roll numbers, in order. */
  function ToStudents(rolls: seq<string>, section: string, batch: string): (r: seq<Student>)
    ensures |r| == |rolls|
    ensures forall i :: 0 <= i < |r| ==> r[i] == MakeStudent(rolls[i], section, batch)
  {
    seq(|rolls|, i requires 0 <= i < |rolls| => MakeStudent(rolls[i], section, batch))
  }

  lemma ToStudentsAppend(a: seq<string>, b: seq<string>, section: string, batch: string)
    ensures ToStudents(a + b, section, batch) == ToStudents(a, section, batch) + ToStudents(b, section, batch)
  {
  }

  /** The ranges in order, each expanded by `expand`, which gives `None`
      for a loop that does not stop. */
  function GenerateWith(ranges: seq<RollRange>, section: string, batch: string,
                        expand: (string, string) -> Option<seq<string>>): Generation
    decreases |ranges|
  {
    if |ranges| == 0 then Generated([])
    else
      match ranges[0].end
      case None => Threw
      case Some(end) =>
        match expand(ranges[0].start, end)
        case None => Diverged
        case Some(rolls) =>
          match GenerateWith(ranges[1..], section, batch, expand)
          case Generated(rest) => Generated(ToStudents(rolls, section, batch) + rest)
          case other => other
  }

  /** `generateStudentsFromRollNumbers`: each range expanded by the range
      loop with at most `fuel` iterations. */
  function GenerateStudents(ranges: seq<RollRange>, section: string, batch: string, fuel: nat): Generation {
    GenerateWith(ranges, section, batch, (start, end) => ExpandRange(start, end, fuel))
  }

  /** The roll numbers emitted for every range, or `None` when some range
      throws or does not stop. */
  function RollsWith(ranges: seq<RollRange>, expand: (string, string) -> Option<seq<string>>): Option<seq<string>>
    decreases |ranges|
  {
    if |ranges| == 0 then Some([])
    else if ranges[0].end.None? then None
    else
      match expand(ranges[0].start, ranges[0].end.value)
      case None => None
      case Some(rolls) =>
        match RollsWith(ranges[1..], expand)
        case None => None
        case Some(rest) => Some(rolls + rest)
  }

  function AllRolls(ranges: seq<RollRange>, fuel: nat): Option<seq<string>> {
    RollsWith(ranges, (start, end) => ExpandRange(start, end, fuel))
  }

  lemma {:induction false} GenerateWithShape(ranges: seq<RollRange>, section: string, batch: string,
                                             expand: (string, string) -> Option<seq<string>>)
    ensures GenerateWith(ranges, section, batch, expand).Generated? <==> RollsWith(ranges, expand).Some?
    ensures GenerateWith(ranges, section, batch, expand).Generated? ==>
              GenerateWith(ranges, section, batch, expand).students
              == ToStudents(RollsWith(ranges, expand).value, section, batch)
    decreases |ranges|
  {
    if |ranges| > 0 && ranges[0].end.Some? {
      var r := expand(ranges[0].start, ranges[0].end.value);
      if r.Some? {
        GenerateWithShape(ranges[1..], section, batch, expand);
        var rest := RollsWith(ranges[1..], expand);
        if rest.Some? {
          ToStudentsAppend(r.value, rest.value, section, batch);
        }
      }
    }
  }

  /** Generation completes exactly when every range stops, and then the
      students are the records for the ranges' expansions concatenated in
      input order. */
  lemma GenerateStudentsShape(ranges: seq<RollRange>, section: string, batch: string, fuel: nat)
    ensures GenerateStudents(ranges, section, batch, fuel).Generated? <==> AllRolls(ranges, fuel).Some?
    ensures GenerateStudents(ranges, section, batch, fuel).Generated? ==>
              GenerateStudents(ranges, section, batch, fuel).students
              == ToStudents(AllRolls(ranges, fuel).value, section, batch)
  {
    GenerateWithShape(ranges, section, batch, (start, end) => ExpandRange(start, end, fuel));
  }

  /** Every generated student is the record for its own roll number: id
      `student-<roll>`, name `Student <roll>`, the given section and batch,
      and the placeholder avatar. */
  lemma GeneratedStudentFields(ranges: seq<RollRange>, section: string, batch: string, fuel: nat)
    requires GenerateStudents(ranges, section, batch, fuel).Generated?
    ensures var st := GenerateStudents(ranges, section, batch, fuel).students;
            forall i :: 0 <= i < |st| ==>
              && st[i].id == "student-" + st[i].rollNumber
              && st[i].name == "Student " + st[i].rollNumber
              && st[i].section == section && st[i].batch == batch
              && st[i].avatar == Some("/placeholder.svg")
  {
    GenerateStudentsShape(ranges, section, batch, fuel);
  }

  /** The ranges are handled one after the other: the rolls of `a + b` are
      those of `a` followed by those of `b`, and a failure in `a` stops
      everything. */
  lemma {:induction false} RollsWithAppend(a: seq<RollRange>, b: seq<RollRange>,
                                           expand: (string, string) -> Option<seq<string>>)
    ensures RollsWith(a + b, expand)
         == (match RollsWith(a, expand)
             case None => None
             case Some(x) =>
               match RollsWith(b, expand)
               case None => None
               case Some(y) => Some(x + y))
    decreases |a|
  {
    if |a| == 0 {
      assert a + b == b;
      assert RollsWith(a, expand) == Some([]);
      match RollsWith(b, expand) {
        case None =>
        case Some(y) => assert [] + y == y;
      }
    } else {
      assert (a + b)[0] == a[0];
      assert (a + b)[1..] == a[1..] + b;
      RollsWithAppend(a[1..], b, expand);
      if a[0].end.Some? {
        var r := expand(a[0].start, a[0].end.value);
        if r.Some? {
          var rest := RollsWith(a[1..], expand);
          if rest.Some? && RollsWith(b, expand).Some? {
            assert r.value + (rest.value + RollsWith(b, expand).value)
                == (r.value + rest.value) + RollsWith(b, expand).value;
          }
        }
      }
    }
  }

  lemma AllRollsAppend(a: seq<RollRange>, b: seq<RollRange>, fuel: nat)
    ensures AllRolls(a + b, fuel)
         == (match AllRolls(a, fuel)
             case None => None
             case Some(x) =>
               match AllRolls(b, fuel)
               case None => None
               case Some(y) => Some(x + y))
  {
    RollsWithAppend(a, b, (start, end) => ExpandRange(start, end, fuel));
  }

  /** A range without an end makes the call throw, provided every earlier
      range has an end and its loop stops. */
  lemma {:induction false} GenerateWithThrows(ranges: seq<RollRange>, section: string, batch: string,
                                              expand: (string, string) -> Option<seq<string>>, k: nat)
    requires k < |ranges| && ranges[k].end.None?
    requires forall i :: 0 <= i < k ==>
               ranges[i].end.Some? && expand(ranges[i].start, ranges[i].end.value).Some?
    ensures GenerateWith(ranges, section, batch, expand) == Threw
    decreases k
  {
    if k > 0 {
      assert ranges[0].end.Some? && expand(ranges[0].start, ranges[0].end.value).Some?;
      forall i | 0 <= i < k - 1
        ensures ranges[1..][i].end.Some? && expand(ranges[1..][i].start, ranges[1..][i].end.value).Some?
      {
        assert ranges[1..][i] == ranges[i + 1];
      }
      GenerateWithThrows(ranges[1..], section, batch, expand, k - 1);
    }
  }

  lemma MissingEndThrows(ranges: seq<RollRange>, section: string, batch: string, fuel: nat, k: nat)
    requires k < |ranges| && ranges[k].end.None?
    requires forall i :: 0 <= i < k ==>
               ranges[i].end.Some? && ExpandRange(ranges[i].start, ranges[i].end.value, fuel).Some?
    ensures GenerateStudents(ranges, section, batch, fuel) == Threw
  {
    GenerateWithThrows(ranges, section, batch, (start, end) => ExpandRange(start, end, fuel), k);
  }

  // ---------------------------------------------------------------------
  // The default classes.

  /** Iterations allowed to each default range; the longest has 45 rolls. */
  const DefaultFuel: nat := 64

  /** The students of a generation, empty when it did not complete. */
  function StudentsOf(g: Generation): seq<Student> {
    if g.Generated? then g.students else []
  }

  function ClassOneRanges(): seq<RollRange> {
    [RollRange("23BQ1A4755", Some("23BQ1A4799")), RollRange("23BQ1A47A0", Some("23BQ1A47A7"))]
  }

  function ClassTwoRanges(): seq<RollRange> {
    [RollRange("24BQ5A4708", Some("24BQ5A4714"))]
  }

  /** `generateDefaultClasses`. */
  function DefaultClasses(): seq<ClassRoom> {
    [ ClassRoom("class-1", "Computer Science", "A", "2023",
                StudentsOf(GenerateStudents(ClassOneRanges(), "A", "2023", DefaultFuel))),
      ClassRoom("class-2", "Information Technology", "B", "2024",
                StudentsOf(GenerateStudents(ClassTwoRanges(), "B", "2024", DefaultFuel))) ]
  }

  lemma ParseNatFour(s: string)
    requires |s| == 4 && AllDigits(s)
    ensures ParseNat(s) == 1000 * DigitValue(s[0]) + 100 * DigitValue(s[1]) + 10 * DigitValue(s[2]) + DigitValue(s[3])
  {
    var s3, s2, s1 := s[..3], s[..2], s[..1];
    assert s3[..2] == s2 && s2[..1] == s1 && s1[..0] == [];
    assert ParseNat(s1) == DigitValue(s[0]);
    assert ParseNat(s2) == 10 * ParseNat(s1) + DigitValue(s[1]);
    assert ParseNat(s3) == 10 * ParseNat(s2) + DigitValue(s[2]);
  }

  /** A range `prefix + startRun` to `prefix + endRun` in the shape the
      defaults use expands to the padded rolls between the two values. */
  lemma DefaultRange(prefix: string, startRun: string, endRun: string, start: string, end: string,
                     fuel: nat, s: nat, e: nat)
    requires NotDigitTerminated(prefix)
    requires |startRun| >= 1 && AllDigits(startRun) && ParseNat(startRun) == s
    requires |endRun| >= 1 && AllDigits(endRun) && ParseNat(endRun) == e
    requires start == prefix + startRun && end == prefix + endRun
    requires fuel >= RangeCount(s, e)
    ensures ExpandRange(start, end, fuel) == Some(RollsFrom(prefix, |startRun|, s, e))
  {
    ExpandDigitRange(prefix, startRun, endRun, fuel);
  }

  lemma RollsOfTwo(r0: RollRange, r1: RollRange, expand: (string, string) -> Option<seq<string>>,
                   x: seq<string>, y: seq<string>)
    requires r0.end.Some? && expand(r0.start, r0.end.value) == Some(x)
    requires r1.end.Some? && expand(r1.start, r1.end.value) == Some(y)
    ensures RollsWith([r0, r1], expand) == Some(x + y)
  {
    RollsOfOne(r1, expand, y);
    var rs := [r0, r1];
    assert rs[0] == r0 && rs[1..] == [r1];
    assert RollsWith(rs, expand) == Some(x + y);
  }

  lemma RollsOfOne(r0: RollRange, expand: (string, string) -> Option<seq<string>>, x: seq<string>)
    requires r0.end.Some? && expand(r0.start, r0.end.value) == Some(x)
    ensures RollsWith([r0], expand) == Some(x)
  {
    var rs := [r0];
    assert rs[0] == r0 && rs[1..] == [];
    assert RollsWith(rs[1..], expand) == Some([]);
    assert RollsWith(rs, expand) == Some(x + []);
    assert x + [] == x;
  }

  lemma ClassOneFirstRange(fuel: nat)
    requires fuel >= 45
    ensures ExpandRange("23BQ1A4755", "23BQ1A4799", fuel) == Some(RollsFrom("23BQ1A", 4, 4755, 4799))
  {
    ParseNatFour("4755");
    ParseNatFour("4799");
    DefaultRange("23BQ1A", "4755", "4799", "23BQ1A4755", "23BQ1A4799", fuel, 4755, 4799);
  }

  lemma ClassOneSecondRange(fuel: nat)
    requires fuel >= 8
    ensures ExpandRange("23BQ1A47A0", "23BQ1A47A7", fuel) == Some(RollsFrom("23BQ1A47A", 1, 0, 7))
  {
    assert ParseNat("0") == 0 && ParseNat("7") == 7;
    DefaultRange("23BQ1A47A", "0", "7", "23BQ1A47A0", "23BQ1A47A7", fuel, 0, 7);
  }

  lemma ClassTwoRange(fuel: nat)
    requires fuel >= 7
    ensures ExpandRange("24BQ5A4708", "24BQ5A4714", fuel) == Some(RollsFrom("24BQ5A", 4, 4708, 4714))
  {
    ParseNatFour("4708");
    ParseNatFour("4714");
    DefaultRange("24BQ5A", "4708", "4714", "24BQ5A4708", "24BQ5A4714", fuel, 4708, 4714);
  }

  lemma ClassOneRolls(fuel: nat)
    requires fuel >= 45
    ensures AllRolls(ClassOneRanges(), fuel)
         == Some(RollsFrom("23BQ1A", 4, 4755, 4799) + RollsFrom("23BQ1A47A", 1, 0, 7))
  {
    ClassOneFirstRange(fuel);
    ClassOneSecondRange(fuel);
    var expand := (start, end) => ExpandRange(start, end, fuel);
    var ranges := ClassOneRanges();
    RollsOfTwo(ranges[0], ranges[1], expand,
               RollsFrom("23BQ1A", 4, 4755, 4799), RollsFrom("23BQ1A47A", 1, 0, 7));
    assert ranges == [ranges[0], ranges[1]];
  }

  lemma ClassTwoRolls(fuel: nat)
    requires fuel >= 7
    ensures AllRolls(ClassTwoRanges(), fuel) == Some(RollsFrom("24BQ5A", 4, 4708, 4714))
  {
    ClassTwoRange(fuel);
    var expand := (start, end) => ExpandRange(start, end, fuel);
    var ranges := ClassTwoRanges();
    RollsOfOne(ranges[0], expand, RollsFrom("24BQ5A", 4, 4708, 4714));
    assert ranges == [ranges[0]];
  }

  /** The first default class gets the 45 rolls `23BQ1A4755`…`23BQ1A4799`
      followed by the 8 rolls `23BQ1A47A0`…`23BQ1A47A7`, 53 in all; the second
      gets the 7 rolls `24BQ5A4708`…`24BQ5A4714`. Both ranges complete. */
  lemma DefaultClassesRolls()
    ensures var cs := DefaultClasses();
            && |cs| == 2
            && cs[0].id == "class-1" && cs[1].id == "class-2"
            && GenerateStudents(ClassOneRanges(), "A", "2023", DefaultFuel).Generated?
            && GenerateStudents(ClassTwoRanges(), "B", "2024", DefaultFuel).Generated?
            && Rolls(cs[0].students) == RollsFrom("23BQ1A", 4, 4755, 4799) + RollsFrom("23BQ1A47A", 1, 0, 7)
            && Rolls(cs[1].students) == RollsFrom("24BQ5A", 4, 4708, 4714)
            && |cs[0].students| == 53 && |cs[1].students| == 7
  {
    ClassOneRolls(DefaultFuel);
    ClassTwoRolls(DefaultFuel);
    GenerateStudentsShape(ClassOneRanges(), "A", "2023", DefaultFuel);
    GenerateStudentsShape(ClassTwoRanges(), "B", "2024", DefaultFuel);
    var cs := DefaultClasses();
    var one := RollsFrom("23BQ1A", 4, 4755, 4799) + RollsFrom("23BQ1A47A", 1, 0, 7);
    assert cs[0].students == ToStudents(one, "A", "2023");
    assert Rolls(cs[0].students) == one;
    var two := RollsFrom("24BQ5A", 4, 4708, 4714);
    assert cs[1].students == ToStudents(two, "B", "2024");
    assert Rolls(cs[1].students) == two;
  }

  // ---------------------------------------------------------------------
  // Start-up.

  /** `initializeAppData`: the stored class list after start-up. The
      defaults are written only when nothing is stored. */
  function InitializeAppData(stored: seq<ClassRoom>): seq<ClassRoom> {
    if |stored| == 0 then DefaultClasses() else stored
  }

  /** Start-up keeps a non-empty store, fills an empty one with the
      defaults, and never leaves it empty; so running it twice is the same
      as running it once. */
  lemma InitializeAppDataIdempotent(stored: seq<ClassRoom>)
    ensures |stored| > 0 ==> InitializeAppData(stored) == stored
    ensures |stored| == 0 ==> InitializeAppData(stored) == DefaultClasses()
    ensures |InitializeAppData(stored)| > 0
    ensures InitializeAppData(InitializeAppData(stored)) == InitializeAppData(stored)
  {
  }
}
