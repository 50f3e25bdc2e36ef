/** `handleSubmit` of the class-creation form: the roll-range text is
    parsed into ranges, the fields are checked, and the new class is
    appended to the stored list. */
module ClassForm {
  import opened Wrappers
  import opened Text
  import opened Model
  import opened RollNumbers
  import opened AppData

  /** One comma-separated piece: trimmed at its ends, split on `'-'`, and
      destructured as `[start, end]`; `end` is missing without a `'-'`, and
      text after a second `'-'` is dropped. */
  function ParsePiece(piece: string): (r: RollRange)
    ensures '-' !in r.start
    ensures r.end.Some? ==> '-' !in r.end.value
    ensures r.end.None? <==> '-' !in Trim(piece)
  {
    var parts := Split(Trim(piece), '-');
    SplitCount(Trim(piece), '-');
    OccurrencesAbsent(Trim(piece), '-');
    RollRange(parts[0], if |parts| >= 2 then Some(parts[1]) else None)
  }

  /** The range-string parser: one range per comma-separated piece. */
  function ParseRanges(text: string): (r: seq<RollRange>)
    ensures |r| == |Split(text, ',')|
    ensures forall i :: 0 <= i < |r| ==> r[i] == ParsePiece(Split(text, ',')[i])
  {
    var pieces := Split(text, ',');
    seq(|pieces|, i requires 0 <= i < |pieces| => ParsePiece(pieces[i]))
  }

  /** There is one range more than there are commas, so never none. */
  lemma ParseRangesCount(text: string)
    ensures |ParseRanges(text)| == Occurrences(text, ',') + 1
    ensures |ParseRanges(text)| >= 1
  {
    SplitCount(text, ',');
  }

  /** A piece with exactly one `'-'` is cut there: start and end put back
      together around the dash give the trimmed piece. */
  lemma ParsePieceOneDash(piece: string)
    requires Occurrences(Trim(piece), '-') == 1
    ensures ParsePiece(piece).end.Some?
    ensures ParsePiece(piece).start + "-" + ParsePiece(piece).end.value == Trim(piece)
  {
    var t := Trim(piece);
    SplitCount(t, '-');
    JoinSplit(t, '-');
    var parts := Split(t, '-');
    assert |parts| == 2;
    assert parts == [parts[0]] + [parts[1]];
    JoinCons(parts[0], [parts[1]], '-');
  }

  lemma TrimSpacedPiece()
    ensures Trim(" A - B ") == "A - B"
  {
    var s := " A - B ";
    assert s[1..] == "A - B ";
    assert ContentStart(s[1..]) == 0;
    assert ContentStart(s) == 1;
    assert s[..|s| - 1] == " A - B";
    assert ContentEnd(s[..|s| - 1]) == 6;
    assert ContentEnd(s) == 6;
    assert s[1..6] == "A - B";
  }

  lemma SplitSpacedPiece()
    ensures Split("A - B", '-') == ["A ", " B"]
  {
    var t := "A - B";
    assert IndexOf(t[3..], '-') == 2;
    assert IndexOf(t[2..], '-') == 0;
    assert IndexOf(t[1..], '-') == 1;
    assert IndexOf(t, '-') == 2;
    assert t[..2] == "A " && t[3..] == " B";
    assert Split(t[3..], '-') == [" B"];
  }

  /** Only the ends are trimmed: inner spaces stay with start and end. */
  lemma ParsePieceInnerSpaces()
    ensures ParsePiece(" A - B ") == RollRange("A ", Some(" B"))
  {
    TrimSpacedPiece();
    SplitSpacedPiece();
  }

  /** Outcome of a submission. */
  datatype Submission =
    | Rejected                        // a required field is empty
    | Failed                          // the generator threw; nothing saved
    | Hangs                           // the generator loop did not stop
    | Saved(classes: seq<ClassRoom>)  // the class list written back

  /** `handleSubmit` with the stored list `existing` and the new class id
      `newId` (built from the clock in the source) as parameters. */
  function HandleSubmit(existing: seq<ClassRoom>, name: string, section: string, batch: string,
                        rollRanges: string, newId: string, fuel: nat): Submission
  {
    var ranges := ParseRanges(rollRanges);
    if name == "" || section == "" || batch == "" || |ranges| == 0 then Rejected
    else
      match GenerateStudents(ranges, section, batch, fuel)
      case Threw => Failed
      case Diverged => Hangs
      case Generated(students) => Saved(existing + [ClassRoom(newId, name, section, batch, students)])
  }

  /** The form is rejected exactly when a field is empty; the range-count
      test never fires. */
  lemma HandleSubmitRejected(existing: seq<ClassRoom>, name: string, section: string, batch: string,
                             rollRanges: string, newId: string, fuel: nat)
    ensures HandleSubmit(existing, name, section, batch, rollRanges, newId, fuel).Rejected?
        <==> name == "" || section == "" || batch == ""
  {
    ParseRangesCount(rollRanges);
  }

  /** A save happens exactly when the fields are filled and every parsed
      range expands; the stored classes are kept in order and the new
      class, holding the generated students, is appended last. */
  lemma HandleSubmitSaved(existing: seq<ClassRoom>, name: string, section: string, batch: string,
                          rollRanges: string, newId: string, fuel: nat)
    ensures var sub := HandleSubmit(existing, name, section, batch, rollRanges, newId, fuel);
            sub.Saved? <==> name != "" && section != "" && batch != ""
                            && AllRolls(ParseRanges(rollRanges), fuel).Some?
    ensures var sub := HandleSubmit(existing, name, section, batch, rollRanges, newId, fuel);
            sub.Saved? ==>
              && |sub.classes| == |existing| + 1
              && sub.classes[..|existing|] == existing
              && sub.classes[|existing|]
                 == ClassRoom(newId, name, section, batch,
                              ToStudents(AllRolls(ParseRanges(rollRanges), fuel).value, section, batch))
  {
    ParseRangesCount(rollRanges);
    GenerateStudentsShape(ParseRanges(rollRanges), section, batch, fuel);
    var sub := HandleSubmit(existing, name, section, batch, rollRanges, newId, fuel);
    if sub.Saved? {
      assert sub.classes[..|existing|] == existing;
    }
  }

  /** A piece without `'-'` makes the submission fail without saving,
      provided the pieces before it expand. */
  lemma HandleSubmitMissingDash(existing: seq<ClassRoom>, name: string, section: string, batch: string,
                                rollRanges: string, newId: string, fuel: nat, k: nat)
    requires name != "" && section != "" && batch != ""
    requires k < |Split(rollRanges, ',')| && '-' !in Trim(Split(rollRanges, ',')[k])
    requires var ranges := ParseRanges(rollRanges);
             forall i :: 0 <= i < k ==>
               ranges[i].end.Some? && ExpandRange(ranges[i].start, ranges[i].end.value, fuel).Some?
    ensures HandleSubmit(existing, name, section, batch, rollRanges, newId, fuel) == Failed
  {
    MissingEndThrows(ParseRanges(rollRanges), section, batch, fuel, k);
  }
}
