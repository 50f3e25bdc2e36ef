/** The two helpers inside `generateStudentsFromRollNumbers`: bumping a roll
    number to the next one, and the custom `<=` that decides when a range
    has been exhausted; plus the range loop itself, bounded by fuel because
    it does not terminate on every input. */
module RollNumbers {
  import opened Wrappers
  import opened Text
  import opened Digits

  /** The roll number matches `/[A-Za-z]$/`. */
  predicate EndsWithLetter(r: string) {
    |r| > 0 && IsAsciiLetter(r[|r| - 1])
  }

  /** Where the digit run ending at position `k` starts. */
  function RunStartFrom(r: string, k: nat): (j: nat)
    requires k <= |r|
    ensures j <= k
    decreases k
  {
    if k > 0 && IsDigit(r[k - 1]) then RunStartFrom(r, k - 1) else k
  }

  /** Where the trailing digit run (`/\d+$/`) starts; `|r|` when there is none. */
  function DigitRunStart(r: string): (k: nat)
    ensures k <= |r|
  {
    RunStartFrom(r, |r|)
  }

  /** `r.replace(/\d+$/, "")`. */
  function DigitPrefix(r: string): string {
    r[..DigitRunStart(r)]
  }

  /** `r.match(/\d+$/)?.[0]`, empty when there is no match. */
  function DigitRun(r: string): (d: string)
    ensures AllDigits(d)
  {
    RunStartIsDigits(r, |r|);
    r[DigitRunStart(r)..]
  }

  lemma {:induction false} RunStartIsDigits(r: string, k: nat)
    requires k <= |r|
    ensures forall i :: RunStartFrom(r, k) <= i < k ==> IsDigit(r[i])
    decreases k
  {
    if k > 0 && IsDigit(r[k - 1]) {
      RunStartIsDigits(r, k - 1);
    }
  }

  /** `parseInt(r.match(/\d+$/)?.[0] || "0", 10)`; an empty run parses as 0. */
  function DigitRunValue(r: string): nat {
    ParseNat(DigitRun(r))
  }

  /** The next character code in the last position. */
  function NextLetter(r: string): string
    requires EndsWithLetter(r)
  {
    r[..|r| - 1] + [(r[|r| - 1] as int + 1) as char]
  }

  /** The trailing digit run plus one, zero-padded back to the run's width. */
  function NextNumber(r: string): string {
    DigitPrefix(r) + PadZeros(NatToString(DigitRunValue(r) + 1), |DigitRun(r)|)
  }

  /** `incrementRollNumber`. A trailing letter moves to the next character
      code, with no wrap-around (`'Z'` becomes `'['`). Otherwise the trailing
      digit run, read as a number, goes up by one and is zero-padded back to
      the run's width; a roll with no trailing digits gets `"1"` appended. */
  function Increment(r: string): string {
    if EndsWithLetter(r) then NextLetter(r) else NextNumber(r)
  }

  /** After a trailing letter, `Increment` keeps everything but the last
      character and moves the last one up by one character code. */
  lemma IncrementLetterSpec(r: string)
    requires EndsWithLetter(r)
    ensures var next := Increment(r);
      |next| == |r| && next[..|r| - 1] == r[..|r| - 1] &&
      next[|r| - 1] as int == r[|r| - 1] as int + 1
  {
  }

  /** Otherwise `Increment` keeps the digit prefix, and what follows it is a
      digit string whose value is one more than the old run's, as wide as
      the old run or, when the new value needs more digits, as wide as its
      numeral. */
  lemma IncrementNumberSpec(r: string)
    requires !EndsWithLetter(r)
    ensures var next := Increment(r);
      IsPrefix(DigitPrefix(r), next) && AllDigits(next[|DigitPrefix(r)|..]) &&
      ParseNat(next[|DigitPrefix(r)|..]) == DigitRunValue(r) + 1 &&
      |next[|DigitPrefix(r)|..]| >= |DigitRun(r)| &&
      |next[|DigitPrefix(r)|..]| ==
        (if |NatToString(DigitRunValue(r) + 1)| >= |DigitRun(r)| then |NatToString(DigitRunValue(r) + 1)|
         else |DigitRun(r)|)
  {
    var padded := PadZeros(NatToString(DigitRunValue(r) + 1), |DigitRun(r)|);
    ParsePadded(DigitRunValue(r) + 1, |DigitRun(r)|);
    assert Increment(r) == NextNumber(r) == DigitPrefix(r) + padded;
    assert NextNumber(r)[|DigitPrefix(r)|..] == padded;
  }

  /** A roll ending in neither a letter nor a digit gets `"1"` appended. */
  lemma IncrementAppendsOne(r: string)
    requires !EndsWithLetter(r) && DigitRun(r) == ""
    ensures Increment(r) == r + "1"
  {
    assert DigitRunValue(r) == 0 by { assert ParseNat("") == 0; }
    assert NatToString(1) == "1";
    assert PadZeros("1", 0) == "1";
    assert DigitPrefix(r) == r by {
      assert r == DigitPrefix(r) + DigitRun(r);
    }
    assert NextNumber(r) == DigitPrefix(r) + "1";
  }

  /** `isLessOrEqual`. When exactly one side ends in a letter the strings
      are compared lexically as a whole. Otherwise the prefixes before the
      suffix (trailing digit run, or last letter) are compared lexically, and
      equal prefixes fall through to comparing the digit runs as numbers or
      the last letters as characters. */
  predicate IsLessOrEqual(a: string, b: string) {
    var alphaA := EndsWithLetter(a);
    var alphaB := EndsWithLetter(b);
    if alphaA != alphaB then LexLe(a, b)
    else if !alphaA then
      if DigitPrefix(a) != DigitPrefix(b) then LexLe(DigitPrefix(a), DigitPrefix(b))
      else DigitRunValue(a) <= DigitRunValue(b)
    else
      if a[..|a| - 1] != b[..|b| - 1] then LexLe(a[..|a| - 1], b[..|b| - 1])
      else a[|a| - 1] <= b[|b| - 1]
  }

  /** Every roll number is at most itself. */
  lemma IsLessOrEqualReflexive(r: string)
    ensures IsLessOrEqual(r, r)
  {
  }

  /** Any two roll numbers are comparable one way or the other. */
  lemma IsLessOrEqualTotal(a: string, b: string)
    ensures IsLessOrEqual(a, b) || IsLessOrEqual(b, a)
  {
    LexLeTotal(a, b);
    LexLeTotal(DigitPrefix(a), DigitPrefix(b));
    if EndsWithLetter(a) && EndsWithLetter(b) {
      LexLeTotal(a[..|a| - 1], b[..|b| - 1]);
    }
  }

  /** Digit suffixes compare as numbers, not as text: `"A9" <= "A10"` holds
      although `"A9"` sorts after `"A10"` lexically; and a mixed pair such as
      `"A1"`, `"AB"` falls back to lexical order. */
  lemma IsLessOrEqualExamples()
    ensures IsLessOrEqual("A9", "A10") && !LexLe("A9", "A10")
    ensures IsLessOrEqual("A1", "AB") && !IsLessOrEqual("AB", "A1")
  {
    assert "A9"[1] == '9' && "A9"[0] == 'A';
    assert RunStartFrom("A9", 1) == 1 && RunStartFrom("A9", 2) == 1;
    assert "A10"[2] == '0' && "A10"[1] == '1' && "A10"[0] == 'A';
    assert RunStartFrom("A10", 1) == 1 && RunStartFrom("A10", 2) == 1 && RunStartFrom("A10", 3) == 1;
    assert DigitRunStart("A9") == 1 && DigitRunStart("A10") == 1;
    assert DigitPrefix("A9") == "A" == DigitPrefix("A10");
    assert "A9"[1..] == "9" && "A10"[1..] == "10";
    assert DigitRun("A9") == "9" && DigitRun("A10") == "10";
    assert ParseNat("10") == 10 by { assert "10"[..1] == "1"; }
    assert ParseNat("9") == 9;
  }

  lemma Roll4709()
    ensures RollAt("", 4, 4709) == "4709"
  {
    assert ParseNat("4709") == 4709 by {
      assert "4709"[..3] == "470" && "470"[..2] == "47" && "47"[..1] == "4";
    }
    RollAtOfRun("", "4709");
    assert "" + "4709" == "4709";
  }

  lemma Roll4710()
    ensures RollAt("", 4, 4710) == "4710"
  {
    assert NatToString(4710) == "4710";
  }

  /** Increment inside a digit run, and across a carry: `"4709"` becomes `"4710"`. */
  lemma IncrementCarry()
    ensures Increment("4709") == "4710"
  {
    Roll4709();
    RollAtIncrement("", 4, 4709);
    Roll4710();
  }

  /** An all-nines run grows by a digit: `"99"` becomes `"100"`. */
  lemma IncrementAllNines()
    ensures Increment("99") == "100"
  {
    assert ParseNat("99") == 99 by {
      assert "99"[..1] == "9";
    }
    RollAtOfRun("", "99");
    assert "" + "99" == "99";
    RollAtIncrement("", 2, 99);
    assert NatToString(100) == "100";
  }

  /** A letter moves to the next character code with no wrap-around:
      `"Z"` becomes `"["`. */
  lemma IncrementPastZ()
    ensures Increment("Z") == "["
  {
    assert NextLetter("Z") == "[" by { assert "Z"[..0] == ""; }
  }

  /** `"["` ends in neither a letter nor a digit, so it becomes `"[1"`. */
  lemma IncrementBracket()
    ensures Increment("[") == "[1"
  {
    assert DigitRunStart("[") == 1;
    assert DigitRun("[") == "" && !EndsWithLetter("[");
    IncrementAppendsOne("[");
  }

  /** The loop `while (le(current, end)) { emit current; current = step(current) }`
      run with at most `fuel` iterations: `Some` of the emitted values when
      the loop stops, `None` when it is still running after `fuel` steps. */
  function RunLoop(current: string, end: string, fuel: nat,
                   le: (string, string) -> bool, step: string -> string): (r: Option<seq<string>>)
    ensures r.Some? ==> |r.value| <= fuel
    ensures r.Some? && |r.value| > 0 ==> r.value[0] == current
    ensures r.Some? && |r.value| == 0 ==> !le(current, end)
    ensures r.Some? && |r.value| > 0 ==> !le(step(r.value[|r.value| - 1]), end)
    decreases fuel
  {
    if !le(current, end) then Some([])
    else if fuel == 0 then None
    else match RunLoop(step(current), end, fuel - 1, le, step)
      case None => None
      case Some(rest) => Some([current] + rest)
  }

  /** The loop's invariant: whatever it emits is the chain of steps from
      `current`, each element at most `end`. */
  lemma {:induction false} RunLoopIsStepChain(current: string, end: string, fuel: nat,
                                              le: (string, string) -> bool, step: string -> string)
    requires RunLoop(current, end, fuel, le, step).Some?
    ensures var out := RunLoop(current, end, fuel, le, step).value;
            && (forall i :: 0 <= i < |out| ==> le(out[i], end))
            && (forall i :: 0 <= i < |out| - 1 ==> out[i + 1] == step(out[i]))
    decreases fuel
  {
    if le(current, end) {
      var out := RunLoop(current, end, fuel, le, step).value;
      var rest := RunLoop(step(current), end, fuel - 1, le, step).value;
      RunLoopIsStepChain(step(current), end, fuel - 1, le, step);
      assert out == [current] + rest;
      forall i | 0 <= i < |out|
        ensures le(out[i], end)
      {
        if i > 0 {
          assert out[i] == rest[i - 1];
        }
      }
      forall i | 0 <= i < |out| - 1
        ensures out[i + 1] == step(out[i])
      {
        if i > 0 {
          assert out[i] == rest[i - 1] && out[i + 1] == rest[i];
        }
      }
    }
  }

  /** More fuel never changes a loop that has already stopped. */
  lemma {:induction false} RunLoopFuelMonotone(current: string, end: string, fuel: nat, more: nat,
                                               le: (string, string) -> bool, step: string -> string)
    requires RunLoop(current, end, fuel, le, step).Some?
    requires fuel <= more
    ensures RunLoop(current, end, more, le, step) == RunLoop(current, end, fuel, le, step)
    decreases fuel
  {
    if le(current, end) {
      RunLoopFuelMonotone(step(current), end, fuel - 1, more - 1, le, step);
    }
  }

  /** Conversely, a chain of steps from `current` that stays at most `end`
      and whose next step does not, is exactly what the loop emits, given
      enough fuel. */
  lemma {:induction false} RunLoopYields(current: string, end: string, fuel: nat,
                                         le: (string, string) -> bool, step: string -> string,
                                         out: seq<string>)
    requires |out| <= fuel
    requires |out| > 0 ==> out[0] == current
    requires forall i :: 0 <= i < |out| ==> le(out[i], end)
    requires forall i :: 0 <= i < |out| - 1 ==> out[i + 1] == step(out[i])
    requires if |out| == 0 then !le(current, end) else !le(step(out[|out| - 1]), end)
    ensures RunLoop(current, end, fuel, le, step) == Some(out)
    decreases |out|
  {
    if |out| > 0 {
      var rest := out[1..];
      if |rest| > 0 {
        assert rest[0] == step(current);
      }
      forall i | 0 <= i < |rest| - 1
        ensures rest[i + 1] == step(rest[i])
      {
        assert rest[i + 1] == out[i + 2] && rest[i] == out[i + 1];
      }
      RunLoopYields(step(current), end, fuel - 1, le, step, rest);
      assert out == [current] + rest;
    }
  }

  /** A loop over values `f(v)` whose step adds one to `v`, whose test
      holds for `s..e` and fails right after, emits exactly `f(s), …, f(e)`. */
  lemma RunLoopOverValues(end: string, fuel: nat, le: (string, string) -> bool, step: string -> string,
                          f: nat -> string, s: nat, e: nat, start: string, out: seq<string>)
    requires start == f(s)
    requires forall v: nat :: s <= v <= e ==> le(f(v), end) && step(f(v)) == f(v + 1)
    requires !le(f(s + RangeCount(s, e)), end)
    requires fuel >= RangeCount(s, e)
    requires |out| == RangeCount(s, e) && forall i :: 0 <= i < |out| ==> out[i] == f(s + i)
    ensures RunLoop(start, end, fuel, le, step) == Some(out)
  {
    forall i | 0 <= i < |out|
      ensures le(out[i], end)
    {
      assert le(f(s + i), end);
    }
    forall i | 0 <= i < |out| - 1
      ensures out[i + 1] == step(out[i])
    {
      assert step(f(s + i)) == f(s + i + 1);
    }
    if |out| > 0 {
      assert out[|out| - 1] == f(e);
      assert step(f(e)) == f(e + 1);
    }
    RunLoopYields(f(s), end, fuel, le, step, out);
  }

  /** A loop whose every step stays at most `end` never stops: `chain(i)` is
      the value after `i` steps. */
  lemma {:induction false} RunLoopDiverges(current: string, end: string, fuel: nat,
                                           le: (string, string) -> bool, step: string -> string,
                                           chain: nat -> string, from: nat)
    requires chain(from) == current
    requires forall i: nat :: i >= from ==> le(chain(i), end) && chain(i + 1) == step(chain(i))
    ensures RunLoop(current, end, fuel, le, step).None?
    decreases fuel
  {
    assert le(chain(from), end) && chain(from + 1) == step(chain(from));
    if fuel > 0 {
      RunLoopDiverges(step(current), end, fuel - 1, le, step, chain, from + 1);
    }
  }

  /** The range loop of `generateStudentsFromRollNumbers` for one range. */
  function ExpandRange(start: string, end: string, fuel: nat): Option<seq<string>> {
    RunLoop(start, end, fuel, IsLessOrEqual, Increment)
  }

  // ---------------------------------------------------------------------
  // Well-formed digit ranges: a shared prefix that does not end in a digit,
  // followed by a digit run.

  /** A prefix after which a digit run is the whole trailing digit run. */
  predicate NotDigitTerminated(prefix: string) {
    prefix == "" || !IsDigit(prefix[|prefix| - 1])
  }

  /** The roll number with prefix `prefix` and value `v` padded to `width` digits. */
  function RollAt(prefix: string, width: nat, v: nat): string {
    prefix + PadZeros(NatToString(v), width)
  }

  lemma {:induction false} RunStartAfterPrefix(prefix: string, d: string, k: nat)
    requires NotDigitTerminated(prefix) && AllDigits(d)
    requires |prefix| <= k <= |prefix| + |d|
    ensures RunStartFrom(prefix + d, k) == |prefix|
    decreases k
  {
    if k > |prefix| {
      assert (prefix + d)[k - 1] == d[k - 1 - |prefix|];
      RunStartAfterPrefix(prefix, d, k - 1);
    } else if k > 0 {
      assert (prefix + d)[k - 1] == prefix[k - 1];
    }
  }

  lemma DigitRunStartAfterPrefix(prefix: string, d: string)
    requires NotDigitTerminated(prefix) && AllDigits(d)
    ensures DigitRunStart(prefix + d) == |prefix|
  {
    RunStartAfterPrefix(prefix, d, |prefix + d|);
  }

  lemma RollAtEndsWithDigit(prefix: string, width: nat, v: nat)
    ensures !EndsWithLetter(RollAt(prefix, width, v))
  {
    var d := PadZeros(NatToString(v), width);
    assert RollAt(prefix, width, v) == prefix + d;
    assert |d| > 0 && IsDigit(d[|d| - 1]);
  }

  lemma RollAtPrefix(prefix: string, width: nat, v: nat)
    requires NotDigitTerminated(prefix)
    ensures DigitPrefix(RollAt(prefix, width, v)) == prefix
  {
    DigitRunStartAfterPrefix(prefix, PadZeros(NatToString(v), width));
  }

  lemma RollAtValue(prefix: string, width: nat, v: nat)
    requires NotDigitTerminated(prefix)
    ensures DigitRun(RollAt(prefix, width, v)) == PadZeros(NatToString(v), width)
    ensures DigitRunValue(RollAt(prefix, width, v)) == v
  {
    var d := PadZeros(NatToString(v), width);
    DigitRunStartAfterPrefix(prefix, d);
    assert RollAt(prefix, width, v)[|prefix|..] == d;
    ParsePadded(v, width);
  }

  /** The parts `RollAt` is built from are the parts the helpers read back. */
  lemma RollAtParts(prefix: string, width: nat, v: nat)
    requires NotDigitTerminated(prefix)
    ensures !EndsWithLetter(RollAt(prefix, width, v))
    ensures DigitPrefix(RollAt(prefix, width, v)) == prefix
    ensures DigitRunValue(RollAt(prefix, width, v)) == v
  {
    RollAtEndsWithDigit(prefix, width, v);
    RollAtPrefix(prefix, width, v);
    RollAtValue(prefix, width, v);
  }

  /** With a shared prefix, the order on padded rolls is the order on values. */
  lemma RollAtOrder(prefix: string, w1: nat, v1: nat, w2: nat, v2: nat)
    requires NotDigitTerminated(prefix)
    ensures IsLessOrEqual(RollAt(prefix, w1, v1), RollAt(prefix, w2, v2)) <==> v1 <= v2
  {
    RollAtParts(prefix, w1, v1);
    RollAtParts(prefix, w2, v2);
  }

  /** Incrementing a padded roll gives the next value at the same width. */
  lemma RollAtIncrement(prefix: string, width: nat, v: nat)
    requires NotDigitTerminated(prefix)
    ensures Increment(RollAt(prefix, width, v)) == RollAt(prefix, width, v + 1)
  {
    RollAtEndsWithDigit(prefix, width, v);
    RollAtPrefix(prefix, width, v);
    RollAtValue(prefix, width, v);
    PadSuccessorWidth(v, width);
  }

  /** Number of roll numbers from value `s` to value `e` inclusive. */
  function RangeCount(s: nat, e: nat): nat {
    if e >= s then e - s + 1 else 0
  }

  /** The roll numbers with values `s..e` at width `width`, in order. */
  function RollsFrom(prefix: string, width: nat, s: nat, e: nat): (rolls: seq<string>)
    ensures |rolls| == RangeCount(s, e)
    ensures forall i :: 0 <= i < |rolls| ==> rolls[i] == RollAt(prefix, width, s + i)
  {
    seq(RangeCount(s, e), i requires 0 <= i < RangeCount(s, e) => RollAt(prefix, width, s + i))
  }

  /** With a shared prefix, a padded roll is at most the end roll exactly
      when its value is at most the end value. */
  lemma RollAtOrderAll(prefix: string, width: nat, endWidth: nat, e: nat)
    requires NotDigitTerminated(prefix)
    ensures forall v: nat :: IsLessOrEqual(RollAt(prefix, width, v), RollAt(prefix, endWidth, e)) <==> v <= e
  {
    forall v: nat
      ensures IsLessOrEqual(RollAt(prefix, width, v), RollAt(prefix, endWidth, e)) <==> v <= e
    {
      RollAtOrder(prefix, width, v, endWidth, e);
    }
  }

  lemma RollAtIncrementAll(prefix: string, width: nat)
    requires NotDigitTerminated(prefix)
    ensures forall v: nat :: Increment(RollAt(prefix, width, v)) == RollAt(prefix, width, v + 1)
  {
    forall v: nat
      ensures Increment(RollAt(prefix, width, v)) == RollAt(prefix, width, v + 1)
    {
      RollAtIncrement(prefix, width, v);
    }
  }

  /** The loop facts of a digit range, for any function that spells out
      the padded rolls. */
  lemma RollLoopFacts(prefix: string, width: nat, s: nat, endWidth: nat, e: nat, f: nat -> string)
    requires NotDigitTerminated(prefix)
    requires forall v: nat :: f(v) == RollAt(prefix, width, v)
    ensures forall v: nat :: s <= v <= e ==>
              IsLessOrEqual(f(v), RollAt(prefix, endWidth, e)) && Increment(f(v)) == f(v + 1)
    ensures !IsLessOrEqual(f(s + RangeCount(s, e)), RollAt(prefix, endWidth, e))
    ensures var out := RollsFrom(prefix, width, s, e);
            forall i :: 0 <= i < |out| ==> out[i] == f(s + i)
  {
    RollAtOrderAll(prefix, width, endWidth, e);
    RollAtIncrementAll(prefix, width);
  }

  /** A digit range given by padded values expands to exactly the values
      `s..e`, in ascending order, at the start's width. */
  lemma ExpandRollAt(prefix: string, width: nat, s: nat, endWidth: nat, e: nat, fuel: nat)
    requires NotDigitTerminated(prefix)
    requires fuel >= RangeCount(s, e)
    ensures ExpandRange(RollAt(prefix, width, s), RollAt(prefix, endWidth, e), fuel)
         == Some(RollsFrom(prefix, width, s, e))
  {
    var f := (v: nat) => RollAt(prefix, width, v);
    RollLoopFacts(prefix, width, s, endWidth, e, f);
    RunLoopOverValues(RollAt(prefix, endWidth, e), fuel, IsLessOrEqual, Increment, f, s, e,
                      RollAt(prefix, width, s), RollsFrom(prefix, width, s, e));
  }

  /** Different values give different rolls. */
  lemma RollAtInjective(prefix: string, w1: nat, v1: nat, w2: nat, v2: nat)
    requires NotDigitTerminated(prefix)
    requires v1 != v2
    ensures RollAt(prefix, w1, v1) != RollAt(prefix, w2, v2)
  {
    RollAtValue(prefix, w1, v1);
    RollAtValue(prefix, w2, v2);
  }

  /** The rolls of a range ascend strictly under `isLessOrEqual`. */
  lemma RollsFromAscending(prefix: string, width: nat, s: nat, e: nat)
    requires NotDigitTerminated(prefix)
    ensures var rolls := RollsFrom(prefix, width, s, e);
            forall i, j :: 0 <= i < j < |rolls| ==>
              IsLessOrEqual(rolls[i], rolls[j]) && rolls[i] != rolls[j]
  {
    var rolls := RollsFrom(prefix, width, s, e);
    forall i, j | 0 <= i < j < |rolls|
      ensures IsLessOrEqual(rolls[i], rolls[j]) && rolls[i] != rolls[j]
    {
      RollAtOrder(prefix, width, s + i, width, s + j);
      RollAtInjective(prefix, width, s + i, width, s + j);
    }
  }

  /** A digit string after the prefix is the roll of its own value at its own width. */
  lemma RollAtOfRun(prefix: string, run: string)
    requires AllDigits(run) && |run| >= 1
    ensures prefix + run == RollAt(prefix, |run|, ParseNat(run))
  {
    PadCanonical(run);
  }

  /** Exact output of a well-formed digit range: when `start` and `end` are a
      shared prefix (not ending in a digit) followed by digit runs with values
      `s` and `e`, the loop stops and yields the `max(0, e - s + 1)` rolls with
      values `s..e` at the start's width, beginning with `start` itself; by
      `RollAtParts` the i-th carries value `s + i`, and by `RollsFromAscending`
      they ascend strictly. */
  lemma ExpandDigitRange(prefix: string, startRun: string, endRun: string, fuel: nat)
    requires NotDigitTerminated(prefix)
    requires |startRun| >= 1 && AllDigits(startRun)
    requires |endRun| >= 1 && AllDigits(endRun)
    requires fuel >= RangeCount(ParseNat(startRun), ParseNat(endRun))
    ensures ExpandRange(prefix + startRun, prefix + endRun, fuel)
         == Some(RollsFrom(prefix, |startRun|, ParseNat(startRun), ParseNat(endRun)))
    ensures ParseNat(startRun) <= ParseNat(endRun) ==>
              RollsFrom(prefix, |startRun|, ParseNat(startRun), ParseNat(endRun))[0] == prefix + startRun
  {
    var s := ParseNat(startRun);
    var e := ParseNat(endRun);
    RollAtOfRun(prefix, startRun);
    RollAtOfRun(prefix, endRun);
    ExpandRollAt(prefix, |startRun|, s, |endRun|, e, fuel);
  }

  // ---------------------------------------------------------------------
  // Well-formed letter ranges: a shared prefix followed by one letter, both
  // letters of the same case.

  predicate SameCaseLetters(a: char, b: char) {
    ('A' <= a <= 'Z' && 'A' <= b <= 'Z') || ('a' <= a <= 'z' && 'a' <= b <= 'z')
  }

  /** Rolls sharing everything but a final letter compare as the letters. */
  lemma LetterOrder(prefix: string, c: char, b: char)
    requires IsAsciiLetter(c) && IsAsciiLetter(b)
    ensures IsLessOrEqual(prefix + [c], prefix + [b]) <==> c <= b
  {
    assert (prefix + [c])[..|prefix|] == prefix && (prefix + [b])[..|prefix|] == prefix;
  }

  /** Past `'Z'` or `'z'` the last character is no longer a letter, so the
      comparison with the end letter is lexical, and fails. */
  lemma LetterPastEnd(prefix: string, b: char)
    requires b == 'Z' || b == 'z'
    ensures !IsLessOrEqual(prefix + [(b as int + 1) as char], prefix + [b])
  {
    var c := (b as int + 1) as char;
    assert !EndsWithLetter(prefix + [c]) && EndsWithLetter(prefix + [b]);
    LexLeCommonPrefix(prefix, [c], [b]);
  }

  /** A trailing letter increments in place. */
  lemma LetterIncrement(prefix: string, c: char)
    requires IsAsciiLetter(c)
    ensures Increment(prefix + [c]) == prefix + [(c as int + 1) as char]
  {
    assert (prefix + [c])[..|prefix|] == prefix;
  }

  /** The roll `prefix` followed by the character with code `v`. */
  function LetterRoll(prefix: string, v: nat): string {
    if v < 0x80 then prefix + [v as char] else prefix
  }

  /** The rolls `prefix + a`, …, `prefix + b`, in order. */
  function LetterRolls(prefix: string, a: char, b: char): (rolls: seq<string>)
    requires b < '\U{D7FF}'
    ensures |rolls| == RangeCount(a as int, b as int)
    ensures forall i :: 0 <= i < |rolls| ==> rolls[i] == prefix + [(a as int + i) as char]
  {
    seq(RangeCount(a as int, b as int), i requires 0 <= i < RangeCount(a as int, b as int) => prefix + [(a as int + i) as char])
  }

  /** Inside a same-case letter range every roll is at most the end and
      increments to the next letter. */
  lemma LetterRangeSteps(prefix: string, a: char, b: char)
    requires SameCaseLetters(a, b)
    ensures forall v: nat :: a as int <= v <= b as int ==>
              IsLessOrEqual(LetterRoll(prefix, v), prefix + [b]) &&
              Increment(LetterRoll(prefix, v)) == LetterRoll(prefix, v + 1)
  {
    forall v: nat | a as int <= v <= b as int
      ensures IsLessOrEqual(LetterRoll(prefix, v), prefix + [b])
      ensures Increment(LetterRoll(prefix, v)) == LetterRoll(prefix, v + 1)
    {
      LetterOrder(prefix, v as char, b);
      LetterIncrement(prefix, v as char);
    }
  }

  /** The roll after the range (or the start, when the range is empty) is
      past the end. */
  lemma LetterRangeStops(prefix: string, a: char, b: char)
    requires SameCaseLetters(a, b)
    ensures !IsLessOrEqual(LetterRoll(prefix, a as int + RangeCount(a as int, b as int)), prefix + [b])
  {
    var past := a as int + RangeCount(a as int, b as int);
    if past == b as int + 1 && (b == 'Z' || b == 'z') {
      LetterPastEnd(prefix, b);
    } else {
      LetterOrder(prefix, past as char, b);
    }
  }

  /** The loop facts of a letter range, for any function that spells out
      the letter rolls. */
  lemma LetterLoopFacts(prefix: string, a: char, b: char, f: nat -> string)
    requires SameCaseLetters(a, b)
    requires forall v: nat :: f(v) == LetterRoll(prefix, v)
    ensures forall v: nat :: a as int <= v <= b as int ==>
              IsLessOrEqual(f(v), prefix + [b]) && Increment(f(v)) == f(v + 1)
    ensures !IsLessOrEqual(f(a as int + RangeCount(a as int, b as int)), prefix + [b])
    ensures var out := LetterRolls(prefix, a, b);
            forall i :: 0 <= i < |out| ==> out[i] == f(a as int + i)
  {
    LetterRangeSteps(prefix, a, b);
    LetterRangeStops(prefix, a, b);
  }

  /** Exact output of a well-formed letter range: `prefix + a` to `prefix + b`
      with `a`, `b` letters of the same case yields the letters `a..b` in
      order (nothing when `a > b`); the loop stops after `b` even when `b` is
      `'Z'` or `'z'`, whose successor is not a letter. */
  lemma ExpandLetterRange(prefix: string, a: char, b: char, fuel: nat)
    requires SameCaseLetters(a, b)
    requires fuel >= RangeCount(a as int, b as int)
    ensures ExpandRange(prefix + [a], prefix + [b], fuel) == Some(LetterRolls(prefix, a, b))
  {
    var f := (v: nat) => LetterRoll(prefix, v);
    LetterLoopFacts(prefix, a, b, f);
    RunLoopOverValues(prefix + [b], fuel, IsLessOrEqual, Increment, f, a as int, b as int,
                      prefix + [a], LetterRolls(prefix, a, b));
  }

  // ---------------------------------------------------------------------
  // A range the loop never leaves.

  /** The values the range `"A"`–`"b"` runs through: `"A"`…`"Z"`, `"["`,
      then `"[1"`, `"[2"`, … */
  function MixedCaseChain(i: nat): string {
    if i < 26 then [('A' as int + i) as char]
    else if i == 26 then "["
    else "[" + NatToString(i - 26)
  }

  lemma MixedCaseLetterStep(i: nat)
    requires i < 26
    ensures IsLessOrEqual(MixedCaseChain(i), "b")
    ensures Increment(MixedCaseChain(i)) == MixedCaseChain(i + 1)
  {
    var c := ('A' as int + i) as char;
    assert MixedCaseChain(i) == "" + [c] && "b" == "" + ['b'];
    LetterOrder("", c, 'b');
    LetterIncrement("", c);
    if i == 25 {
      assert MixedCaseChain(i + 1) == "[" == "" + [(c as int + 1) as char];
    } else {
      assert MixedCaseChain(i + 1) == "" + [(c as int + 1) as char];
    }
  }

  lemma MixedCaseBracketStep()
    ensures IsLessOrEqual(MixedCaseChain(26), "b")
    ensures Increment(MixedCaseChain(26)) == MixedCaseChain(27)
  {
    IncrementBracket();
    assert MixedCaseChain(27) == "[" + NatToString(1);
    assert NatToString(1) == "1";
    assert !EndsWithLetter("[") && EndsWithLetter("b");
    assert LexLe("[", "b");
  }

  /** `"[n"` sorts before `"b"`: it ends in a digit and `"b"` in a letter,
      so the two compare lexically, and `'['` comes before `'b'`. */
  lemma BracketRollBeforeB(n: nat)
    ensures IsLessOrEqual(RollAt("[", 0, n), "b")
  {
    RollAtEndsWithDigit("[", 0, n);
    assert EndsWithLetter("b");
    assert RollAt("[", 0, n)[0] == '[';
  }

  lemma MixedCaseChainRoll(i: nat)
    requires i > 26
    ensures MixedCaseChain(i) == RollAt("[", 0, i - 26)
  {
  }

  lemma MixedCaseNumberStep(i: nat)
    requires i > 26
    ensures IsLessOrEqual(MixedCaseChain(i), "b")
    ensures Increment(MixedCaseChain(i)) == MixedCaseChain(i + 1)
  {
    MixedCaseChainRoll(i);
    MixedCaseChainRoll(i + 1);
    assert NotDigitTerminated("[");
    RollAtIncrement("[", 0, i - 26);
    BracketRollBeforeB(i - 26);
  }

  /** Every value of the chain is at most `"b"`, and increments to the next. */
  lemma MixedCaseChainStep(i: nat)
    ensures IsLessOrEqual(MixedCaseChain(i), "b")
    ensures Increment(MixedCaseChain(i)) == MixedCaseChain(i + 1)
  {
    if i < 26 {
      MixedCaseLetterStep(i);
    } else if i == 26 {
      MixedCaseBracketStep();
    } else {
      MixedCaseNumberStep(i);
    }
  }

  /** The range `"A"`–`"b"` never ends: `"Z"` increments to `"["`, then
      `"[1"`, `"[2"`, … all end in a digit while `"b"` ends in a letter, so
      they are compared lexically, and every one of them sorts before `"b"`.
      No amount of fuel is enough. */
  lemma MixedCaseRangeNeverEnds(fuel: nat)
    ensures ExpandRange("A", "b", fuel).None?
  {
    forall i: nat
      ensures IsLessOrEqual(MixedCaseChain(i), "b") && MixedCaseChain(i + 1) == Increment(MixedCaseChain(i))
    {
      MixedCaseChainStep(i);
    }
    assert MixedCaseChain(0) == "A";
    RunLoopDiverges("A", "b", fuel, IsLessOrEqual, Increment, MixedCaseChain, 0);
  }
}
