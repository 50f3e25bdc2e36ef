/** The avatar initials shared by the student profile, the student card
    and the attendance marker:
    `name.split(' ').map(n => n[0]).join('').toUpperCase().substring(0, 2)`.
    An empty word's `n[0]` is `undefined`, which `join` renders as nothing. */
module Initials {
  import opened Text
  import opened Seqs

  /** The first character of each word, empty words contributing nothing. */
  function FirstChars(words: seq<string>): string {
    if |words| == 0 then ""
    else (if |words[0]| > 0 then [words[0][0]] else "") + FirstChars(words[1..])
  }

  function Initials(name: string): (r: string)
    ensures |r| <= 2
    ensures forall i :: 0 <= i < |r| ==> !IsAsciiLower(r[i])
  {
    Take(Upper(FirstChars(Split(name, ' '))), 2)
  }

  /** A reference definition: the characters that start a word, i.e. that
      are not a space and follow a space or the start of the text. */
  function WordStartsFrom(s: string, afterSpace: bool): string {
    if |s| == 0 then ""
    else (if s[0] != ' ' && afterSpace then [s[0]] else "") + WordStartsFrom(s[1..], s[0] == ' ')
  }

  function WordStarts(s: string): string {
    WordStartsFrom(s, true)
  }

  /** Inside a word no new word starts; the next space ends it. */
  lemma {:induction false} WordStartsInsideWord(w: string, t: string)
    requires ' ' !in w
    ensures WordStartsFrom(w + " " + t, false) == WordStarts(t)
    decreases |w|
  {
    if |w| == 0 {
      assert (w + " " + t)[1..] == t;
    } else {
      assert (w + " " + t)[1..] == w[1..] + " " + t;
      WordStartsInsideWord(w[1..], t);
    }
  }

  lemma {:induction false} WordStartsLastWord(w: string)
    requires ' ' !in w
    ensures WordStartsFrom(w, false) == ""
    decreases |w|
  {
    if |w| > 0 {
      WordStartsLastWord(w[1..]);
    }
  }

  /** A word followed by a space contributes its first character. */
  lemma WordStartsWord(w: string, t: string)
    requires ' ' !in w
    ensures WordStarts(w + " " + t) == (if |w| > 0 then [w[0]] else "") + WordStarts(t)
  {
    if |w| > 0 {
      assert (w + " " + t)[1..] == w[1..] + " " + t;
      WordStartsInsideWord(w[1..], t);
    } else {
      assert (w + " " + t)[1..] == t;
    }
  }

  /** A text without spaces is one word. */
  lemma WordStartsSingle(w: string)
    requires ' ' !in w
    ensures WordStarts(w) == (if |w| > 0 then [w[0]] else "")
  {
    if |w| > 0 {
      WordStartsLastWord(w[1..]);
    }
  }

  lemma FirstCharsCons(w: string, rest: seq<string>)
    ensures FirstChars([w] + rest) == (if |w| > 0 then [w[0]] else "") + FirstChars(rest)
  {
    assert ([w] + rest)[1..] == rest;
  }

  /** The first characters of the space-separated pieces are exactly the
      word starts of the text. */
  lemma {:induction false} FirstCharsAreWordStarts(s: string)
    ensures FirstChars(Split(s, ' ')) == WordStarts(s)
    decreases |s|
  {
    var k := IndexOf(s, ' ');
    if k == |s| {
      FirstCharsCons(s, []);
      WordStartsSingle(s);
    } else {
      var w, t := s[..k], s[k + 1..];
      FirstCharsAreWordStarts(t);
      FirstCharsCons(w, Split(t, ' '));
      WordStartsWord(w, t);
      assert s == w + " " + t;
    }
  }

  /** The initials are the first two word starts, upper-cased. */
  lemma InitialsAreWordStarts(name: string)
    ensures Initials(name) == Take(Upper(WordStarts(name)), 2)
  {
    FirstCharsAreWordStarts(name);
  }

  /** The empty name gives no initials; a name that starts with a non-space
      starts its initials with that character upper-cased; leading spaces
      change nothing. */
  lemma InitialsCases(name: string)
    ensures Initials("") == ""
    ensures |name| > 0 && name[0] != ' ' ==> |Initials(name)| >= 1 && Initials(name)[0] == UpperChar(name[0])
    ensures Initials(" " + name) == Initials(name)
  {
    InitialsAreWordStarts("");
    InitialsAreWordStarts(name);
    InitialsAreWordStarts(" " + name);
    assert (" " + name)[1..] == name;
  }
}
