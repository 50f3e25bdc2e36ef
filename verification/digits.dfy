/** Decimal digit runs as the roll-number code uses them: `parseInt(s, 10)`
    on a run of ASCII digits, `Number.prototype.toString()` on a natural
    number, and `padStart(width, "0")`. Numbers are unbounded naturals. */
module Digits {
  import opened Text

  predicate AllDigits(s: string) {
    forall i :: 0 <= i < |s| ==> IsDigit(s[i])
  }

  function DigitValue(c: char): nat
    requires IsDigit(c)
  {
    c as int - '0' as int
  }

  function DigitChar(d: nat): (c: char)
    requires d < 10
    ensures IsDigit(c) && DigitValue(c) == d
  {
    ('0' as int + d) as char
  }

  /** `parseInt(s, 10)` on a run of ASCII digits. */
  function ParseNat(s: string): nat
    requires AllDigits(s)
  {
    if |s| == 0 then 0 else 10 * ParseNat(s[..|s| - 1]) + DigitValue(s[|s| - 1])
  }

  /** `n.toString()`: the decimal numeral of `n`; `ParseNatToString` shows
      it parses back to `n` and `NatToStringNoLeadingZero` that it is the
      shortest one. */
  function NatToString(n: nat): (r: string)
    ensures |r| >= 1 && AllDigits(r)
  {
    if n < 10 then [DigitChar(n)] else NatToString(n / 10) + [DigitChar(n % 10)]
  }

  /** `parseInt` undoes `toString`. */
  lemma {:induction false} ParseNatToString(n: nat)
    ensures ParseNat(NatToString(n)) == n
  {
    if n >= 10 {
      var r := NatToString(n);
      assert r[..|r| - 1] == NatToString(n / 10);
      ParseNatToString(n / 10);
    }
  }

  /** A numeral longer than one digit does not start with `'0'`. */
  lemma {:induction false} NatToStringNoLeadingZero(n: nat)
    ensures |NatToString(n)| > 1 ==> NatToString(n)[0] != '0'
  {
    if n >= 10 {
      NatToStringNoLeadingZero(n / 10);
      if n >= 100 {
        assert NatToString(n)[0] == NatToString(n / 10)[0];
      } else {
        assert NatToString(n)[0] == NatToString(n / 10)[0] == DigitChar(n / 10);
      }
    }
  }

  function Zeros(k: nat): (r: string)
    ensures |r| == k && AllDigits(r)
  {
    seq(k, _ => '0')
  }

  /** `s.padStart(width, "0")`: left-pads with zeros up to `width` characters
      and never shortens. */
  function PadZeros(s: string, width: nat): (r: string)
    ensures |r| == if |s| >= width then |s| else width
    ensures AllDigits(s) ==> AllDigits(r)
  {
    if |s| >= width then s else Zeros(width - |s|) + s
  }

  /** Padding only adds characters in front. */
  lemma PadZerosSuffix(s: string, width: nat)
    ensures var r := PadZeros(s, width); r[|r| - |s|..] == s
  {
  }

  /** Leading zeros do not change the parsed value. */
  lemma {:induction false} ParseNatLeadingZeros(k: nat, s: string)
    requires AllDigits(s)
    ensures ParseNat(Zeros(k) + s) == ParseNat(s)
    decreases |s|
  {
    if |s| == 0 {
      ParseNatOfZeros(k);
      assert Zeros(k) + s == Zeros(k);
    } else {
      var t := Zeros(k) + s;
      assert t[..|t| - 1] == Zeros(k) + s[..|s| - 1];
      ParseNatLeadingZeros(k, s[..|s| - 1]);
    }
  }

  lemma {:induction false} ParseNatOfZeros(k: nat)
    ensures ParseNat(Zeros(k)) == 0
  {
    if k > 0 {
      assert Zeros(k)[..k - 1] == Zeros(k - 1);
      ParseNatOfZeros(k - 1);
    }
  }

  /** A digit run whose value is zero consists of zeros only. */
  lemma {:induction false} ParseNatZeroMeansZeros(s: string)
    requires AllDigits(s) && ParseNat(s) == 0
    ensures s == Zeros(|s|)
    decreases |s|
  {
    if |s| > 0 {
      ParseNatZeroMeansZeros(s[..|s| - 1]);
      assert s == s[..|s| - 1] + [s[|s| - 1]];
    }
  }

  /** Padding a numeral keeps its value. */
  lemma {:induction false} ParsePadded(v: nat, width: nat)
    ensures ParseNat(PadZeros(NatToString(v), width)) == v
  {
    var s := NatToString(v);
    ParseNatToString(v);
    if |s| < width {
      assert PadZeros(s, width) == Zeros(width - |s|) + s;
      ParseNatLeadingZeros(width - |s|, s);
    }
  }

  /** Padding commutes with appending one digit. */
  lemma {:induction false} PadZerosAppend(s: string, c: char, width: nat)
    ensures PadZeros(s + [c], width + 1) == PadZeros(s, width) + [c]
  {
    if |s| < width {
      assert Zeros(width - |s|) + (s + [c]) == (Zeros(width - |s|) + s) + [c];
    }
  }

  /** Every non-empty digit run is the padded numeral of its own value, at
      its own width: `padStart` undoes what `parseInt` strips. */
  lemma {:induction false} PadCanonical(d: string)
    requires |d| >= 1 && AllDigits(d)
    ensures PadZeros(NatToString(ParseNat(d)), |d|) == d
    decreases |d|
  {
    var c := d[|d| - 1];
    assert DigitChar(DigitValue(c)) == c;
    if |d| > 1 {
      var init := d[..|d| - 1];
      var p := ParseNat(init);
      assert d == init + [c];
      if p == 0 {
        ParseNatZeroMeansZeros(init);
        assert NatToString(ParseNat(d)) == [c];
        assert Zeros(|d| - 1) + [c] == d;
      } else {
        var n := ParseNat(d);
        assert n / 10 == p && n % 10 == DigitValue(c);
        assert NatToString(n) == NatToString(p) + [c];
        PadCanonical(init);
        PadZerosAppend(NatToString(p), c, |init|);
      }
    }
  }

  /** Larger numbers never have shorter numerals. */
  lemma {:induction false} NatToStringLengthMonotone(a: nat, b: nat)
    requires a <= b
    ensures |NatToString(a)| <= |NatToString(b)|
    decreases b
  {
    if a >= 10 {
      NatToStringLengthMonotone(a / 10, b / 10);
    }
  }

  /** Re-padding the successor to the width of the padded numeral is the same
      as padding it to the original width. */
  lemma {:induction false} PadSuccessorWidth(v: nat, width: nat)
    ensures PadZeros(NatToString(v + 1), |PadZeros(NatToString(v), width)|)
         == PadZeros(NatToString(v + 1), width)
  {
    NatToStringLengthMonotone(v, v + 1);
  }
}
