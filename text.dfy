/** Decimal digits and the few string operations the engine needs. */
module Text {
  import opened Wrappers

  function Pow10(n: nat): (p: nat)
    ensures p >= 1
  {
    if n == 0 then 1 else 10 * Pow10(n - 1)
  }

  predicate IsDigit(c: char) { '0' <= c <= '9' }

  predicate AllDigits(s: string) { forall i :: 0 <= i < |s| ==> IsDigit(s[i]) }

  function DigitValue(c: char): (d: nat)
    requires IsDigit(c)
    ensures d < 10
  {
    (c as int) - ('0' as int)
  }

  function DigitChar(d: nat): (c: char)
    requires d < 10
    ensures IsDigit(c) && DigitValue(c) == d
  {
    (('0' as int) + d) as char
  }

  /** The value of a run of decimal digits, most significant first. */
  function DigitsValue(s: string): (n: nat)
    requires AllDigits(s)
    ensures n < Pow10(|s|)
    decreases |s|
  {
    if s == [] then 0 else 10 * DigitsValue(s[..|s| - 1]) + DigitValue(s[|s| - 1])
  }

  /** A non-empty run of decimal digits read as a number; anything else fails. */
  function ParseNat(s: string): (r: Option<nat>)
    ensures r.Some? <==> s != [] && AllDigits(s)
  {
    if s != [] && AllDigits(s) then Some(DigitsValue(s)) else None
  }

  /** `n` written in exactly `width` decimal digits, with leading zeros. */
  function Padded(n: nat, width: nat): (s: string)
    requires n < Pow10(width)
    ensures |s| == width && AllDigits(s)
  {
    if width == 0 then [] else Padded(n / 10, width - 1) + [DigitChar(n % 10)]
  }

  /** Reading back a zero-padded number gives the number. */
  lemma {:induction false} ParsePadded(n: nat, width: nat)
    requires 1 <= width && n < Pow10(width)
    ensures ParseNat(Padded(n, width)) == Some(n)
  {
    DigitsOfPadded(n, width);
  }

  lemma {:induction false} DigitsOfPadded(n: nat, width: nat)
    requires n < Pow10(width)
    ensures DigitsValue(Padded(n, width)) == n
  {
    if width > 0 {
      var s := Padded(n, width);
      DigitsOfPadded(n / 10, width - 1);
      assert s[..|s| - 1] == Padded(n / 10, width - 1);
    }
  }

  /** Writing back the value of a run of digits, at its own width, gives the run. */
  lemma {:induction false} PaddedDigits(s: string)
    requires AllDigits(s)
    ensures Padded(DigitsValue(s), |s|) == s
    decreases |s|
  {
    if s != [] {
      var init, last := s[..|s| - 1], s[|s| - 1];
      PaddedDigits(init);
      var n := DigitsValue(s);
      DivModTen(DigitsValue(init), DigitValue(last));
      assert Padded(n, |s|) == Padded(DigitsValue(init), |s| - 1) + [DigitChar(DigitValue(last))];
      assert DigitChar(DigitValue(last)) == last;
      assert s == init + [last];
    }
  }

  lemma DivModTen(q: nat, d: nat)
    requires d < 10
    ensures (10 * q + d) / 10 == q && (10 * q + d) % 10 == d
  {
  }

  lemma ParseTwoDigits(s: string)
    requires |s| == 2 && AllDigits(s)
    ensures ParseNat(s) == Some(10 * DigitValue(s[0]) + DigitValue(s[1]))
  {
    assert s[..1] == [s[0]] && s[..1][..0] == [];
    assert DigitsValue(s[..1]) == DigitValue(s[0]);
  }

  lemma ParseFourDigits(s: string)
    requires |s| == 4 && AllDigits(s)
    ensures ParseNat(s) == Some(1000 * DigitValue(s[0]) + 100 * DigitValue(s[1]) + 10 * DigitValue(s[2]) + DigitValue(s[3]))
  {
    assert s[..3][..2] == s[..2] && s[..2][..1] == [s[0]] && [s[0]][..0] == [];
    assert DigitsValue([s[0]]) == DigitValue(s[0]);
    assert DigitsValue(s[..2]) == 10 * DigitValue(s[0]) + DigitValue(s[1]);
    assert DigitsValue(s[..3]) == 100 * DigitValue(s[0]) + 10 * DigitValue(s[1]) + DigitValue(s[2]);
  }

  predicate IsSpace(c: char) {
    // tab, line feed, vertical tab, form feed, carriage return; the four
    // ASCII separators 0x1C..0x1F; space
    ('\U{9}' <= c <= '\U{D}') || ('\U{1C}' <= c <= '\U{20}')
  }

  /** Python's `str.strip()` over ASCII whitespace. */
  function Strip(s: string): (r: string)
    ensures |r| <= |s|
    ensures r != [] ==> !IsSpace(r[0]) && !IsSpace(r[|r| - 1])
    decreases |s|
  {
    if s == [] then []
    else if IsSpace(s[0]) then Strip(s[1..])
    else if IsSpace(s[|s| - 1]) then Strip(s[..|s| - 1])
    else s
  }

  /** Whitespace only, from `lo` up to `hi`. */
  predicate SpacesBetween(s: string, lo: nat, hi: nat)
    requires lo <= hi <= |s|
  {
    forall k :: lo <= k < hi ==> IsSpace(s[k])
  }

  /** The stripped text is the input with its leading and trailing
      whitespace cut off, and nothing else. */
  lemma StripSpec(s: string)
    ensures exists i, j :: 0 <= i <= j <= |s| && Strip(s) == s[i..j]
                           && SpacesBetween(s, 0, i) && SpacesBetween(s, j, |s|)
  {
    var i, j := StripBounds(s);
  }

  /** Where the stripped text sits in the input. */
  lemma {:induction false} StripBounds(s: string) returns (i: nat, j: nat)
    ensures i <= j <= |s| && Strip(s) == s[i..j]
    ensures SpacesBetween(s, 0, i) && SpacesBetween(s, j, |s|)
    decreases |s|, 1
  {
    if s == [] {
      i, j := 0, 0;
    } else if IsSpace(s[0]) {
      i, j := StripFront(s);
    } else if IsSpace(s[|s| - 1]) {
      i, j := StripBack(s);
    } else {
      i, j := 0, |s|;
    }
  }

  /** The case of a leading whitespace character. */
  lemma {:induction false} StripFront(s: string) returns (i: nat, j: nat)
    requires s != [] && IsSpace(s[0])
    ensures i <= j <= |s| && Strip(s) == s[i..j]
    ensures SpacesBetween(s, 0, i) && SpacesBetween(s, j, |s|)
    decreases |s|, 0
  {
    var tail := s[1..];
    var i', j' := StripBounds(tail);
    i, j := i' + 1, j' + 1;
    assert tail[i'..j'] == s[i..j];
    assert forall k :: 0 < k < |s| ==> s[k] == tail[k - 1];
  }

  /** The case of a trailing whitespace character after a non-space first one. */
  lemma {:induction false} StripBack(s: string) returns (i: nat, j: nat)
    requires s != [] && !IsSpace(s[0]) && IsSpace(s[|s| - 1])
    ensures i <= j <= |s| && Strip(s) == s[i..j]
    ensures SpacesBetween(s, 0, i) && SpacesBetween(s, j, |s|)
    decreases |s|, 0
  {
    var init := s[..|s| - 1];
    i, j := StripBounds(init);
    assert init[i..j] == s[i..j];
    assert forall k :: 0 <= k < |init| ==> s[k] == init[k];
  }

  function LowerChar(c: char): char {
    if 'A' <= c <= 'Z' then (c as int + 32) as char else c
  }

  /** Python's `str.lower()` over ASCII letters. */
  function Lower(s: string): (r: string)
    ensures |r| == |s| && forall i :: 0 <= i < |s| ==> r[i] == LowerChar(s[i])
  {
    seq(|s|, i requires 0 <= i < |s| => LowerChar(s[i]))
  }

  /** The lower-cased text is "nan" exactly when the text is "nan" in any
      mix of cases. */
  lemma LowerIsNan(s: string)
    ensures Lower(s) == "nan" <==> |s| == 3 && s[0] in "nN" && s[1] in "aA" && s[2] in "nN"
  {
    if |s| == 3 && s[0] in "nN" && s[1] in "aA" && s[2] in "nN" {
      assert Lower(s) == [LowerChar(s[0]), LowerChar(s[1]), LowerChar(s[2])];
    }
    if Lower(s) == "nan" {
      assert LowerChar(s[0]) == 'n' && LowerChar(s[1]) == 'a' && LowerChar(s[2]) == 'n';
    }
  }
}
