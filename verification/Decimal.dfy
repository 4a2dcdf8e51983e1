/** Event numbers as text: `str(n)`, and `int(text)` on ASCII text. */
module Decimal {
  import opened Wrappers

  const DIGITS := "0123456789"

  function Digits(n: nat): (s: string)
    ensures s != ""
  {
    if n < 10 then [DIGITS[n]] else Digits(n / 10) + [DIGITS[n % 10]]
  }

  /** `str(n)`. */
  function Render(n: int): string {
    if n < 0 then "-" + Digits(-n) else Digits(n)
  }

  function DigitValue(c: char): Option<nat> {
    if '0' <= c <= '9' then Some((c as int) - ('0' as int)) else None
  }

  /** Digits, with single underscores allowed between them. */
  function ParseDigits(s: string): Option<int> {
    if s == "" then None
    else
      var d := DigitValue(s[|s| - 1]);
      if d.None? then None
      else if |s| == 1 then d
      else
        var front := if s[|s| - 2] == '_' then s[..|s| - 2] else s[..|s| - 1];
        var high := ParseDigits(front);
        if high.None? then None else Some(10 * high.value + d.value)
  }

  predicate IsSpace(c: char) {
    c == ' ' || '\t' <= c <= '\r' || '\U{1C}' <= c <= '\U{1F}'
  }

  function Strip(s: string): string {
    if s != "" && IsSpace(s[0]) then Strip(s[1..])
    else if s != "" && IsSpace(s[|s| - 1]) then Strip(s[..|s| - 1])
    else s
  }

  /** `int(text)`; `None` is the ValueError. */
  function Parse(text: string): Option<int> {
    var s := Strip(text);
    if s == "" then None
    else if s[0] == '-' then
      var n := ParseDigits(s[1..]);
      if n.None? then None else Some(0 - n.value)
    else
      ParseDigits(if s[0] == '+' then s[1..] else s)
  }

  predicate IsDigit(c: char) {
    '0' <= c <= '9'
  }

  lemma {:induction false} DigitsRoundTrip(n: nat)
    ensures ParseDigits(Digits(n)) == Some(n)
    ensures forall c :: c in Digits(n) ==> IsDigit(c)
  {
    if n >= 10 {
      DigitsRoundTrip(n / 10);
      assert 10 * (n / 10) + n % 10 == n;
      hide ParseDigits;
      OneMoreDigit(Digits(n / 10), n % 10, n / 10);
    } else {
      OneDigit(n);
    }
  }

  /** No number but 0 begins with a 0. */
  lemma {:induction false} NoLeadingZero(n: nat)
    ensures if n == 0 then Digits(n) == "0" else Digits(n)[0] != '0'
  {
    if n >= 10 { NoLeadingZero(n / 10); }
  }

  lemma OneDigit(d: nat)
    requires d < 10
    ensures DigitValue(DIGITS[d]) == Some(d) && IsDigit(DIGITS[d])
  {
  }

  /** A digit written after a number's text reads as ten times the number and the digit. */
  lemma OneMoreDigit(high: string, d: nat, value: int)
    requires d < 10 && high != "" && ParseDigits(high) == Some(value) && forall c :: c in high ==> IsDigit(c)
    ensures ParseDigits(high + [DIGITS[d]]) == Some(10 * value + d)
    ensures forall c :: c in high + [DIGITS[d]] ==> IsDigit(c)
  {
    OneDigit(d);
    var s := high + [DIGITS[d]];
    assert s[..|s| - 1] == high;
    assert s[|s| - 2] == high[|high| - 1] && high[|high| - 1] in high;
  }

  /** Reading a printed number gives the number back; the text is digits and at most a sign. */
  lemma RenderParse(n: int)
    ensures Parse(Render(n)) == Some(n)
    ensures Render(n) != ""
    ensures forall c :: c in Render(n) ==> c == '-' || IsDigit(c)
  {
    hide Digits, ParseDigits;
    var digits := Digits(if n < 0 then -n else n);
    DigitsRoundTrip(if n < 0 then -n else n);
    assert IsDigit(digits[0]) && IsDigit(digits[|digits| - 1]);
    NothingToStrip(digits);
    if n < 0 {
      NothingToStrip("-" + digits);
      assert ("-" + digits)[1..] == digits;
    }
  }

  /** The blanks of ASCII as Python counts them. */
  const BLANKS: set<char> :=
    {' ', '\t', '\n', '\U{0B}', '\U{0C}', '\r', '\U{1C}', '\U{1D}', '\U{1E}', '\U{1F}'}

  /** What else reads as a number: blanks around it, a plus sign, single underscores between digits. */
  lemma ReadsToo(before: string, n: int, m: nat, d: nat, after: string)
    requires (forall c :: c in before ==> c in BLANKS) && (forall c :: c in after ==> c in BLANKS) && d < 10
    ensures Parse(before + Render(n) + after) == Some(n)
    ensures Parse("+" + Digits(m)) == Some(m)
    ensures ParseDigits(Digits(m) + "_" + [DIGITS[d]]) == Some(10 * m + d)
    ensures ParseDigits(Digits(m) + "_") == None
  {
    hide Digits, ParseDigits;
    RenderParse(n);
    RenderStripped(n);
    StripPadded(before, Render(n), after);
    DigitsRoundTrip(m);
    assert IsDigit(Digits(m)[|Digits(m)| - 1]);
    NothingToStrip("+" + Digits(m));
    assert ("+" + Digits(m))[1..] == Digits(m);
    UnderscoreRead(Digits(m), d, m);
  }

  /** And nothing else does: text with any other character in it is no number. */
  lemma ReadsOnly(text: string)
    ensures Parse(text).Some? ==> forall c :: c in text ==> IsDigit(c) || c in BLANKS || c in {'+', '-', '_'}
  {
    hide ParseDigits, Strip;
    StripDrops(text);
    var s := Strip(text);
    if s != "" {
      DigitsOnly(s);
      DigitsOnly(s[1..]);
      assert s == [s[0]] + s[1..];
    }
  }

  lemma {:induction false} DigitsOnly(s: string)
    ensures ParseDigits(s).Some? ==> forall c :: c in s ==> IsDigit(c) || c == '_'
    decreases |s|
  {
    if |s| > 1 && ParseDigits(s).Some? {
      if s[|s| - 2] == '_' {
        assert s == s[..|s| - 2] + ['_', s[|s| - 1]];
        DigitsOnly(s[..|s| - 2]);
      } else {
        assert s == s[..|s| - 1] + [s[|s| - 1]];
        DigitsOnly(s[..|s| - 1]);
      }
    }
  }

  lemma {:induction false} StripDrops(s: string)
    ensures forall c :: c in s ==> c in Strip(s) || c in BLANKS
    decreases |s|
  {
    if s != "" && IsSpace(s[0]) {
      assert s == [s[0]] + s[1..];
      StripDrops(s[1..]);
    } else if s != "" && IsSpace(s[|s| - 1]) {
      assert s == s[..|s| - 1] + [s[|s| - 1]];
      StripDrops(s[..|s| - 1]);
    }
  }

  lemma UnderscoreRead(high: string, d: nat, value: int)
    requires d < 10 && ParseDigits(high) == Some(value) && high != ""
    ensures ParseDigits(high + "_" + [DIGITS[d]]) == Some(10 * value + d)
    ensures ParseDigits(high + "_") == None
  {
    OneDigit(d);
    var s := high + "_" + [DIGITS[d]];
    assert s[..|s| - 2] == high;
    assert (high + "_")[|high + "_"| - 1] == '_';
  }

  lemma RenderStripped(n: int)
    ensures Render(n) != "" && !IsSpace(Render(n)[0]) && !IsSpace(Render(n)[|Render(n)| - 1])
  {
    hide Digits;
    var digits := Digits(if n < 0 then -n else n);
    DigitsRoundTrip(if n < 0 then -n else n);
    assert IsDigit(digits[0]) && IsDigit(digits[|digits| - 1]);
  }

  lemma {:induction false} StripPadded(before: string, s: string, after: string)
    requires (forall c :: c in before ==> IsSpace(c)) && (forall c :: c in after ==> IsSpace(c))
    requires s != "" && !IsSpace(s[0]) && !IsSpace(s[|s| - 1])
    ensures Strip(before + s + after) == Strip(s)
    decreases |before| + |after|
  {
    var all := before + s + after;
    if before != "" {
      assert all[0] == before[0] && all[1..] == before[1..] + s + after;
      StripPadded(before[1..], s, after);
    } else if after != "" {
      assert all[0] == s[0] && all[|all| - 1] == after[|after| - 1];
      assert all[..|all| - 1] == before + s + after[..|after| - 1];
      StripPadded(before, s, after[..|after| - 1]);
    } else {
      assert all == s;
    }
  }

  lemma NothingToStrip(s: string)
    requires s != "" && !IsSpace(s[0]) && !IsSpace(s[|s| - 1])
    ensures Strip(s) == s
  {
  }
}
