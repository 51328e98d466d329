/** Character classes, runs of characters and number conversion, as Python's
    `re` and the built-ins `int()` and `float()` see them. */
module Chars {
  import opened Results

  /** `\d`, restricted to the ASCII digits. */
  predicate IsDigit(c: char) {
    '0' <= c <= '9'
  }

  /** `\s` of a str pattern: exactly the characters for which str.isspace() holds.
      None of them is a digit or a dot, so a `\s` run and a `[\d.]` run never
      share a character. */
  predicate IsSpace(c: char)
    ensures IsSpace(c) ==> !IsDigit(c) && c != '.'
  {
    || c == ' '
    || '\t' <= c <= '\r'
    || '\U{1c}' <= c <= '\U{1f}'
    || c == '\U{85}'
    || c == '\U{a0}'
    || c == '\U{1680}'
    || '\U{2000}' <= c <= '\U{200a}'
    || c == '\U{2028}'
    || c == '\U{2029}'
    || c == '\U{202f}'
    || c == '\U{205f}'
    || c == '\U{3000}'
  }

  /** The three character classes the patterns repeat: `\d`, `\s` and `[\d.]`. */
  datatype CharClass = Digit | Space | DigitOrDot

  predicate InClass(c: char, k: CharClass) {
    match k
    case Digit => IsDigit(c)
    case Space => IsSpace(c)
    case DigitOrDot => IsDigit(c) || c == '.'
  }

  /** Every character of s[lo..hi] belongs to class k. */
  predicate AllIn(s: string, lo: nat, hi: nat, k: CharClass)
    requires lo <= hi <= |s|
  {
    forall j :: lo <= j < hi ==> InClass(s[j], k)
  }

  /** Where a greedy repetition of class k that starts at p stops: the end of
      the longest run of class-k characters from p. */
  function RunEnd(s: string, p: nat, k: CharClass): (e: nat)
    requires p <= |s|
    ensures p <= e <= |s|
    ensures e == |s| || !InClass(s[e], k)
    decreases |s| - p
  {
    if p < |s| && InClass(s[p], k) then RunEnd(s, p + 1, k) else p
  }

  /** Everything RunEnd passes over is in class k. */
  lemma {:induction false} RunEndRun(s: string, p: nat, k: CharClass)
    requires p <= |s|
    ensures AllIn(s, p, RunEnd(s, p, k), k)
    decreases |s| - p
  {
    if p < |s| && InClass(s[p], k) {
      RunEndRun(s, p + 1, k);
    }
  }

  /** A run of class k that is followed by a character outside k (or by the
      end of the text) is exactly the run RunEnd finds. */
  lemma RunEndIs(s: string, lo: nat, hi: nat, k: CharClass)
    requires lo <= hi <= |s| && AllIn(s, lo, hi, k)
    requires hi == |s| || !InClass(s[hi], k)
    ensures RunEnd(s, lo, k) == hi
  {
    RunEndRun(s, lo, k);
  }

  /** The literal lit occurs in s at position p. */
  predicate StartsAt(s: string, p: nat, lit: string) {
    p + |lit| <= |s| && s[p..p + |lit|] == lit
  }

  lemma CharOfLiteral(s: string, p: nat, lit: string, k: nat)
    requires StartsAt(s, p, lit) && k < |lit|
    ensures s[p + k] == lit[k]
  {
    assert s[p..p + |lit|][k] == s[p + k];
  }

  /** ASCII lower case. */
  function Lower(c: char): char {
    if 'A' <= c <= 'Z' then (c as int + 32) as char else c
  }

  /** The pattern character lit matches c under re.IGNORECASE (ASCII folding). */
  predicate FoldEq(lit: char, c: char) {
    Lower(lit) == Lower(c)
  }

  /** The literal lit occurs in s at position p under re.IGNORECASE. */
  predicate StartsAtIgnoreCase(s: string, p: nat, lit: string) {
    p + |lit| <= |s| && forall k :: 0 <= k < |lit| ==> FoldEq(lit[k], s[p + k])
  }

  /** Position p is where `^` matches under re.MULTILINE. */
  predicate LineStart(s: string, p: nat)
    requires p <= |s|
  {
    p == 0 || s[p - 1] == '\n'
  }

  /** Position e is where `$` matches under re.MULTILINE. */
  predicate LineEnd(s: string, e: nat)
    requires e <= |s|
  {
    e == |s| || s[e] == '\n'
  }

  // ----- numbers -----

  predicate IsDigits(s: string) {
    forall i :: 0 <= i < |s| ==> IsDigit(s[i])
  }

  /** A run that `[\d.]+` can capture (possibly empty). */
  predicate IsNumRun(s: string) {
    forall i :: 0 <= i < |s| ==> IsDigit(s[i]) || s[i] == '.'
  }

  /** A run of digits, or of digits and dots, read off as a string. */
  lemma SliceOfRun(s: string, lo: nat, hi: nat, k: CharClass)
    requires lo <= hi <= |s| && AllIn(s, lo, hi, k)
    ensures k == Digit ==> IsDigits(s[lo..hi])
    ensures k != Space ==> IsNumRun(s[lo..hi])
  {
    forall i | 0 <= i < hi - lo ensures s[lo..hi][i] == s[lo + i] && InClass(s[lo + i], k) {
    }
  }

  /** The text of a run found by RunEnd. */
  lemma RunText(s: string, lo: nat, k: CharClass)
    requires lo <= |s|
    ensures k == Digit ==> IsDigits(s[lo..RunEnd(s, lo, k)])
    ensures k != Space ==> IsNumRun(s[lo..RunEnd(s, lo, k)])
  {
    RunEndRun(s, lo, k);
    SliceOfRun(s, lo, RunEnd(s, lo, k), k);
  }

  function DigitValue(c: char): nat
    requires IsDigit(c)
  {
    c as int - '0' as int
  }

  function DigitChar(d: nat): (c: char)
    requires d < 10
    ensures IsDigit(c) && DigitValue(c) == d
  {
    ('0' as int + d) as char
  }

  /** int() of a run of digits (leading zeros allowed, as in Python). */
  function DigitsValue(s: string): nat
    requires IsDigits(s)
    decreases |s|
  {
    if s == [] then 0 else 10 * DigitsValue(s[..|s| - 1]) + DigitValue(s[|s| - 1])
  }

  /** str() of a natural number: its decimal digits, without leading zeros. */
  function NatToDigits(n: nat): (s: string)
    ensures |s| > 0 && IsDigits(s)
  {
    if n < 10 then [DigitChar(n)] else NatToDigits(n / 10) + [DigitChar(n % 10)]
  }

  /** Reading back a rendered number gives the number. */
  lemma {:induction false} DigitsOfNat(n: nat)
    ensures DigitsValue(NatToDigits(n)) == n
  {
    var s := NatToDigits(n);
    if n >= 10 {
      DigitsOfNat(n / 10);
      assert s[..|s| - 1] == NatToDigits(n / 10);
    }
  }

  /** int() accepts leading zeros, and they do not change the value. */
  lemma {:induction false} LeadingZero(s: string)
    requires IsDigits(s)
    ensures IsDigits("0" + s) && DigitsValue("0" + s) == DigitsValue(s)
    decreases |s|
  {
    var z := "0" + s;
    assert forall i :: 0 < i < |z| ==> z[i] == s[i - 1];
    if s != [] {
      var init := s[..|s| - 1];
      LeadingZero(init);
      assert z[..|z| - 1] == "0" + init;
    }
  }

  /** The value of the digits after a decimal point: 0.d1d2...dn, read from
      the right as (d1 + (d2 + ...) / 10) / 10. */
  function Fraction(frac: string): (r: real)
    requires IsDigits(frac)
    ensures 0.0 <= r <= 1.0
  {
    if frac == [] then 0.0 else (DigitValue(frac[0]) as real + Fraction(frac[1..])) / 10.0
  }

  /** Position of the first '.' in s, or |s| when there is none. */
  function IndexOfDot(s: string): (i: nat)
    ensures i <= |s| && (i < |s| ==> s[i] == '.')
    ensures forall j :: 0 <= j < i ==> s[j] != '.'
  {
    if s == [] then 0 else if s[0] == '.' then 0 else 1 + IndexOfDot(s[1..])
  }

  /** float() of a run of digits and dots: the exact decimal value, or None
      where Python raises ValueError (a run without any digit, or with a
      second dot). */
  function ParseFloat(s: string): (r: Option<real>)
    requires IsNumRun(s)
    ensures r.Some? ==> r.value >= 0.0
  {
    var i := IndexOfDot(s);
    WholeIsDigits(s);
    if i == |s| then
      if s == [] then None else Some(DigitsValue(s[..i]) as real)
    else PointFloat(s[..i], s[i + 1..])
  }

  /** float() of a run with a dot, given the digits before the first dot and
      the text after it. */
  function PointFloat(whole: string, frac: string): (r: Option<real>)
    requires IsDigits(whole)
    ensures r.Some? ==> r.value >= 0.0
  {
    if IsDigits(frac) && |whole| + |frac| > 0 then Some(DigitsValue(whole) as real + Fraction(frac))
    else None
  }

  /** How many dots s holds. */
  function Dots(s: string): nat {
    multiset(s)['.']
  }

  predicate HasDigit(s: string) {
    exists i :: 0 <= i < |s| && IsDigit(s[i])
  }

  lemma DigitsHaveNoDot(s: string)
    requires IsDigits(s)
    ensures Dots(s) == 0 && IndexOfDot(s) == |s|
  {
    if s[..] != [] {
      assert s == [s[0]] + s[1..];
      DigitsHaveNoDot(s[1..]);
    }
  }

  /** The digits before the first dot. */
  lemma WholeIsDigits(s: string)
    requires IsNumRun(s)
    ensures IsDigits(s[..IndexOfDot(s)])
  {
    var i := IndexOfDot(s);
    forall j | 0 <= j < i ensures IsDigit(s[..i][j]) {
      assert s[..i][j] == s[j];
    }
  }

  /** A run without a dot is a run of digits, which has a digit when non-empty. */
  lemma NoDotCase(s: string)
    requires IsNumRun(s) && IndexOfDot(s) == |s|
    ensures Dots(s) == 0 && (HasDigit(s) <==> s != [])
  {
    WholeIsDigits(s);
    assert s[..|s|] == s;
    DigitsHaveNoDot(s);
    if s != [] {
      assert IsDigit(s[0]);
    }
  }

  lemma DotCase(s: string)
    requires IsNumRun(s) && IndexOfDot(s) < |s|
    ensures var i := IndexOfDot(s);
      && Dots(s) == 1 + Dots(s[i + 1..])
      && IsNumRun(s[i + 1..])
      && (IsDigits(s[i + 1..]) ==> (HasDigit(s) <==> i + |s[i + 1..]| > 0))
      && (!IsDigits(s[i + 1..]) ==> Dots(s[i + 1..]) >= 1)
  {
    var i := IndexOfDot(s);
    var whole, rest := s[..i], s[i + 1..];
    WholeIsDigits(s);
    DigitsHaveNoDot(whole);
    assert s == whole + ['.'] + rest;
    DotRest(s, i);
    if IsDigits(rest) {
      DigitAroundDot(s, i);
    } else {
      NotDigitsHasDot(rest);
    }
  }

  /** With digits on both sides of the only dot, s has a digit unless both
      sides are empty. */
  lemma DigitAroundDot(s: string, i: nat)
    requires i < |s| && s[i] == '.' && IsDigits(s[..i]) && IsDigits(s[i + 1..])
    ensures HasDigit(s) <==> i + |s[i + 1..]| > 0
  {
    if HasDigit(s) {
      var j :| 0 <= j < |s| && IsDigit(s[j]);
      assert j != i;
    }
    if i > 0 {
      assert IsDigit(s[..i][0]);
    } else if i + 1 < |s| {
      assert IsDigit(s[i + 1..][0]);
    }
  }

  lemma NotDigitsHasDot(t: string)
    requires IsNumRun(t) && !IsDigits(t)
    ensures Dots(t) >= 1
  {
    var j :| 0 <= j < |t| && !IsDigit(t[j]);
    assert t[j] in multiset(t);
  }


  lemma DotRest(s: string, i: nat)
    requires IsNumRun(s) && i < |s|
    ensures IsNumRun(s[i + 1..])
  {
    var rest := s[i + 1..];
    forall j | 0 <= j < |rest| ensures IsDigit(rest[j]) || rest[j] == '.' {
      assert rest[j] == s[i + 1 + j];
    }
  }

  /** float() fails on a run of digits and dots exactly when the run has no
      digit or has more than one dot. */
  lemma ParseFloatFails(s: string)
    requires IsNumRun(s)
    ensures ParseFloat(s).None? <==> !HasDigit(s) || Dots(s) >= 2
  {
    if IndexOfDot(s) == |s| {
      NoDotCase(s);
    } else {
      DotCase(s);
    }
  }

  /** float() of a captured run, raising ValueError on the text it cannot read. */
  function ToFloat(t: string): (r: Result<real>)
    requires IsNumRun(t)
    ensures r.Failure? ==> r.error == ValueError(t)
    ensures r.Success? ==> r.value >= 0.0
  {
    match ParseFloat(t)
    case Some(v) => Success(v)
    case None => Failure(ValueError(t))
  }

  /** float() raises exactly on a run with no digit or with a second dot. */
  lemma ToFloatFails(t: string)
    requires IsNumRun(t)
    ensures ToFloat(t).Failure? <==> !HasDigit(t) || Dots(t) >= 2
  {
    ParseFloatFails(t);
  }

  /** float(str(n)) == n. */
  lemma FloatOfNat(n: nat)
    ensures ParseFloat(NatToDigits(n)) == Some(n as real)
  {
    var s := NatToDigits(n);
    DigitsHaveNoDot(s);
    DigitsOfNat(n);
    assert s[..|s|] == s;
  }

  /** float() reads a number written as whole.frac back exactly. */
  lemma FloatOfPoint(w: nat, frac: string)
    requires frac != [] && IsDigits(frac)
    ensures var s := NatToDigits(w) + "." + frac;
      IsNumRun(s) && ParseFloat(s) == Some(w as real + Fraction(frac))
  {
    DigitsOfNat(w);
    PointValue(NatToDigits(w), frac);
  }

  lemma PointValue(d: string, frac: string)
    requires IsDigits(d) && frac != [] && IsDigits(frac)
    ensures var s := d + "." + frac;
      IsNumRun(s) && ParseFloat(s) == Some(DigitsValue(d) as real + Fraction(frac))
  {
    var s := d + "." + frac;
    PointRun(d, frac);
    DigitsHaveNoDot(d);
    assert s == d + ("." + frac);
    IndexOfDotAfter(d, "." + frac);
    var i := IndexOfDot(s);
    assert s[..i] == d;
    assert s[i + 1..] == frac;
    assert ParseFloat(s) == PointFloat(d, frac);
    PointFloatValue(d, frac);
  }

  lemma PointFloatValue(d: string, frac: string)
    requires IsDigits(d) && frac != [] && IsDigits(frac)
    ensures PointFloat(d, frac) == Some(DigitsValue(d) as real + Fraction(frac))
  {
  }

  lemma PointRun(d: string, frac: string)
    requires IsDigits(d) && IsDigits(frac)
    ensures IsNumRun(d + "." + frac)
  {
    var s := d + "." + frac;
    forall j | 0 <= j < |s| ensures IsDigit(s[j]) || s[j] == '.' {
      if j < |d| {
        assert s[j] == d[j];
      } else if j > |d| {
        assert s[j] == frac[j - |d| - 1];
      }
    }
  }

  lemma IndexOfDotAfter(d: string, t: string)
    requires IsDigits(d) && t != [] && t[0] == '.'
    ensures IndexOfDot(d + t) == |d|
  {
    if d != [] {
      assert (d + t)[1..] == d[1..] + t;
      IndexOfDotAfter(d[1..], t);
    }
  }
}
