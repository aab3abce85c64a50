/**
 * scrubString, parseInt and parseFloat of parse.go.
 *
 * Go's int is taken to be 64 bits wide, so strconv.Atoi clamps a value that
 * does not fit to the largest int.  A float64 is modelled by the exact
 * decimal value of the token as a `real`.
 */
module Numbers {
  import opened Wrappers
  import opened Matchers

  /** The largest value of Go's int on a 64-bit platform. */
  const MaxInt64: int := 0x7FFF_FFFF_FFFF_FFFF

  /** No character of s can start a number. */
  predicate NoNumChar(s: string) {
    forall m: nat :: m < |s| ==> !In(s[m], NumChar)
  }

  /** s[i..j] is the first maximal run of [0-9.] characters in s. */
  predicate IsFirstRun(s: string, i: nat, j: nat) {
    && i < j <= |s|
    && (forall m: nat :: m < i ==> !In(s[m], NumChar))
    && AllIn(s, i, j, NumChar)
    && (j == |s| || !In(s[j], NumChar))
  }

  /** scrubString: group 1 of leadingNumber, or "0" when the pattern does not match. */
  function Scrub(value: string): (r: string)
    ensures |r| > 0 && AllChars(r, NumChar)
    ensures NoNumChar(value) ==> r == "0"
    ensures !NoNumChar(value) ==> exists i: nat, j: nat :: IsFirstRun(value, i, j) && r == value[i..j]
  {
    ScrubIsFirstRun(value);
    match MatchLeadingNumber(value)
    case None => "0"
    case Some(m) => m.number
  }

  /** The number the leadingNumber pattern captures is the first run of [0-9.] characters. */
  lemma ScrubIsFirstRun(value: string)
    ensures MatchLeadingNumber(value).None? <==> NoNumChar(value)
    ensures MatchLeadingNumber(value).Some? ==>
      exists i: nat, j: nat :: IsFirstRun(value, i, j) && MatchLeadingNumber(value).value.number == value[i..j]
  {
    var r := MatchLeadingNumber(value);
    if r.Some? {
      var i: nat, j: nat, e: nat :| IsLeadChoice(value, i, j, e) && r.value == LeadingNumber(value[i..j], value[j..e]);
      forall m: nat | m < |value| && In(value[m], NumChar) ensures LeadMatchesAt(value, m) {
        assert IsLeadMatch(value, m, m + 1, m + 1);
      }
      assert IsFirstRun(value, i, j);
    }
  }

  /** There is only one first run. */
  lemma FirstRunUnique(s: string, i: nat, j: nat, i': nat, j': nat)
    requires IsFirstRun(s, i, j) && IsFirstRun(s, i', j')
    ensures i == i' && j == j'
  {
    assert In(s[i], NumChar) && In(s[i'], NumChar);
    RunEndIs(s, i, j, NumChar);
    RunEndIs(s, i', j', NumChar);
  }

  /** A value with a number t after some text without [0-9.] scrubs to t. */
  lemma ScrubOf(pre: string, t: string, suffix: string)
    requires NoNumChar(pre) && |t| > 0 && AllChars(t, NumChar)
    requires suffix == [] || !In(suffix[0], NumChar)
    ensures Scrub(pre + t + suffix) == t
  {
    var s := pre + t + suffix;
    var i, j := |pre|, |pre| + |t|;
    assert s[i..j] == t;
    assert IsFirstRun(s, i, j);
    assert !NoNumChar(s) by { assert In(s[i], NumChar); }
    var i': nat, j': nat :| IsFirstRun(s, i', j') && Scrub(s) == s[i'..j'];
    FirstRunUnique(s, i, j, i', j');
  }

  /** Scrubbing is idempotent. */
  lemma ScrubIdempotent(value: string)
    ensures Scrub(Scrub(value)) == Scrub(value)
  {
    var t := Scrub(value);
    ScrubOf([], t, []);
    assert [] + t + [] == t;
  }

  // ---------------------------------------------------------------------
  // Decimal digits

  function DigitValue(c: char): nat
    requires In(c, Digit)
  {
    c as int - '0' as int
  }

  /** The value of a string of decimal digits (0 for the empty string). */
  function DigitsValue(s: string): nat
    requires AllChars(s, Digit)
  {
    if s == [] then 0
    else
      AllInSlice(s, 0, |s| - 1, Digit);
      assert s[0..|s| - 1] == s[..|s| - 1];
      10 * DigitsValue(s[..|s| - 1]) + DigitValue(s[|s| - 1])
  }

  function Pow10(n: nat): (p: nat)
    ensures p > 0
  {
    if n == 0 then 1 else 10 * Pow10(n - 1)
  }

  function DigitChar(d: nat): (c: char)
    requires d < 10
    ensures In(c, Digit) && DigitValue(c) == d
  {
    ('0' as int + d) as char
  }

  /** Decimal rendering of a natural number, as %v prints it. */
  function NatToString(n: nat): (r: string)
    ensures |r| > 0 && AllChars(r, Digit) && DigitsValue(r) == n
    ensures r[0] == '0' ==> r == "0"
  {
    if n < 10 then [DigitChar(n)]
    else
      var r := NatToString(n / 10) + [DigitChar(n % 10)];
      assert r[..|r| - 1] == NatToString(n / 10);
      r
  }

  /** Decimal rendering of an int, as %v prints it. */
  function IntToString(i: int): string {
    if i < 0 then "-" + NatToString(-i) else NatToString(i)
  }

  /** IntToString prints the digits of |i|, after a minus sign when i is negative. */
  lemma IntToStringDigits(i: int)
    ensures |IntToString(i)| > 0
    ensures i >= 0 ==> AllChars(IntToString(i), Digit) && DigitsValue(IntToString(i)) == i
    ensures i < 0 ==> IntToString(i)[0] == '-' && IntToString(i)[1..] == NatToString(-i)
  {
    if i < 0 {
      assert ("-" + NatToString(-i))[1..] == NatToString(-i);
    }
  }

  /** A digit string without a superfluous leading zero is the rendering of its value. */
  lemma {:induction false} NatToStringOfDigits(t: string)
    requires |t| > 0 && AllChars(t, Digit) && (t[0] == '0' ==> t == "0")
    ensures NatToString(DigitsValue(t)) == t
    decreases |t|
  {
    var n := DigitsValue(t);
    if |t| == 1 {
      assert t[..0] == [] && DigitsValue(t[..0]) == 0;
      assert n == DigitValue(t[0]);
      assert t == [DigitChar(n)];
    } else {
      var w := t[..|t| - 1];
      AllInSlice(t, 0, |t| - 1, Digit);
      assert t[0..|t| - 1] == w;
      assert w[0] == t[0];
      NatToStringOfDigits(w);
      LeadingDigitPositive(w);
      assert n / 10 == DigitsValue(w) && n % 10 == DigitValue(t[|t| - 1]);
      assert t == w + [DigitChar(n % 10)];
    }
  }

  /** A digit string whose first digit is not zero has a positive value of at least 10^(|t|-1). */
  lemma {:induction false} LeadingDigitPositive(t: string)
    requires |t| > 0 && AllChars(t, Digit) && t[0] != '0'
    ensures DigitsValue(t) >= Pow10(|t| - 1)
    decreases |t|
  {
    if |t| > 1 {
      var w := t[..|t| - 1];
      assert w[0] == t[0];
      AllInSlice(t, 0, |t| - 1, Digit);
      assert t[0..|t| - 1] == w;
      LeadingDigitPositive(w);
    }
  }

  // ---------------------------------------------------------------------
  // strconv.Atoi and strconv.ParseFloat on the strings scrubString returns

  /** The largest value of uint64; strconv.ParseUint stops with a range error beyond it. */
  const MaxUint64: int := 0xFFFF_FFFF_FFFF_FFFF

  /** The digits in front of the first dot of a [0-9.] token, or the whole token when it has none. */
  function WholePart(s: string): (w: string)
    requires AllChars(s, NumChar)
    ensures |w| <= |s| && w == s[..|w|] && AllChars(w, Digit)
    ensures |w| < |s| <==> '.' in s
    ensures |w| < |s| ==> s[|w|] == '.'
  {
    s[..IndexOf(s, '.')]
  }

  /**
   * strconv.Atoi on a token of [0-9.] characters, for a 64-bit int.  A token
   * of digits gives its value, clamped to the largest int.  A token with a
   * dot is a syntax error, for which Atoi returns 0, unless the digits in
   * front of the dot already exceed the largest uint64: ParseUint reads from
   * the left and stops with a range error before it reaches the dot, and
   * Atoi then returns the largest int.  parseInt only logs the error.
   */
  function Atoi(s: string): (r: int)
    requires AllChars(s, NumChar)
    ensures 0 <= r <= MaxInt64
  {
    var w := WholePart(s);
    if s == [] then 0
    else if DigitsValue(w) > MaxUint64 then MaxInt64
    else if |w| < |s| then 0
    else if DigitsValue(s) <= MaxInt64 then DigitsValue(s) else MaxInt64
  }

  /** parseInt. */
  function ParseInt(value: string): (r: int)
    ensures 0 <= r <= MaxInt64
  {
    Atoi(Scrub(value))
  }

  // strconv's own route, one byte at a time, as a reference for Atoi

  /** How strconv.ParseUint (base 10, 64 bits) ends. */
  datatype UintResult = Parsed(n: nat) | RangeError | SyntaxError

  /** ParseUint's cutoff for base 10: from this value on, n * 10 overflows a uint64. */
  const Cutoff: int := MaxUint64 / 10 + 1

  /** The loop of strconv.ParseUint from byte i, with n the value of the digits before it. */
  function ParseUintFrom(s: string, i: nat, n: nat): UintResult
    requires i <= |s| && AllChars(s, NumChar)
    decreases |s| - i
  {
    if i == |s| then Parsed(n)
    else if !In(s[i], Digit) then SyntaxError
    else if n >= Cutoff || 10 * n + DigitValue(s[i]) > MaxUint64 then RangeError
    else ParseUintFrom(s, i + 1, 10 * n + DigitValue(s[i]))
  }

  /** The loop of strconv.Atoi's fast path, taken for tokens shorter than 19 bytes, which cannot overflow. */
  function FastAtoiFrom(s: string, i: nat, n: nat): int
    requires i <= |s| && AllChars(s, NumChar)
    decreases |s| - i
  {
    if i == |s| then n
    else if !In(s[i], Digit) then 0
    else FastAtoiFrom(s, i + 1, 10 * n + DigitValue(s[i]))
  }

  /**
   * strconv.Atoi as the standard library computes it on a 64-bit platform:
   * the fast path for short tokens, otherwise ParseInt, which returns 0 on a
   * syntax error of ParseUint and the largest int on a range error or a value
   * of 2^63 or more.
   */
  function StrconvAtoi(s: string): int
    requires AllChars(s, NumChar)
  {
    if 0 < |s| < 19 then FastAtoiFrom(s, 0, 0)
    else if s == [] then 0
    else match ParseUintFrom(s, 0, 0)
      case SyntaxError => 0
      case RangeError => MaxInt64
      case Parsed(n) => if n > MaxInt64 then MaxInt64 else n
  }

  /** One digit more multiplies the value by ten and adds the digit. */
  lemma DigitsSnoc(s: string, i: nat)
    requires i < |s| && AllIn(s, 0, i + 1, Digit)
    ensures AllChars(s[..i], Digit) && AllChars(s[..i + 1], Digit)
    ensures DigitsValue(s[..i + 1]) == 10 * DigitsValue(s[..i]) + DigitValue(s[i])
  {
    AllInSlice(s, 0, i, Digit);
    AllInSlice(s, 0, i + 1, Digit);
    assert s[0..i] == s[..i] && s[0..i + 1] == s[..i + 1];
    assert s[..i + 1][..i] == s[..i];
  }

  /** A prefix of a digit string is worth no more than the string. */
  lemma {:induction false} DigitsPrefix(t: string, k: nat)
    requires AllChars(t, Digit) && k <= |t|
    ensures AllChars(t[..k], Digit) && DigitsValue(t[..k]) <= DigitsValue(t)
    decreases |t|
  {
    AllInSlice(t, 0, k, Digit);
    assert t[0..k] == t[..k];
    if k < |t| {
      var u := t[..|t| - 1];
      AllInSlice(t, 0, |t| - 1, Digit);
      assert t[0..|t| - 1] == u;
      DigitsPrefix(u, k);
      assert u[..k] == t[..k];
    } else {
      assert t[..k] == t;
    }
  }

  /** A digit string of length k is worth less than 10^k. */
  lemma {:induction false} DigitsBelow(t: string)
    requires AllChars(t, Digit)
    ensures DigitsValue(t) < Pow10(|t|)
    decreases |t|
  {
    if t != [] {
      var u := t[..|t| - 1];
      AllInSlice(t, 0, |t| - 1, Digit);
      assert t[0..|t| - 1] == u;
      DigitsBelow(u);
    }
  }

  lemma {:induction false} Pow10Grows(a: nat, b: nat)
    requires a <= b
    ensures Pow10(a) <= Pow10(b)
    decreases b
  {
    if a < b {
      Pow10Grows(a, b - 1);
    }
  }

  lemma Pow10Of18()
    ensures Pow10(18) == 1_000_000_000_000_000_000
  {
    assert Pow10(3) == 1_000;
    assert Pow10(6) == 1_000_000;
    assert Pow10(9) == 1_000_000_000;
    assert Pow10(12) == 1_000_000_000_000;
    assert Pow10(15) == 1_000_000_000_000_000;
  }

  /** A token of digits is its own whole part. */
  lemma WholePartOfDigits(t: string)
    requires AllChars(t, Digit)
    ensures AllChars(t, NumChar) && WholePart(t) == t
  {
    forall m: nat | m < |t| ensures t[m] != '.' && In(t[m], NumChar) {
      assert In(t[m], Digit);
    }
  }

  /** The whole part of w.f is w. */
  lemma WholePartOfDecimal(w: string, f: string)
    requires AllChars(w, Digit) && AllChars(f, NumChar)
    ensures AllChars(w + "." + f, NumChar) && WholePart(w + "." + f) == w
  {
    var t := w + "." + f;
    WholePartOfDigits(w);
    AllCharsConcat(w, ".", NumChar);
    AllCharsConcat(w + ".", f, NumChar);
    assert t[|w|] == '.';
    assert forall m: nat :: m < |w| ==> t[m] == w[m] && w[m] != '.';
    assert IndexOf(t, '.') == |w|;
    assert t[..|w|] == w;
  }

  /**
   * From any byte it reaches, ParseUint's loop ends with a range error when
   * the digits in front of the first dot exceed the largest uint64, with a
   * syntax error at the dot otherwise, and with the token's value when there
   * is no dot.
   */
  lemma {:induction false} ParseUintFromSpec(s: string, i: nat)
    requires AllChars(s, NumChar) && i <= |s| && AllIn(s, 0, i, Digit)
    requires AllChars(s[..i], Digit) && DigitsValue(s[..i]) <= MaxUint64
    ensures ParseUintFrom(s, i, DigitsValue(s[..i])) ==
      if DigitsValue(WholePart(s)) > MaxUint64 then RangeError
      else if '.' in s then SyntaxError
      else Parsed(DigitsValue(s))
    decreases |s| - i
  {
    var w := WholePart(s);
    assert |w| >= i by {
      forall m: nat | m < i ensures s[m] != '.' {
        assert In(s[m], Digit);
      }
    }
    assert w[..i] == s[..i];
    if i == |s| {
      assert s[..i] == s;
    } else if !In(s[i], Digit) {
      assert w[..i] == w;
    } else {
      DigitsSnoc(s, i);
      assert |w| > i by {
        assert |w| < |s| ==> s[|w|] == '.';
      }
      assert w[..i + 1] == s[..i + 1];
      DigitsPrefix(w, i + 1);
      if DigitsValue(s[..i]) < Cutoff && DigitsValue(s[..i + 1]) <= MaxUint64 {
        ParseUintFromSpec(s, i + 1);
      }
    }
  }

  /** From any byte it reaches, the fast path ends with 0 when the token has a dot, and with its value otherwise. */
  lemma {:induction false} FastAtoiFromSpec(s: string, i: nat)
    requires AllChars(s, NumChar) && i <= |s| && AllIn(s, 0, i, Digit) && AllChars(s[..i], Digit)
    ensures '.' !in s ==> AllChars(s, Digit)
    ensures FastAtoiFrom(s, i, DigitsValue(s[..i])) == if '.' in s then 0 else DigitsValue(s)
    decreases |s| - i
  {
    var w := WholePart(s);
    if i == |s| {
      assert s[..i] == s;
    } else if !In(s[i], Digit) {
      assert s[i] == '.';
    } else {
      DigitsSnoc(s, i);
      FastAtoiFromSpec(s, i + 1);
    }
  }

  /** Atoi agrees with strconv.Atoi's own route on every token of [0-9.] characters. */
  lemma AtoiIsStrconv(s: string)
    requires AllChars(s, NumChar)
    ensures Atoi(s) == StrconvAtoi(s)
  {
    assert s[..0] == [];
    if 0 < |s| < 19 {
      FastAtoiFromSpec(s, 0);
      var w := WholePart(s);
      DigitsBelow(w);
      Pow10Grows(|w|, 18);
      Pow10Of18();
      if '.' !in s {
        assert w == s;
      }
    } else if s != [] {
      ParseUintFromSpec(s, 0);
    }
  }

  /** The first index of c in s, or |s|. */
  function IndexOf(s: string, c: char): (d: nat)
    ensures d <= |s| && (d < |s| ==> s[d] == c)
    ensures forall m: nat :: m < d ==> s[m] != c
  {
    if s == [] then 0
    else if s[0] == c then 0
    else 1 + IndexOf(s[1..], c)
  }

  lemma IndexOfAbsent(s: string, c: char)
    requires forall m: nat :: m < |s| ==> s[m] != c
    ensures IndexOf(s, c) == |s|
  {
  }

  /**
   * strconv.ParseFloat on a string of [0-9.] characters: digits with at most
   * one dot and at least one digit are read as a decimal; anything else is a
   * syntax error, for which ParseFloat returns 0.
   */
  function ParseDecimal(s: string): (x: real)
    requires AllChars(s, NumChar)
    ensures x >= 0.0
  {
    var d := IndexOf(s, '.');
    if d == |s| then
      if s == [] then 0.0 else DigitsValue(s) as real
    else
      var w, f := s[..d], s[d + 1..];
      AllInSlice(s, 0, d, NumChar);
      assert s[0..d] == w;
      if |w| + |f| == 0 || !AllChars(f, Digit) then 0.0
      else DigitsValue(w) as real + DigitsValue(f) as real / Pow10(|f|) as real
  }

  /** parseFloat: never negative, since no sign survives scrubString. */
  function ParseFloat(value: string): (x: real)
    ensures x >= 0.0
  {
    ParseDecimal(Scrub(value))
  }

  /** The token w.f, its two parts digits, one of them not empty. */
  lemma DecimalToken(w: string, f: string)
    requires AllChars(w, Digit) && AllChars(f, Digit) && |w| + |f| > 0
    ensures AllChars(w + "." + f, NumChar)
    ensures Atoi(w + "." + f) == if DigitsValue(w) > MaxUint64 then MaxInt64 else 0
    ensures ParseDecimal(w + "." + f) == DigitsValue(w) as real + DigitsValue(f) as real / Pow10(|f|) as real
  {
    var t := w + "." + f;
    WholePartOfDigits(f);
    WholePartOfDecimal(w, f);
    assert IndexOf(t, '.') == |w|;
    assert t[|w| + 1..] == f;
  }

  /** A token with two dots is a syntax error for strconv.ParseFloat. */
  lemma TwoDotsToken(t: string, i: nat, j: nat)
    requires AllChars(t, NumChar) && i < j < |t| && t[i] == '.' && t[j] == '.'
    ensures ParseDecimal(t) == 0.0
  {
    var d := IndexOf(t, '.');
    assert d <= i;
    assert t[d + 1..][j - d - 1] == '.';
  }

  /** A token without a digit (only dots) is a syntax error for strconv.ParseFloat. */
  lemma NoDigitToken(t: string)
    requires AllChars(t, NumChar) && forall m: nat :: m < |t| ==> !In(t[m], Digit)
    ensures ParseDecimal(t) == 0.0
  {
    if |t| > 1 {
      assert t[1..][0] == t[1];
    }
  }

  // ---------------------------------------------------------------------
  // What the two parsers make of the values ab prints

  /** A value that starts with a number in plain digits, such as "6728 bytes", parses to that number. */
  lemma ParseIntOfDigits(t: string, suffix: string)
    requires |t| > 0 && AllChars(t, Digit)
    requires suffix == [] || !In(suffix[0], NumChar)
    ensures ParseInt(t + suffix) == if DigitsValue(t) <= MaxInt64 then DigitsValue(t) else MaxInt64
  {
    ScrubOf([], t, suffix);
    assert [] + t + suffix == t + suffix;
    WholePartOfDigits(t);
  }

  /** parseInt(itoa(n) + suffix) == n for every n an int can hold. */
  lemma ParseIntRoundTrip(n: nat, suffix: string)
    requires n <= MaxInt64
    requires suffix == [] || !In(suffix[0], NumChar)
    ensures ParseInt(NatToString(n) + suffix) == n
  {
    ParseIntOfDigits(NatToString(n), suffix);
  }

  /**
   * parseInt in full.  When the scrubbed token holds a dot, as "2.3" and "."
   * do, the result is 0, or the largest int when the digits in front of the
   * dot exceed the largest uint64.  Otherwise the token is all digits and
   * gives its value, clamped to the largest int.
   */
  lemma ParseIntSpec(value: string)
    ensures '.' in Scrub(value) ==>
      ParseInt(value) == if DigitsValue(WholePart(Scrub(value))) > MaxUint64 then MaxInt64 else 0
    ensures '.' !in Scrub(value) ==>
      AllChars(Scrub(value), Digit) &&
      ParseInt(value) == if DigitsValue(Scrub(value)) <= MaxInt64 then DigitsValue(Scrub(value)) else MaxInt64
  {
    var t := Scrub(value);
    if '.' in t {
      var m: nat :| m < |t| && t[m] == '.';
      assert !In(t[m], Digit);
    } else {
      forall m: nat | m < |t| ensures In(t[m], Digit) {
        assert In(t[m], NumChar) && t[m] != '.';
      }
      WholePartOfDigits(t);
    }
  }

  /**
   * The number in front has a dot, as in "2.178 [ms]": strconv.Atoi fails
   * with a syntax error and parseInt gives 0, unless the digits in front of
   * the dot exceed the largest uint64, when the range error comes first and
   * parseInt gives the largest int.
   */
  lemma ParseIntOfDecimal(w: string, f: string, suffix: string)
    requires AllChars(w, Digit) && AllChars(f, Digit) && |w| + |f| > 0
    requires suffix == [] || !In(suffix[0], NumChar)
    ensures ParseInt(w + "." + f + suffix) == if DigitsValue(w) > MaxUint64 then MaxInt64 else 0
  {
    DecimalToken(w, f);
    ScrubOf([], w + "." + f, suffix);
    assert [] + (w + "." + f) + suffix == w + "." + f + suffix;
  }

  /** A value with no digits and no dots parses to 0. */
  lemma ParseOfNothing(value: string)
    requires NoNumChar(value)
    ensures ParseInt(value) == 0 && ParseFloat(value) == 0.0
  {
    assert "0"[..0] == [];
  }

  /** Digits with a dot and a fraction, such as "2.178 [ms] (mean)", parse to their decimal value. */
  lemma ParseFloatOfDecimal(w: string, f: string, suffix: string)
    requires AllChars(w, Digit) && AllChars(f, Digit) && |w| + |f| > 0
    requires suffix == [] || !In(suffix[0], NumChar)
    ensures ParseFloat(w + "." + f + suffix) == DigitsValue(w) as real + DigitsValue(f) as real / Pow10(|f|) as real
  {
    DecimalToken(w, f);
    ScrubOf([], w + "." + f, suffix);
    assert [] + (w + "." + f) + suffix == w + "." + f + suffix;
  }

  /** Plain digits, such as "6 (longest request)", parse to their value as a float. */
  lemma ParseFloatOfDigits(t: string, suffix: string)
    requires |t| > 0 && AllChars(t, Digit)
    requires suffix == [] || !In(suffix[0], NumChar)
    ensures ParseFloat(t + suffix) == DigitsValue(t) as real
  {
    ScrubOf([], t, suffix);
    assert [] + t + suffix == t + suffix;
    assert forall m: nat :: m < |t| ==> t[m] != '.';
    IndexOfAbsent(t, '.');
  }

  /** A number with two dots, such as "1.2.3", is a syntax error for strconv.ParseFloat: parseFloat gives 0. */
  lemma ParseFloatOfTwoDots(t: string, i: nat, j: nat, suffix: string)
    requires AllChars(t, NumChar) && i < j < |t| && t[i] == '.' && t[j] == '.'
    requires suffix == [] || !In(suffix[0], NumChar)
    ensures ParseFloat(t + suffix) == 0.0
  {
    ScrubOf([], t, suffix);
    assert [] + t + suffix == t + suffix;
    TwoDotsToken(t, i, j);
  }

  /** A number without digits, such as ".", is a syntax error: parseFloat gives 0. */
  lemma ParseFloatOfDots(t: string, suffix: string)
    requires |t| > 0 && forall m: nat :: m < |t| ==> t[m] == '.'
    requires suffix == [] || !In(suffix[0], NumChar)
    ensures ParseFloat(t + suffix) == 0.0
  {
    ScrubOf([], t, suffix);
    assert [] + t + suffix == t + suffix;
    NoDigitToken(t);
  }
}
