/**
 * Hand-written equivalents of the five regular expressions of parse.go
 * (firstLine, kvLine, leadingNumber, connectionTimesRow, percentLine).
 *
 * Go's regexp package reports the leftmost-first match: the match that starts
 * earliest, and among those the one a backtracking matcher finds first, so a
 * greedy repetition is as long as the rest of the pattern allows.  For every
 * pattern this module gives
 *   - a ghost predicate (IsLeadMatch, IsKvMatch, ...) saying when the pattern
 *     matches with given group boundaries: the regex read as a grammar;
 *   - the choice Go makes among those matches (IsLeadChoice, IsKvChoice, ...);
 *   - a matcher function whose contract says that it returns the captures of
 *     that choice, and nothing when there is no match at all.
 */
module Matchers {
  import opened Wrappers

  /** The character classes the patterns use; ASCII only, as in Go's regexp. */
  datatype CharClass =
    | Digit        // \d
    | NumChar      // [0-9.]
    | WordOrSpace  // [\w ]
    | Space        // \s, which is [\t\n\f\r ]
    | NotNewline   // .  (without the s flag)

  predicate In(c: char, k: CharClass) {
    match k
    case Digit => '0' <= c <= '9'
    case NumChar => '0' <= c <= '9' || c == '.'
    case WordOrSpace => 'a' <= c <= 'z' || 'A' <= c <= 'Z' || '0' <= c <= '9' || c == '_' || c == ' '
    case Space => c == '\t' || c == '\n' || c == '\U{C}' || c == '\r' || c == ' '
    case NotNewline => c != '\n'
  }

  /** Every character of s[lo..hi] is in class k. */
  predicate AllIn(s: string, lo: nat, hi: nat, k: CharClass)
    requires lo <= hi <= |s|
  {
    forall m: nat :: lo <= m < hi ==> In(s[m], k)
  }

  /** Every character of s is in class k. */
  predicate AllChars(s: string, k: CharClass) {
    AllIn(s, 0, |s|, k)
  }

  /** A piece of a run of class k is a string of class k. */
  lemma AllInSlice(s: string, lo: nat, hi: nat, k: CharClass)
    requires lo <= hi <= |s| && AllIn(s, lo, hi, k)
    ensures AllChars(s[lo..hi], k)
  {
    forall m: nat | m < hi - lo ensures In(s[lo..hi][m], k) {
      assert s[lo..hi][m] == s[lo + m];
    }
  }

  /** Two strings of class k make one. */
  lemma AllCharsConcat(a: string, b: string, k: CharClass)
    requires AllChars(a, k) && AllChars(b, k)
    ensures AllChars(a + b, k)
  {
    forall m: nat | m < |a + b| ensures In((a + b)[m], k) {
      if m < |a| {
        assert (a + b)[m] == a[m];
      } else {
        assert (a + b)[m] == b[m - |a|];
      }
    }
  }

  /** The end of the maximal run of class-k characters that starts at i. */
  function RunEnd(s: string, i: nat, k: CharClass): (j: nat)
    requires i <= |s|
    ensures i <= j <= |s| && AllIn(s, i, j, k)
    ensures j == |s| || !In(s[j], k)
    decreases |s| - i
  {
    if i == |s| || !In(s[i], k) then i else RunEnd(s, i + 1, k)
  }

  /** A run of class k from i that cannot be extended ends where RunEnd says. */
  lemma RunEndIs(s: string, i: nat, j: nat, k: CharClass)
    requires i <= j <= |s| && AllIn(s, i, j, k)
    requires j == |s| || !In(s[j], k)
    ensures RunEnd(s, i, k) == j
  {
  }

  /** The first index at or after i that holds a class-k character, or |s|. */
  function FirstIn(s: string, i: nat, k: CharClass): (j: nat)
    requires i <= |s|
    ensures i <= j <= |s|
    ensures forall m: nat :: i <= m < j ==> !In(s[m], k)
    ensures j < |s| ==> In(s[j], k)
    decreases |s| - i
  {
    if i == |s| || In(s[i], k) then i else FirstIn(s, i + 1, k)
  }

  // ---------------------------------------------------------------------
  // leadingNumber = `([0-9.]+)(.*)`   (parse.go:16)

  datatype LeadingNumber = LeadingNumber(number: string, rest: string)

  /** The pattern matches s[i..e] with group 1 = s[i..j] and group 2 = s[j..e]. */
  ghost predicate IsLeadMatch(s: string, i: nat, j: nat, e: nat) {
    i < j <= e <= |s| && AllIn(s, i, j, NumChar) && AllIn(s, j, e, NotNewline)
  }

  ghost predicate LeadMatchesAt(s: string, i: nat) {
    exists j: nat, e: nat :: IsLeadMatch(s, i, j, e)
  }

  /** The match Go reports: the leftmost start, then both groups as long as possible. */
  ghost predicate IsLeadChoice(s: string, i: nat, j: nat, e: nat) {
    && IsLeadMatch(s, i, j, e)
    && (forall i': nat :: LeadMatchesAt(s, i') ==> i <= i')
    && (j == |s| || !In(s[j], NumChar))
    && (e == |s| || !In(s[e], NotNewline))
  }

  /** leadingNumber.FindStringSubmatch. */
  function MatchLeadingNumber(s: string): (r: Option<LeadingNumber>)
    ensures r.None? <==> forall m: nat :: m < |s| ==> !In(s[m], NumChar)
    ensures r.None? <==> forall i: nat :: !LeadMatchesAt(s, i)
    ensures r.Some? ==> exists i: nat, j: nat, e: nat :: IsLeadChoice(s, i, j, e) && r.value == LeadingNumber(s[i..j], s[j..e])
    ensures forall i: nat, j: nat, e: nat :: IsLeadChoice(s, i, j, e) ==> r == Some(LeadingNumber(s[i..j], s[j..e]))
  {
    var i := FirstIn(s, 0, NumChar);
    if i == |s| then
      NoLeadMatch(s);
      None
    else
      var j := RunEnd(s, i, NumChar);
      var e := RunEnd(s, j, NotNewline);
      LeadChoiceIs(s, i, j, e);
      Some(LeadingNumber(s[i..j], s[j..e]))
  }

  lemma NoLeadMatch(s: string)
    requires forall m: nat :: m < |s| ==> !In(s[m], NumChar)
    ensures forall i: nat :: !LeadMatchesAt(s, i)
    ensures forall i: nat, j: nat, e: nat :: !IsLeadMatch(s, i, j, e)
  {
    forall i: nat, j: nat, e: nat ensures !IsLeadMatch(s, i, j, e) {
      if i < j <= |s| {
        assert !In(s[i], NumChar);
      }
    }
  }

  /** The positions computed by MatchLeadingNumber are the only choice. */
  lemma LeadChoiceIs(s: string, i: nat, j: nat, e: nat)
    requires i == FirstIn(s, 0, NumChar) < |s|
    requires j == RunEnd(s, i, NumChar) && e == RunEnd(s, j, NotNewline)
    ensures IsLeadChoice(s, i, j, e) && LeadMatchesAt(s, i)
    ensures forall i': nat, j': nat, e': nat :: IsLeadChoice(s, i', j', e') ==> i' == i && j' == j && e' == e
  {
    assert IsLeadMatch(s, i, j, e);
    forall i': nat | LeadMatchesAt(s, i') ensures i <= i' {
      var j': nat, e': nat :| IsLeadMatch(s, i', j', e');
      assert In(s[i'], NumChar);
    }
    forall i': nat, j': nat, e': nat | IsLeadChoice(s, i', j', e') ensures i' == i && j' == j && e' == e {
      assert LeadMatchesAt(s, i);
      assert In(s[i'], NumChar);
      RunEndIs(s, i, j', NumChar);
      RunEndIs(s, j, e', NotNewline);
    }
  }

  // ---------------------------------------------------------------------
  // kvLine = `([\w ]+):\s+(\S+.*)`   (parse.go:15)

  datatype KeyValue = KeyValue(key: string, value: string)

  /**
   * The pattern matches with key s[i..j], the colon at j, blanks s[j+1..k] and
   * value s[k..e].  `\S+.*` is the same as one non-blank character followed by
   * any characters other than a newline, since \S never holds a newline.
   */
  ghost predicate IsKvMatch(s: string, i: nat, j: nat, k: nat, e: nat) {
    && i < j && j + 1 < k < e <= |s|
    && AllIn(s, i, j, WordOrSpace) && s[j] == ':'
    && AllIn(s, j + 1, k, Space)
    && !In(s[k], Space) && AllIn(s, k, e, NotNewline)
  }

  ghost predicate KvMatchesAt(s: string, i: nat) {
    exists j: nat, k: nat, e: nat :: IsKvMatch(s, i, j, k, e)
  }

  /** The match Go reports: the leftmost start and the longest value. */
  ghost predicate IsKvChoice(s: string, i: nat, j: nat, k: nat, e: nat) {
    && IsKvMatch(s, i, j, k, e)
    && (forall i': nat :: KvMatchesAt(s, i') ==> i <= i')
    && (e == |s| || !In(s[e], NotNewline))
  }

  /** The match of kvLine anchored at i, if any. */
  function KvAt(s: string, i: nat): Option<KeyValue>
    requires i <= |s|
  {
    var j := RunEnd(s, i, WordOrSpace);
    if j == i || j + 1 >= |s| || s[j] != ':' || !In(s[j + 1], Space) then None
    else
      var k := RunEnd(s, j + 1, Space);
      if k == |s| then None
      else Some(KeyValue(s[i..j], s[k..RunEnd(s, k, NotNewline)]))
  }

  /** KvAt finds a match at i exactly when there is one. */
  lemma KvAtIff(s: string, i: nat)
    requires i <= |s|
    ensures KvAt(s, i).Some? <==> KvMatchesAt(s, i)
  {
    var j := RunEnd(s, i, WordOrSpace);
    if KvMatchesAt(s, i) {
      var j': nat, k': nat, e': nat :| IsKvMatch(s, i, j', k', e');
      RunEndIs(s, i, j', WordOrSpace);
      RunEndIs(s, j + 1, k', Space);
    }
    if KvAt(s, i).Some? {
      var k := RunEnd(s, j + 1, Space);
      assert IsKvMatch(s, i, j, k, RunEnd(s, k, NotNewline));
    }
  }

  /** When there is a match at i, KvAt returns the captures of the longest one. */
  lemma KvAtCaptures(s: string, i: nat, j: nat, k: nat, e: nat)
    requires IsKvMatch(s, i, j, k, e) && (e == |s| || !In(s[e], NotNewline))
    ensures KvAt(s, i) == Some(KeyValue(s[i..j], s[k..e]))
  {
    RunEndIs(s, i, j, WordOrSpace);
    RunEndIs(s, j + 1, k, Space);
    RunEndIs(s, k, e, NotNewline);
  }

  /** The leftmost match of kvLine that starts at or after i. */
  function KvFrom(s: string, i: nat): Option<KeyValue>
    requires i <= |s|
    decreases |s| - i
  {
    if KvAt(s, i).Some? then KvAt(s, i)
    else if i == |s| then None
    else KvFrom(s, i + 1)
  }

  /** kvLine.FindStringSubmatch. */
  function MatchKeyValue(s: string): (r: Option<KeyValue>)
    ensures r.None? <==> forall i: nat :: !KvMatchesAt(s, i)
    ensures r.Some? ==> exists i: nat, j: nat, k: nat, e: nat :: IsKvChoice(s, i, j, k, e) && r.value == KeyValue(s[i..j], s[k..e])
    ensures forall i: nat, j: nat, k: nat, e: nat :: IsKvChoice(s, i, j, k, e) ==> r == Some(KeyValue(s[i..j], s[k..e]))
  {
    KvChoiceIsFirst(s);
    KvFrom(s, 0)
  }

  lemma KvChoiceIsFirst(s: string)
    ensures KvFrom(s, 0).None? <==> forall i: nat :: !KvMatchesAt(s, i)
    ensures KvFrom(s, 0).Some? ==> exists i: nat, j: nat, k: nat, e: nat ::
      IsKvChoice(s, i, j, k, e) && KvFrom(s, 0).value == KeyValue(s[i..j], s[k..e])
    ensures forall i: nat, j: nat, k: nat, e: nat :: IsKvChoice(s, i, j, k, e) ==>
      KvFrom(s, 0) == Some(KeyValue(s[i..j], s[k..e]))
  {
    var r := KvFrom(s, 0);
    forall i: nat | i <= |s| ensures KvAt(s, i).Some? <==> KvMatchesAt(s, i) {
      KvAtIff(s, i);
    }
    forall i: nat | KvMatchesAt(s, i) ensures i <= |s| {
      var j: nat, k: nat, e: nat :| IsKvMatch(s, i, j, k, e);
    }
    if r.None? {
      KvFromNone(s, 0);
    } else {
      var i0 := LeastKvStart(s, 0);
      var j := RunEnd(s, i0, WordOrSpace);
      var k := RunEnd(s, j + 1, Space);
      var e := RunEnd(s, k, NotNewline);
      KvAtCaptures(s, i0, j, k, e);
      assert IsKvChoice(s, i0, j, k, e);
    }
    forall i: nat, j: nat, k: nat, e: nat | IsKvChoice(s, i, j, k, e)
      ensures r == Some(KeyValue(s[i..j], s[k..e]))
    {
      KvAtCaptures(s, i, j, k, e);
      KvFromFirst(s, 0, i);
    }
  }

  /** The search from lo returns the match at the first position that holds one. */
  lemma {:induction false} KvFromFirst(s: string, lo: nat, i: nat)
    requires lo <= i <= |s| && KvAt(s, i).Some?
    requires forall m: nat :: lo <= m < i ==> KvAt(s, m).None?
    ensures KvFrom(s, lo) == KvAt(s, i)
    decreases i - lo
  {
    if lo < i {
      KvFromFirst(s, lo + 1, i);
    }
  }

  /** No match is found from lo only when no position from lo on holds one. */
  lemma {:induction false} KvFromNone(s: string, lo: nat)
    requires lo <= |s| && KvFrom(s, lo).None?
    ensures forall i: nat :: lo <= i <= |s| ==> KvAt(s, i).None?
    decreases |s| - lo
  {
    if lo < |s| {
      KvFromNone(s, lo + 1);
    }
  }

  /** The least start at or after lo of a kvLine match, when there is one. */
  lemma {:induction false} LeastKvStart(s: string, lo: nat) returns (i: nat)
    requires lo <= |s| && KvFrom(s, lo).Some?
    ensures lo <= i <= |s| && KvAt(s, i).Some? && KvFrom(s, lo) == KvAt(s, i)
    ensures forall m: nat :: lo <= m < i ==> KvAt(s, m).None?
    decreases |s| - lo
  {
    if KvAt(s, lo).Some? {
      i := lo;
    } else {
      assert KvFrom(s, lo) == KvFrom(s, lo + 1);
      i := LeastKvStart(s, lo + 1);
    }
  }

  // ---------------------------------------------------------------------
  // percentLine = `\s*(\d+)%\s+(.*)`   (parse.go:18)

  datatype PercentMatch = PercentMatch(percent: string, rest: string)

  /** The pattern matches from i: blanks s[i..d], digits s[d..p], '%' at p, blanks s[p+1..q], rest s[q..e]. */
  ghost predicate IsPercentMatch(s: string, i: nat, d: nat, p: nat, q: nat, e: nat) {
    && i <= d < p && p + 1 < q <= e <= |s|
    && AllIn(s, i, d, Space) && AllIn(s, d, p, Digit) && s[p] == '%'
    && AllIn(s, p + 1, q, Space) && AllIn(s, q, e, NotNewline)
  }

  ghost predicate PercentMatchesAt(s: string, i: nat) {
    exists d: nat, p: nat, q: nat, e: nat :: IsPercentMatch(s, i, d, p, q, e)
  }

  /** The match Go reports: leftmost start, then the blanks after '%' and the rest as long as possible. */
  ghost predicate IsPercentChoice(s: string, i: nat, d: nat, p: nat, q: nat, e: nat) {
    && IsPercentMatch(s, i, d, p, q, e)
    && (forall i': nat :: PercentMatchesAt(s, i') ==> i <= i')
    && (q == |s| || !In(s[q], Space))
    && (e == |s| || !In(s[e], NotNewline))
  }

  /** The match of percentLine anchored at i, if any. */
  function PercentAt(s: string, i: nat): Option<PercentMatch>
    requires i <= |s|
  {
    var d := RunEnd(s, i, Space);
    var p := RunEnd(s, d, Digit);
    if p == d || p + 1 >= |s| || s[p] != '%' || !In(s[p + 1], Space) then None
    else
      var q := RunEnd(s, p + 1, Space);
      Some(PercentMatch(s[d..p], s[q..RunEnd(s, q, NotNewline)]))
  }

  lemma PercentAtIff(s: string, i: nat)
    requires i <= |s|
    ensures PercentAt(s, i).Some? <==> PercentMatchesAt(s, i)
  {
    var d := RunEnd(s, i, Space);
    var p := RunEnd(s, d, Digit);
    if PercentMatchesAt(s, i) {
      var d': nat, p': nat, q': nat, e': nat :| IsPercentMatch(s, i, d', p', q', e');
      assert In(s[d'], Digit);
      RunEndIs(s, i, d', Space);
      RunEndIs(s, d, p', Digit);
    }
    if PercentAt(s, i).Some? {
      var q := RunEnd(s, p + 1, Space);
      assert IsPercentMatch(s, i, d, p, q, RunEnd(s, q, NotNewline));
    }
  }

  lemma PercentAtCaptures(s: string, i: nat, d: nat, p: nat, q: nat, e: nat)
    requires IsPercentMatch(s, i, d, p, q, e)
    requires (q == |s| || !In(s[q], Space)) && (e == |s| || !In(s[e], NotNewline))
    ensures PercentAt(s, i) == Some(PercentMatch(s[d..p], s[q..e]))
  {
    assert In(s[d], Digit);
    RunEndIs(s, i, d, Space);
    RunEndIs(s, d, p, Digit);
    RunEndIs(s, p + 1, q, Space);
    RunEndIs(s, q, e, NotNewline);
  }

  /** The leftmost match of percentLine that starts at or after i. */
  function PercentFrom(s: string, i: nat): Option<PercentMatch>
    requires i <= |s|
    decreases |s| - i
  {
    if PercentAt(s, i).Some? then PercentAt(s, i)
    else if i == |s| then None
    else PercentFrom(s, i + 1)
  }

  /** percentLine.FindStringSubmatch. */
  function MatchPercent(s: string): (r: Option<PercentMatch>)
    ensures r.None? <==> forall i: nat :: !PercentMatchesAt(s, i)
    ensures r.Some? ==> exists i: nat, d: nat, p: nat, q: nat, e: nat ::
      IsPercentChoice(s, i, d, p, q, e) && r.value == PercentMatch(s[d..p], s[q..e])
    ensures forall i: nat, d: nat, p: nat, q: nat, e: nat :: IsPercentChoice(s, i, d, p, q, e) ==>
      r == Some(PercentMatch(s[d..p], s[q..e]))
  {
    PercentChoiceIsFirst(s);
    PercentFrom(s, 0)
  }

  lemma PercentChoiceIsFirst(s: string)
    ensures PercentFrom(s, 0).None? <==> forall i: nat :: !PercentMatchesAt(s, i)
    ensures PercentFrom(s, 0).Some? ==> exists i: nat, d: nat, p: nat, q: nat, e: nat ::
      IsPercentChoice(s, i, d, p, q, e) && PercentFrom(s, 0).value == PercentMatch(s[d..p], s[q..e])
    ensures forall i: nat, d: nat, p: nat, q: nat, e: nat :: IsPercentChoice(s, i, d, p, q, e) ==>
      PercentFrom(s, 0) == Some(PercentMatch(s[d..p], s[q..e]))
  {
    var r := PercentFrom(s, 0);
    forall i: nat | i <= |s| ensures PercentAt(s, i).Some? <==> PercentMatchesAt(s, i) {
      PercentAtIff(s, i);
    }
    forall i: nat | PercentMatchesAt(s, i) ensures i <= |s| {
      var d: nat, p: nat, q: nat, e: nat :| IsPercentMatch(s, i, d, p, q, e);
    }
    if r.None? {
      PercentFromNone(s, 0);
    } else {
      var i0 := LeastPercentStart(s, 0);
      var d := RunEnd(s, i0, Space);
      var p := RunEnd(s, d, Digit);
      var q := RunEnd(s, p + 1, Space);
      var e := RunEnd(s, q, NotNewline);
      PercentAtCaptures(s, i0, d, p, q, e);
      assert IsPercentChoice(s, i0, d, p, q, e);
    }
    forall i: nat, d: nat, p: nat, q: nat, e: nat | IsPercentChoice(s, i, d, p, q, e)
      ensures r == Some(PercentMatch(s[d..p], s[q..e]))
    {
      PercentAtCaptures(s, i, d, p, q, e);
      PercentFromFirst(s, 0, i);
    }
  }

  lemma {:induction false} PercentFromFirst(s: string, lo: nat, i: nat)
    requires lo <= i <= |s| && PercentAt(s, i).Some?
    requires forall m: nat :: lo <= m < i ==> PercentAt(s, m).None?
    ensures PercentFrom(s, lo) == PercentAt(s, i)
    decreases i - lo
  {
    if lo < i {
      PercentFromFirst(s, lo + 1, i);
    }
  }

  lemma {:induction false} PercentFromNone(s: string, lo: nat)
    requires lo <= |s| && PercentFrom(s, lo).None?
    ensures forall i: nat :: lo <= i <= |s| ==> PercentAt(s, i).None?
    decreases |s| - lo
  {
    if lo < |s| {
      PercentFromNone(s, lo + 1);
    }
  }

  lemma {:induction false} LeastPercentStart(s: string, lo: nat) returns (i: nat)
    requires lo <= |s| && PercentFrom(s, lo).Some?
    ensures lo <= i <= |s| && PercentAt(s, i).Some? && PercentFrom(s, lo) == PercentAt(s, i)
    ensures forall m: nat :: lo <= m < i ==> PercentAt(s, m).None?
    decreases |s| - lo
  {
    if PercentAt(s, lo).Some? {
      i := lo;
    } else {
      assert PercentFrom(s, lo) == PercentFrom(s, lo + 1);
      i := LeastPercentStart(s, lo + 1);
    }
  }

  // ---------------------------------------------------------------------
  // firstLine = `^This is ApacheBench, Version ([0-9.]+) <\$Revision: (\d+) \$>`   (parse.go:14)

  const BannerPrefix: string := "This is ApacheBench, Version "
  const RevisionMark: string := " <$Revision: "
  const BannerSuffix: string := " $>"

  datatype Banner = Banner(version: string, revision: string)

  /** The anchored pattern matches with version s[P..v] and revision s[v+|RevisionMark|..w]. */
  ghost predicate IsBannerMatch(s: string, v: nat, w: nat) {
    var p, r := |BannerPrefix|, v + |RevisionMark|;
    && p < v && r < w && w + |BannerSuffix| <= |s|
    && s[..p] == BannerPrefix
    && AllIn(s, p, v, NumChar)
    && s[v..r] == RevisionMark
    && AllIn(s, r, w, Digit)
    && s[w..w + |BannerSuffix|] == BannerSuffix
  }

  /** firstLine.FindStringSubmatch.  Both groups are followed by a blank, so they are determined by the line. */
  function MatchBanner(s: string): (r: Option<Banner>)
    ensures r.Some? <==> exists v: nat, w: nat :: IsBannerMatch(s, v, w)
    ensures forall v: nat, w: nat :: IsBannerMatch(s, v, w) ==>
      r == Some(Banner(s[|BannerPrefix|..v], s[v + |RevisionMark|..w]))
  {
    var p := |BannerPrefix|;
    if |s| < p || s[..p] != BannerPrefix then None
    else
      var v := RunEnd(s, p, NumChar);
      var r := v + |RevisionMark|;
      if v == p || |s| < r || s[v..r] != RevisionMark then
        BannerUnique(s);
        None
      else
        var w := RunEnd(s, r, Digit);
        if w == r || |s| < w + |BannerSuffix| || s[w..w + |BannerSuffix|] != BannerSuffix then
          BannerUnique(s);
          None
        else
          BannerUnique(s);
          assert IsBannerMatch(s, v, w);
          Some(Banner(s[p..v], s[r..w]))
  }

  /** In a banner match both capture groups end where their maximal runs end. */
  lemma BannerUnique(s: string)
    requires |BannerPrefix| <= |s|
    ensures forall v: nat, w: nat :: IsBannerMatch(s, v, w) ==>
      v == RunEnd(s, |BannerPrefix|, NumChar) && w == RunEnd(s, v + |RevisionMark|, Digit)
  {
    forall v: nat, w: nat | IsBannerMatch(s, v, w)
      ensures v == RunEnd(s, |BannerPrefix|, NumChar) && w == RunEnd(s, v + |RevisionMark|, Digit)
    {
      assert s[v] == s[v..v + |RevisionMark|][0] == ' ';
      RunEndIs(s, |BannerPrefix|, v, NumChar);
      assert s[w] == s[w..w + |BannerSuffix|][0] == ' ';
      RunEndIs(s, v + |RevisionMark|, w, Digit);
    }
  }

  // ---------------------------------------------------------------------
  // connectionTimesRow = `([0-9.]+)\s+([0-9.]+)\s+([0-9.]+)\s+([0-9.]+)\s+([0-9.]+)\s*`   (parse.go:17)
  //
  // The pattern is read as nine segments: five runs of [0-9.] with a run of
  // blanks between each two.  The trailing `\s*` can match the empty string
  // and captures nothing, so it never affects whether or what the row matches.

  const RowPattern: seq<CharClass> := [NumChar, Space, NumChar, Space, NumChar, Space, NumChar, Space, NumChar]

  function Concat(ss: seq<string>): (r: string)
    ensures ss == [] ==> r == []
  {
    if ss == [] then [] else ss[0] + Concat(ss[1..])
  }

  /** The segments segs, one non-empty run of class pat[m] each, in turn, form a prefix of t. */
  ghost predicate IsChain(t: string, segs: seq<string>, pat: seq<CharClass>) {
    && |segs| == |pat|
    && (forall m: nat :: 0 <= m < |pat| ==> |segs[m]| > 0 && AllChars(segs[m], pat[m]))
    && Concat(segs) <= t
  }

  /** The last segment of the chain cannot be extended (the greedy choice; the others are forced). */
  ghost predicate LastMaximal(t: string, segs: seq<string>, pat: seq<CharClass>)
    requires IsChain(t, segs, pat)
  {
    pat == [] || |Concat(segs)| == |t| || !In(t[|Concat(segs)|], pat[|pat| - 1])
  }

  ghost predicate Disjoint(a: CharClass, b: CharClass) {
    forall c: char :: !(In(c, a) && In(c, b))
  }

  /** Neighbouring segments can never share a character, so each one ends where the next begins. */
  ghost predicate Alternating(pat: seq<CharClass>) {
    forall m: nat :: 0 <= m < |pat| - 1 ==> Disjoint(pat[m], pat[m + 1])
  }

  /** Reads the longest non-empty runs of pat[0], pat[1], ... from the start of t. */
  function ChainFrom(t: string, pat: seq<CharClass>): (r: Option<seq<string>>)
    ensures r.Some? ==> IsChain(t, r.value, pat) && LastMaximal(t, r.value, pat)
    decreases pat
  {
    if pat == [] then Some([])
    else
      var j := RunEnd(t, 0, pat[0]);
      if j == 0 then None
      else
        match ChainFrom(t[j..], pat[1..])
        case None => None
        case Some(segs) =>
          ChainStep(t, j, pat, segs);
          Some([t[..j]] + segs)
  }

  /** One step of ChainFrom keeps the chain property. */
  lemma ChainStep(t: string, j: nat, pat: seq<CharClass>, segs: seq<string>)
    requires pat != [] && 0 < j <= |t| && AllIn(t, 0, j, pat[0]) && (j == |t| || !In(t[j], pat[0]))
    requires IsChain(t[j..], segs, pat[1..]) && LastMaximal(t[j..], segs, pat[1..])
    ensures IsChain(t, [t[..j]] + segs, pat) && LastMaximal(t, [t[..j]] + segs, pat)
  {
    var all := [t[..j]] + segs;
    assert all[1..] == segs;
    assert Concat(all) == t[..j] + Concat(segs);
    assert t == t[..j] + t[j..];
    forall m: nat | 0 <= m < |pat| ensures |all[m]| > 0 && AllChars(all[m], pat[m]) {
      if m > 0 {
        assert all[m] == segs[m - 1];
      }
    }
    if |pat| > 1 && |Concat(all)| < |t| {
      assert t[|Concat(all)|] == t[j..][|Concat(segs)|];
    }
  }

  /** Splitting a chain into its first segment and the rest. */
  lemma ChainTail(t: string, segs: seq<string>, pat: seq<CharClass>)
    requires IsChain(t, segs, pat) && pat != []
    ensures var j := |segs[0]|; 0 < j <= |t| && t[..j] == segs[0] && AllIn(t, 0, j, pat[0])
    ensures IsChain(t[|segs[0]|..], segs[1..], pat[1..])
    ensures |pat| == 1 ==> segs[1..] == []
    ensures |pat| > 1 ==> |segs[0]| < |t| && In(t[|segs[0]|], pat[1])
    ensures LastMaximal(t, segs, pat) ==> LastMaximal(t[|segs[0]|..], segs[1..], pat[1..])
    ensures |pat| == 1 && LastMaximal(t, segs, pat) ==> |segs[0]| == |t| || !In(t[|segs[0]|], pat[0])
  {
    var j := |segs[0]|;
    assert Concat(segs) == segs[0] + Concat(segs[1..]);
    assert t[..|Concat(segs)|] == Concat(segs);
    assert t[..j] == Concat(segs)[..j] == segs[0];
    forall m: nat | 0 <= m < j ensures In(t[m], pat[0]) {
      assert t[m] == segs[0][m];
    }
    var rest := t[j..];
    assert Concat(segs[1..]) <= rest by {
      assert |Concat(segs)| <= |t|;
      assert forall m: nat :: 0 <= m < |Concat(segs[1..])| ==> Concat(segs[1..])[m] == Concat(segs)[j + m] == t[j + m];
    }
    forall m: nat | 0 <= m < |pat| - 1 ensures |segs[1..][m]| > 0 && AllChars(segs[1..][m], pat[1..][m]) {
      assert segs[1..][m] == segs[m + 1];
    }
    if |pat| > 1 {
      assert Concat(segs[1..]) == segs[1] + Concat(segs[2..]);
      assert segs[1][0] == Concat(segs[1..])[0] == rest[0] == t[j];
      assert AllChars(segs[1], pat[1]);
    }
  }

  /** A chain whose last segment cannot be extended is the one ChainFrom reads. */
  lemma {:induction false} ChainUnique(t: string, segs: seq<string>, pat: seq<CharClass>)
    requires Alternating(pat) && IsChain(t, segs, pat) && LastMaximal(t, segs, pat)
    ensures ChainFrom(t, pat) == Some(segs)
    decreases pat
  {
    if pat != [] {
      ChainTail(t, segs, pat);
      var j := |segs[0]|;
      if |pat| > 1 {
        assert Disjoint(pat[0], pat[1]);
        assert !In(t[j], pat[0]);
      }
      RunEndIs(t, 0, j, pat[0]);
      assert Alternating(pat[1..]) by {
        forall m: nat | 0 <= m < |pat[1..]| - 1 ensures Disjoint(pat[1..][m], pat[1..][m + 1]) {
          assert Disjoint(pat[m + 1], pat[m + 2]);
        }
      }
      ChainUnique(t[j..], segs[1..], pat[1..]);
      assert [t[..j]] + segs[1..] == segs;
    }
  }

  /** When ChainFrom reads nothing, no chain of the pattern starts t at all. */
  lemma {:induction false} ChainNone(t: string, segs: seq<string>, pat: seq<CharClass>)
    requires Alternating(pat) && ChainFrom(t, pat).None?
    ensures !IsChain(t, segs, pat)
    decreases pat
  {
    if IsChain(t, segs, pat) {
      ChainTail(t, segs, pat);
      var j := |segs[0]|;
      var k := RunEnd(t, 0, pat[0]);
      assert In(t[0], pat[0]);
      if |pat| > 1 {
        assert Disjoint(pat[0], pat[1]);
        assert !In(t[j], pat[0]);
        RunEndIs(t, 0, j, pat[0]);
        assert Alternating(pat[1..]) by {
          forall m: nat | 0 <= m < |pat[1..]| - 1 ensures Disjoint(pat[1..][m], pat[1..][m + 1]) {
            assert Disjoint(pat[m + 1], pat[m + 2]);
          }
        }
        ChainNone(t[j..], segs[1..], pat[1..]);
      }
    }
  }

  lemma RowPatternAlternates()
    ensures Alternating(RowPattern)
  {
    forall m: nat | 0 <= m < |RowPattern| - 1 ensures Disjoint(RowPattern[m], RowPattern[m + 1]) {
      forall c: char ensures !(In(c, NumChar) && In(c, Space)) {}
    }
  }

  /** The five number tokens of a row match: every other segment. */
  function Tokens(segs: seq<string>): seq<string>
    requires |segs| == |RowPattern|
  {
    [segs[0], segs[2], segs[4], segs[6], segs[8]]
  }

  /** The row pattern matches with its segments starting at i. */
  ghost predicate IsRowMatch(s: string, i: nat, segs: seq<string>) {
    i <= |s| && IsChain(s[i..], segs, RowPattern)
  }

  ghost predicate RowMatchesAt(s: string, i: nat) {
    exists segs: seq<string> :: IsRowMatch(s, i, segs)
  }

  /** The match Go reports: the leftmost start, the last number as long as possible. */
  ghost predicate IsRowChoice(s: string, i: nat, segs: seq<string>) {
    && IsRowMatch(s, i, segs)
    && (forall i': nat :: RowMatchesAt(s, i') ==> i <= i')
    && LastMaximal(s[i..], segs, RowPattern)
  }

  /** The match of the row pattern anchored at i, as its nine segments. */
  function RowAt(s: string, i: nat): Option<seq<string>>
    requires i <= |s|
  {
    ChainFrom(s[i..], RowPattern)
  }

  lemma RowAtIff(s: string, i: nat)
    requires i <= |s|
    ensures RowAt(s, i).Some? <==> RowMatchesAt(s, i)
  {
    RowPatternAlternates();
    if RowAt(s, i).Some? {
      assert IsRowMatch(s, i, RowAt(s, i).value);
    } else {
      forall segs: seq<string> ensures !IsRowMatch(s, i, segs) {
        ChainNone(s[i..], segs, RowPattern);
      }
    }
  }

  /** The leftmost row match that starts at or after i, as its segments. */
  function RowFrom(s: string, i: nat): Option<seq<string>>
    requires i <= |s|
    decreases |s| - i
  {
    if RowAt(s, i).Some? then RowAt(s, i)
    else if i == |s| then None
    else RowFrom(s, i + 1)
  }

  lemma {:induction false} LeastRowStart(s: string, lo: nat) returns (i: nat)
    requires lo <= |s| && RowFrom(s, lo).Some?
    ensures lo <= i <= |s| && RowAt(s, i).Some? && RowFrom(s, lo) == RowAt(s, i)
    ensures forall m: nat :: lo <= m < i ==> RowAt(s, m).None?
    decreases |s| - lo
  {
    if RowAt(s, lo).Some? {
      i := lo;
    } else {
      assert RowFrom(s, lo) == RowFrom(s, lo + 1);
      i := LeastRowStart(s, lo + 1);
    }
  }

  /** connectionTimesRow.FindStringSubmatch: the five number tokens. */
  function MatchRow(s: string): (r: Option<seq<string>>)
    ensures r.None? <==> forall i: nat :: !RowMatchesAt(s, i)
    ensures r.Some? ==> exists i: nat, segs: seq<string> :: IsRowChoice(s, i, segs) && r.value == Tokens(segs)
    ensures forall i: nat, segs: seq<string> :: IsRowChoice(s, i, segs) ==> r == Some(Tokens(segs))
    ensures r.Some? ==> |r.value| == 5 && forall m: nat :: m < 5 ==> |r.value[m]| > 0 && AllChars(r.value[m], NumChar)
  {
    RowChoiceIsFirst(s);
    match RowFrom(s, 0)
    case None => None
    case Some(segs) => Some(Tokens(segs))
  }

  /** The five captured groups of a row match are non-empty runs of [0-9.]. */
  lemma TokensAreNumbers(t: string, segs: seq<string>)
    requires IsChain(t, segs, RowPattern)
    ensures |Tokens(segs)| == 5
    ensures forall m: nat :: m < 5 ==> |Tokens(segs)[m]| > 0 && AllChars(Tokens(segs)[m], NumChar)
  {
    forall m: nat | m < 5 ensures |Tokens(segs)[m]| > 0 && AllChars(Tokens(segs)[m], NumChar) {
      assert Tokens(segs)[m] == segs[2 * m] && RowPattern[2 * m] == NumChar;
    }
  }

  lemma RowChoiceIsFirst(s: string)
    ensures RowFrom(s, 0).None? <==> forall i: nat :: !RowMatchesAt(s, i)
    ensures RowFrom(s, 0).Some? ==> exists i: nat :: IsRowChoice(s, i, RowFrom(s, 0).value)
    ensures forall i: nat, segs: seq<string> :: IsRowChoice(s, i, segs) ==> RowFrom(s, 0) == Some(segs)
    ensures RowFrom(s, 0).Some? ==> |Tokens(RowFrom(s, 0).value)| == 5
    ensures RowFrom(s, 0).Some? ==> forall m: nat :: m < 5 ==>
      |Tokens(RowFrom(s, 0).value)[m]| > 0 && AllChars(Tokens(RowFrom(s, 0).value)[m], NumChar)
  {
    RowPatternAlternates();
    var r := RowFrom(s, 0);
    forall i: nat | i <= |s| ensures RowAt(s, i).Some? <==> RowMatchesAt(s, i) {
      RowAtIff(s, i);
    }
    forall i: nat | RowMatchesAt(s, i) ensures i <= |s| {
      var segs: seq<string> :| IsRowMatch(s, i, segs);
    }
    if r.None? {
      RowFromNone(s, 0);
    } else {
      var i0 := LeastRowStart(s, 0);
      assert IsRowChoice(s, i0, r.value);
      TokensAreNumbers(s[i0..], r.value);
    }
    forall i: nat, segs: seq<string> | IsRowChoice(s, i, segs) ensures r == Some(segs) {
      ChainUnique(s[i..], segs, RowPattern);
      RowFromFirst(s, 0, i);
    }
  }

  lemma {:induction false} RowFromFirst(s: string, lo: nat, i: nat)
    requires lo <= i <= |s| && RowAt(s, i).Some?
    requires forall m: nat :: lo <= m < i ==> RowAt(s, m).None?
    ensures RowFrom(s, lo) == RowAt(s, i)
    decreases i - lo
  {
    if lo < i {
      RowFromFirst(s, lo + 1, i);
    }
  }

  lemma {:induction false} RowFromNone(s: string, lo: nat)
    requires lo <= |s| && RowFrom(s, lo).None?
    ensures forall i: nat :: lo <= i <= |s| ==> RowAt(s, i).None?
    decreases |s| - lo
  {
    if lo < |s| {
      RowFromNone(s, lo + 1);
    }
  }
}
