/**
 * The ApacheBench report of parse_test.go, and what ParseAB makes of it.
 *
 * The report is written as a sequence of Line values, one per line that
 * bufio.Scanner yields, each saying how the line is built: a key/value line
 * is the label of a field, a colon, blanks and the value; a percentile line
 * is blanks, digits, "%", blanks and the time; and so on.  Text gives the
 * line back as a string.  The raw string of the test starts with a line
 * break, so its first line is empty.
 */
module Sample {
  import opened Wrappers
  import opened Matchers
  import opened Numbers
  import opened Record

  /** How one line of a report is built. */
  datatype Line =
    | Plain(text: string)                                          // no ':' and no '%'
    | Url(before: string, after: string)                           // one ':' that no blank follows
    | Kv(field: Field, pad: string, value: string)                 // "<label>:<pad><value>"
    | Pct(pre: string, digits: string, gap: string, rest: string)  // "<pre><digits>%<gap><rest>"
    | Ban(version: string, revision: string)                       // the banner line

  function Text(l: Line): string {
    match l
    case Plain(t) => t
    case Url(a, c) => a + ":" + c
    case Kv(f, pad, value) => Label(f) + ":" + pad + value
    case Pct(pre, digits, gap, rest) => pre + digits + "%" + gap + rest
    case Ban(v, w) => BannerPrefix + v + RevisionMark + w + BannerSuffix
  }

  function Texts(ls: seq<Line>): seq<string> {
    if ls == [] then [] else [Text(ls[0])] + Texts(ls[1..])
  }

  /** The first two characters of s are not "Th", so s cannot start a banner. */
  predicate NoBannerStart(s: string) {
    |s| < 2 || s[0] != 'T' || s[1] != 'h'
  }

  /** The character conditions under which the line is of the kind it claims. */
  predicate Shaped(l: Line) {
    match l
    case Plain(t) => ':' !in t && '%' !in t && NoBannerStart(t)
    case Url(a, c) =>
      |a| >= 2 && NoBannerStart(a) && ':' !in a && ':' !in c && '%' !in a && '%' !in c && (c == [] || !In(c[0], Space))
    case Kv(_, pad, value) =>
      |pad| > 0 && AllChars(pad, Space) && |value| > 0 && !In(value[0], Space) && AllChars(value, NotNewline)
    case Pct(pre, digits, gap, rest) =>
      |pre| > 0 && AllChars(pre, Space) && |digits| > 0 && AllChars(digits, Digit) &&
      |gap| > 0 && AllChars(gap, Space) && AllChars(rest, NotNewline) && (rest == [] || !In(rest[0], Space)) &&
      ':' !in rest
    case Ban(v, w) => |v| > 0 && AllChars(v, NumChar) && |w| > 0 && AllChars(w, Digit)
  }

  /** What ParseAB does with a line of that kind. */
  function Effect(r: Report, l: Line): Report {
    match l
    case Plain(_) => r
    case Url(_, _) => r
    case Kv(f, _, value) => Put(r, f, value)
    case Pct(_, digits, _, rest) => SetNTile(r, digits, rest)
    case Ban(v, w) => r.(version := ParseFloat(v), revision := ParseInt(w))
  }

  /** The lines applied one after the other. */
  function Apply(r: Report, ls: seq<Line>): Report
    decreases |ls|
  {
    if ls == [] then r else Apply(Effect(r, ls[0]), ls[1..])
  }

  // ---------------------------------------------------------------------
  // One line

  /** A string of class k holds no character outside k. */
  lemma NotInClass(s: string, k: CharClass, c: char)
    requires AllChars(s, k) && !In(c, k)
    ensures c !in s
  {
    forall m: nat | m < |s| ensures s[m] != c {
      assert In(s[m], k);
    }
  }

  predicate LabelShaped(f: Field) {
    |Label(f)| >= 2 && NoBannerStart(Label(f)) && AllChars(Label(f), WordOrSpace)
  }

  lemma ServerLabelsShaped(f: Field)
    requires f == Server || f == Hostname || f == Port
    ensures LabelShaped(f)
  {
  }

  lemma DocumentLabelsShaped(f: Field)
    requires f == Path || f == BodySize || f == Concurrency
    ensures LabelShaped(f)
  {
  }

  lemma TestLabelsShaped(f: Field)
    requires f == TestTime || f == CompletedRequests || f == FailedRequests
    ensures LabelShaped(f)
  {
  }

  lemma ByteLabelsShaped(f: Field)
    requires f == TotalSize || f == BodySizeTotal
    ensures LabelShaped(f)
  {
  }

  lemma RateLabelsShaped(f: Field)
    requires f == Throughput || f == AverageResponseTime || f == TransferRate
    ensures LabelShaped(f)
  {
  }

  lemma PhaseLabelsShaped(f: Field)
    requires f == Connect || f == Processing || f == Waiting || f == Total
    ensures LabelShaped(f)
  {
  }

  /** No label starts a banner, and each is a run of [\w ]. */
  lemma LabelShape(f: Field)
    ensures LabelShaped(f)
  {
    if f == Server || f == Hostname || f == Port {
      ServerLabelsShaped(f);
    } else if f == Path || f == BodySize || f == Concurrency {
      DocumentLabelsShaped(f);
    } else if f == TestTime || f == CompletedRequests || f == FailedRequests {
      TestLabelsShaped(f);
    } else if f == TotalSize || f == BodySizeTotal {
      ByteLabelsShaped(f);
    } else if f == Throughput || f == AverageResponseTime || f == TransferRate {
      RateLabelsShaped(f);
    } else {
      PhaseLabelsShaped(f);
    }
  }

  /** A line that starts with s, where s is not "Th..." and is the whole line or has two characters, is no banner. */
  lemma NoBannerStartLine(line: string, s: string)
    requires |s| <= |line| && s == line[..|s|] && NoBannerStart(s) && (|s| >= 2 || s == line)
    ensures !(BannerPrefix <= line)
  {
    if |s| < 2 {
      NotBannerAt(line, |s|);
    } else {
      assert line[0] == s[0] && line[1] == s[1];
      if s[0] != 'T' { NotBannerAt(line, 0); } else { NotBannerAt(line, 1); }
    }
  }

  lemma UrlStep(r: Report, a: string, c: string)
    requires Shaped(Url(a, c))
    ensures Step(r, a + ":" + c) == r
  {
    var line := a + ":" + c;
    assert line[..|a|] == a;
    NoBannerStartLine(line, a);
    forall m: nat | m < |line| && m != |a| ensures line[m] != ':' {
      if m < |a| {
        assert line[m] == a[m];
      } else {
        assert line[m] == c[m - |a| - 1];
      }
    }
    if c != [] {
      assert line[|a| + 1] == c[0];
    }
    StepIgnored(r, line);
  }

  lemma KvShapeStep(r: Report, f: Field, pad: string, value: string)
    requires Shaped(Kv(f, pad, value))
    ensures Step(r, Label(f) + ":" + pad + value) == Put(r, f, value)
  {
    var key := Label(f);
    var line := key + ":" + pad + value;
    LabelShape(f);
    assert line[..|key|] == key;
    NoBannerStartLine(line, key);
    StepKeyValue(r, key, pad, value);
    LabelSelects(f);
  }

  lemma PctStep(r: Report, pre: string, digits: string, gap: string, rest: string)
    requires Shaped(Pct(pre, digits, gap, rest))
    ensures Step(r, pre + digits + "%" + gap + rest) == SetNTile(r, digits, rest)
  {
    var line := pre + digits + "%" + gap + rest;
    assert line[0] == pre[0] && BannerPrefix[0] == 'T';
    NotBannerAt(line, 0);
    NotInClass(pre, Space, ':');
    NotInClass(digits, Digit, ':');
    NotInClass(gap, Space, ':');
    StepPercent(r, pre, digits, gap, rest);
  }

  lemma PlainStep(r: Report, t: string)
    requires Shaped(Plain(t))
    ensures Step(r, t) == r
  {
    NoBannerStartLine(t, t);
    StepIgnored(r, t);
  }

  lemma BanStep(r: Report, v: string, w: string)
    requires Shaped(Ban(v, w))
    ensures Step(r, Text(Ban(v, w))) == r.(version := ParseFloat(v), revision := ParseInt(w))
  {
    StepBanner(r, v, w, "");
    assert BannerPrefix + v + RevisionMark + w + BannerSuffix + "" == Text(Ban(v, w));
  }

  /** A line of a kind does to the record what its kind says. */
  lemma StepShaped(r: Report, l: Line)
    requires Shaped(l)
    ensures Step(r, Text(l)) == Effect(r, l)
  {
    match l
    case Plain(t) => PlainStep(r, t);
    case Url(a, c) => UrlStep(r, a, c);
    case Kv(f, pad, value) => KvShapeStep(r, f, pad, value);
    case Pct(pre, digits, gap, rest) => PctStep(r, pre, digits, gap, rest);
    case Ban(v, w) => BanStep(r, v, w);
  }

  /** ParseAB's loop over lines of known kinds is the kinds' effects applied in order. */
  lemma {:induction false} RunShapes(r: Report, ls: seq<Line>)
    requires forall l :: l in ls ==> Shaped(l)
    ensures Run(r, Texts(ls)) == Apply(r, ls)
    decreases |ls|
  {
    if ls != [] {
      assert ls[0] in ls;
      StepShaped(r, ls[0]);
      assert forall l :: l in ls[1..] ==> l in ls;
      RunShapes(Effect(r, ls[0]), ls[1..]);
      assert Texts(ls)[0] == Text(ls[0]) && Texts(ls)[1..] == Texts(ls[1..]);
    }
  }

  // ---------------------------------------------------------------------
  // What a run of lines leaves in one field

  /**
   * The value string line l stores into field f, if it stores one: Writes of
   * module Record read on the kind of the line instead of its text, so that
   * no matcher has to run on the report's strings (StepShaped ties the kind
   * to the text).
   */
  function WriteOf(l: Line, f: Field): Option<string> {
    match l
    case Kv(g, _, v) => if g == f && Stores(f, v) then Some(v) else None
    case _ => None
  }

  /** The value string of the last line of ls that stores into f. */
  function LastOf(ls: seq<Line>, f: Field): Option<string>
    decreases |ls|
  {
    if ls == [] then None
    else
      match LastOf(ls[1..], f)
      case Some(v) => Some(v)
      case None => WriteOf(ls[0], f)
  }

  lemma EffectField(r: Report, l: Line, f: Field)
    ensures Get(Effect(r, l), f) == match WriteOf(l, f) case None => Get(r, f) case Some(v) => Decode(f, v)
  {
    match l
    case Plain(_) =>
    case Url(_, _) =>
    case Kv(g, _, v) =>
      LabelSelects(g);
      SetMatchedField(r, Label(g), v, f);
    case Pct(_, digits, _, rest) =>
      GetIgnores(r, 0.0, 0, SetNTile(r, digits, rest).nTiles, f);
    case Ban(v, w) =>
      GetIgnores(r, ParseFloat(v), ParseInt(w), map[], f);
  }

  /** After the lines, field f holds the value of the last line that stores into it, or its old value. */
  lemma {:induction false} ApplyField(r: Report, ls: seq<Line>, f: Field)
    ensures Get(Apply(r, ls), f) == match LastOf(ls, f) case None => Get(r, f) case Some(v) => Decode(f, v)
    decreases |ls|
  {
    if ls != [] {
      ApplyField(Effect(r, ls[0]), ls[1..], f);
      EffectField(r, ls[0], f);
    }
  }

  lemma {:induction false} LastOfAppend(a: seq<Line>, b: seq<Line>, f: Field)
    ensures LastOf(a + b, f) == match LastOf(b, f) case Some(v) => Some(v) case None => LastOf(a, f)
    decreases |a|
  {
    if a == [] {
      assert a + b == b;
    } else {
      assert (a + b)[0] == a[0] && (a + b)[1..] == a[1..] + b;
      LastOfAppend(a[1..], b, f);
    }
  }

  // ---------------------------------------------------------------------
  // The report of parse_test.go, block by block
  //
  // The longer lines are written as a few literals joined with +: the
  // verifier decides ':' !in and '%' !in piece by piece on such a sum, but
  // not on one literal of that length.  The report's text is unchanged.

  const CopyrightText := "Copyright 1996 Adam Twiss, " + "Zeus Technology Ltd, http"
  const CopyrightUrl := "//www.zeustech.net/"
  const LicenseText := "Licensed to The Apache " + "Software Foundation, http"
  const LicenseUrl := "//www.apache.org/"
  const ProgressText := "Benchmarking localhost " + "(be patient).....done"
  const TimesTitle := "Connection Times (ms)"
  const TimesHeader := "              min  mean" + "[+/-sd] median   max"
  const PercentTitle := "Percentage of the requests " + "served within a certain " + "time (ms)"

  /** From the empty first line to "Server Software:", which has no value. */
  function HeadLines(): seq<Line> {
    [Plain(""),
     Ban("2.3", "1826891"),
     Url(CopyrightText, CopyrightUrl),
     Url(LicenseText, LicenseUrl),
     Plain(""),
     Plain(ProgressText),
     Plain(""),
     Plain(""),
     Url("Server Software", "")]
  }

  function ServerLines(): seq<Line> {
    [Kv(Hostname, "        ", "localhost"),
     Kv(Port, "            ", "6060"),
     Plain(""),
     Kv(Path, "          ", "/"),
     Kv(BodySize, "        ", "6728 bytes"),
     Plain("")]
  }

  // The two Time per request values, as the number and the annotation leadingNumber separates.
  const MeanTime := "2.178" + MeanMarker
  const AcrossMarker := " [ms] (mean, across" + " all concurrent requests)"
  const AcrossTime := "1.089" + AcrossMarker

  function TestLines(): seq<Line> {
    [Kv(Concurrency, "      ", "2"),
     Kv(TestTime, "   ", "0.011 seconds"),
     Kv(CompletedRequests, "      ", "10"),
     Kv(FailedRequests, "        ", "0"),
     Kv(TotalSize, "      ", "68240 bytes"),
     Kv(BodySizeTotal, "       ", "67280 bytes"),
     Kv(Throughput, "    ", "918.11 [#/sec] (mean)"),
     Kv(AverageResponseTime, "       ", MeanTime),
     Kv(AverageResponseTime, "       ", AcrossTime),
     Kv(TransferRate, "          ", "6118.31 [Kbytes/sec]" + " received"),
     Plain("")]
  }

  function ConnectionLines(): seq<Line> {
    [Plain(TimesTitle),
     Plain(TimesHeader),
     Kv(Connect, "        ", "0    0   0.0      0       0"),
     Kv(Processing, "     ", "0    2   1.8      1       6"),
     Kv(Waiting, "        ", "0    2   1.8      1       6"),
     Kv(Total, "          ", "0    2   1.8      1       6"),
     Plain("")]
  }

  function PercentLines(): seq<Line> {
    [Plain(PercentTitle),
     Pct("  ", "50", "      ", "1"),
     Pct("  ", "66", "      ", "2"),
     Pct("  ", "75", "      ", "3"),
     Pct("  ", "80", "      ", "4"),
     Pct("  ", "90", "      ", "6"),
     Pct("  ", "95", "      ", "6"),
     Pct("  ", "98", "      ", "6"),
     Pct("  ", "99", "      ", "6"),
     Pct(" ", "100", "      ", "6 (longest request)")]
  }

  /** The report of parse_test.go, line by line. */
  function SampleShapes(): seq<Line> {
    HeadLines() + ServerLines() + TestLines() + ConnectionLines() + PercentLines()
  }

  /** The lines bufio.Scanner yields for that report. */
  function SampleLines(): seq<string> {
    Texts(SampleShapes())
  }

  // The character facts of the long lines, one at a time.

  lemma CopyrightNoColon() ensures ':' !in CopyrightText {}
  lemma CopyrightNoPercent() ensures '%' !in CopyrightText {}
  lemma LicenseNoColon() ensures ':' !in LicenseText {}
  lemma LicenseNoPercent() ensures '%' !in LicenseText {}
  lemma ProgressNoColon() ensures ':' !in ProgressText {}
  lemma ProgressNoPercent() ensures '%' !in ProgressText {}
  lemma TimesTitleNoColon() ensures ':' !in TimesTitle {}
  lemma TimesTitleNoPercent() ensures '%' !in TimesTitle {}
  lemma TimesNoColon() ensures ':' !in TimesHeader {}
  lemma TimesNoPercent() ensures '%' !in TimesHeader {}
  lemma PercentTitleNoColon() ensures ':' !in PercentTitle {}
  lemma PercentTitleNoPercent() ensures '%' !in PercentTitle {}

  lemma CopyrightShaped() ensures Shaped(Url(CopyrightText, CopyrightUrl)) {
    CopyrightNoColon();
    CopyrightNoPercent();
  }
  lemma LicenseShaped() ensures Shaped(Url(LicenseText, LicenseUrl)) {
    LicenseNoColon();
    LicenseNoPercent();
  }
  lemma ProgressShaped() ensures Shaped(Plain(ProgressText)) {
    ProgressNoColon();
    ProgressNoPercent();
  }

  lemma BannerShaped() ensures Shaped(HeadLines()[1]) {}
  lemma SoftwareShaped() ensures Shaped(HeadLines()[8]) {}

  /** A property of every line, read off the positions of the lines. */
  lemma AllShaped(ls: seq<Line>)
    requires forall m: nat :: m < |ls| ==> Shaped(ls[m])
    ensures forall l :: l in ls ==> Shaped(l)
  {
    forall l | l in ls ensures Shaped(l) {
      var m: nat :| m < |ls| && ls[m] == l;
    }
  }

  lemma HeadShaped()
    ensures forall l :: l in HeadLines() ==> Shaped(l)
  {
    BannerShaped();
    CopyrightShaped();
    LicenseShaped();
    ProgressShaped();
    SoftwareShaped();
    assert forall m: nat :: m < |HeadLines()| ==> Shaped(HeadLines()[m]);
    AllShaped(HeadLines());
  }

  lemma HostShaped() ensures forall m: nat :: m < 3 ==> Shaped(ServerLines()[m]) {}
  lemma DocumentShaped() ensures forall m: nat :: 3 <= m < 6 ==> Shaped(ServerLines()[m]) {}

  lemma ServerShaped()
    ensures forall l :: l in ServerLines() ==> Shaped(l)
  {
    HostShaped();
    DocumentShaped();
    AllShaped(ServerLines());
  }

  lemma CountsShaped() ensures forall m: nat :: m < 3 ==> Shaped(TestLines()[m]) {}
  lemma SizesShaped() ensures forall m: nat :: 3 <= m < 6 ==> Shaped(TestLines()[m]) {}
  lemma ThroughputShaped() ensures Shaped(TestLines()[6]) {}
  lemma MeanShaped() ensures Shaped(TestLines()[7]) {}
  lemma AcrossShaped() ensures Shaped(TestLines()[8]) {}
  lemma TransferShaped() ensures Shaped(TestLines()[9]) {}

  lemma TestShaped()
    ensures forall l :: l in TestLines() ==> Shaped(l)
  {
    CountsShaped();
    SizesShaped();
    ThroughputShaped();
    MeanShaped();
    AcrossShaped();
    TransferShaped();
    assert Shaped(TestLines()[10]);
    AllShaped(TestLines());
  }

  lemma TimesTitleShaped() ensures Shaped(ConnectionLines()[0]) {
    TimesTitleNoColon();
    TimesTitleNoPercent();
  }
  lemma TimesHeaderShaped() ensures Shaped(ConnectionLines()[1]) {
    TimesNoColon();
    TimesNoPercent();
  }
  lemma ConnectShaped() ensures Shaped(ConnectionLines()[2]) {}
  lemma ProcessingShaped() ensures Shaped(ConnectionLines()[3]) {}
  lemma WaitingShaped() ensures Shaped(ConnectionLines()[4]) {}
  lemma TotalShaped() ensures Shaped(ConnectionLines()[5]) {}

  lemma ConnectionShaped()
    ensures forall l :: l in ConnectionLines() ==> Shaped(l)
  {
    TimesTitleShaped();
    TimesHeaderShaped();
    ConnectShaped();
    ProcessingShaped();
    WaitingShaped();
    TotalShaped();
    assert Shaped(ConnectionLines()[6]);
    AllShaped(ConnectionLines());
  }

  lemma PercentTitleShaped() ensures Shaped(PercentLines()[0]) {
    PercentTitleNoColon();
    PercentTitleNoPercent();
  }
  lemma LowPercentsShaped() ensures forall m: nat :: 1 <= m < 5 ==> Shaped(PercentLines()[m]) {}
  lemma HighPercentsShaped() ensures forall m: nat :: 5 <= m < 9 ==> Shaped(PercentLines()[m]) {}
  lemma LongestShaped() ensures Shaped(PercentLines()[9]) {}

  lemma PercentShaped()
    ensures forall l :: l in PercentLines() ==> Shaped(l)
  {
    PercentTitleShaped();
    LowPercentsShaped();
    HighPercentsShaped();
    LongestShaped();
    AllShaped(PercentLines());
  }

  /** Every line of the report is of the kind it is written as. */
  lemma SampleShaped()
    ensures forall l :: l in SampleShapes() ==> Shaped(l)
  {
    HeadShaped();
    ServerShaped();
    TestShaped();
    ConnectionShaped();
    PercentShaped();
  }

  // ---------------------------------------------------------------------
  // What the report leaves in Server, Hostname, Concurrency and Time per request

  /** No line of ls stores into f: f keeps its value. */
  lemma {:induction false} LastOfNone(ls: seq<Line>, f: Field)
    requires forall m: nat :: m < |ls| ==> WriteOf(ls[m], f) == None
    ensures LastOf(ls, f) == None
    decreases |ls|
  {
    if ls != [] {
      assert WriteOf(ls[0], f) == None;
      assert forall m: nat :: m < |ls[1..]| ==> ls[1..][m] == ls[m + 1];
      LastOfNone(ls[1..], f);
    }
  }

  /** Line k stores into f and no later line does: f ends up with line k's value. */
  lemma {:induction false} LastOfAt(ls: seq<Line>, k: nat, f: Field)
    requires k < |ls| && WriteOf(ls[k], f).Some?
    requires forall m: nat :: k < m < |ls| ==> WriteOf(ls[m], f) == None
    ensures LastOf(ls, f) == WriteOf(ls[k], f)
    decreases |ls|
  {
    assert forall m: nat :: m < |ls[1..]| ==> ls[1..][m] == ls[m + 1];
    if k == 0 {
      LastOfNone(ls[1..], f);
    } else {
      LastOfAt(ls[1..], k - 1, f);
    }
  }

  /** "2.178 [ms] (mean)" is the per-request mean; the line across all concurrent requests is not. */
  lemma MeanIsMean()
    ensures IsMean(MeanTime)
  {
    LeadingNumberOf("2.178", MeanMarker);
  }

  lemma AcrossNotMean()
    ensures !IsMean(AcrossTime)
  {
    LeadingNumberOf("1.089", AcrossMarker);
    assert |AcrossMarker| != |MeanMarker|;
  }

  lemma HeadWrites(f: Field)
    ensures LastOf(HeadLines(), f) == None
  {
    LastOfNone(HeadLines(), f);
  }

  lemma ServerWrites(f: Field)
    requires f == Server || f == Hostname || f == Concurrency || f == AverageResponseTime
    ensures LastOf(ServerLines(), f) == if f == Hostname then Some("localhost") else None
  {
    if f == Hostname {
      LastOfAt(ServerLines(), 0, f);
    } else {
      LastOfNone(ServerLines(), f);
    }
  }

  lemma TestConcurrency()
    ensures LastOf(TestLines(), Concurrency) == Some("2")
  {
    LastOfAt(TestLines(), 0, Concurrency);
  }

  lemma MeanWrite(f: Field)
    requires f == AverageResponseTime
    ensures WriteOf(TestLines()[7], f) == Some(MeanTime)
  {
    MeanIsMean();
  }

  lemma AcrossWrite(f: Field)
    requires f == AverageResponseTime
    ensures WriteOf(TestLines()[8], f) == None
  {
    AcrossNotMean();
  }

  lemma RateWrites(f: Field)
    requires f == AverageResponseTime
    ensures WriteOf(TestLines()[9], f) == None && WriteOf(TestLines()[10], f) == None
  {
  }

  /** No line after "Time per request: 2.178 [ms] (mean)" stores a time per request. */
  lemma LaterWrites(f: Field)
    requires f == AverageResponseTime
    ensures forall m: nat :: 7 < m < |TestLines()| ==> WriteOf(TestLines()[m], f) == None
  {
    forall m: nat | 7 < m < |TestLines()| ensures WriteOf(TestLines()[m], f) == None {
      if m == 8 {
        AcrossWrite(f);
      } else {
        RateWrites(f);
      }
    }
  }

  lemma TestMeanAt(f: Field)
    requires f == AverageResponseTime
    ensures LastOf(TestLines(), f) == WriteOf(TestLines()[7], f)
  {
    LaterWrites(f);
    MeanWrite(f);
    LastOfAt(TestLines(), 7, f);
  }

  lemma TestMean(f: Field)
    requires f == AverageResponseTime
    ensures LastOf(TestLines(), f) == Some(MeanTime)
  {
    TestMeanAt(f);
    MeanWrite(f);
  }

  lemma TestWrites(f: Field)
    requires f == Server || f == Hostname || f == Concurrency || f == AverageResponseTime
    ensures LastOf(TestLines(), f) ==
      if f == Concurrency then Some("2") else if f == AverageResponseTime then Some(MeanTime) else None
  {
    if f == Concurrency {
      TestConcurrency();
    } else if f == AverageResponseTime {
      TestMean(f);
    } else {
      LastOfNone(TestLines(), f);
    }
  }

  lemma ConnectionWrites(f: Field)
    requires f == Server || f == Hostname || f == Concurrency || f == AverageResponseTime
    ensures LastOf(ConnectionLines(), f) == None
  {
    LastOfNone(ConnectionLines(), f);
  }

  lemma PercentWrites(f: Field)
    ensures LastOf(PercentLines(), f) == None
  {
    LastOfNone(PercentLines(), f);
  }

  /** The last line of the report that stores into each of the four fields. */
  lemma SampleWrites(f: Field)
    requires f == Server || f == Hostname || f == Concurrency || f == AverageResponseTime
    ensures LastOf(SampleShapes(), f) ==
      if f == Hostname then Some("localhost") else if f == Concurrency then Some("2")
      else if f == AverageResponseTime then Some(MeanTime) else None
  {
    HeadWrites(f);
    ServerWrites(f);
    TestWrites(f);
    ConnectionWrites(f);
    PercentWrites(f);
    var h, s, t, c := HeadLines(), ServerLines(), TestLines(), ConnectionLines();
    LastOfAppend(h, s, f);
    LastOfAppend(h + s, t, f);
    LastOfAppend(h + s + t, c, f);
    LastOfAppend(h + s + t + c, PercentLines(), f);
  }

  // ---------------------------------------------------------------------
  // Values of the report, read by parseInt and parseFloat

  lemma LengthDigits()
    ensures DigitsValue("6728") == 6728
  {
    assert "6728"[..3] == "672" && "672"[..2] == "67" && "67"[..1] == "6" && "6"[..0] == [];
    assert DigitsValue("67") == 67 && DigitsValue("672") == 672;
  }

  lemma LengthText()
    ensures "6728" + " bytes" == "6728 bytes"
  {
  }

  /** 6728, from "6728 bytes". */
  lemma LengthValue()
    ensures ParseInt("6728 bytes") == 6728
  {
    LengthText();
    LengthDigits();
    ParseIntOfDigits("6728", " bytes");
  }

  lemma PortDigits()
    ensures DigitsValue("6060") == 6060
  {
    assert "6060"[..3] == "606" && "606"[..2] == "60" && "60"[..1] == "6" && "6"[..0] == [];
    assert DigitsValue("60") == 60 && DigitsValue("606") == 606;
  }

  /** 6060, from "6060". */
  lemma PortValue()
    ensures ParseInt("6060") == 6060
  {
    assert "6060" + [] == "6060";
    PortDigits();
    ParseIntOfDigits("6060", []);
  }

  lemma VersionText()
    ensures "2" + "." + "3" + [] == "2.3"
  {
  }

  /** A version such as "2.3" is no int: parseInt gives 0. */
  lemma VersionAsInt()
    ensures ParseInt("2.3") == 0
  {
    VersionText();
    ParseIntOfDecimal("2", "3", []);
  }

  /** Nor is a lone dot. */
  lemma DotAsInt()
    ensures ParseInt(".") == 0
  {
    ScrubOf([], ".", []);
    assert [] + "." + [] == ".";
    ParseIntSpec(".");
  }

  lemma FractionValue()
    ensures DigitsValue("2") as real + DigitsValue("178") as real / Pow10(|"178"|) as real == 2.178
  {
    assert "178"[..2] == "17" && "17"[..1] == "1" && "1"[..0] == [];
    assert DigitsValue("17") == 17;
    assert Pow10(3) == 1000;
  }

  /** 2.178, from "2.178 [ms] (mean)". */
  lemma MeanValue()
    ensures ParseFloat(MeanTime) == 2.178
  {
    assert "2" + "." + "178" + MeanMarker == MeanTime;
    ParseFloatOfDecimal("2", "178", MeanMarker);
    FractionValue();
  }

  /**
   * TestParse: on the report of parse_test.go, ParseAB finds the host
   * "localhost", the concurrency 2 and the time per request 2.178.  No
   * "Server Software" value is stored, since that line has nothing after
   * its colon.
   */
  lemma SampleValues()
    ensures ParseLines(SampleLines()).hostname == "localhost"
    ensures ParseLines(SampleLines()).concurrency == 2
    ensures ParseLines(SampleLines()).averageResponseTime == 2.178
    ensures ParseLines(SampleLines()).server == ""
  {
    SampleRun();
    SampleHostname();
    SampleConcurrency();
    SampleMean();
    SampleServer();
  }

  lemma SampleHostname()
    ensures Apply(Initial(), SampleShapes()).hostname == "localhost"
  {
    SampleField(Hostname);
  }

  lemma SampleConcurrency()
    ensures Apply(Initial(), SampleShapes()).concurrency == 2
  {
    SampleField(Concurrency);
    TwoValue();
  }

  /** 2, from "2". */
  lemma TwoValue()
    ensures ParseInt("2") == 2
  {
    ParseIntOfDigits("2", []);
    assert "2" + [] == "2";
  }

  lemma SampleMean()
    ensures Apply(Initial(), SampleShapes()).averageResponseTime == 2.178
  {
    SampleField(AverageResponseTime);
    MeanValue();
  }

  lemma SampleServer()
    ensures Apply(Initial(), SampleShapes()).server == ""
  {
    SampleField(Server);
  }

  lemma SampleRun()
    ensures ParseLines(SampleLines()) == Apply(Initial(), SampleShapes())
  {
    SampleShaped();
    RunShapes(Initial(), SampleShapes());
  }

  lemma SampleField(f: Field)
    requires f == Server || f == Hostname || f == Concurrency || f == AverageResponseTime
    ensures Get(Apply(Initial(), SampleShapes()), f) ==
      if f == Hostname then StrVal("localhost") else if f == Concurrency then IntVal(ParseInt("2"))
      else if f == AverageResponseTime then RealVal(ParseFloat(MeanTime)) else StrVal("")
  {
    SampleWrites(f);
    ApplyField(Initial(), SampleShapes(), f);
  }
}
