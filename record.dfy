/**
 * The Results record of parse.go as a value, and what each step of ParseAB
 * does to it: setMatched, setTimePerRequest, setNTile, parseConnection and
 * the dispatch of one line.  The imperative version in module Parse is
 * proved to follow these functions.
 */
module Record {
  import opened Wrappers
  import opened Matchers
  import opened Numbers

  /** ConnectionTimeStats: one row of ab's "Connection Times (ms)" table. */
  datatype ConnectionTimeStats = ConnectionTimeStats(min: real, mean: real, std: real, median: real, max: real)

  /** The four *ConnectionTimeStats pointers of ConnectionTimes; None is a nil pointer. */
  datatype Phases = Phases(
    connect: Option<ConnectionTimeStats>,
    processing: Option<ConnectionTimeStats>,
    waiting: Option<ConnectionTimeStats>,
    total: Option<ConnectionTimeStats>)

  /** The fields of Results. */
  datatype Report = Report(
    version: real,
    revision: int,
    server: string,
    hostname: string,
    port: int,
    path: string,
    bodySize: int,
    concurrency: int,
    testTime: real,
    completedRequests: int,
    failedRequests: int,
    totalSize: int,
    bodySizeTotal: int,
    throughput: real,
    averageResponseTime: real,
    transferRate: real,
    connectionTimes: Phases,
    nTiles: map<int, real>)

  /** The record ParseAB starts from: Go's zero values, an empty NTiles map and four nil phases. */
  function Initial(): (r: Report)
    ensures r.nTiles == map[] && r.server == "" && r.hostname == "" && r.path == ""
    ensures r.connectionTimes == Phases(None, None, None, None)
  {
    Report(0.0, 0, "", "", 0, "", 0, 0, 0.0, 0, 0, 0, 0, 0.0, 0.0, 0.0, Phases(None, None, None, None), map[])
  }

  // ---------------------------------------------------------------------
  // The fields setMatched can write, their labels and their kinds

  /** The fields of Results that setMatched writes, one per label it knows. */
  datatype Field =
    | Server | Hostname | Port | Path | BodySize | Concurrency | TestTime
    | CompletedRequests | FailedRequests | TotalSize | BodySizeTotal | Throughput
    | AverageResponseTime | TransferRate | Connect | Processing | Waiting | Total

  /** The label ab prints in front of each field. */
  function Label(f: Field): string {
    match f
    case Server => "Server Software"
    case Hostname => "Server Hostname"
    case Port => "Server Port"
    case Path => "Document Path"
    case BodySize => "Document Length"
    case Concurrency => "Concurrency Level"
    case TestTime => "Time taken for tests"
    case CompletedRequests => "Complete requests"
    case FailedRequests => "Failed requests"
    case TotalSize => "Total transferred"
    case BodySizeTotal => "HTML transferred"
    case Throughput => "Requests per second"
    case AverageResponseTime => "Time per request"
    case TransferRate => "Transfer rate"
    case Connect => "Connect"
    case Processing => "Processing"
    case Waiting => "Waiting"
    case Total => "Total"
  }

  /** The field a key names, if any: exact, case-sensitive comparison with the labels. */
  function LabelField(key: string): Option<Field> {
    match key
    case "Server Software" => Some(Server)
    case "Server Hostname" => Some(Hostname)
    case "Server Port" => Some(Port)
    case "Document Path" => Some(Path)
    case "Document Length" => Some(BodySize)
    case "Concurrency Level" => Some(Concurrency)
    case "Time taken for tests" => Some(TestTime)
    case "Complete requests" => Some(CompletedRequests)
    case "Failed requests" => Some(FailedRequests)
    case "Total transferred" => Some(TotalSize)
    case "HTML transferred" => Some(BodySizeTotal)
    case "Requests per second" => Some(Throughput)
    case "Time per request" => Some(AverageResponseTime)
    case "Transfer rate" => Some(TransferRate)
    case "Connect" => Some(Connect)
    case "Processing" => Some(Processing)
    case "Waiting" => Some(Waiting)
    case "Total" => Some(Total)
    case _ => None
  }

  /** Every field's label selects that field. */
  lemma LabelSelects(f: Field)
    ensures LabelField(Label(f)) == Some(f)
  {
    match f
    case Server =>
    case Hostname =>
    case Port =>
    case Path =>
    case BodySize =>
    case Concurrency =>
    case TestTime =>
    case CompletedRequests =>
    case FailedRequests =>
    case TotalSize =>
    case BodySizeTotal =>
    case Throughput =>
    case AverageResponseTime =>
    case TransferRate =>
    case Connect =>
    case Processing =>
    case Waiting =>
    case Total =>
  }

  /** A key that selects a field is that field's label. */
  lemma SelectedByLabel(key: string)
    ensures LabelField(key).Some? ==> key == Label(LabelField(key).value)
  {
  }

  /** Label and LabelField are inverse: every field has one label and every label one field. */
  lemma LabelRoundTrip(key: string, f: Field)
    ensures LabelField(Label(f)) == Some(f)
    ensures LabelField(key) == Some(f) <==> key == Label(f)
  {
    LabelSelects(f);
    SelectedByLabel(key);
  }

  /** The value of one field, whatever its Go type. */
  datatype Value =
    | StrVal(s: string)
    | IntVal(i: int)
    | RealVal(x: real)
    | StatsVal(o: Option<ConnectionTimeStats>)

  function Get(r: Report, f: Field): Value {
    match f
    case Server => StrVal(r.server)
    case Hostname => StrVal(r.hostname)
    case Port => IntVal(r.port)
    case Path => StrVal(r.path)
    case BodySize => IntVal(r.bodySize)
    case Concurrency => IntVal(r.concurrency)
    case TestTime => RealVal(r.testTime)
    case CompletedRequests => IntVal(r.completedRequests)
    case FailedRequests => IntVal(r.failedRequests)
    case TotalSize => IntVal(r.totalSize)
    case BodySizeTotal => IntVal(r.bodySizeTotal)
    case Throughput => RealVal(r.throughput)
    case AverageResponseTime => RealVal(r.averageResponseTime)
    case TransferRate => RealVal(r.transferRate)
    case Connect => StatsVal(r.connectionTimes.connect)
    case Processing => StatsVal(r.connectionTimes.processing)
    case Waiting => StatsVal(r.connectionTimes.waiting)
    case Total => StatsVal(r.connectionTimes.total)
  }

  /** How a value string is read for field f, from the field's Go type. */
  function Decode(f: Field, value: string): Value {
    match f
    case Server | Hostname | Path => StrVal(value)
    case Port | BodySize | Concurrency | CompletedRequests | FailedRequests | TotalSize | BodySizeTotal =>
      IntVal(ParseInt(value))
    case TestTime | Throughput | AverageResponseTime | TransferRate => RealVal(ParseFloat(value))
    case Connect | Processing | Waiting | Total => StatsVal(ParseConnection(value))
  }

  /** r and r' agree on every field other than f, on the banner fields and on NTiles. */
  predicate SameExcept(r: Report, r': Report, f: Field) {
    && r'.version == r.version && r'.revision == r.revision && r'.nTiles == r.nTiles
    && forall g: Field :: g != f ==> Get(r', g) == Get(r, g)
  }

  // ---------------------------------------------------------------------
  // parseConnection, setTimePerRequest, setMatched, setNTile

  /** parseConnection: the five numbers of a connection-times row, or nil. */
  function ParseConnection(value: string): (r: Option<ConnectionTimeStats>)
    ensures r.Some? ==> r.value.min >= 0.0 && r.value.mean >= 0.0 && r.value.std >= 0.0 && r.value.median >= 0.0 && r.value.max >= 0.0
  {
    match MatchRow(value)
    case None => None
    case Some(vals) =>
      Some(ConnectionTimeStats(ParseFloat(vals[0]), ParseFloat(vals[1]), ParseFloat(vals[2]), ParseFloat(vals[3]), ParseFloat(vals[4])))
  }

  /**
   * parseConnection is nil exactly when the row pattern matches nowhere in the
   * value; otherwise its five numbers come from the leftmost match, and
   * whatever follows the fifth number is ignored.
   */
  lemma ParseConnectionSpec(value: string)
    ensures ParseConnection(value).None? <==> forall i: nat :: !RowMatchesAt(value, i)
    ensures forall i: nat, segs: seq<string> :: IsRowChoice(value, i, segs) ==>
      ParseConnection(value) == Some(ConnectionTimeStats(
        ParseFloat(segs[0]), ParseFloat(segs[2]), ParseFloat(segs[4]), ParseFloat(segs[6]), ParseFloat(segs[8])))
  {
    var r := MatchRow(value);
  }

  /** The annotation that marks the per-request mean. */
  const MeanMarker: string := " [ms] (mean)"

  /** setTimePerRequest: only a value whose text after the first number is exactly MeanMarker is stored. */
  function SetTimePerRequest(r: Report, value: string): (r': Report)
    ensures r' == r || r' == r.(averageResponseTime := ParseFloat(value))
  {
    match MatchLeadingNumber(value)
    case None => r
    case Some(m) => if m.rest == MeanMarker then r.(averageResponseTime := ParseFloat(value)) else r
  }

  /**
   * setMatched: the switch over the labels ab prints.  The switch is read as
   * two steps: the case label that equals the key (LabelField) and the
   * assignment that case makes (Put).
   */
  function SetMatched(r: Report, key: string, value: string): Report {
    match LabelField(key)
    case None => r
    case Some(f) => Put(r, f, value)
  }

  /** setNTile: record the time for a positive percentage; any other percentage is dropped. */
  function SetNTile(r: Report, percentS: string, timeS: string): (r': Report)
    ensures r' == r.(nTiles := r'.nTiles)
    ensures ParseInt(percentS) <= 0 ==> r' == r
    ensures ParseInt(percentS) > 0 ==> ParseInt(percentS) in r'.nTiles && r'.nTiles[ParseInt(percentS)] == ParseFloat(timeS)
    ensures forall k :: k != ParseInt(percentS) ==>
      (k in r'.nTiles <==> k in r.nTiles) && (k in r.nTiles ==> r'.nTiles[k] == r.nTiles[k])
    ensures forall k :: k in r'.nTiles && k !in r.nTiles ==> k > 0
  {
    var percent := ParseInt(percentS);
    if percent > 0 then r.(nTiles := r.nTiles[percent := ParseFloat(timeS)]) else r
  }

  /** setTimePerRequest changes the record only for a value whose leftmost number is followed by exactly MeanMarker. */
  lemma SetTimePerRequestOnlyMean(r: Report, value: string)
    ensures SetTimePerRequest(r, value) != r ==>
      exists i: nat, j: nat, e: nat :: IsLeadChoice(value, i, j, e) && value[j..e] == MeanMarker
  {
    var m := MatchLeadingNumber(value);
  }

  // ---------------------------------------------------------------------
  // One line of ab's report

  /** What one line of the report does to the record: banner first, then key/value, then percentile. */
  function Step(r: Report, line: string): Report {
    match MatchBanner(line)
    case Some(b) => r.(version := ParseFloat(b.version), revision := ParseInt(b.revision))
    case None =>
      match MatchKeyValue(line)
      case Some(kv) => SetMatched(r, kv.key, kv.value)
      case None =>
        match MatchPercent(line)
        case Some(p) => SetNTile(r, p.percent, p.rest)
        case None => r
  }

  /** The line loop of ParseAB, from record r. */
  function Run(r: Report, lines: seq<string>): Report
    decreases |lines|
  {
    if lines == [] then r else Run(Step(r, lines[0]), lines[1..])
  }

  /** ParseAB on the lines of a report. */
  function ParseLines(lines: seq<string>): Report {
    Run(Initial(), lines)
  }

  // ---------------------------------------------------------------------
  // Properties of one step

  /** Store the value string into field f, read according to the field's type. */
  function Put(r: Report, f: Field, value: string): Report {
    match f
    case Server => r.(server := value)
    case Hostname => r.(hostname := value)
    case Port => r.(port := ParseInt(value))
    case Path => r.(path := value)
    case BodySize => r.(bodySize := ParseInt(value))
    case Concurrency => r.(concurrency := ParseInt(value))
    case TestTime => r.(testTime := ParseFloat(value))
    case CompletedRequests => r.(completedRequests := ParseInt(value))
    case FailedRequests => r.(failedRequests := ParseInt(value))
    case TotalSize => r.(totalSize := ParseInt(value))
    case BodySizeTotal => r.(bodySizeTotal := ParseInt(value))
    case Throughput => r.(throughput := ParseFloat(value))
    case AverageResponseTime => SetTimePerRequest(r, value)
    case TransferRate => r.(transferRate := ParseFloat(value))
    case Connect => r.(connectionTimes := r.connectionTimes.(connect := ParseConnection(value)))
    case Processing => r.(connectionTimes := r.connectionTimes.(processing := ParseConnection(value)))
    case Waiting => r.(connectionTimes := r.connectionTimes.(waiting := ParseConnection(value)))
    case Total => r.(connectionTimes := r.connectionTimes.(total := ParseConnection(value)))
  }

  /** Put stores the decoded value in field f and changes nothing else. */
  lemma PutFrame(r: Report, f: Field, value: string)
    ensures f != AverageResponseTime ==> Get(Put(r, f, value), f) == Decode(f, value)
    ensures SameExcept(r, Put(r, f, value), f)
  {
    var r' := Put(r, f, value);
    forall g: Field | g != f ensures Get(r', g) == Get(r, g) {
      match g
      case Server =>
      case Hostname =>
      case Port =>
      case Path =>
      case BodySize =>
      case Concurrency =>
      case TestTime =>
      case CompletedRequests =>
      case FailedRequests =>
      case TotalSize =>
      case BodySizeTotal =>
      case Throughput =>
      case AverageResponseTime =>
      case TransferRate =>
      case Connect =>
      case Processing =>
      case Waiting =>
      case Total =>
    }
  }

  /**
   * setMatched changes at most the one field its key names, and stores there
   * the value read according to the field's type; any other key, such as
   * "Revision" or a label with a leading blank, leaves the record as it was.
   */
  lemma SetMatchedDispatch(r: Report, key: string, value: string)
    ensures LabelField(key).None? ==> SetMatched(r, key, value) == r
    ensures LabelField(key) == Some(AverageResponseTime) ==> SetMatched(r, key, value) == SetTimePerRequest(r, value)
    ensures forall f: Field :: LabelField(key) == Some(f) && f != AverageResponseTime ==>
      Get(SetMatched(r, key, value), f) == Decode(f, value)
    ensures LabelField(key).Some? ==> SameExcept(r, SetMatched(r, key, value), LabelField(key).value)
  {
    if LabelField(key).Some? {
      PutFrame(r, LabelField(key).value, value);
    }
  }

  /** The leadingNumber pattern on a value that starts with a number t. */
  lemma LeadingNumberOf(t: string, suffix: string)
    requires |t| > 0 && AllChars(t, NumChar) && AllChars(suffix, NotNewline)
    requires suffix == [] || !In(suffix[0], NumChar)
    ensures MatchLeadingNumber(t + suffix) == Some(LeadingNumber(t, suffix))
  {
    var s := t + suffix;
    assert s[..|t|] == t && s[|t|..] == suffix;
    assert s[0..|t|] == t && s[|t|..|s|] == suffix;
    assert IsLeadChoice(s, 0, |t|, |s|);
  }

  /**
   * A "Time per request" value is stored exactly when the text after its
   * number is MeanMarker, as in "2.178 [ms] (mean)"; the line ending in
   * "(mean, across all concurrent requests)" is ignored.
   */
  lemma SetTimePerRequestOf(r: Report, t: string, suffix: string)
    requires |t| > 0 && AllChars(t, NumChar) && AllChars(suffix, NotNewline)
    requires suffix == [] || !In(suffix[0], NumChar)
    ensures SetTimePerRequest(r, t + suffix) == if suffix == MeanMarker then r.(averageResponseTime := ParseDecimal(t)) else r
  {
    LeadingNumberOf(t, suffix);
    ScrubOf([], t, suffix);
    assert [] + t + suffix == t + suffix;
  }

  /** A percentage written in digits is stored under its value, however large; 0 is dropped. */
  lemma SetNTileOf(r: Report, t: string, timeS: string)
    requires |t| > 0 && AllChars(t, Digit) && DigitsValue(t) <= MaxInt64
    ensures DigitsValue(t) == 0 ==> SetNTile(r, t, timeS) == r
    ensures DigitsValue(t) > 0 ==> SetNTile(r, t, timeS) == r.(nTiles := r.nTiles[DigitsValue(t) := ParseFloat(timeS)])
  {
    ParseIntOfDigits(t, []);
    assert t + [] == t;
  }

  /** Step on a banner line sets Version and Revision and nothing else. */
  lemma BannerOf(v: string, w: string, rest: string)
    requires |v| > 0 && AllChars(v, NumChar) && |w| > 0 && AllChars(w, Digit)
    ensures MatchBanner(BannerPrefix + v + RevisionMark + w + BannerSuffix + rest) == Some(Banner(v, w))
  {
    var s := BannerPrefix + v + RevisionMark + w + BannerSuffix + rest;
    var p := |BannerPrefix|;
    var vEnd := p + |v|;
    var r := vEnd + |RevisionMark|;
    var wEnd := r + |w|;
    BannerSlices(BannerPrefix + v + RevisionMark, w, BannerSuffix + rest);
    BannerSlices(BannerPrefix, v, RevisionMark + w + BannerSuffix + rest);
    assert s == BannerPrefix + v + RevisionMark + w + (BannerSuffix + rest);
    assert s == BannerPrefix + v + (RevisionMark + w + BannerSuffix + rest);
    assert s[vEnd..r] == RevisionMark;
    assert s[wEnd..wEnd + |BannerSuffix|] == BannerSuffix;
    assert IsBannerMatch(s, vEnd, wEnd);
  }

  /** The middle part of a + b + c, and what that says about a class of characters. */
  lemma BannerSlices(a: string, b: string, c: string)
    ensures (a + b + c)[..|a|] == a && (a + b + c)[|a|..|a| + |b|] == b && (a + b + c)[|a| + |b|..] == c
    ensures forall k: CharClass :: AllChars(b, k) ==> AllIn(a + b + c, |a|, |a| + |b|, k)
  {
    var s := a + b + c;
    assert forall m: nat :: |a| <= m < |a| + |b| ==> s[m] == b[m - |a|];
  }

  /** A line "key:" + blanks + value, for a key of [A-Za-z0-9_ ] and a value that starts with a non-blank. */
  lemma KeyValueOf(key: string, pad: string, value: string)
    requires |key| > 0 && AllChars(key, WordOrSpace)
    requires |pad| > 0 && AllChars(pad, Space)
    requires |value| > 0 && !In(value[0], Space) && AllChars(value, NotNewline)
    ensures MatchKeyValue(key + ":" + pad + value) == Some(KeyValue(key, value))
  {
    var s := key + ":" + pad + value;
    var j, k := |key|, |key| + 1 + |pad|;
    assert s[..j] == key && s[0..j] == key;
    assert s[j] == ':';
    assert forall m: nat :: j + 1 <= m < k ==> s[m] == pad[m - j - 1];
    assert s[k..] == value && s[k..|s|] == value;
    assert forall m: nat :: k <= m < |s| ==> s[m] == value[m - k];
    assert IsKvChoice(s, 0, j, k, |s|);
  }

  /** A line where no colon is followed by a blank is not a key/value line. */
  lemma NoKeyValue(s: string)
    requires forall m: nat :: m + 1 < |s| && s[m] == ':' ==> !In(s[m + 1], Space)
    ensures MatchKeyValue(s).None?
  {
    forall i: nat ensures !KvMatchesAt(s, i) {
      forall j: nat, k: nat, e: nat ensures !IsKvMatch(s, i, j, k, e) {
        if j + 1 < k <= |s| && s[j] == ':' {
          assert !In(s[j + 1], Space);
        }
      }
    }
  }

  /** A line of blanks, digits, "%", blanks and the rest. */
  lemma PercentOf(pre: string, digits: string, pad: string, rest: string)
    requires AllChars(pre, Space) && |digits| > 0 && AllChars(digits, Digit)
    requires |pad| > 0 && AllChars(pad, Space) && AllChars(rest, NotNewline)
    requires rest == [] || !In(rest[0], Space)
    ensures MatchPercent(pre + digits + "%" + pad + rest) == Some(PercentMatch(digits, rest))
  {
    var s := pre + digits + "%" + pad + rest;
    var d := |pre|;
    var p := d + |digits|;
    var q := p + 1 + |pad|;
    assert forall m: nat :: m < d ==> s[m] == pre[m];
    assert forall m: nat :: d <= m < p ==> s[m] == digits[m - d];
    assert s[p] == '%';
    assert forall m: nat :: p + 1 <= m < q ==> s[m] == pad[m - p - 1];
    assert forall m: nat :: q <= m < |s| ==> s[m] == rest[m - q];
    assert s[d..p] == digits && s[q..|s|] == rest;
    assert IsPercentChoice(s, 0, d, p, q, |s|);
  }

  /** A line without "%" is not a percentile line. */
  lemma NoPercent(s: string)
    requires '%' !in s
    ensures MatchPercent(s).None?
  {
    forall i: nat ensures !PercentMatchesAt(s, i) {
      forall d: nat, p: nat, q: nat, e: nat ensures !IsPercentMatch(s, i, d, p, q, e) {
        if p < |s| {
          assert s[p] in s;
        }
      }
    }
  }

  // ---------------------------------------------------------------------
  // How Step classifies a line

  /** A line that differs from the banner's prefix at position m is not a banner. */
  lemma NotBannerAt(line: string, m: nat)
    requires m < |BannerPrefix| && (m >= |line| || line[m] != BannerPrefix[m])
    ensures !(BannerPrefix <= line)
  {
  }

  /** A banner line sets Version and Revision and nothing else. */
  lemma StepBanner(r: Report, v: string, w: string, rest: string)
    requires |v| > 0 && AllChars(v, NumChar) && |w| > 0 && AllChars(w, Digit)
    ensures Step(r, BannerPrefix + v + RevisionMark + w + BannerSuffix + rest)
      == r.(version := ParseFloat(v), revision := ParseInt(w))
  {
    BannerOf(v, w, rest);
  }

  /** A key/value line that is not a banner goes to setMatched. */
  lemma StepKeyValue(r: Report, key: string, pad: string, value: string)
    requires |key| > 0 && AllChars(key, WordOrSpace)
    requires |pad| > 0 && AllChars(pad, Space)
    requires |value| > 0 && !In(value[0], Space) && AllChars(value, NotNewline)
    requires !(BannerPrefix <= key + ":" + pad + value)
    ensures Step(r, key + ":" + pad + value) == SetMatched(r, key, value)
  {
    KeyValueOf(key, pad, value);
  }

  /** A percentile line that is neither a banner nor a key/value line goes to setNTile. */
  lemma StepPercent(r: Report, pre: string, digits: string, pad: string, rest: string)
    requires AllChars(pre, Space) && |digits| > 0 && AllChars(digits, Digit)
    requires |pad| > 0 && AllChars(pad, Space) && AllChars(rest, NotNewline)
    requires rest == [] || !In(rest[0], Space)
    requires ':' !in pre + digits + "%" + pad + rest
    requires !(BannerPrefix <= pre + digits + "%" + pad + rest)
    ensures Step(r, pre + digits + "%" + pad + rest) == SetNTile(r, digits, rest)
  {
    var s := pre + digits + "%" + pad + rest;
    PercentOf(pre, digits, pad, rest);
    NoKeyValue(s);
  }

  /** A line that matches none of the three patterns leaves the record unchanged. */
  lemma StepIgnored(r: Report, line: string)
    requires !(BannerPrefix <= line)
    requires forall m: nat :: m + 1 < |line| && line[m] == ':' ==> !In(line[m + 1], Space)
    requires '%' !in line
    ensures Step(r, line) == r
  {
    NoKeyValue(line);
    NoPercent(line);
  }

  // ---------------------------------------------------------------------
  // The line loop

  /** Running two blocks of lines is running the first, then the second. */
  lemma {:induction false} RunAppend(r: Report, a: seq<string>, b: seq<string>)
    ensures Run(r, a + b) == Run(Run(r, a), b)
    decreases |a|
  {
    if a == [] {
      assert a + b == b;
    } else {
      assert (a + b)[0] == a[0] && (a + b)[1..] == a[1..] + b;
      RunAppend(Step(r, a[0]), a[1..], b);
    }
  }

  /** Running one more line is one more Step. */
  lemma RunSnoc(r: Report, a: seq<string>, line: string)
    ensures Run(r, a + [line]) == Step(Run(r, a), line)
  {
    RunAppend(r, a, [line]);
    assert [line][1..] == [];
  }

  /** ParseLines on one more line of the same input is one more step. */
  lemma ParseLinesPrefix(lines: seq<string>, i: nat)
    requires i < |lines|
    ensures ParseLines(lines[..i + 1]) == Step(ParseLines(lines[..i]), lines[i])
  {
    assert lines[..i + 1] == lines[..i] + [lines[i]];
    RunSnoc(Initial(), lines[..i], lines[i]);
  }

  /** Every NTiles key is positive: setNTile never stores a percentage of 0. */
  lemma {:induction false} RunKeysPositive(r: Report, lines: seq<string>)
    requires forall k :: k in r.nTiles ==> k > 0
    ensures forall k :: k in Run(r, lines).nTiles ==> k > 0
    decreases |lines|
  {
    if lines != [] {
      var r' := Step(r, lines[0]);
      StepKeysPositive(r, lines[0]);
      RunKeysPositive(r', lines[1..]);
    }
  }

  lemma StepKeysPositive(r: Report, line: string)
    requires forall k :: k in r.nTiles ==> k > 0
    ensures forall k :: k in Step(r, line).nTiles ==> k > 0
  {
    if MatchBanner(line).None? {
      match MatchKeyValue(line)
      case Some(kv) => SetMatchedDispatch(r, kv.key, kv.value);
      case None =>
    }
  }

  /** A report parsed from any lines has only positive NTiles keys. */
  lemma ParseLinesKeysPositive(lines: seq<string>)
    ensures forall k :: k in ParseLines(lines).nTiles ==> k > 0
  {
    RunKeysPositive(Initial(), lines);
  }

  /** The key/value pair a line hands to setMatched, if it does. */
  function KvOf(line: string): Option<KeyValue> {
    if MatchBanner(line).Some? then None else MatchKeyValue(line)
  }

  /** The number at the front of a Time per request value is followed by exactly MeanMarker. */
  predicate IsMean(value: string) {
    MatchLeadingNumber(value).Some? && MatchLeadingNumber(value).value.rest == MeanMarker
  }

  /**
   * Once the key has selected field f, setMatched stores the value: any value,
   * except that Time per request stores only a mean.
   */
  predicate Stores(f: Field, value: string) {
    f != AverageResponseTime || IsMean(value)
  }

  /** The value string a line stores into field f, if it stores one. */
  function Writes(line: string, f: Field): Option<string> {
    match KvOf(line)
    case None => None
    case Some(kv) =>
      if LabelField(kv.key) == Some(f) && Stores(f, kv.value) then Some(kv.value) else None
  }

  /** The value string of the last line that stores into field f. */
  function LastWrite(lines: seq<string>, f: Field): Option<string>
    decreases |lines|
  {
    if lines == [] then None
    else
      match Writes(lines[|lines| - 1], f)
      case Some(v) => Some(v)
      case None => LastWrite(lines[..|lines| - 1], f)
  }

  /** Get reads neither the banner fields nor NTiles. */
  lemma GetIgnores(r: Report, version: real, revision: int, nTiles: map<int, real>, f: Field)
    ensures Get(r.(version := version, revision := revision), f) == Get(r, f)
    ensures Get(r.(nTiles := nTiles), f) == Get(r, f)
  {
  }

  /** What setMatched does to one field f. */
  lemma SetMatchedField(r: Report, key: string, value: string, f: Field)
    ensures Get(SetMatched(r, key, value), f)
      == if LabelField(key) == Some(f) && Stores(f, value) then Decode(f, value) else Get(r, f)
  {
    SetMatchedDispatch(r, key, value);
    if LabelField(key) == Some(f) && f == AverageResponseTime {
      match MatchLeadingNumber(value)
      case None =>
      case Some(m) =>
    }
  }

  /** One line changes field f exactly when it stores into f, and then to the decoded value. */
  lemma StepField(r: Report, line: string, f: Field)
    ensures Get(Step(r, line), f) == match Writes(line, f) case None => Get(r, f) case Some(v) => Decode(f, v)
  {
    match MatchBanner(line)
    case Some(b) =>
      GetIgnores(r, ParseFloat(b.version), ParseInt(b.revision), map[], f);
    case None =>
      match MatchKeyValue(line)
      case Some(kv) =>
        SetMatchedField(r, kv.key, kv.value, f);
      case None =>
        match MatchPercent(line)
        case Some(p) =>
          GetIgnores(r, 0.0, 0, SetNTile(r, p.percent, p.rest).nTiles, f);
        case None =>
  }

  /**
   * After a run of lines, each field that setMatched writes holds the value of
   * the last line that stores into it, decoded for its type, or its old value
   * when no line does: a later duplicate key overwrites an earlier one, and
   * lines that match nothing change nothing.
   */
  lemma {:induction false} RunField(r: Report, lines: seq<string>, f: Field)
    ensures Get(Run(r, lines), f) == match LastWrite(lines, f) case None => Get(r, f) case Some(v) => Decode(f, v)
    decreases |lines|
  {
    if lines != [] {
      var init, last := lines[..|lines| - 1], lines[|lines| - 1];
      assert lines == init + [last];
      RunSnoc(r, init, last);
      StepField(Run(r, init), last, f);
      RunField(r, init, f);
    }
  }
}
