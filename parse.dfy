/**
 * ParseAB and the setters of parse.go over objects: a Results is updated in
 * place, line by line, and its ConnectionTimes is a second object reached
 * through a pointer that never changes.  Each method is proved to move the
 * objects from one state to the next exactly as the function of module
 * Record named in its ensures says (SetNTile, SetTimePerRequest, SetMatched,
 * Put, Step and ParseLines), so everything proved there about the values
 * holds for the objects.
 */
module Parse {
  import opened Wrappers
  import opened Matchers
  import opened Numbers
  import opened Record

  /** ConnectionTimes: one pointer per phase, nil until its row is parsed. */
  class ConnectionTimes {
    var connect: Option<ConnectionTimeStats>
    var processing: Option<ConnectionTimeStats>
    var waiting: Option<ConnectionTimeStats>
    var total: Option<ConnectionTimeStats>

    constructor()
      ensures Value() == Phases(None, None, None, None)
    {
      connect, processing, waiting, total := None, None, None, None;
    }

    /** The four phases as a value. */
    function Value(): Phases
      reads this
    {
      Phases(connect, processing, waiting, total)
    }
  }

  /** Results, with its fields in the order of parse.go. */
  class Results {
    var version: real
    var revision: int
    var server: string
    var hostname: string
    var port: int
    var path: string
    var bodySize: int
    var concurrency: int
    var testTime: real
    var completedRequests: int
    var failedRequests: int
    var totalSize: int
    var bodySizeTotal: int
    var throughput: real
    var averageResponseTime: real
    var transferRate: real
    const connectionTimes: ConnectionTimes
    var nTiles: map<int, real>

    /** The record ParseAB allocates before reading: zero values, a fresh ConnectionTimes, an empty map. */
    constructor()
      ensures Snapshot() == Initial()
      ensures fresh(connectionTimes)
    {
      version, revision := 0.0, 0;
      server, hostname, port, path := "", "", 0, "";
      bodySize, concurrency, testTime := 0, 0, 0.0;
      completedRequests, failedRequests, totalSize, bodySizeTotal := 0, 0, 0, 0;
      throughput, averageResponseTime, transferRate := 0.0, 0.0, 0.0;
      connectionTimes := new ConnectionTimes();
      nTiles := map[];
    }

    /** The state of the object and of its ConnectionTimes, as a value. */
    function Snapshot(): Report
      reads this, connectionTimes
    {
      Report(version, revision, server, hostname, port, path, bodySize, concurrency, testTime,
             completedRequests, failedRequests, totalSize, bodySizeTotal, throughput,
             averageResponseTime, transferRate, connectionTimes.Value(), nTiles)
    }

    /** setNTile: writes one entry of the NTiles map, for a positive percentage only. */
    method SetNTile(percentS: string, timeS: string)
      modifies this
      ensures Snapshot() == Record.SetNTile(old(Snapshot()), percentS, timeS)
    {
      var percent := ParseInt(percentS);
      if percent > 0 {
        nTiles := nTiles[percent := ParseFloat(timeS)];
      }
    }

    /** setTimePerRequest: writes AverageResponseTime only for the "[ms] (mean)" line. */
    method SetTimePerRequest(value: string)
      modifies this
      ensures Snapshot() == Record.SetTimePerRequest(old(Snapshot()), value)
    {
      var vals := MatchLeadingNumber(value);
      if vals.None? {
        return;
      }
      if vals.value.rest == MeanMarker {
        averageResponseTime := ParseFloat(value);
      }
    }

    /** setMatched: the switch over the labels; a key that names no field changes nothing. */
    method SetMatched(key: string, value: string)
      modifies this, connectionTimes
      ensures Snapshot() == Record.SetMatched(old(Snapshot()), key, value)
    {
      match LabelField(key) {
        case None =>
        case Some(f) => Put(f, value);
      }
    }

    /** The body of one case of setMatched: field f takes the value, parsed as the field's type. */
    method Put(f: Field, value: string)
      modifies this, connectionTimes
      ensures Snapshot() == Record.Put(old(Snapshot()), f, value)
    {
      match f
      case Server | Hostname | Path => PutString(f, value);
      case Port | BodySize | Concurrency | CompletedRequests | FailedRequests | TotalSize | BodySizeTotal =>
        PutInt(f, value);
      case TestTime | Throughput | TransferRate => PutReal(f, value);
      case AverageResponseTime => SetTimePerRequest(value);
      case Connect | Processing | Waiting | Total => PutPhase(f, value);
    }

    /** The cases of setMatched that store the value string as it is. */
    method PutString(f: Field, value: string)
      requires f == Server || f == Hostname || f == Path
      modifies this
      ensures Snapshot() == Record.Put(old(Snapshot()), f, value)
    {
      if f == Server {
        server := value;
      } else if f == Hostname {
        hostname := value;
      } else {
        path := value;
      }
    }

    /** The cases of setMatched that store parseInt of the value. */
    method PutInt(f: Field, value: string)
      requires f == Port || f == BodySize || f == Concurrency || f == CompletedRequests
            || f == FailedRequests || f == TotalSize || f == BodySizeTotal
      modifies this
      ensures Snapshot() == Record.Put(old(Snapshot()), f, value)
    {
      var n := ParseInt(value);
      if f == Port {
        port := n;
      } else if f == BodySize {
        bodySize := n;
      } else if f == Concurrency {
        concurrency := n;
      } else if f == CompletedRequests {
        completedRequests := n;
      } else if f == FailedRequests {
        failedRequests := n;
      } else if f == TotalSize {
        totalSize := n;
      } else {
        bodySizeTotal := n;
      }
    }

    /** The cases of setMatched that store parseFloat of the value. */
    method PutReal(f: Field, value: string)
      requires f == TestTime || f == Throughput || f == TransferRate
      modifies this
      ensures Snapshot() == Record.Put(old(Snapshot()), f, value)
    {
      var x := ParseFloat(value);
      if f == TestTime {
        testTime := x;
      } else if f == Throughput {
        throughput := x;
      } else {
        transferRate := x;
      }
    }

    /** The cases of setMatched that store parseConnection of the value in one phase. */
    method PutPhase(f: Field, value: string)
      requires f == Connect || f == Processing || f == Waiting || f == Total
      modifies connectionTimes
      ensures Snapshot() == Record.Put(old(Snapshot()), f, value)
    {
      var stats := ParseConnection(value);
      match f
      case Connect => connectionTimes.connect := stats;
      case Processing => connectionTimes.processing := stats;
      case Waiting => connectionTimes.waiting := stats;
      case Total => connectionTimes.total := stats;
    }

    /** One pass of ParseAB's loop: the banner, then key/value, then percentile. */
    method ParseLine(line: string)
      modifies this, connectionTimes
      ensures Snapshot() == Step(old(Snapshot()), line)
    {
      match MatchBanner(line) {
        case Some(b) =>
          version := ParseFloat(b.version);
          revision := ParseInt(b.revision);
        case None =>
          match MatchKeyValue(line) {
            case Some(kv) =>
              SetMatched(kv.key, kv.value);
            case None =>
              match MatchPercent(line) {
                case Some(p) =>
                  SetNTile(p.percent, p.rest);
                case None =>
              }
          }
      }
    }
  }

  /**
   * ParseAB over the lines of a report: tries the banner, then key/value,
   * then percentile on each line, and updates one Results object in place.
   */
  method ParseAB(lines: seq<string>) returns (res: Results)
    ensures fresh(res) && fresh(res.connectionTimes)
    ensures res.Snapshot() == ParseLines(lines)
  {
    res := new Results();
    var i := 0;
    while i < |lines|
      invariant 0 <= i <= |lines|
      invariant fresh(res) && fresh(res.connectionTimes)
      invariant res.Snapshot() == ParseLines(lines[..i])
    {
      res.ParseLine(lines[i]);
      ParseLinesPrefix(lines, i);
      i := i + 1;
    }
    assert lines[..i] == lines;
  }
}
