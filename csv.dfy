/**
 * Columns and Results.Csv: the CSV header and the CSV row of one report.
 * The fields are joined with commas and nothing is quoted or escaped, so a
 * row reads back as its fields exactly when no field holds a comma.
 *
 * Floats are printed by %v, whose shortest-representation algorithm is not
 * modelled: the row takes the float formatter as a parameter, and the
 * properties that need it only ask that its output holds no comma.
 */
module Csv {
  import opened Matchers
  import opened Numbers
  import opened Record

  // ---------------------------------------------------------------------
  // Joining and splitting at commas

  /** The fields joined by commas, as the format string "%v,%v,...,%v" lays them out. */
  function Join(fields: seq<string>): string {
    if fields == [] then ""
    else if |fields| == 1 then fields[0]
    else fields[0] + "," + Join(fields[1..])
  }

  /** A string cut at every comma, as strings.Split(s, ",") cuts it. */
  function Split(s: string): seq<string>
    decreases |s|
  {
    var d := IndexOf(s, ',');
    if d == |s| then [s] else [s[..d]] + Split(s[d + 1..])
  }

  predicate NoComma(s: string) {
    ',' !in s
  }

  /** The number of commas in s. */
  function CommaCount(s: string): nat {
    if s == [] then 0 else (if s[0] == ',' then 1 else 0) + CommaCount(s[1..])
  }

  /** The number of commas inside the fields. */
  function Commas(fields: seq<string>): nat {
    if fields == [] then 0 else CommaCount(fields[0]) + Commas(fields[1..])
  }

  lemma {:induction false} CommaCountZero(s: string)
    ensures CommaCount(s) == 0 <==> NoComma(s)
  {
    if s != [] {
      CommaCountZero(s[1..]);
      assert s == [s[0]] + s[1..];
    }
  }

  lemma {:induction false} CommaCountConcat(a: string, b: string)
    ensures CommaCount(a + b) == CommaCount(a) + CommaCount(b)
  {
    if a != [] {
      assert (a + b)[1..] == a[1..] + b;
      CommaCountConcat(a[1..], b);
    } else {
      assert a + b == b;
    }
  }

  lemma {:induction false} CommasZero(fields: seq<string>)
    ensures Commas(fields) == 0 <==> forall m: nat :: m < |fields| ==> NoComma(fields[m])
  {
    if fields != [] {
      CommaCountZero(fields[0]);
      CommasZero(fields[1..]);
      assert forall m: nat :: 0 < m < |fields| ==> fields[m] == fields[1..][m - 1];
    }
  }

  /** The first comma of a + "," + b, when a has none, is the one after a. */
  lemma IndexOfSeparator(a: string, b: string)
    requires NoComma(a)
    ensures IndexOf(a + "," + b, ',') == |a|
  {
    var s := a + "," + b;
    assert s[|a|] == ',';
    assert forall m: nat :: m < |a| ==> s[m] == a[m];
  }

  /** Splitting yields one more piece than there are commas. */
  lemma {:induction false} SplitCount(s: string)
    ensures |Split(s)| == CommaCount(s) + 1
    decreases |s|
  {
    var d := IndexOf(s, ',');
    if d == |s| {
      assert NoComma(s);
      CommaCountZero(s);
    } else {
      assert s == s[..d] + ("," + s[d + 1..]);
      assert NoComma(s[..d]);
      CommaCountZero(s[..d]);
      CommaCountConcat(s[..d], "," + s[d + 1..]);
      CommaCountConcat(",", s[d + 1..]);
      SplitCount(s[d + 1..]);
    }
  }

  /** Joining adds one comma between each two fields. */
  lemma {:induction false} JoinCommas(fields: seq<string>)
    requires |fields| > 0
    ensures CommaCount(Join(fields)) == |fields| - 1 + Commas(fields)
  {
    if |fields| > 1 {
      JoinCommas(fields[1..]);
      CommaCountConcat(fields[0], "," + Join(fields[1..]));
      CommaCountConcat(",", Join(fields[1..]));
      assert fields[0] + "," + Join(fields[1..]) == fields[0] + ("," + Join(fields[1..]));
    } else {
      assert fields[1..] == [];
    }
  }

  /** Splitting a joined row gives one piece per field plus one per comma inside a field. */
  lemma JoinFieldCount(fields: seq<string>)
    requires |fields| > 0
    ensures |Split(Join(fields))| == |fields| + Commas(fields)
  {
    SplitCount(Join(fields));
    JoinCommas(fields);
  }

  /** Splitting a + "," + b, when a has no comma, cuts off a. */
  lemma SplitSeparator(a: string, b: string)
    requires NoComma(a)
    ensures Split(a + "," + b) == [a] + Split(b)
  {
    IndexOfSeparator(a, b);
    var s := a + "," + b;
    assert s[..|a|] == a && s[|a| + 1..] == b;
  }

  /** Split undoes Join on fields without commas. */
  lemma {:induction false} SplitJoin(fields: seq<string>)
    requires |fields| > 0 && forall m: nat :: m < |fields| ==> NoComma(fields[m])
    ensures Split(Join(fields)) == fields
  {
    if |fields| == 1 {
      IndexOfAbsent(fields[0], ',');
    } else {
      var rest := fields[1..];
      assert forall m: nat :: m < |rest| ==> rest[m] == fields[m + 1];
      SplitJoin(rest);
      SplitSeparator(fields[0], Join(rest));
      assert fields == [fields[0]] + rest;
    }
  }

  // ---------------------------------------------------------------------
  // Columns (parse.go:213-215)

  /** The eighteen column names, in order. */
  function ColumnNames(): seq<string> {
    ["Name", "Server", "Hostname", "Port", "Path", "Concurrency", "Throughput", "Avg. Latency",
     "Duration", "Successful", "Failed", "Max. latency", "50% Latency", "90% Latency",
     "95% Latency", "98% Latency", "99% Latency", "Avg. Recv. Bandwidth"]
  }

  /** Columns: the CSV header. */
  function Columns(): string {
    Join(ColumnNames())
  }

  /** A row splits back into its fields exactly when no field holds a comma. */
  lemma RowSplit(fields: seq<string>)
    requires |fields| > 0
    ensures (forall f :: f in fields ==> NoComma(f)) ==> Split(Join(fields)) == fields
    ensures |Split(Join(fields))| == |fields| <==> forall f :: f in fields ==> NoComma(f)
  {
    JoinFieldCount(fields);
    CommasZero(fields);
    assert (forall m: nat :: m < |fields| ==> NoComma(fields[m])) <==> (forall f :: f in fields ==> NoComma(f));
    if forall f :: f in fields ==> NoComma(f) {
      SplitJoin(fields);
    }
  }

  lemma NamesNoComma()
    ensures forall f :: f in ColumnNames() ==> NoComma(f)
  {
  }

  lemma ColumnsSplit()
    ensures Split(Columns()) == ColumnNames()
    ensures |Split(Columns())| == 18
    ensures Split(Columns())[0] == "Name" && Split(Columns())[11] == "Max. latency"
  {
    NamesNoComma();
    RowSplit(ColumnNames());
  }

  // ---------------------------------------------------------------------
  // Csv (parse.go:217-238)

  /** A map lookup of Go: the value for key k, or 0 when k is missing. */
  function NTileAt(m: map<int, real>, k: int): real {
    if k in m then m[k] else 0.0
  }

  /** The percentiles of columns 12 to 17, in the order the row prints them. */
  const NTileKeys: seq<int> := [100, 50, 90, 95, 98, 99]

  /** The eighteen values of the row, each printed as %v prints it. */
  function Fields(r: Report, name: string, fmtFloat: real -> string): seq<string> {
    [name, r.server, r.hostname, IntToString(r.port), r.path, IntToString(r.concurrency),
     fmtFloat(r.throughput), fmtFloat(r.averageResponseTime), fmtFloat(r.testTime),
     IntToString(r.completedRequests), IntToString(r.failedRequests),
     fmtFloat(NTileAt(r.nTiles, 100)), fmtFloat(NTileAt(r.nTiles, 50)),
     fmtFloat(NTileAt(r.nTiles, 90)), fmtFloat(NTileAt(r.nTiles, 95)),
     fmtFloat(NTileAt(r.nTiles, 98)), fmtFloat(NTileAt(r.nTiles, 99)),
     fmtFloat(r.transferRate)]
  }

  /** Results.Csv: the row of report r under the given name. */
  function Csv(r: Report, name: string, fmtFloat: real -> string): string {
    Join(Fields(r, name, fmtFloat))
  }

  /** A printed int is a minus sign and digits: no comma. */
  lemma IntNoComma(i: int)
    ensures NoComma(IntToString(i))
  {
    var s := IntToString(i);
    IntToStringDigits(i);
    if i >= 0 {
      assert forall m: nat :: m < |s| ==> In(s[m], Digit);
    } else {
      var t := NatToString(-i);
      assert forall m: nat :: 0 < m < |s| ==> s[m] == t[m - 1] && In(t[m - 1], Digit);
    }
  }

  /** The string fields of the row: the name, Server, Hostname and Path. */
  predicate TextWithoutCommas(r: Report, name: string) {
    NoComma(name) && NoComma(r.server) && NoComma(r.hostname) && NoComma(r.path)
  }

  /** The row's fields hold no comma exactly when its four string fields hold none. */
  lemma FieldsNoComma(r: Report, name: string, fmtFloat: real -> string)
    requires forall x: real :: NoComma(fmtFloat(x))
    ensures (forall f :: f in Fields(r, name, fmtFloat) ==> NoComma(f)) <==> TextWithoutCommas(r, name)
  {
    IntNoComma(r.port);
    IntNoComma(r.concurrency);
    IntNoComma(r.completedRequests);
    IntNoComma(r.failedRequests);
  }

  /**
   * When no string field holds a comma, the row reads back as its eighteen
   * fields: the name first, then the report's fields in the order of the
   * header, with the percentiles 100, 50, 90, 95, 98 and 99 as fields 12 to
   * 17 (counted from one), a missing percentile printed as 0.
   */
  lemma CsvSplit(r: Report, name: string, fmtFloat: real -> string)
    requires forall x: real :: NoComma(fmtFloat(x))
    requires TextWithoutCommas(r, name)
    ensures Split(Csv(r, name, fmtFloat)) == Fields(r, name, fmtFloat)
    ensures |Split(Csv(r, name, fmtFloat))| == 18
    ensures Split(Csv(r, name, fmtFloat))[0] == name
  {
    FieldsNoComma(r, name, fmtFloat);
    RowSplit(Fields(r, name, fmtFloat));
  }

  /** Read back, fields 12 to 17 of the row (counted from one) are the percentiles 100, 50, 90, 95, 98 and 99. */
  lemma CsvPercentiles(r: Report, name: string, fmtFloat: real -> string)
    requires forall x: real :: NoComma(fmtFloat(x))
    requires TextWithoutCommas(r, name)
    ensures |Split(Csv(r, name, fmtFloat))| == 18 && Split(Csv(r, name, fmtFloat))[11..17] == [
      fmtFloat(NTileAt(r.nTiles, 100)), fmtFloat(NTileAt(r.nTiles, 50)), fmtFloat(NTileAt(r.nTiles, 90)),
      fmtFloat(NTileAt(r.nTiles, 95)), fmtFloat(NTileAt(r.nTiles, 98)), fmtFloat(NTileAt(r.nTiles, 99))]
  {
    CsvSplit(r, name, fmtFloat);
  }

  /** A percentile that was never parsed is printed as the float 0. */
  lemma CsvMissingPercentile(r: Report, name: string, fmtFloat: real -> string, j: nat)
    requires j < 6 && NTileKeys[j] !in r.nTiles
    ensures Fields(r, name, fmtFloat)[11 + j] == fmtFloat(0.0)
  {
  }

  /**
   * Fields are not quoted: the row splits into eighteen pieces exactly when
   * none of the name, Server, Hostname and Path holds a comma.
   */
  lemma CsvFieldCount(r: Report, name: string, fmtFloat: real -> string)
    requires forall x: real :: NoComma(fmtFloat(x))
    ensures |Split(Csv(r, name, fmtFloat))| == 18 <==> TextWithoutCommas(r, name)
  {
    FieldsNoComma(r, name, fmtFloat);
    RowSplit(Fields(r, name, fmtFloat));
  }
}
