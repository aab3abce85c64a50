# abcsv: the ApacheBench report parser, in Dafny

abcsv reads the plain-text report that ApacheBench (`ab`) prints and fills a
`Results` record from it. The record holds the server, the host, the port,
the concurrency, the timings, the four rows of the "Connection Times (ms)"
table and the percentile table. abcsv can then print the record as one CSV
row under a fixed 18-column header.

This project models `parse.go`:

- **`matchers.dfy`**: hand-written versions of the five regular expressions.
  - The banner pattern `firstLine` is anchored.
  - The key/value pattern `kvLine`, the number pattern `leadingNumber`, the connection-row pattern and the percentile pattern `percentLine` are all unanchored.
  - Each pattern has a declarative description of what a match is. Go's choice is the leftmost start, with greedy runs.
  - Each computing matcher is proved to return the captures of exactly that choice.
- **`numbers.dfy`**: `scrubString`, `parseInt` and `parseFloat`.
  - `strconv.Atoi` is modelled on the tokens scrubString can hand it, tokens of [0-9.] characters, for a 64-bit int.
    - A token of digits gives its value, clamped to the largest int.
    - A token with a dot gives 0, unless the digits in front of the dot already exceed the largest uint64. `ParseUint` reads from the left and stops with a range error before it reaches the dot, and the result is then the largest int.
    - `Numbers.AtoiIsStrconv` proves this closed form equal to the standard library's own route, byte by byte: its fast path for tokens under 19 bytes, and `ParseInt` over `ParseUint` for longer ones.
  - `strconv.ParseFloat` is modelled as the exact decimal value, a `real`.
- **`record.dfy`**: `Results` as a value, plus what each step of `ParseAB` does to it. That covers `setMatched`, `setTimePerRequest`, `setNTile`, `parseConnection` and the banner → key/value → percentile dispatch of one line. It also covers the loop over the lines as a fold.
- **`parse.dfy`**: the same operations over objects.
  - `Results` is a class whose fields the methods update in place.
  - Its `ConnectionTimes` is a second object reached through a pointer.
  - `ParseAB` is a loop over the lines.
  - Every method is proved to move the objects exactly as a function of `record.dfy` says:
    - `SetNTile`, `SetTimePerRequest`, `SetMatched` and `Put` follow the functions of the same names.
    - `PutString`, `PutInt`, `PutReal` and `PutPhase` follow `Record.Put`.
    - `ParseLine` follows `Record.Step`.
    - `ParseAB` follows `Record.ParseLines`.
- **`csv.dfy`**: `Columns` and `Csv`, with splitting at commas as their partner.
- **`sample.dfy`**: the report of the package's test, and what `ParseAB` makes of it.

The input of `ParseAB` is the sequence of lines that `bufio.Scanner` yields. A float is printed by a formatter that the CSV functions take as a parameter.

Where the description of the program and its code differ, the model follows the code:

- **`parseConnection`** (parse.go:107-120) returns a row whenever the five-number pattern matches somewhere in the value. Anything after the fifth number is ignored, so a row with six numbers is not nil.
- **A malformed connection row** assigns nil. It overwrites a row parsed earlier for the same phase.
- **`parseInt`** returns whatever `strconv.Atoi` returns on error: 0 for a token with a dot, and the largest int for digits that overflow. A dotted token whose digits before the dot exceed the largest uint64 also gives the largest int. The error itself is only logged.
- **The switch of `setMatched`** is modelled in two parts:
  - `LabelField` finds the case label equal to the key;
  - `Put` makes that case's assignment.

  `Record.Put` has one case per field, as the switch has. `Parse.Results.Put` groups the fields by Go type, as `Record.Decode` does: strings, ints, floats and connection rows. Each group goes to one method, and every method is proved equal to `Record.Put`.

## Model

| member | source | states |
|---|---|---|
| Matchers.MatchLeadingNumber | parse.go:16 | None exactly when the string holds no character of [0-9.]; otherwise the captures of the leftmost match: the maximal [0-9.] run at the first such character, then the rest up to a newline |
| Matchers.LeadChoiceIs | parse.go:16 | the leftmost-first match of leadingNumber starts at the first [0-9.] character, and no other start or group end is Go's choice |
| Matchers.NoLeadMatch | parse.go:16 | without a [0-9.] character the pattern matches nowhere |
| Matchers.MatchKeyValue | parse.go:15 | None exactly when kvLine matches at no position; otherwise key and value of the leftmost match ([\w ]+ key, colon, blanks, value starting with a non-blank and running to a newline) |
| Matchers.KvChoiceIsFirst | parse.go:15 | the left-to-right search over start positions finds Go's leftmost match, or none when there is no match |
| Matchers.LeastKvStart | parse.go:15 | the search's result is the match at the least start position that has one |
| Matchers.KvFromFirst | parse.go:15 | positions without a match are skipped by the search |
| Matchers.KvFromNone | parse.go:15 | a search that finds nothing has passed no matching position |
| Matchers.KvAtIff | parse.go:15 | the matcher anchored at a position succeeds exactly when the pattern matches there |
| Matchers.KvAtCaptures | parse.go:15 | the anchored matcher returns the groups of the match Go prefers at that position |
| Matchers.KvAt | parse.go:15 | kvLine anchored at one position; Matchers.KvAtIff and Matchers.KvAtCaptures state it |
| Matchers.KvFrom | parse.go:15 | the search over start positions from i upward; Matchers.KvFromFirst, KvFromNone and LeastKvStart state it |
| Matchers.MatchPercent | parse.go:18 | None exactly when percentLine matches nowhere; otherwise the digits before '%' and the rest after the blanks, from the leftmost match |
| Matchers.PercentChoiceIsFirst | parse.go:18 | the left-to-right search finds Go's leftmost match of percentLine |
| Matchers.LeastPercentStart | parse.go:18 | the search's result is the match at the least matching position |
| Matchers.PercentFromFirst | parse.go:18 | positions without a match are skipped by the search |
| Matchers.PercentFromNone | parse.go:18 | a search that finds nothing has passed no matching position |
| Matchers.PercentAtIff | parse.go:18 | the anchored matcher succeeds exactly when the pattern matches there |
| Matchers.PercentAtCaptures | parse.go:18 | the anchored matcher returns the groups Go reports for that position |
| Matchers.PercentAt | parse.go:18 | percentLine anchored at one position; Matchers.PercentAtIff and PercentAtCaptures state it |
| Matchers.PercentFrom | parse.go:18 | the search over start positions; Matchers.PercentFromFirst, PercentFromNone and LeastPercentStart state it |
| Matchers.MatchBanner | parse.go:14 | Some exactly when the line starts with "This is ApacheBench, Version ", a [0-9.] run, " <$Revision: ", digits and " $>"; the two groups are the version and the revision |
| Matchers.BannerUnique | parse.go:14 | the groups of a banner match are the maximal runs, so there is only one match |
| Matchers.MatchRow | parse.go:17 | None exactly when the connection-row pattern matches nowhere; otherwise the five [0-9.] tokens of the leftmost match |
| Matchers.RowChoiceIsFirst | parse.go:17 | the search over start positions finds Go's leftmost row match, with five non-empty [0-9.] tokens |
| Matchers.LeastRowStart | parse.go:17 | the search's result is the row match at the least matching position |
| Matchers.RowFromFirst | parse.go:17 | positions without a row match are skipped |
| Matchers.RowFromNone | parse.go:17 | a search that finds nothing has passed no matching position |
| Matchers.RowAtIff | parse.go:17 | the anchored row matcher succeeds exactly when the pattern matches there |
| Matchers.RowAt | parse.go:17 | the connection-row pattern anchored at one position; Matchers.RowAtIff states it |
| Matchers.RowFrom | parse.go:17 | the search over start positions; Matchers.RowFromFirst, RowFromNone and LeastRowStart state it |
| Matchers.ChainFrom | parse.go:17 | the runs it reads alternate [0-9.] and blanks as the pattern asks, the last one as long as possible |
| Matchers.ChainUnique | parse.go:17 | with alternating classes there is only one such chain, and ChainFrom finds it |
| Matchers.ChainNone | parse.go:17 | when ChainFrom fails there is no chain at all |
| Matchers.TokensAreNumbers | parse.go:17 | a row match yields exactly five non-empty [0-9.] tokens |
| Matchers.RowPatternAlternates | parse.go:17 | no character is both in [0-9.] and a blank |
| Matchers.RunEnd | parse.go:16-18 | the end of the maximal run of a class from a position |
| Matchers.FirstIn | parse.go:16 | the first position at or after i holding a character of the class |
| Numbers.Scrub | parse.go:183-190 | a non-empty [0-9.] string; "0" when the value has no [0-9.] character, otherwise the first maximal [0-9.] run of the value |
| Numbers.ScrubIsFirstRun | parse.go:183-190 | leadingNumber fails exactly when the value has no digit and no dot, and otherwise captures the first maximal run |
| Numbers.FirstRunUnique | parse.go:183-190 | the first maximal [0-9.] run is unique |
| Numbers.ScrubOf | parse.go:183-190 | a value made of text without digits or dots, a number and a suffix not starting with one scrubs to that number |
| Numbers.ScrubIdempotent | parse.go:183-190 | scrubbing the scrubbed token changes nothing |
| Numbers.Atoi | parse.go:168 | the result is between 0 and the largest 64-bit int; what it is, is stated by Numbers.AtoiIsStrconv |
| Numbers.ParseInt | parse.go:167-173 | the result is between 0 and the largest 64-bit int |
| Numbers.WholePart | parse.go:168 | the digits in front of the first dot of a token: a prefix of it, all digits, shorter than the token exactly when the token holds a dot, and followed by that dot |
| Numbers.ParseUintFrom | parse.go:168 | strconv.ParseUint's loop, one byte at a time: a syntax error at a non-digit, a range error once the value would pass the largest uint64; Numbers.ParseUintFromSpec states how it ends |
| Numbers.FastAtoiFrom | parse.go:168 | the loop of strconv.Atoi's fast path, taken for tokens under 19 bytes: 0 at a non-digit; Numbers.FastAtoiFromSpec states how it ends |
| Numbers.StrconvAtoi | parse.go:168 | strconv.Atoi's own route: the fast path for short tokens, otherwise ParseInt over ParseUint, with 0 on a syntax error and the largest int on a range error or a value of 2^63 or more |
| Numbers.ParseUintFromSpec | parse.go:168 | from any byte it reaches, ParseUint's loop ends in a range error when the digits before the first dot exceed the largest uint64, else in a syntax error when the token has a dot, else with the token's value |
| Numbers.FastAtoiFromSpec | parse.go:168 | the fast path gives 0 for a token with a dot and the token's value otherwise |
| Numbers.AtoiIsStrconv | parse.go:168 | on every [0-9.] token, Atoi equals strconv.Atoi's own route: a digit token's value clamped to the largest int; for a token with a dot, 0, or the largest int when the digits before the dot exceed the largest uint64 |
| Numbers.ParseIntSpec | parse.go:167-173 | a scrubbed token with a dot gives 0, or the largest int when its digits before the dot exceed the largest uint64; otherwise the token is all digits and gives its value, clamped to the largest int |
| Numbers.ParseIntOfDigits | parse.go:167-173 | a value starting with digits, such as "6728 bytes", gives the digits' value, clamped |
| Numbers.ParseIntRoundTrip | parse.go:167-173 | parseInt of a printed natural, with any suffix that does not start with [0-9.], gives the number back |
| Numbers.ParseIntOfDecimal | parse.go:167-173 | a value whose number has a dot, such as "2.178 [ms]", gives 0, or the largest int when the digits before the dot exceed the largest uint64 |
| Numbers.ParseOfNothing | parse.go:167-190 | a value without digits and dots gives 0 and 0.0 |
| Numbers.ParseDecimal | parse.go:176 | strconv.ParseFloat on a [0-9.] token is never negative; DecimalToken, TwoDotsToken and NoDigitToken state its value |
| Numbers.ParseFloat | parse.go:175-181 | parseFloat is never negative, as no sign survives scrubString; ParseFloatOfDecimal, ParseFloatOfDigits, ParseFloatOfTwoDots and ParseFloatOfDots state its value |
| Numbers.ParseFloatOfDecimal | parse.go:175-181 | digits, a dot and digits give their decimal value |
| Numbers.ParseFloatOfDigits | parse.go:175-181 | plain digits give their value as a float |
| Numbers.ParseFloatOfTwoDots | parse.go:175-181 | a token with two dots is a syntax error and gives 0 |
| Numbers.ParseFloatOfDots | parse.go:175-181 | a token of dots only is a syntax error and gives 0 |
| Numbers.DecimalToken | parse.go:167-181 | "w.f" is a [0-9.] token that Atoi rejects with 0 (the largest int when w exceeds the largest uint64) and that ParseFloat reads as w + f/10^len(f) |
| Numbers.TwoDotsToken | parse.go:176 | ParseFloat of a token with two dots is 0 |
| Numbers.NoDigitToken | parse.go:176 | ParseFloat of a token without digits is 0 |
| Numbers.NatToString | parse.go:218 | %v of a natural is its shortest decimal digit string, which reads back as the number |
| Numbers.IntToString | parse.go:218 | %v of an int; Numbers.IntToStringDigits states its characters |
| Numbers.IntToStringDigits | parse.go:218 | %v of an int is a minus sign for negatives, then the decimal digits of its magnitude |
| Numbers.NatToStringOfDigits | parse.go:218 | a digit string without a superfluous leading zero is the printing of its value |
| Numbers.LeadingDigitPositive | parse.go:218 | a digit string with a non-zero first digit is at least 10^(length-1) |
| Record.Initial | parse.go:23-26 | the record ParseAB starts from: zero values, an empty NTiles map and four nil phases |
| Record.LabelSelects | parse.go:56-92 | each field's label is the case that selects that field |
| Record.SelectedByLabel | parse.go:56-92 | a key that selects a field is exactly that field's label |
| Record.LabelRoundTrip | parse.go:56-92 | a key selects field f exactly when it equals f's label: the switch is exact and case-sensitive |
| Record.LabelField | parse.go:56-92 | the case label of the switch equal to the key; Record.LabelRoundTrip states that the comparison is exact |
| Record.Put | parse.go:57-92 | the assignment each case of the switch makes, one case per field; Record.PutFrame states that it stores the decoded value in its field and nothing else |
| Record.Decode | parse.go:57-92 | the value a case stores, read by the field's Go type: the string itself, parseInt, parseFloat or parseConnection |
| Record.SetMatched | parse.go:55-94 | setMatched as LabelField and then Put; Record.SetMatchedDispatch and Record.SetMatchedField state its effect |
| Record.ParseConnection | parse.go:107-120 | the five numbers of a row are never negative; Record.ParseConnectionSpec states when it is nil and where its numbers come from |
| Record.ParseConnectionSpec | parse.go:107-120 | nil exactly when the row pattern matches nowhere; otherwise Min, Mean, Std, Median and Max from the five numbers of the leftmost match, ignoring what follows |
| Record.SetTimePerRequest | parse.go:96-105 | the record is unchanged or only AverageResponseTime is replaced by parseFloat of the value |
| Record.SetTimePerRequestOnlyMean | parse.go:96-105 | the record changes only when the text after the value's leftmost number is exactly " [ms] (mean)" |
| Record.SetTimePerRequestOf | parse.go:96-105 | a value with a number and a suffix stores the number exactly when the suffix is " [ms] (mean)", and otherwise changes nothing |
| Record.SetNTile | parse.go:48-53 | only NTiles changes; a percentage <= 0 leaves the record unchanged; a positive one sets that key to parseFloat of the time; every other key keeps its entry; no new key is <= 0; there is no upper bound |
| Record.SetNTileOf | parse.go:48-53 | a percentage in digits, however large, is stored under its value; 0 is dropped |
| Record.PutFrame | parse.go:57-92 | one case of the switch stores the decoded value in its field and changes no other field, the banner fields or NTiles |
| Record.SetMatchedDispatch | parse.go:55-94 | an unknown key leaves the record unchanged; "Time per request" goes to setTimePerRequest; any other label stores its value read by its field's type and changes no other field |
| Record.SetMatchedField | parse.go:55-105 | what setMatched leaves in each field: the decoded value when the key selects it (for Time per request only a mean), else the old value |
| Record.LeadingNumberOf | parse.go:16 | a value that starts with a number and a suffix without [0-9.] at its head gives exactly those two groups |
| Record.BannerOf | parse.go:14 | a banner line gives its version and revision |
| Record.KeyValueOf | parse.go:15 | "key:" + blanks + value gives exactly that key and value when the key is [\w ] and the value starts with a non-blank |
| Record.NoKeyValue | parse.go:15 | a line where no colon is followed by a blank is no key/value line |
| Record.PercentOf | parse.go:18 | blanks, digits, "%", blanks and a rest give the digits and the rest |
| Record.NoPercent | parse.go:18 | a line without '%' is no percentile line |
| Record.NotBannerAt | parse.go:14 | a line that ends before, or differs at, some position of "This is ApacheBench, Version " is no banner |
| Record.StepBanner | parse.go:29-31 | a banner line sets Version and Revision and nothing else |
| Record.StepKeyValue | parse.go:32-34 | a key/value line that is no banner goes to setMatched with its key and value |
| Record.StepPercent | parse.go:35-37 | a percentile line that is neither banner nor key/value goes to setNTile |
| Record.StepIgnored | parse.go:38-40 | a line that matches none of the three patterns leaves the record unchanged |
| Record.Step | parse.go:28-40 | one pass of the loop body, banner first, then key/value, then percentile; StepBanner, StepKeyValue, StepPercent and StepIgnored state its four cases |
| Record.Run | parse.go:27-41 | the loop over the lines as a fold of Step; RunAppend, RunSnoc and RunField state its properties |
| Record.ParseLines | parse.go:21-46 | ParseAB on values: Run from the initial record; Parse.ParseAB is proved to end in this state |
| Record.RunAppend | parse.go:27-41 | parsing two blocks of lines is parsing the first and then the second from its result |
| Record.RunSnoc | parse.go:27-41 | one more line is one more step |
| Record.ParseLinesPrefix | parse.go:27-41 | parsing a prefix one line longer is one more step of the loop |
| Record.StepKeysPositive | parse.go:48-53 | no step adds a key <= 0 to NTiles |
| Record.RunKeysPositive | parse.go:27-53 | a run of lines keeps every NTiles key positive |
| Record.ParseLinesKeysPositive | parse.go:21-53 | whatever the input, every NTiles key of the result is positive |
| Record.GetIgnores | parse.go:29-53 | the banner fields and NTiles are no fields of the switch |
| Record.Stores | parse.go:96-105 | a selected field stores any value, except Time per request, which stores only a mean |
| Record.Writes | parse.go:29-40 | the value string a line stores into a field, if it stores one; Record.StepField states what the line then does |
| Record.LastWrite | parse.go:27-41 | the value of the last line storing into a field; Record.RunField states that it decides the field |
| Record.StepField | parse.go:27-40 | a line changes a field exactly when it stores into it, and then to the decoded value |
| Record.RunField | parse.go:21-46 | after the loop each field holds the value of the last line that stores into it, or the old value: a later duplicate overwrites an earlier one |
| Parse.ConnectionTimes.constructor | parse.go:24 | a new ConnectionTimes has four nil phases |
| Parse.Results.constructor | parse.go:23-26 | the new record is the initial one, with a fresh ConnectionTimes |
| Parse.Results.SetNTile | parse.go:48-53 | the in-place update makes the object's state the one Record.SetNTile gives |
| Parse.Results.SetTimePerRequest | parse.go:96-105 | the in-place update follows Record.SetTimePerRequest, returning early when leadingNumber does not match |
| Parse.Results.SetMatched | parse.go:55-94 | the switch updates the object and its ConnectionTimes as Record.SetMatched says |
| Parse.Results.Put | parse.go:57-92 | one case of the switch, as Record.Put |
| Parse.Results.PutString | parse.go:57-64 | Server, Hostname and Path take the value as it is |
| Parse.Results.PutInt | parse.go:61-78 | the seven int fields (Port, BodySize, Concurrency, CompletedRequests, FailedRequests, TotalSize, BodySizeTotal) take parseInt of the value, as Record.Put says |
| Parse.Results.PutReal | parse.go:69-84 | TestTime, Throughput and TransferRate take parseFloat of the value |
| Parse.Results.PutPhase | parse.go:85-92 | the four phases of ConnectionTimes take parseConnection of the value, in the shared ConnectionTimes object |
| Parse.Results.ParseLine | parse.go:28-40 | one pass of the loop body: the banner first, then key/value, then percentile; the object ends in the state Record.Step gives |
| Parse.ParseAB | parse.go:21-46 | a fresh Results whose final state is the fold of Step over all the lines from the initial record |
| Csv.CommaCountZero | parse.go:218 | a string holds no comma exactly when its comma count is 0 |
| Csv.CommaCountConcat | parse.go:218 | commas add up over concatenation |
| Csv.CommasZero | parse.go:218 | the fields hold no comma exactly when their total comma count is 0 |
| Csv.IndexOfSeparator | parse.go:218 | the first comma of a + "," + b is the separator when a has none |
| Csv.SplitCount | parse.go:218 | a string splits at its commas into one more piece than it has commas |
| Csv.JoinCommas | parse.go:218 | joining adds one comma between each two fields |
| Csv.JoinFieldCount | parse.go:218 | the joined row splits into as many pieces as there are fields plus commas inside them |
| Csv.SplitSeparator | parse.go:218 | splitting a + "," + b cuts off a first when a has no comma |
| Csv.SplitJoin | parse.go:218 | splitting undoes joining for fields without commas |
| Csv.RowSplit | parse.go:218 | a row reads back as its fields, and has as many pieces as fields, exactly when no field holds a comma |
| Csv.NamesNoComma | parse.go:214 | no column name holds a comma |
| Csv.ColumnsSplit | parse.go:213-215 | the header splits into exactly the 18 names, "Name" first and "Max. latency" twelfth |
| Csv.Columns | parse.go:213-215 | the header, the 18 column names joined with commas; Csv.ColumnsSplit states that it splits back into them |
| Csv.IntNoComma | parse.go:218 | an int printed by %v holds no comma |
| Csv.FieldsNoComma | parse.go:217-238 | with a comma-free float printer, the row's fields are comma-free exactly when the name, Server, Hostname and Path are |
| Csv.CsvSplit | parse.go:217-238 | with no comma in the string fields, the row reads back as its 18 fields in order, the name first |
| Csv.CsvPercentiles | parse.go:230-235 | fields 12 to 17 of the row are NTiles[100], [50], [90], [95], [98] and [99] |
| Csv.CsvMissingPercentile | parse.go:230-235 | a percentile missing from NTiles is printed as the zero value |
| Csv.CsvFieldCount | parse.go:217-238 | the row has 18 pieces exactly when none of the name, Server, Hostname and Path holds a comma, since nothing is quoted |
| Csv.Fields | parse.go:217-238 | the 18 values of the row in the order Csv prints them; Csv.CsvSplit and Csv.CsvPercentiles state them |
| Csv.Csv | parse.go:217-238 | the fields joined with commas, with no quoting; Csv.CsvSplit and Csv.CsvFieldCount state when it reads back |
| Sample.StepShaped | parse.go:28-40 | a line built as a known kind (plain text, a URL, a labelled value, a percentile, the banner) does to the record what that kind says |
| Sample.UrlStep | parse.go:32-40 | a line whose only colon is followed by a non-blank, without '%', matches nothing and is skipped |
| Sample.PlainStep | parse.go:38-40 | a plain line without ':' and '%' that cannot start the banner is skipped |
| Sample.BanStep | parse.go:29-31 | a banner line of a kind sets Version and Revision from its parts |
| Sample.KvShapeStep | parse.go:32-34 | "label:" + blanks + value stores the value into the label's field |
| Sample.PctStep | parse.go:35-37 | a percentile line goes to setNTile with its digits and its rest |
| Sample.RunShapes | parse.go:27-41 | the loop over built lines applies the kinds' effects in order |
| Sample.EffectField | parse.go:28-40 | a built line changes a field exactly when it stores into it |
| Sample.ApplyField | parse.go:27-41 | after the lines, each field holds the value of the last line storing into it, or its old value |
| Sample.LastOfAppend | parse.go:27-41 | the last store in two blocks is the second block's last store, or else the first's |
| Sample.LastOfNone | parse.go:27-41 | a block that never stores into a field leaves it alone |
| Sample.LastOfAt | parse.go:27-41 | the last line storing into a field decides its value |
| Sample.MeanIsMean | parse_test.go:30 | "2.178 [ms] (mean)" carries exactly the mean annotation |
| Sample.AcrossNotMean | parse_test.go:31 | "1.089 [ms] (mean, across all concurrent requests)" does not |
| Sample.TestMean | parse_test.go:30-31 | of the two Time per request lines only the first is stored |
| Sample.SampleShaped | parse_test.go:8-50 | every line of the report is of the kind it is written as |
| Sample.SampleWrites | parse_test.go:8-50 | the last lines storing into Server, Hostname, Concurrency and Time per request carry nothing, "localhost", "2" and "2.178 [ms] (mean)" |
| Sample.SampleRun | parse_test.go:52-54 | ParseAB on the report's lines is the report's kinds applied to the initial record |
| Sample.SampleValues | parse_test.go:52-64 | on the test's report the result has Hostname "localhost", Concurrency 2, AverageResponseTime 2.178, and Server "" because "Server Software:" has no value |
| Sample.MeanValue | parse_test.go:61 | parseFloat("2.178 [ms] (mean)") is 2.178 |
| Sample.LengthValue | parse_test.go:21 | parseInt("6728 bytes") is 6728 |
| Sample.PortValue | parse_test.go:18 | parseInt("6060") is 6060 |
| Sample.TwoValue | parse_test.go:23 | parseInt("2") is 2 |
| Sample.VersionAsInt | parse.go:167-173 | parseInt("2.3") is 0: the token has a dot |
| Sample.DotAsInt | parse.go:167-173 | parseInt(".") is 0 |

## Left out

- `cmd/main.go`, the command line around the package, is not part of this model.
- `bufio.Scanner` is a parameter. `ParseAB` takes the lines it would yield, so line splitting, the token-size limit and the read error printed to stderr (parse.go:42-44) are not modelled.
- The `log.Printf` diagnostics (parse.go:99, parse.go:170, parse.go:179, parse.go:186) are not modelled. They print and change nothing.
- Floating point: a float64 is the exact `real` value of its decimal token.
  - IEEE rounding is not modelled.
  - Neither is the float syntax that `strconv.ParseFloat` accepts beyond digits and one dot: signs, exponents, "Inf" and "NaN". scrubString never hands it those.
- `%v` float formatting is a parameter of `Csv.Csv`. The CSV lemmas ask only that it prints no comma.
- Csv.Csv: it is a function of the record's value, not a method of the object, since it reads and changes nothing else.
- The ints of `Results` are unbounded integers. `parseInt` never yields more than the largest 64-bit int, so no field overflows.
- Strings are sequences of characters. Invalid UTF-8 in the input and Go's byte indexing are not modelled.
- The unused `NTile` type (parse.go:255-258) is not modelled.
- Record.SetTimePerRequest states only that it changes AverageResponseTime to parseFloat of the value or nothing. When each happens is stated by `Record.SetTimePerRequestOnlyMean` and `Record.SetTimePerRequestOf`.
- Numbers.Atoi states only the range of the result in its own contract. Its value is stated by `Numbers.AtoiIsStrconv`.
- Numbers.ParseInt states only the range of the result. What it returns is stated by `Numbers.ParseIntSpec`, `Numbers.ParseIntOfDigits` and `Numbers.ParseIntOfDecimal`.
- Sample.SampleValues describes the report of parse_test.go as a sequence of lines built by kind. It does not compare them with the test's raw string character by character.
