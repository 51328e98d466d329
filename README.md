# Benchmark result parsers of EasyExtensions.Crypto.Tests.Charts

This project models the parsers that the chart scripts of
EasyExtensions.Crypto.Tests.Charts run before they draw anything. Each
parser reads a benchmark log and returns tables of measurements:

- `parse_mylib_results` (charts.py) reads the library's own thread/chunk
  sweep log. It returns an encryption table and a decryption table, each
  with the columns Threads, ChunkMB and Throughput.
- `parse_test_results` (test_parser.py) reads the same log. It uses the
  literal section headers, a different section end and an integer chunk
  size.
- `parse_openssl_results` (charts.py) reads the output of
  `openssl speed -evp aes-128-gcm`. It returns one table with the columns
  BlockBytes, ThroughputMBps and Label. It uses the summary table when
  both the header line and the AES-128-GCM line are present. Otherwise it
  falls back to the progress lines ("on N size blocks: K AES-128-GCM ops
  in Ts").

The modules follow the structure of the code:

- `Results` holds the result type. Python's ValueError and
  ZeroDivisionError become `Failure` values, because an exception raised in
  a parser aborts the whole parse.
- `Chars` models the character classes of Python's `re`, and `int()` and
  `float()` applied to the runs those patterns capture.
  - `\s` is exactly the set of characters for which `str.isspace()`
    holds.
  - `float()` gives the exact decimal value, as a `real`.
- `Regex` models the eight regular expressions the parsers compile.
  - Each pattern is a deterministic matcher at one start position. The
    comments argue, pattern by pattern, why backtracking cannot change the
    match: greedy runs are maximal, and lazy groups stop at the first
    position where the rest succeeds.
  - `Search` models `re.search` and `FindAll` models `re.findall` and
    `re.finditer`. Both come with lemmas stating their meaning
    independently: the first start position that has a match, and the
    leftmost non-overlapping matches.
- `SweepLog` models a sweep log as the benchmark writes it: a header, then
  one line `threads | chunk | whole.frac` per measurement. It proves where
  both parsers' patterns find the sections and the lines of such a log.
- `OpensslLog` models the output of `openssl speed` as the tool prints it:
  progress lines, then a summary table whose header line ends either in a
  space before the newline or in the newline alone.
  - `OpensslProgress` proves where both progress-line patterns match in
    such an output.
  - `OpensslSummary` proves where the header and row patterns match, and
    what the sizes and the k-values read back are.
  - `OpensslParse` proves what parse_openssl_results returns for a
    rendered output, on each of its two paths.
- `TestParser` and `Charts` hold the parsers. Each loop of the source is a
  method with a `while` loop, proved equal to a function that states what
  the loop computes. Lemmas then prove what those functions mean:
  - the first failing row decides the error;
  - parsing a rendered log gives back its measurements;
  - the OpenSSL table is sorted by block size and is a stable
    rearrangement of the rows it was built from.

A DataFrame is modelled as the sequence of its rows, in order.

### Where the code and its documentation differ (the model follows the code)

- **Malformed number fields.** The documentation says malformed rows are
  skipped. In the code, a field such as `1.2.3` or `.` still matches
  `[\d.]+`, and `float()` then raises. The whole parse aborts with
  ValueError, and the model returns that failure.
- **Where a section ends.** The documentation says a section runs to the
  next "===". The pattern `(.*?)(?===|\Z)` at charts.py:34-35 (and
  `(?===|$)` at test_parser.py:13,15) is the lookahead `(?=` over `==|\Z`,
  so the body stops at the first "==" anywhere. A line "==" inside the
  encryption section cuts off every data line after it. The model stops
  at "==" as the code does (`Regex.EndsAtDoubleEquals`). Rendered logs hold
  no "==" inside their sections, so the round-trip lemmas are unaffected.
- **The OpenSSL label.** The code labels every OpenSSL row
  "OpenSSL AES-128-GCM". The documented example shows "AES-128-GCM".
- **The OpenSSL header line with LF endings.** Suppose the header line has
  no whitespace after its last "bytes" and is followed directly by the
  data line. Then the `\s+` after "bytes" must consume the newline, and
  the following `\s*$` fails. The header is not found, and the parser
  takes the fallback path. The documented header/row example therefore
  does not reach the summary path; the model behaves as the code does.
  `OpensslParse.PlainHeaderRead` proves this for every rendered output
  whose header line ends right after "bytes": the header is found nowhere,
  and the table is read from the progress lines.
- **Zero sizes.** Block sizes and thread counts are any run of digits.
  Zero is accepted, although the documentation describes block sizes as
  positive.

## Model

| member | source | states |
|---|---|---|
| Chars.ToFloatFails | Sources/EasyExtensions.Crypto.Tests.Charts/charts.py:47-48 | float() of a `[\d.]+` run raises exactly when the run holds no digit or holds more than one dot |
| Chars.IsSpace | Sources/EasyExtensions.Crypto.Tests.Charts/charts.py:42 | no character that `\s` matches is a digit or a dot, so a `\s` run and a `[\d.]` run never share a character |
| Chars.ToFloat | Sources/EasyExtensions.Crypto.Tests.Charts/charts.py:47-48 | float() of a captured run either raises ValueError naming that text or reads a value that is not negative |
| Chars.LeadingZero | Sources/EasyExtensions.Crypto.Tests.Charts/charts.py:46 | int() of a run of digits accepts leading zeros, and they do not change the value |
| Chars.DigitsOfNat | Sources/EasyExtensions.Crypto.Tests.Charts/charts.py:46 | int() of the decimal digits of any natural number is that number |
| Chars.FloatOfNat | Sources/EasyExtensions.Crypto.Tests.Charts/charts.py:47 | float() of the digits of a whole chunk size is that size |
| Chars.FloatOfPoint | Sources/EasyExtensions.Crypto.Tests.Charts/charts.py:48 | float() of `w.frac` is exactly w plus the value of the fraction digits |
| Regex.NextSectionEnd | Sources/EasyExtensions.Crypto.Tests.Charts/charts.py:34-35 | the lazy `(.*?)` body stops at the first position where the lookahead holds: the first "==", the end of the text, or (test_parser.py) a final newline; and at no earlier one |
| Regex.EndsAtDoubleEquals | Sources/EasyExtensions.Crypto.Tests.Charts/charts.py:34-35 | two '=' are enough to end a body: after position 0 of "a==b" the body is "a" |
| Regex.SweepHeaderAt | Sources/EasyExtensions.Crypto.Tests.Charts/charts.py:34-35 | a section match at p ends where a section may end, its captured body is the text from the end of the header to that point, no earlier position is a section end, and the body holds no "==" |
| Regex.TripletAt | Sources/EasyExtensions.Crypto.Tests.Charts/charts.py:42 | a data-row match starts at p, consumes at least one character and captures digits, a digit-or-dot run and a digit-or-dot run (digits for the chunk in test_parser.py) |
| Regex.SpeedHeaderAt | Sources/EasyExtensions.Crypto.Tests.Charts/charts.py:71 | a header match starts at a line start with "type" and ends at a line end; its one group runs from the end of the whitespace after "type" to the end of the match |
| Regex.SpeedRowAt | Sources/EasyExtensions.Crypto.Tests.Charts/charts.py:72 | a row match starts at a line start with "AES-128-GCM" and ends at a line end; its one group is a stretch without newline, with only whitespace between "AES-128-GCM" and it and between it and the end of the match |
| Regex.TimedBlockAt | Sources/EasyExtensions.Crypto.Tests.Charts/charts.py:77 | a progress-line match at p captures the block size as digits and the time as a digit-or-dot run |
| Regex.OpsBlockAt | Sources/EasyExtensions.Crypto.Tests.Charts/charts.py:84 | a progress-line match at p captures the block size and the operation count as digits and the time as a digit-or-dot run |
| Regex.ByteSizeAt | Sources/EasyExtensions.Crypto.Tests.Charts/charts.py:97 | a `(\d+)\s+bytes` match at p is non-empty and captures digits |
| Regex.KiloValueAt | Sources/EasyExtensions.Crypto.Tests.Charts/charts.py:99 | a `([\d.]+)k` match at p is non-empty and captures a digit-or-dot run |
| Regex.Search | Sources/EasyExtensions.Crypto.Tests.Charts/charts.py:34-35 | a match re.search returns lies within the text and carries the groups of its pattern |
| Regex.FindAll | Sources/EasyExtensions.Crypto.Tests.Charts/charts.py:44 | every match findall returns carries the groups of its pattern, so each conversion has its fields |
| Regex.SearchFirst | Sources/EasyExtensions.Crypto.Tests.Charts/charts.py:34 | re.search returns the match at the first start position that has one, and None only when no position has one |
| Regex.SearchAt | Sources/EasyExtensions.Crypto.Tests.Charts/charts.py:34 | when k is the first position with a match, re.search returns the match at k |
| Regex.SearchNone | Sources/EasyExtensions.Crypto.Tests.Charts/charts.py:35 | re.search finds nothing when no start position matches |
| Regex.FindAllScanned | Sources/EasyExtensions.Crypto.Tests.Charts/charts.py:44 | findall returns matches found at their own starts, left to right and without overlap, and misses no start position outside them |
| SweepLog.BlockScan | Sources/EasyExtensions.Crypto.Tests.Charts/charts.py:42-44 | findall over the lines of a rendered section finds one match per line, in order, capturing that line's three fields |
| SweepLog.EncryptionSection | Sources/EasyExtensions.Crypto.Tests.Charts/charts.py:34 | in a log with both sections, the encryption section's body is exactly its lines, up to the decryption header |
| SweepLog.EncryptionSectionAlone | Sources/EasyExtensions.Crypto.Tests.Charts/charts.py:34 | in a log with only an encryption section, its body runs to the end of the text (charts.py) or to the final newline (test_parser.py) |
| SweepLog.DecryptionSection | Sources/EasyExtensions.Crypto.Tests.Charts/charts.py:35 | the decryption section is found where the encryption section ends, and its body is exactly its lines |
| SweepLog.NoDecryptionSection | Sources/EasyExtensions.Crypto.Tests.Charts/charts.py:35 | a log without a decryption header has no decryption section |
| TestParser.ConvertRow | Sources/EasyExtensions.Crypto.Tests.Charts/test_parser.py:28-32 | a match becomes a row exactly when float() accepts its throughput; the row holds int() of both integer fields; otherwise the ValueError names the throughput text |
| TestParser.ConvertAll | Sources/EasyExtensions.Crypto.Tests.Charts/test_parser.py:26-32 | the table has one row per match, each converted from that match, exactly when every match converts |
| TestParser.FirstFailure | Sources/EasyExtensions.Crypto.Tests.Charts/test_parser.py:27-32 | the error of the whole table is the error of the first match that does not convert |
| TestParser.ConvertMatches | Sources/EasyExtensions.Crypto.Tests.Charts/test_parser.py:26-32 | the loop returns the converted table, or stops at the first failing match with its error |
| TestParser.ExtractData | Sources/EasyExtensions.Crypto.Tests.Charts/test_parser.py:17-34 | an empty section text gives an empty table; otherwise one row per data line found, or the first conversion error |
| TestParser.ParseTestResults | Sources/EasyExtensions.Crypto.Tests.Charts/test_parser.py:5-41 | returns the encryption table then the decryption table; a missing section gives an empty table; the first conversion error aborts the parse |
| TestParser.SectionText | Sources/EasyExtensions.Crypto.Tests.Charts/test_parser.py:36-39 | the text handed to extract_data is "" when the header is missing, and never holds "==" |
| TestParser.SectionBody | Sources/EasyExtensions.Crypto.Tests.Charts/test_parser.py:12-15 | a section body is the text after the header up to the first "==", the end of the text, or a final newline, whichever comes first; it holds no "==", and its header is the first in the text |
| TestParser.ConvertFields | Sources/EasyExtensions.Crypto.Tests.Charts/test_parser.py:28-30 | int() and float() read back every field of a rendered line |
| TestParser.ConvertLines | Sources/EasyExtensions.Crypto.Tests.Charts/test_parser.py:26-32 | matches that capture the fields of rendered lines convert to those lines' rows, in order |
| TestParser.ExtractBlock | Sources/EasyExtensions.Crypto.Tests.Charts/test_parser.py:17-34 | extract_data of a rendered block of lines, with or without its closing newline, returns the lines' rows |
| TestParser.ParseRoundTrip | Sources/EasyExtensions.Crypto.Tests.Charts/test_parser.py:5-41 | parsing a rendered log with both sections gives back both lists of measurements, in order |
| TestParser.ParseEncryptionOnly | Sources/EasyExtensions.Crypto.Tests.Charts/test_parser.py:36-39 | a rendered log without a decryption section gives its encryption rows and an empty decryption table |
| Charts.ConvertRow | Sources/EasyExtensions.Crypto.Tests.Charts/charts.py:45-49 | a match becomes a row exactly when float() accepts both the chunk size and the throughput; otherwise the ValueError names the first rejected field |
| Charts.ConvertAll | Sources/EasyExtensions.Crypto.Tests.Charts/charts.py:43-50 | the table has one row per match, each converted from that match, exactly when every match converts |
| Charts.FirstFailure | Sources/EasyExtensions.Crypto.Tests.Charts/charts.py:44-49 | the error of the whole table is the error of the first match that does not convert |
| Charts.ConvertMatches | Sources/EasyExtensions.Crypto.Tests.Charts/charts.py:43-49 | the loop returns the converted table, or stops at the first failing match with its error |
| Charts.Extract | Sources/EasyExtensions.Crypto.Tests.Charts/charts.py:37-50 | no section gives an empty table; otherwise one row per data line of the body, or the first conversion error |
| Charts.ParseMylibResults | Sources/EasyExtensions.Crypto.Tests.Charts/charts.py:21-54 | returns the encryption table then the decryption table; a missing section gives an empty table; the first conversion error aborts the parse |
| Charts.Section | Sources/EasyExtensions.Crypto.Tests.Charts/charts.py:34-35 | a section found ends where the lookahead `(?=` over `==\|\Z` holds, and its body holds no "==" |
| Charts.SectionBody | Sources/EasyExtensions.Crypto.Tests.Charts/charts.py:34-35 | a section body is the text after the header up to the first "==" or the end of the text, holds no "==", and no earlier position starts a header |
| Charts.ConvertFields | Sources/EasyExtensions.Crypto.Tests.Charts/charts.py:46-48 | int() and float() read back every field of a rendered line, the chunk size as a float |
| Charts.ConvertLines | Sources/EasyExtensions.Crypto.Tests.Charts/charts.py:44-49 | matches that capture the fields of rendered lines convert to those lines' rows, in order |
| Charts.ExtractBlock | Sources/EasyExtensions.Crypto.Tests.Charts/charts.py:37-50 | extract of a section whose body is a rendered block of lines returns the lines' rows |
| Charts.ParseMylibRoundTrip | Sources/EasyExtensions.Crypto.Tests.Charts/charts.py:21-54 | parsing a rendered log with both sections gives back both lists of measurements, in order |
| Charts.ParseMylibEncryptionOnly | Sources/EasyExtensions.Crypto.Tests.Charts/charts.py:38-39 | a rendered log without a decryption section gives its encryption rows and an empty decryption table |
| Charts.IntsOf | Sources/EasyExtensions.Crypto.Tests.Charts/charts.py:97 | one integer per match, the value of its captured digits, in order; OpensslSummary.HeaderSizesOf proves these are the printed sizes |
| Charts.FloatsOf | Sources/EasyExtensions.Crypto.Tests.Charts/charts.py:99 | one float per match, in order, exactly when float() accepts every captured value |
| Charts.FirstBadFloat | Sources/EasyExtensions.Crypto.Tests.Charts/charts.py:99 | the list comprehension raises the error of the first value float() rejects |
| Charts.SortByBlock | Sources/EasyExtensions.Crypto.Tests.Charts/charts.py:93 | the sorted rows are ordered by block size and are a permutation of the input |
| Charts.SortStable | Sources/EasyExtensions.Crypto.Tests.Charts/charts.py:93 | rows of equal block size keep their original relative order |
| Charts.Paired | Sources/EasyExtensions.Crypto.Tests.Charts/charts.py:101-111 | as many rows as the shorter list, the i-th holding the i-th size, the i-th k-value divided by 1000 and the label; OpensslParse.SummaryRead proves this is the table of a rendered summary |
| Charts.HeaderSizes | Sources/EasyExtensions.Crypto.Tests.Charts/charts.py:96-97 | one size per `(\d+)\s+bytes` match in the header's group, in order, each the value of the match's digits |
| Charts.RowKilos | Sources/EasyExtensions.Crypto.Tests.Charts/charts.py:99 | fails exactly when float() rejects some captured value; otherwise one value per `([\d.]+)k` match, in order |
| Charts.SummarySpec | Sources/EasyExtensions.Crypto.Tests.Charts/charts.py:95-112 | the summary table fails exactly when a k-value does not convert; it is the paired rows, truncated to the shorter list and sorted by block size |
| Charts.OpsRow | Sources/EasyExtensions.Crypto.Tests.Charts/charts.py:87-92 | a progress line fails exactly when its time does not convert, when ops × block is too large for a float, or when the time is zero. The error is ValueError naming the time text, OverflowError or ZeroDivisionError, checked in that order. Otherwise the row holds the block size, ops × block / secs / 10^6 and the label |
| Charts.Mbps | Sources/EasyExtensions.Crypto.Tests.Charts/charts.py:90-91 | the throughput of a run that took a positive time is never negative |
| Charts.MbpsVolume | Sources/EasyExtensions.Crypto.Tests.Charts/charts.py:90-91 | the throughput, times the seconds and 10^6, is the number of bytes the operations processed |
| Charts.OpsRows | Sources/EasyExtensions.Crypto.Tests.Charts/charts.py:86-92 | one row per progress line, in order, exactly when every line converts |
| Charts.FirstBadOps | Sources/EasyExtensions.Crypto.Tests.Charts/charts.py:86-92 | the fallback fails with the error of the first progress line that does not convert |
| Charts.ReadTimes | Sources/EasyExtensions.Crypto.Tests.Charts/charts.py:80-82 | the first fallback loop reads every time, stopping at the first one float() rejects |
| Charts.CollectOps | Sources/EasyExtensions.Crypto.Tests.Charts/charts.py:85-92 | the second fallback loop returns one row per progress line, or the first conversion or division error |
| Charts.FallbackSpec | Sources/EasyExtensions.Crypto.Tests.Charts/charts.py:74-93 | the fallback succeeds exactly when float() accepts every time of the first loop and every line of the second loop converts; otherwise it raises the first loop's error if it has one, else the second loop's |
| Charts.FallbackRows | Sources/EasyExtensions.Crypto.Tests.Charts/charts.py:84-93 | the fallback table holds one row per progress line with an operation count, sorted by block size, with lines of equal size in text order |
| Charts.Fallback | Sources/EasyExtensions.Crypto.Tests.Charts/charts.py:74-93 | the fallback validates every time, then returns the progress-line rows sorted by block size |
| Charts.ParseOpensslSpec | Sources/EasyExtensions.Crypto.Tests.Charts/charts.py:57-112 | every table the OpenSSL parser returns is sorted by block size, and every row carries the label "OpenSSL AES-128-GCM" |
| Charts.ParseOpensslResults | Sources/EasyExtensions.Crypto.Tests.Charts/charts.py:57-112 | uses the summary table when both its header and its row are found, and the progress lines otherwise |
| OpensslLog.ReadDecimal | Sources/EasyExtensions.Crypto.Tests.Charts/charts.py:82 | float() of a speed or a time as openssl prints it, whole.frac, is its exact value |
| OpensslProgress.TimedLine | Sources/EasyExtensions.Crypto.Tests.Charts/charts.py:77 | on a progress line, the first fallback pattern matches at "on" and captures the printed block size and time |
| OpensslProgress.OpsLine | Sources/EasyExtensions.Crypto.Tests.Charts/charts.py:84 | on a progress line, the second fallback pattern matches at "on" and captures the printed block size, count and time |
| OpensslProgress.LinesFound | Sources/EasyExtensions.Crypto.Tests.Charts/charts.py:80-86 | over progress lines followed by text without 'o' or 'O', finditer of either fallback pattern finds one match per line, in order, capturing that line's numbers |
| OpensslSummary.HeaderFound | Sources/EasyExtensions.Crypto.Tests.Charts/charts.py:71 | a header line that ends in a space before its newline matches the header pattern; the group runs from the first size to that space |
| OpensslSummary.HeaderMissed | Sources/EasyExtensions.Crypto.Tests.Charts/charts.py:71 | a header line whose newline follows the last "bytes" directly, followed by the row, does not match the header pattern |
| OpensslSummary.HeaderSizesOf | Sources/EasyExtensions.Crypto.Tests.Charts/charts.py:96-97 | the sizes read from the header's group (Charts.IntsOf over the `(\d+)\s+bytes` matches) are the printed sizes, in order |
| OpensslSummary.RowFound | Sources/EasyExtensions.Crypto.Tests.Charts/charts.py:72 | the AES-128-GCM line matches the row pattern; the lazy group runs from the first value to the end of the line |
| OpensslSummary.RowKilosOf | Sources/EasyExtensions.Crypto.Tests.Charts/charts.py:99 | the k-values read from the row's group are the printed speeds, in order |
| OpensslParse.HeaderSearched | Sources/EasyExtensions.Crypto.Tests.Charts/charts.py:71 | after the progress lines, re.search finds the header at the header line, with the sizes as its group |
| OpensslParse.HeaderNowhere | Sources/EasyExtensions.Crypto.Tests.Charts/charts.py:71 | when the header line ends right after "bytes", re.search finds the header nowhere in the output |
| OpensslParse.RowSearched | Sources/EasyExtensions.Crypto.Tests.Charts/charts.py:72 | re.search finds the row at the AES-128-GCM line, with the values as its group |
| OpensslParse.SummaryPath | Sources/EasyExtensions.Crypto.Tests.Charts/charts.py:74-112 | when both the header and the row are found, the parser returns the summary table of those two matches |
| OpensslParse.FallbackPath | Sources/EasyExtensions.Crypto.Tests.Charts/charts.py:74-93 | when the header is not found, the parser returns the fallback table |
| OpensslParse.OpsRowOf | Sources/EasyExtensions.Crypto.Tests.Charts/charts.py:87-92 | the row made of a progress line's groups holds its block size and its throughput ops × block / secs / 10^6 |
| OpensslParse.FallbackOf | Sources/EasyExtensions.Crypto.Tests.Charts/charts.py:74-93 | over rendered progress lines, every time converts, and the fallback table is one row per line, sorted by block size |
| OpensslParse.SummaryRead | Sources/EasyExtensions.Crypto.Tests.Charts/charts.py:69-112 | a rendered output whose header line ends in a space is read from its summary table: the sizes paired in order with the k-values / 1000 (Charts.Paired), sorted by block size |
| OpensslParse.PlainHeaderRead | Sources/EasyExtensions.Crypto.Tests.Charts/charts.py:69-93 | a rendered output whose header line ends right after "bytes" is read from its progress lines, as the header pattern finds nothing |
| OpensslParse.ProgressRead | Sources/EasyExtensions.Crypto.Tests.Charts/charts.py:69-93 | progress lines alone are read as one row per line, sorted by block size |

## Left out

- Reading the input file is not modelled. The parsers take the decoded text
  as a parameter, so read_text with errors="ignore", open(), a missing file
  and decoding errors are outside the model.
- DataFrame construction is not modelled: a table is its sequence of rows.
  - Column names and dtypes are left out.
  - The two kinds of empty table (with columns at charts.py:39, without at
    test_parser.py:20) are not distinguished.
  - reset_index at charts.py:112 is left out.
- OpensslParse.SummaryRead, OpensslParse.PlainHeaderRead and
  OpensslParse.ProgressRead cover outputs laid out with one space between
  cells and between the words of a progress line. openssl aligns its
  columns with runs of spaces; the patterns accept any run of whitespace,
  but the lemmas state the one-space layout only.
- Charts.SummarySpec: sort_values at charts.py:112 uses pandas' default
  quicksort, which is not stable. The model sorts stably, so among rows of
  equal block size it fixes one of the orders pandas may produce.
- Unicode is not modelled:
  - `\d` and int()/float() accept every Unicode decimal digit; the model
    takes the ASCII digits only.
  - re.IGNORECASE also matches a few non-ASCII letters against ASCII ones
    (KELVIN SIGN against k, for example); the model folds ASCII letters
    only.
- float() is an exact real in the model. IEEE double rounding, overflow to
  infinity and the rounding of the divisions at charts.py:90-91 and 106 are
  not modelled.
- int() is unbounded in the model. Python's limit of 4300 digits for
  converting a string to an int, which raises ValueError, is not modelled.
- The list of sizes built at charts.py:78 and 81 is never read, and int()
  cannot fail on a run of digits. The model builds only the times (ReadTimes),
  which can raise.
- Charting, the statistics printouts, the command line and the other scripts
  of the directory are not part of this model. charts_utils is not part of
  this model.
