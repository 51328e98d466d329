/** The two parsers of charts.py: the sweep log of the library's own
    benchmark (parse_mylib_results) and the output of `openssl speed -evp
    aes-128-gcm` (parse_openssl_results). A DataFrame is modelled as the
    sequence of its rows. */
module Charts {
  import opened Results
  import opened Chars
  import opened Regex
  import opened SweepLog

  // ----- parse_mylib_results (charts.py:21-54) -----

  /** One row of a sweep table: Threads, ChunkMB and Throughput (MB/s). */
  datatype Row = Row(threads: nat, chunkMB: real, throughput: real)

  /** The dictionary charts.py:45-49 builds from one match: int() of the
      thread count, then float() of the chunk size, then float() of the
      throughput, the first failing conversion raising. */
  function ConvertRow(g: seq<string>): (r: Result<Row>)
    requires GroupsFit(Triplet(false), g)
    ensures r.Success? <==> ToFloat(g[1]).Success? && ToFloat(g[2]).Success?
    ensures r.Success? ==> (r.value.threads == DigitsValue(g[0])
      && ToFloat(g[1]) == Success(r.value.chunkMB) && ToFloat(g[2]) == Success(r.value.throughput))
    ensures r.Failure? ==> r.error == if ToFloat(g[1]).Failure? then ValueError(g[1]) else ValueError(g[2])
  {
    var chunk :- ToFloat(g[1]);
    var throughput :- ToFloat(g[2]);
    Success(Row(DigitsValue(g[0]), chunk, throughput))
  }

  predicate AllTriplets(ms: seq<Match>) {
    forall i :: 0 <= i < |ms| ==> GroupsFit(Triplet(false), ms[i].groups)
  }

  /** The rows the loop of charts.py:44-49 appends, or the error of the
      first match that does not convert. */
  function ConvertAll(ms: seq<Match>): (r: Result<seq<Row>>)
    requires AllTriplets(ms)
    ensures r.Success? <==> forall i :: 0 <= i < |ms| ==> ConvertRow(ms[i].groups).Success?
    ensures r.Success? ==> (|r.value| == |ms|
      && forall i :: 0 <= i < |ms| ==> ConvertRow(ms[i].groups) == Success(r.value[i]))
    decreases |ms|
  {
    if ms == [] then Success([])
    else
      var init := ms[..|ms| - 1];
      assert forall i :: 0 <= i < |init| ==> init[i] == ms[i];
      var rows :- ConvertAll(init);
      var row :- ConvertRow(ms[|ms| - 1].groups);
      Success(rows + [row])
  }

  /** The section of the log under the header of op (charts.py:34-35). */
  function Section(text: string, op: Op): (r: Option<Match>)
    ensures r.Some? ==> |r.value.groups| == 1 && r.value.end <= |text|
    ensures r.Some? ==> SectionEnd(text, r.value.end, false) && NoMarker(r.value.groups[0])
  {
    var r := Search(SweepHeader(op, false), text);
    if r.Some? then SearchHeader(text, op, false); r else r
  }

  /** What `extract` (charts.py:37-50) returns for a section: no section gives
      an empty table, otherwise one row per data line of the section body. */
  function ExtractSpec(section: Option<Match>): Result<seq<Row>>
    requires section.Some? ==> |section.value.groups| == 1
  {
    match section
    case None => Success([])
    case Some(m) => ConvertAll(FindAll(Triplet(false), m.groups[0], 0))
  }

  /** The first failing element of a conversion is the one the loop stops at. */
  method Extract(section: Option<Match>) returns (r: Result<seq<Row>>)
    requires section.Some? ==> |section.value.groups| == 1
    ensures r == ExtractSpec(section)
  {
    if section.None? {
      return Success([]);
    }
    var ms := FindAll(Triplet(false), section.value.groups[0], 0);
    r := ConvertMatches(ms);
  }

  /** The loop of charts.py:44-49 over the matches of one section. */
  method ConvertMatches(ms: seq<Match>) returns (r: Result<seq<Row>>)
    requires AllTriplets(ms)
    ensures r == ConvertAll(ms)
  {
    var rows: seq<Row> := [];
    var i := 0;
    while i < |ms|
      invariant 0 <= i <= |ms|
      invariant ConvertAll(ms[..i]) == Success(rows)
    {
      var g := ms[i].groups;
      var threads := DigitsValue(g[0]);
      var chunk := ToFloat(g[1]);
      if chunk.Failure? {
        FirstFailure(ms, i);
        return Failure(chunk.error);
      }
      var throughput := ToFloat(g[2]);
      if throughput.Failure? {
        FirstFailure(ms, i);
        return Failure(throughput.error);
      }
      var row := Row(threads, chunk.value, throughput.value);
      ConvertPrefix(ms, i, rows, row);
      rows := rows + [row];
      i := i + 1;
    }
    assert ms[..i] == ms;
    return Success(rows);
  }

  /** Converting one more match extends the table by its row. */
  lemma ConvertPrefix(ms: seq<Match>, i: nat, rows: seq<Row>, row: Row)
    requires AllTriplets(ms) && i < |ms|
    requires ConvertAll(ms[..i]) == Success(rows) && ConvertRow(ms[i].groups) == Success(row)
    ensures ConvertAll(ms[..i + 1]) == Success(rows + [row])
  {
    var p := ms[..i + 1];
    assert p[..|p| - 1] == ms[..i] && p[|p| - 1] == ms[i];
  }

  /** When the rows before match i convert and match i does not, the
      conversion fails with match i's error. */
  lemma {:induction false} FirstFailure(ms: seq<Match>, i: nat)
    requires AllTriplets(ms) && i < |ms|
    requires ConvertAll(ms[..i]).Success? && ConvertRow(ms[i].groups).Failure?
    ensures ConvertAll(ms) == Failure(ConvertRow(ms[i].groups).error)
    decreases |ms|
  {
    var init := ms[..|ms| - 1];
    if i < |ms| - 1 {
      assert init[..i] == ms[..i] && init[i] == ms[i];
      FirstFailure(init, i);
    } else {
      assert init == ms[..i];
    }
  }

  /** What parse_mylib_results returns: the encryption table, then the
      decryption table; the first conversion error aborts the whole parse. */
  function ParseMylibSpec(text: string): Result<(seq<Row>, seq<Row>)> {
    var enc :- ExtractSpec(Section(text, Encryption));
    var dec :- ExtractSpec(Section(text, Decryption));
    Success((enc, dec))
  }

  method ParseMylibResults(text: string) returns (r: Result<(seq<Row>, seq<Row>)>)
    ensures r == ParseMylibSpec(text)
  {
    var encSection := Section(text, Encryption);
    var decSection := Section(text, Decryption);
    var enc := Extract(encSection);
    if enc.Failure? {
      return Failure(enc.error);
    }
    var dec := Extract(decSection);
    if dec.Failure? {
      return Failure(dec.error);
    }
    return Success((enc.value, dec.value));
  }

  /** The body of a section contains no "==" and runs up to the next "==" or
      to the end of the text; its header is the first one in the text. A "=="
      anywhere in the body, not only the "===" of the next header, ends it. */
  lemma SectionBody(text: string, op: Op)
    requires Section(text, op).Some?
    ensures var m := Section(text, op).value;
      && (m.end == |text| || StartsAt(text, m.end, "=="))
      && SweepHeaderEnd(text, m.start, op, false).Some?
      && (var h := SweepHeaderEnd(text, m.start, op, false).value;
          && h <= m.end && m.groups[0] == text[h..m.end]
          && forall j :: h <= j < m.end ==> !StartsAt(text, j, "=="))
      && NoMarker(m.groups[0])
      && (forall q :: 0 <= q < m.start ==> SweepHeaderAt(text, q, op, false).None?)
  {
    var m := Section(text, op).value;
    SearchHeader(text, op, false);
    var h := SweepHeaderEnd(text, m.start, op, false).value;
    forall j | h <= j < m.end ensures !StartsAt(text, j, "==") {
      assert !SectionEnd(text, j, false);
    }
  }

  // ----- reading back a rendered log -----

  /** The row charts.py reads from a rendered line: the chunk size comes
      back as a float. */
  function RowOf(x: Sample): Row
    requires WellFormed(x)
  {
    Row(x.threads, x.chunk as real, Value(x))
  }

  function RowsOf(xs: seq<Sample>): seq<Row>
    requires AllWellFormed(xs)
  {
    seq(|xs|, i requires 0 <= i < |xs| => RowOf(xs[i]))
  }

  /** int() and float() read back what str() wrote. */
  lemma ConvertFields(x: Sample)
    requires WellFormed(x)
    ensures GroupsFit(Triplet(false), Fields(x)) && ConvertRow(Fields(x)) == Success(RowOf(x))
  {
    DigitsOfNat(x.threads);
    DigitsOfNat(x.chunk);
    FloatOfNat(x.chunk);
    FloatOfPoint(x.whole, x.frac);
  }

  /** Appending a match that converts appends its row. */
  lemma ConvertSnoc(init: seq<Match>, m: Match, rows: seq<Row>, row: Row)
    requires AllTriplets(init) && GroupsFit(Triplet(false), m.groups)
    requires ConvertAll(init) == Success(rows) && ConvertRow(m.groups) == Success(row)
    ensures AllTriplets(init + [m]) && ConvertAll(init + [m]) == Success(rows + [row])
  {
    var ms := init + [m];
    assert ms[..|ms| - 1] == init;
  }

  lemma RowsSnoc(xs: seq<Sample>)
    requires AllWellFormed(xs) && xs != []
    ensures RowsOf(xs) == RowsOf(xs[..|xs| - 1]) + [RowOf(xs[|xs| - 1])]
  {
    var init := xs[..|xs| - 1];
    assert forall i :: 0 <= i < |init| ==> init[i] == xs[i];
  }

  lemma {:induction false} ConvertLines(ms: seq<Match>, xs: seq<Sample>)
    requires AllWellFormed(xs) && |ms| == |xs| && forall i :: 0 <= i < |xs| ==> ms[i].groups == Fields(xs[i])
    ensures AllTriplets(ms) && ConvertAll(ms) == Success(RowsOf(xs))
    decreases |xs|
  {
    if xs != [] {
      var n := |xs| - 1;
      var init, inits := ms[..n], xs[..n];
      assert forall i :: 0 <= i < n ==> init[i] == ms[i] && inits[i] == xs[i];
      ConvertLines(init, inits);
      ConvertFields(xs[n]);
      ConvertSnoc(init, ms[n], RowsOf(inits), RowOf(xs[n]));
      LastSplit(ms);
      RowsSnoc(xs);
    } else {
      assert RowsOf(xs) == [];
    }
  }

  /** The rows of a rendered section found with the given bounds. */
  lemma ExtractBlock(xs: seq<Sample>, start: nat, end: nat)
    requires AllWellFormed(xs)
    ensures ExtractSpec(Some(Match(start, end, [Lines(xs) + "\n"]))) == Success(RowsOf(xs))
  {
    BlockScan(xs, false, true);
    ConvertLines(FindAll(Triplet(false), Lines(xs) + "\n", 0), xs);
  }

  /** Parsing a rendered log gives back its measurements, in order, with the
      chunk sizes as floats. */
  lemma ParseMylibRoundTrip(enc: seq<Sample>, dec: seq<Sample>)
    requires AllWellFormed(enc) && AllWellFormed(dec)
    ensures ParseMylibSpec(Log(enc, dec)) == Success((RowsOf(enc), RowsOf(dec)))
  {
    var text := Log(enc, dec);
    EncryptionSection(enc, dec, false);
    var n := |RenderedSection(Encryption, enc)|;
    DecryptionSection(enc, dec, false, text, n, Lines(dec) + "\n");
    assert Section(text, Encryption) == Some(Match(0, n, [Lines(enc) + "\n"]));
    assert Section(text, Decryption) == Some(Match(n, |text|, [Lines(dec) + "\n"]));
    ExtractBlock(enc, 0, n);
    ExtractBlock(dec, n, |text|);
  }

  /** A log without a decryption section gives an empty decryption table. */
  lemma ParseMylibEncryptionOnly(enc: seq<Sample>)
    requires AllWellFormed(enc)
    ensures ParseMylibSpec(EncryptionLog(enc)) == Success((RowsOf(enc), []))
  {
    var text := EncryptionLog(enc);
    EncryptionSectionAlone(enc, false, text, Lines(enc) + "\n");
    NoDecryptionSection(enc, false);
    assert Section(text, Encryption) == Some(Match(0, |text|, [Lines(enc) + "\n"]));
    ExtractBlock(enc, 0, |text|);
  }

  // ----- parse_openssl_results (charts.py:57-112) -----

  /** One row of the OpenSSL table: BlockBytes, ThroughputMBps, Label. */
  datatype SslRow = SslRow(blockBytes: nat, throughputMBps: real, labelText: string)

  /** The label of every row (charts.py:92, 110). */
  const Label: string := "OpenSSL AES-128-GCM"

  predicate IsDigitGroup(ms: seq<Match>, k: nat) {
    forall i :: 0 <= i < |ms| ==> k < |ms[i].groups| && IsDigits(ms[i].groups[k])
  }

  predicate IsNumGroup(ms: seq<Match>, k: nat) {
    forall i :: 0 <= i < |ms| ==> k < |ms[i].groups| && IsNumRun(ms[i].groups[k])
  }

  /** `[int(m.group(k)) ...]`: the number captured by group k of each match. */
  function IntsOf(ms: seq<Match>, k: nat): (r: seq<nat>)
    requires IsDigitGroup(ms, k)
    ensures |r| == |ms| && forall i :: 0 <= i < |ms| ==> r[i] == DigitsValue(ms[i].groups[k])
  {
    seq(|ms|, i requires 0 <= i < |ms| => DigitsValue(ms[i].groups[k]))
  }

  /** `[float(m.group(k)) ...]`: the values captured by group k, or the error
      of the first that float() rejects. */
  function FloatsOf(ms: seq<Match>, k: nat): (r: Result<seq<real>>)
    requires IsNumGroup(ms, k)
    ensures r.Success? <==> forall i :: 0 <= i < |ms| ==> ToFloat(ms[i].groups[k]).Success?
    ensures r.Success? ==> (|r.value| == |ms|
      && forall i :: 0 <= i < |ms| ==> ToFloat(ms[i].groups[k]) == Success(r.value[i]))
    decreases |ms|
  {
    if ms == [] then Success([])
    else
      var init := ms[..|ms| - 1];
      assert forall i :: 0 <= i < |init| ==> init[i] == ms[i];
      var vals :- FloatsOf(init, k);
      var v :- ToFloat(ms[|ms| - 1].groups[k]);
      Success(vals + [v])
  }

  /** Converting one more value extends the list by it. */
  lemma FloatsPrefix(ms: seq<Match>, k: nat, i: nat, vals: seq<real>, v: real)
    requires IsNumGroup(ms, k) && i < |ms|
    requires FloatsOf(ms[..i], k) == Success(vals) && ToFloat(ms[i].groups[k]) == Success(v)
    ensures FloatsOf(ms[..i + 1], k) == Success(vals + [v])
  {
    var p := ms[..i + 1];
    assert p[..|p| - 1] == ms[..i] && p[|p| - 1] == ms[i];
  }

  /** When the values before match i convert and match i's does not, the
      list fails with match i's error. */
  lemma {:induction false} FirstBadFloat(ms: seq<Match>, k: nat, i: nat)
    requires IsNumGroup(ms, k) && i < |ms|
    requires FloatsOf(ms[..i], k).Success? && ToFloat(ms[i].groups[k]).Failure?
    ensures FloatsOf(ms, k) == Failure(ToFloat(ms[i].groups[k]).error)
    decreases |ms|
  {
    var init := ms[..|ms| - 1];
    if i < |ms| - 1 {
      assert init[..i] == ms[..i] && init[i] == ms[i];
      FirstBadFloat(init, k, i);
    } else {
      assert init == ms[..i];
    }
  }

  // ----- sorting by block size -----

  predicate SortedByBlock(rows: seq<SslRow>) {
    forall i, j :: 0 <= i < j < |rows| ==> rows[i].blockBytes <= rows[j].blockBytes
  }

  /** The rows of block size b, in their order. */
  function OfBlock(rows: seq<SslRow>, b: nat): (r: seq<SslRow>)
    ensures |r| <= |rows|
  {
    if rows == [] then []
    else
      var init, last := rows[..|rows| - 1], rows[|rows| - 1];
      if last.blockBytes == b then OfBlock(init, b) + [last] else OfBlock(init, b)
  }

  lemma OfBlockSnoc(rows: seq<SslRow>, x: SslRow, b: nat)
    ensures OfBlock(rows + [x], b) == OfBlock(rows, b) + (if x.blockBytes == b then [x] else [])
  {
    assert (rows + [x])[..|rows|] == rows;
  }

  lemma SortedInit(rows: seq<SslRow>)
    requires SortedByBlock(rows) && rows != []
    ensures SortedByBlock(rows[..|rows| - 1])
  {
    var init := rows[..|rows| - 1];
    forall i, j | 0 <= i < j < |init| ensures init[i].blockBytes <= init[j].blockBytes {
      assert init[i] == rows[i] && init[j] == rows[j];
    }
  }

  /** Inserts x after every trailing row whose block size is above x's. */
  function Insert(x: SslRow, rows: seq<SslRow>): (r: seq<SslRow>)
    ensures multiset(r) == multiset(rows) + multiset{x}
    decreases |rows|
  {
    if rows == [] || rows[|rows| - 1].blockBytes <= x.blockBytes then rows + [x]
    else
      var init, last := rows[..|rows| - 1], rows[|rows| - 1];
      assert rows == init + [last];
      Insert(x, init) + [last]
  }

  /** Inserting into a sorted sequence keeps it sorted. */
  lemma {:induction false} InsertSorted(x: SslRow, rows: seq<SslRow>)
    requires SortedByBlock(rows)
    ensures SortedByBlock(Insert(x, rows))
    decreases |rows|
  {
    if rows != [] && rows[|rows| - 1].blockBytes > x.blockBytes {
      var init, last := rows[..|rows| - 1], rows[|rows| - 1];
      assert rows == init + [last];
      SortedInit(rows);
      InsertSorted(x, init);
      InsertBelow(x, init, Insert(x, init), last);
    }
  }

  /** Appending a row whose block size bounds every other keeps the order. */
  lemma InsertBelow(x: SslRow, init: seq<SslRow>, ins: seq<SslRow>, last: SslRow)
    requires SortedByBlock(init + [last]) && x.blockBytes < last.blockBytes
    requires SortedByBlock(ins) && multiset(ins) == multiset(init) + multiset{x}
    ensures SortedByBlock(ins + [last])
  {
    var rows := init + [last];
    forall i | 0 <= i < |ins| ensures ins[i].blockBytes <= last.blockBytes {
      assert ins[i] in multiset(ins);
      if ins[i] != x {
        assert ins[i] in multiset(init);
        var j :| 0 <= j < |init| && init[j] == ins[i];
        assert rows[j] == init[j] && rows[|init|] == last;
      }
    }
  }

  lemma {:induction false} InsertOfBlock(x: SslRow, rows: seq<SslRow>, b: nat)
    ensures OfBlock(Insert(x, rows), b) == OfBlock(rows, b) + (if x.blockBytes == b then [x] else [])
    decreases |rows|
  {
    if rows == [] || rows[|rows| - 1].blockBytes <= x.blockBytes {
      OfBlockSnoc(rows, x, b);
    } else {
      var init, last := rows[..|rows| - 1], rows[|rows| - 1];
      assert rows == init + [last];
      var ins := Insert(x, init);
      assert Insert(x, rows) == ins + [last];
      InsertOfBlock(x, init, b);
      OfBlockSnoc(ins, last, b);
      OfBlockSnoc(init, last, b);
      var before := OfBlock(init, b);
      if x.blockBytes == b {
        assert OfBlock(ins + [last], b) == before + [x];
        assert OfBlock(rows, b) == before;
      } else if last.blockBytes == b {
        assert OfBlock(ins + [last], b) == before + [last];
        assert OfBlock(rows, b) == before + [last];
      } else {
        assert OfBlock(ins + [last], b) == before;
      }
    }
  }

  /** Stable sort by block size: Python's sorted(key=...) at charts.py:93 and,
      for the summary table, sort_values at charts.py:112. */
  function SortByBlock(rows: seq<SslRow>): (r: seq<SslRow>)
    ensures SortedByBlock(r) && multiset(r) == multiset(rows)
    decreases |rows|
  {
    if rows == [] then []
    else
      var init := rows[..|rows| - 1];
      assert rows == init + [rows[|rows| - 1]];
      InsertSorted(rows[|rows| - 1], SortByBlock(init));
      Insert(rows[|rows| - 1], SortByBlock(init))
  }

  /** The sort keeps rows of equal block size in their original order. */
  lemma {:induction false} SortStable(rows: seq<SslRow>, b: nat)
    ensures OfBlock(SortByBlock(rows), b) == OfBlock(rows, b)
    decreases |rows|
  {
    if rows != [] {
      var init, last := rows[..|rows| - 1], rows[|rows| - 1];
      SortStable(init, b);
      InsertOfBlock(last, SortByBlock(init), b);
    }
  }

  // ----- the summary table (charts.py:95-112) -----

  /** The rows of charts.py:101-111: the i-th size with the i-th k-value
      divided by 1000, for as many as both lists have. */
  function Paired(sizes: seq<nat>, kilos: seq<real>): (r: seq<SslRow>)
    ensures |r| == Min(|sizes|, |kilos|)
    ensures forall i :: 0 <= i < |r| ==> r[i] == SslRow(sizes[i], kilos[i] / 1000.0, Label)
  {
    seq(Min(|sizes|, |kilos|), i requires 0 <= i < Min(|sizes|, |kilos|) => SslRow(sizes[i], kilos[i] / 1000.0, Label))
  }

  function Min(a: nat, b: nat): (m: nat)
    ensures m <= a && m <= b && (m == a || m == b)
  {
    if a <= b then a else b
  }

  /** The sizes of the header (charts.py:96-97). */
  function HeaderSizes(header: Match): (r: seq<nat>)
    requires |header.groups| == 1
    ensures var ms := FindAll(ByteSize, header.groups[0], 0);
      |r| == |ms| && forall i :: 0 <= i < |ms| ==> r[i] == DigitsValue(ms[i].groups[0])
  {
    var ms := FindAll(ByteSize, header.groups[0], 0);
    assert IsDigitGroup(ms, 0) by {
      forall i | 0 <= i < |ms| ensures 0 < |ms[i].groups| && IsDigits(ms[i].groups[0]) {
        assert GroupsFit(ByteSize, ms[i].groups);
      }
    }
    IntsOf(ms, 0)
  }

  /** The k-values of the AES-128-GCM row (charts.py:99). */
  function RowKilos(row: Match): (r: Result<seq<real>>)
    requires |row.groups| == 1
    ensures var ms := FindAll(KiloValue, row.groups[0], 0);
      && (r.Failure? <==> exists i :: 0 <= i < |ms| && ToFloat(ms[i].groups[0]).Failure?)
      && (r.Success? ==>
        |r.value| == |ms| && forall i :: 0 <= i < |ms| ==> ToFloat(ms[i].groups[0]) == Success(r.value[i]))
  {
    var ms := FindAll(KiloValue, row.groups[0], 0);
    assert IsNumGroup(ms, 0) by {
      forall i | 0 <= i < |ms| ensures 0 < |ms[i].groups| && IsNumRun(ms[i].groups[0]) {
        assert GroupsFit(KiloValue, ms[i].groups);
      }
    }
    FloatsOf(ms, 0)
  }

  /** The table read from the summary: every k-value is converted before the
      lists are cut to the same length, so a bad value past the last size
      still raises. */
  function SummarySpec(header: Match, row: Match): (r: Result<seq<SslRow>>)
    requires |header.groups| == 1 && |row.groups| == 1
    ensures r.Success? <==> RowKilos(row).Success?
    ensures r.Success? ==> (|r.value| == Min(|HeaderSizes(header)|, |RowKilos(row).value|)
      && SortedByBlock(r.value)
      && multiset(r.value) == multiset(Paired(HeaderSizes(header), RowKilos(row).value)))
  {
    var kilos :- RowKilos(row);
    var rows := Paired(HeaderSizes(header), kilos);
    assert |SortByBlock(rows)| == |multiset(rows)|;
    Success(SortByBlock(rows))
  }

  // ----- the fallback over the progress lines (charts.py:74-93) -----

  /** The row of one "on N size blocks: K AES-128-GCM ops in Ts" line: int()
      of the block size and of the count, float() of the time, and the
      throughput in decimal MB/s. `ops * block / secs` first converts the
      integer product to a float, which raises OverflowError when the product
      is too large, and then raises ZeroDivisionError on a zero time. */
  function OpsRow(g: seq<string>): (r: Result<SslRow>)
    requires GroupsFit(OpsBlock, g)
    ensures r.Failure? <==>
      ToFloat(g[2]).Failure? || TooLargeForFloat(DigitsValue(g[1]) * DigitsValue(g[0])) || ToFloat(g[2]).value == 0.0
    ensures r.Failure? ==> r.error == (if ToFloat(g[2]).Failure? then ValueError(g[2])
      else if TooLargeForFloat(DigitsValue(g[1]) * DigitsValue(g[0])) then OverflowError
      else ZeroDivisionError)
    ensures r.Success? ==> (var secs := ToFloat(g[2]).value;
      && r.value.blockBytes == DigitsValue(g[0]) && r.value.labelText == Label
      && r.value.throughputMBps == Mbps(DigitsValue(g[1]), DigitsValue(g[0]), secs))
  {
    var block := DigitsValue(g[0]);
    var ops := DigitsValue(g[1]);
    var secs :- ToFloat(g[2]);
    if TooLargeForFloat(ops * block) then Failure(OverflowError)
    else if secs == 0.0 then Failure(ZeroDivisionError)
    else Success(SslRow(block, Mbps(ops, block, secs), Label))
  }

  /** The integers that a conversion to a double rejects: those that round
      (to nearest, ties to even, at 53 bits) to 2^1024 or more, that is
      every n >= 2^1024 - 2^970. */
  predicate TooLargeForFloat(n: nat) {
    n >= DoubleOverflow
  }

  /** 2^1024 - 2^970. */
  const DoubleOverflow: nat := 179769313486231580793728971405303415079934132710037826936173778980444968292764750946649017977587207096330286416692887910946555547851940402630657488671505820681908902000708383676273854845817711531764475730270069855571366959622842914819860834936475292719074168444365510704342711559699508093042880177904174497792

  /** Decimal megabytes per second for ops operations on blocks of block
      bytes in secs seconds (charts.py:90-91). */
  function Mbps(ops: nat, block: nat, secs: real): (r: real)
    requires secs != 0.0
    ensures secs > 0.0 ==> r >= 0.0
  {
    (ops * block) as real / secs / 1000000.0
  }

  /** The throughput, run for secs seconds, accounts for every byte processed. */
  lemma MbpsVolume(ops: nat, block: nat, secs: real)
    requires secs != 0.0
    ensures Mbps(ops, block, secs) * secs * 1000000.0 == (ops * block) as real
  {
    var bytesPerSec := (ops * block) as real / secs;
    assert bytesPerSec * secs == (ops * block) as real;
  }

  predicate AllOps(ms: seq<Match>) {
    forall i :: 0 <= i < |ms| ==> GroupsFit(OpsBlock, ms[i].groups)
  }

  /** The rows the loop of charts.py:86-92 appends, or the first error. */
  function OpsRows(ms: seq<Match>): (r: Result<seq<SslRow>>)
    requires AllOps(ms)
    ensures r.Success? <==> forall i :: 0 <= i < |ms| ==> OpsRow(ms[i].groups).Success?
    ensures r.Success? ==> (|r.value| == |ms|
      && forall i :: 0 <= i < |ms| ==> OpsRow(ms[i].groups) == Success(r.value[i]))
    decreases |ms|
  {
    if ms == [] then Success([])
    else
      var init := ms[..|ms| - 1];
      assert forall i :: 0 <= i < |init| ==> init[i] == ms[i];
      var rows :- OpsRows(init);
      var row :- OpsRow(ms[|ms| - 1].groups);
      Success(rows + [row])
  }

  /** Converting one more progress line extends the table by its row. */
  lemma OpsPrefix(ms: seq<Match>, i: nat, rows: seq<SslRow>, row: SslRow)
    requires AllOps(ms) && i < |ms|
    requires OpsRows(ms[..i]) == Success(rows) && OpsRow(ms[i].groups) == Success(row)
    ensures OpsRows(ms[..i + 1]) == Success(rows + [row])
  {
    var p := ms[..i + 1];
    assert p[..|p| - 1] == ms[..i] && p[|p| - 1] == ms[i];
  }

  /** When the lines before match i convert and match i does not, the
      fallback fails with match i's error. */
  lemma {:induction false} FirstBadOps(ms: seq<Match>, i: nat)
    requires AllOps(ms) && i < |ms|
    requires OpsRows(ms[..i]).Success? && OpsRow(ms[i].groups).Failure?
    ensures OpsRows(ms) == Failure(OpsRow(ms[i].groups).error)
    decreases |ms|
  {
    var init := ms[..|ms| - 1];
    if i < |ms| - 1 {
      assert init[..i] == ms[..i] && init[i] == ms[i];
      FirstBadOps(init, i);
    } else {
      assert init == ms[..i];
    }
  }

  function TimedMatches(text: string): (ms: seq<Match>)
    ensures IsDigitGroup(ms, 0) && IsNumGroup(ms, 1)
  {
    var ms := FindAll(TimedBlock, text, 0);
    assert forall i :: 0 <= i < |ms| ==> GroupsFit(TimedBlock, ms[i].groups);
    ms
  }

  function OpsMatches(text: string): (ms: seq<Match>)
    ensures AllOps(ms)
  {
    FindAll(OpsBlock, text, 0)
  }

  /** What the fallback returns: the times of the first loop are read (and so
      can raise) although nothing uses them, then the rows of the second loop,
      sorted by block size. */
  function FallbackSpec(text: string): (r: Result<seq<SslRow>>)
    ensures r.Success? <==> FloatsOf(TimedMatches(text), 1).Success? && OpsRows(OpsMatches(text)).Success?
    ensures r.Failure? ==> r.error == (if FloatsOf(TimedMatches(text), 1).Failure?
      then FloatsOf(TimedMatches(text), 1).error else OpsRows(OpsMatches(text)).error)
  {
    var times := FloatsOf(TimedMatches(text), 1);
    if times.Failure? then Failure(times.error)
    else
      var rows := OpsRows(OpsMatches(text));
      if rows.Failure? then Failure(rows.error)
      else Success(SortByBlock(rows.value))
  }

  /** The fallback's table holds one row per progress line with an operation
      count, sorted by block size, lines of equal block size in text order. */
  lemma FallbackRows(text: string)
    requires FallbackSpec(text).Success?
    ensures var r, rows := FallbackSpec(text).value, OpsRows(OpsMatches(text)).value;
      && |r| == |OpsMatches(text)| && SortedByBlock(r) && multiset(r) == multiset(rows)
      && forall b: nat :: OfBlock(r, b) == OfBlock(rows, b)
  {
    var rows := OpsRows(OpsMatches(text)).value;
    assert |SortByBlock(rows)| == |multiset(rows)|;
    SortStableAll(rows);
  }

  lemma SortStableAll(rows: seq<SslRow>)
    ensures forall b: nat :: OfBlock(SortByBlock(rows), b) == OfBlock(rows, b)
  {
    forall b: nat ensures OfBlock(SortByBlock(rows), b) == OfBlock(rows, b) {
      SortStable(rows, b);
    }
  }

  /** The first loop of the fallback (charts.py:80-82): it reads every time,
      so a time float() rejects raises. The list of sizes it also builds is
      never read and int() cannot fail on digits, so it is left out. */
  method ReadTimes(timed: seq<Match>) returns (r: Result<seq<real>>)
    requires IsNumGroup(timed, 1)
    ensures r == FloatsOf(timed, 1)
  {
    var times: seq<real> := [];
    var i := 0;
    while i < |timed|
      invariant 0 <= i <= |timed|
      invariant FloatsOf(timed[..i], 1) == Success(times)
    {
      var t := ToFloat(timed[i].groups[1]);
      if t.Failure? {
        FirstBadFloat(timed, 1, i);
        return Failure(t.error);
      }
      FloatsPrefix(timed, 1, i, times, t.value);
      times := times + [t.value];
      i := i + 1;
    }
    assert timed[..i] == timed;
    return Success(times);
  }

  /** The second loop of the fallback (charts.py:85-92). */
  method CollectOps(ops: seq<Match>) returns (r: Result<seq<SslRow>>)
    requires AllOps(ops)
    ensures r == OpsRows(ops)
  {
    var data: seq<SslRow> := [];
    var i := 0;
    while i < |ops|
      invariant 0 <= i <= |ops|
      invariant OpsRows(ops[..i]) == Success(data)
    {
      var g := ops[i].groups;
      var block := DigitsValue(g[0]);
      var count := DigitsValue(g[1]);
      var secs := ToFloat(g[2]);
      if secs.Failure? {
        FirstBadOps(ops, i);
        return Failure(secs.error);
      }
      if TooLargeForFloat(count * block) {
        FirstBadOps(ops, i);
        return Failure(OverflowError);
      }
      if secs.value == 0.0 {
        FirstBadOps(ops, i);
        return Failure(ZeroDivisionError);
      }
      var row := SslRow(block, Mbps(count, block, secs.value), Label);
      OpsPrefix(ops, i, data, row);
      data := data + [row];
      i := i + 1;
    }
    assert ops[..i] == ops;
    return Success(data);
  }

  method Fallback(text: string) returns (r: Result<seq<SslRow>>)
    ensures r == FallbackSpec(text)
  {
    var times := ReadTimes(TimedMatches(text));
    if times.Failure? {
      return Failure(times.error);
    }
    var data := CollectOps(OpsMatches(text));
    if data.Failure? {
      return Failure(data.error);
    }
    return Success(SortByBlock(data.value));
  }

  /** What parse_openssl_results returns: the summary table when both its
      header and its AES-128-GCM row are found, the progress lines otherwise. */
  function ParseOpensslSpec(text: string): (r: Result<seq<SslRow>>)
    ensures r.Success? ==> SortedByBlock(r.value) && forall i :: 0 <= i < |r.value| ==> r.value[i].labelText == Label
  {
    var header := Search(SpeedHeader, text);
    var row := Search(SpeedRow, text);
    if header.None? || row.None? then
      var r := FallbackSpec(text);
      FallbackLabels(text);
      r
    else
      var r := SummarySpec(header.value, row.value);
      SummaryLabels(header.value, row.value);
      r
  }

  lemma FallbackLabels(text: string)
    ensures FallbackSpec(text).Success? ==> forall i :: 0 <= i < |FallbackSpec(text).value| ==> FallbackSpec(text).value[i].labelText == Label
  {
    if FallbackSpec(text).Success? {
      var rows := OpsRows(OpsMatches(text)).value;
      LabelsKept(rows, FallbackSpec(text).value);
    }
  }

  lemma SummaryLabels(header: Match, row: Match)
    requires |header.groups| == 1 && |row.groups| == 1
    ensures SummarySpec(header, row).Success? ==>
      forall i :: 0 <= i < |SummarySpec(header, row).value| ==> SummarySpec(header, row).value[i].labelText == Label
  {
    if SummarySpec(header, row).Success? {
      LabelsKept(Paired(HeaderSizes(header), RowKilos(row).value), SummarySpec(header, row).value);
    }
  }

  /** A permutation of rows that all carry the label carries it too. */
  lemma LabelsKept(rows: seq<SslRow>, perm: seq<SslRow>)
    requires multiset(perm) == multiset(rows)
    requires forall i :: 0 <= i < |rows| ==> rows[i].labelText == Label
    ensures forall i :: 0 <= i < |perm| ==> perm[i].labelText == Label
  {
    forall i | 0 <= i < |perm| ensures perm[i].labelText == Label {
      assert perm[i] in multiset(rows);
      var j :| 0 <= j < |rows| && rows[j] == perm[i];
    }
  }

  method ParseOpensslResults(text: string) returns (r: Result<seq<SslRow>>)
    ensures r == ParseOpensslSpec(text)
  {
    var header := Search(SpeedHeader, text);
    var row := Search(SpeedRow, text);
    if header.None? || row.None? {
      r := Fallback(text);
    } else {
      r := SummarySpec(header.value, row.value);
    }
  }
}
