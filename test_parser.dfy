/** parse_test_results of test_parser.py: the same sweep log as
    parse_mylib_results of charts.py, read with the literal section headers,
    a `(?===|$)` section end and an integer chunk size. A DataFrame is
    modelled as the sequence of its rows. */
module TestParser {
  import opened Results
  import opened Chars
  import opened Regex
  import opened SweepLog

  /** One row: Threads, ChunkMB and Throughput (test_parser.py:31-32). */
  datatype Row = Row(threads: nat, chunkMB: nat, throughput: real)

  /** The dictionary test_parser.py:28-32 builds from one match: int() of the
      thread count and of the chunk size, which cannot fail on a run of
      digits, then float() of the throughput, which can. */
  function ConvertRow(g: seq<string>): (r: Result<Row>)
    requires GroupsFit(Triplet(true), g)
    ensures r.Success? <==> ToFloat(g[2]).Success?
    ensures r.Success? ==> (r.value.threads == DigitsValue(g[0]) && r.value.chunkMB == DigitsValue(g[1])
      && ToFloat(g[2]) == Success(r.value.throughput))
    ensures r.Failure? ==> r.error == ValueError(g[2])
  {
    var throughput :- ToFloat(g[2]);
    Success(Row(DigitsValue(g[0]), DigitsValue(g[1]), throughput))
  }

  predicate AllTriplets(ms: seq<Match>) {
    forall i :: 0 <= i < |ms| ==> GroupsFit(Triplet(true), ms[i].groups)
  }

  /** The rows the loop of test_parser.py:27-32 appends, or the error of the
      first match whose throughput does not convert. */
  function ConvertAll(ms: seq<Match>): (r: Result<seq<Row>>)
    requires AllTriplets(ms)
    ensures r.Success? <==> forall i :: 0 <= i < |ms| ==> ConvertRow(ms[i].groups).Success?
    ensures r.Success? ==> (|r.value| == |ms|
      && forall i :: 0 <= i < |ms| ==> ConvertRow(ms[i].groups) == Success(r.value[i]))
    decreases |ms|
  {
    if ms == [] then Success([])
    else
      var init := ms[..|ms| - 1];
      assert forall i :: 0 <= i < |init| ==> init[i] == ms[i];
      var rows :- ConvertAll(init);
      var row :- ConvertRow(ms[|ms| - 1].groups);
      Success(rows + [row])
  }

  /** Converting one more match extends the table by its row. */
  lemma ConvertPrefix(ms: seq<Match>, i: nat, rows: seq<Row>, row: Row)
    requires AllTriplets(ms) && i < |ms|
    requires ConvertAll(ms[..i]) == Success(rows) && ConvertRow(ms[i].groups) == Success(row)
    ensures ConvertAll(ms[..i + 1]) == Success(rows + [row])
  {
    var p := ms[..i + 1];
    assert p[..|p| - 1] == ms[..i] && p[|p| - 1] == ms[i];
  }

  /** When the rows before match i convert and match i does not, the
      conversion fails with match i's error. */
  lemma {:induction false} FirstFailure(ms: seq<Match>, i: nat)
    requires AllTriplets(ms) && i < |ms|
    requires ConvertAll(ms[..i]).Success? && ConvertRow(ms[i].groups).Failure?
    ensures ConvertAll(ms) == Failure(ConvertRow(ms[i].groups).error)
    decreases |ms|
  {
    var init := ms[..|ms| - 1];
    if i < |ms| - 1 {
      assert init[..i] == ms[..i] && init[i] == ms[i];
      FirstFailure(init, i);
    } else {
      assert init == ms[..i];
    }
  }

  /** The text extract_data receives for op (test_parser.py:12-15, 36-39):
      group 1 of the section match, or "" when the header is missing. */
  function SectionText(content: string, op: Op): (t: string)
    ensures Search(SweepHeader(op, true), content).None? ==> t == ""
    ensures NoMarker(t)
  {
    match Search(SweepHeader(op, true), content)
    case None => ""
    case Some(m) => SearchHeader(content, op, true); m.groups[0]
  }

  /** What extract_data (test_parser.py:17-34) returns: an empty table for
      an empty text, otherwise one row per data line. */
  function ExtractDataSpec(text: string): Result<seq<Row>> {
    if text == [] then Success([]) else ConvertAll(FindAll(Triplet(true), text, 0))
  }

  method ExtractData(text: string) returns (r: Result<seq<Row>>)
    ensures r == ExtractDataSpec(text)
  {
    if text == [] {
      return Success([]);
    }
    var ms := FindAll(Triplet(true), text, 0);
    r := ConvertMatches(ms);
  }

  /** The loop of test_parser.py:27-32 over the matches of one section. */
  method ConvertMatches(ms: seq<Match>) returns (r: Result<seq<Row>>)
    requires AllTriplets(ms)
    ensures r == ConvertAll(ms)
  {
    var rows: seq<Row> := [];
    var i := 0;
    while i < |ms|
      invariant 0 <= i <= |ms|
      invariant ConvertAll(ms[..i]) == Success(rows)
    {
      var g := ms[i].groups;
      var threads := DigitsValue(g[0]);
      var chunk := DigitsValue(g[1]);
      var throughput := ToFloat(g[2]);
      if throughput.Failure? {
        FirstFailure(ms, i);
        return Failure(throughput.error);
      }
      var row := Row(threads, chunk, throughput.value);
      ConvertPrefix(ms, i, rows, row);
      rows := rows + [row];
      i := i + 1;
    }
    assert ms[..i] == ms;
    return Success(rows);
  }

  /** What parse_test_results returns: the encryption table and the
      decryption table; the first conversion error aborts the parse. */
  function ParseTestSpec(content: string): Result<(seq<Row>, seq<Row>)> {
    var enc :- ExtractDataSpec(SectionText(content, Encryption));
    var dec :- ExtractDataSpec(SectionText(content, Decryption));
    Success((enc, dec))
  }

  method ParseTestResults(content: string) returns (r: Result<(seq<Row>, seq<Row>)>)
    ensures r == ParseTestSpec(content)
  {
    var encText := SectionText(content, Encryption);
    var decText := SectionText(content, Decryption);
    var enc := ExtractData(encText);
    if enc.Failure? {
      return Failure(enc.error);
    }
    var dec := ExtractData(decText);
    if dec.Failure? {
      return Failure(dec.error);
    }
    return Success((enc.value, dec.value));
  }

  /** A section found in the text: its body holds no "==" and stops at the
      next "==", at the end of the text, or just before a newline that ends
      the text; its header is the first one in the text. */
  lemma SectionBody(content: string, op: Op)
    requires Search(SweepHeader(op, true), content).Some?
    ensures var m := Search(SweepHeader(op, true), content).value;
      var h := m.start + |LiteralHeader(op)|;
      && StartsAt(content, m.start, LiteralHeader(op))
      && SectionText(content, op) == m.groups[0]
      && (m.end == |content| || StartsAt(content, m.end, "==")
        || (m.end + 1 == |content| && content[m.end] == '\n'))
      && h <= m.end && m.groups[0] == content[h..m.end]
      && (forall j :: h <= j < m.end ==>
            !StartsAt(content, j, "==") && !(j + 1 == |content| && content[j] == '\n'))
      && NoMarker(m.groups[0])
      && (forall q :: 0 <= q < m.start ==> !StartsAt(content, q, LiteralHeader(op)))
  {
    var m := Search(SweepHeader(op, true), content).value;
    SearchHeader(content, op, true);
    var h := m.start + |LiteralHeader(op)|;
    forall j | h <= j < m.end
      ensures !StartsAt(content, j, "==") && !(j + 1 == |content| && content[j] == '\n')
    {
      assert !SectionEnd(content, j, true);
    }
    forall q | 0 <= q < m.start ensures !StartsAt(content, q, LiteralHeader(op)) {
      assert SweepHeaderAt(content, q, op, true).None?;
      assert SweepHeaderEnd(content, q, op, true).None?;
    }
  }

  // ----- reading back a rendered log -----

  /** The row test_parser.py reads from a rendered line. */
  function RowOf(x: Sample): Row
    requires WellFormed(x)
  {
    Row(x.threads, x.chunk, Value(x))
  }

  function RowsOf(xs: seq<Sample>): seq<Row>
    requires AllWellFormed(xs)
  {
    seq(|xs|, i requires 0 <= i < |xs| => RowOf(xs[i]))
  }

  /** int() and float() read back what str() wrote. */
  lemma ConvertFields(x: Sample)
    requires WellFormed(x)
    ensures GroupsFit(Triplet(true), Fields(x)) && ConvertRow(Fields(x)) == Success(RowOf(x))
  {
    DigitsOfNat(x.threads);
    DigitsOfNat(x.chunk);
    FloatOfPoint(x.whole, x.frac);
  }

  /** Appending a match that converts appends its row. */
  lemma ConvertSnoc(init: seq<Match>, m: Match, rows: seq<Row>, row: Row)
    requires AllTriplets(init) && GroupsFit(Triplet(true), m.groups)
    requires ConvertAll(init) == Success(rows) && ConvertRow(m.groups) == Success(row)
    ensures AllTriplets(init + [m]) && ConvertAll(init + [m]) == Success(rows + [row])
  {
    var ms := init + [m];
    assert ms[..|ms| - 1] == init;
  }

  lemma RowsSnoc(xs: seq<Sample>)
    requires AllWellFormed(xs) && xs != []
    ensures RowsOf(xs) == RowsOf(xs[..|xs| - 1]) + [RowOf(xs[|xs| - 1])]
  {
    var init := xs[..|xs| - 1];
    assert forall i :: 0 <= i < |init| ==> init[i] == xs[i];
  }

  lemma {:induction false} ConvertLines(ms: seq<Match>, xs: seq<Sample>)
    requires AllWellFormed(xs) && |ms| == |xs| && forall i :: 0 <= i < |xs| ==> ms[i].groups == Fields(xs[i])
    ensures AllTriplets(ms) && ConvertAll(ms) == Success(RowsOf(xs))
    decreases |xs|
  {
    if xs != [] {
      var n := |xs| - 1;
      var init, inits := ms[..n], xs[..n];
      assert forall i :: 0 <= i < n ==> init[i] == ms[i] && inits[i] == xs[i];
      ConvertLines(init, inits);
      ConvertFields(xs[n]);
      ConvertSnoc(init, ms[n], RowsOf(inits), RowOf(xs[n]));
      LastSplit(ms);
      RowsSnoc(xs);
    } else {
      assert RowsOf(xs) == [];
    }
  }

  /** The rows of a rendered block of lines, with or without its closing
      newline. */
  lemma ExtractBlock(xs: seq<Sample>, closed: bool)
    requires AllWellFormed(xs)
    ensures ExtractDataSpec(Lines(xs) + (if closed then "\n" else "")) == Success(RowsOf(xs))
  {
    var body := Lines(xs) + (if closed then "\n" else "");
    LinesEmpty(xs);
    if body != [] {
      BlockScan(xs, true, closed);
      var ms := FindAll(Triplet(true), body, 0);
      ConvertLines(ms, xs);
      assert ExtractDataSpec(body) == ConvertAll(ms);
    } else {
      assert xs == [];
      assert RowsOf(xs) == [];
    }
  }

  /** Parsing a rendered log gives back its measurements, in order. */
  lemma ParseRoundTrip(enc: seq<Sample>, dec: seq<Sample>)
    requires AllWellFormed(enc) && AllWellFormed(dec)
    ensures ParseTestSpec(Log(enc, dec)) == Success((RowsOf(enc), RowsOf(dec)))
  {
    var text := Log(enc, dec);
    EncryptionSection(enc, dec, true);
    DecryptionSection(enc, dec, true, text, |RenderedSection(Encryption, enc)|, Lines(dec) + "\n");
    DropNewline(Lines(dec));
    assert SectionText(text, Encryption) == Lines(enc) + "\n";
    assert SectionText(text, Decryption) == Lines(dec) + "";
    ExtractBlock(enc, true);
    ExtractBlock(dec, false);
  }

  /** A log without a decryption section gives an empty decryption table. */
  lemma ParseEncryptionOnly(enc: seq<Sample>)
    requires AllWellFormed(enc)
    ensures ParseTestSpec(EncryptionLog(enc)) == Success((RowsOf(enc), []))
  {
    var text := EncryptionLog(enc);
    EncryptionSectionAlone(enc, true, text, Lines(enc) + "\n");
    DropNewline(Lines(enc));
    NoDecryptionSection(enc, true);
    assert SectionText(text, Encryption) == Lines(enc) + "";
    ExtractBlock(enc, false);
  }
}
