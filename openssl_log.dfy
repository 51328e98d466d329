/** The output of `openssl speed -evp aes-128-gcm` as parse_openssl_results
    reads it: one progress line per block size, in the form the comment at
    charts.py:76 shows, and the summary table of charts.py:60-62. Reading a
    rendered output back recovers its measurements: from the summary table
    when whitespace follows the last "bytes" of its header line before the
    newline, and from the progress lines when the header line ends right
    after "bytes". */
module OpensslLog {
  import opened Results
  import opened Chars
  import opened Charts

  // ----- the rendered output -----

  /** A number printed as whole.frac, as the speeds and the times are. */
  datatype Decimal = Decimal(whole: nat, frac: string)

  predicate DecimalOk(x: Decimal) {
    x.frac != [] && IsDigits(x.frac)
  }

  function DecimalText(x: Decimal): (t: string)
    requires DecimalOk(x)
    ensures IsDecimalText(t)
  {
    var w := NatToDigits(x.whole);
    PointRun(w, x.frac);
    assert (w + "." + x.frac)[0] == w[0];
    w + "." + x.frac
  }

  /** The value float() reads from the printed number. */
  function DecimalValue(x: Decimal): real
    requires DecimalOk(x)
  {
    x.whole as real + Fraction(x.frac)
  }

  lemma ReadDecimal(x: Decimal)
    requires DecimalOk(x)
    ensures ToFloat(DecimalText(x)) == Success(DecimalValue(x))
  {
    FloatOfPoint(x.whole, x.frac);
  }

  predicate AllOk(ks: seq<Decimal>) {
    forall i :: 0 <= i < |ks| ==> DecimalOk(ks[i])
  }

  /** The text of a printed whole number: one digit or more. */
  predicate IsNumeral(t: string) {
    t != [] && IsDigits(t)
  }

  /** The text of a printed decimal: a digit, then digits and dots. */
  predicate IsDecimalText(t: string) {
    t != [] && IsDigit(t[0]) && IsNumRun(t)
  }

  predicate Numerals(ts: seq<string>) {
    forall i :: 0 <= i < |ts| ==> IsNumeral(ts[i])
  }

  predicate DecimalTexts(vs: seq<string>) {
    forall i :: 0 <= i < |vs| ==> IsDecimalText(vs[i])
  }

  /** The sizes as printed. */
  function SizeTexts(sizes: seq<nat>): (ts: seq<string>)
    ensures |ts| == |sizes| && Numerals(ts)
    ensures forall i :: 0 <= i < |sizes| ==> ts[i] == NatToDigits(sizes[i])
  {
    seq(|sizes|, i requires 0 <= i < |sizes| => NatToDigits(sizes[i]))
  }

  /** The k-values as printed. */
  function KiloTexts(ks: seq<Decimal>): (vs: seq<string>)
    requires AllOk(ks)
    ensures |vs| == |ks| && DecimalTexts(vs)
    ensures forall i :: 0 <= i < |ks| ==> vs[i] == DecimalText(ks[i])
  {
    seq(|ks|, i requires 0 <= i < |ks| => DecimalText(ks[i]))
  }

  /** A header cell: " <n> bytes", for the printed size t. */
  function SizeCell(t: string): string {
    " " + t + " bytes"
  }

  function SizeCells(ts: seq<string>): string {
    if ts == [] then "" else SizeCell(ts[0]) + SizeCells(ts[1..])
  }

  /** A row cell: " <v>k", a speed in thousands of bytes per second. */
  function KiloCell(v: string): string {
    " " + v + "k"
  }

  function KiloCells(vs: seq<string>): string {
    if vs == [] then "" else KiloCell(vs[0]) + KiloCells(vs[1..])
  }

  function HeaderLine(sizes: seq<nat>): string {
    "type" + SizeCells(SizeTexts(sizes))
  }

  function RowLine(ks: seq<Decimal>): string
    requires AllOk(ks)
  {
    "AES-128-GCM" + KiloCells(KiloTexts(ks))
  }

  /** What ends the header line: a space before the newline, or the newline alone. */
  function Pad(padded: bool): string {
    if padded then " \n" else "\n"
  }

  /** The summary table: the header line, then the AES-128-GCM row. */
  function Summary(sizes: seq<nat>, ks: seq<Decimal>, padded: bool): string
    requires AllOk(ks)
  {
    HeaderLine(sizes) + Pad(padded) + RowLine(ks) + "\n"
  }

  /** The speeds float() reads from the row. */
  function Kilos(ks: seq<Decimal>): (r: seq<real>)
    requires AllOk(ks)
    ensures |r| == |ks| && forall i :: 0 <= i < |ks| ==> r[i] == DecimalValue(ks[i])
  {
    seq(|ks|, i requires 0 <= i < |ks| => DecimalValue(ks[i]))
  }

  /** One progress line: the block size, how many operations ran, and in how
      many seconds. */
  datatype Progress = Progress(block: nat, ops: nat, time: Decimal)

  predicate AllTimed(xs: seq<Progress>) {
    forall i :: 0 <= i < |xs| ==> DecimalOk(xs[i].time)
  }

  /** A line the fallback converts without an error: a non-zero time, and a
      byte count a double can hold. */
  predicate Measured(x: Progress) {
    DecimalOk(x.time) && DecimalValue(x.time) != 0.0 && !TooLargeForFloat(x.ops * x.block)
  }

  predicate AllMeasured(xs: seq<Progress>) {
    forall i :: 0 <= i < |xs| ==> Measured(xs[i])
  }

  /** What openssl prints before the block size. */
  const Doing: string := "Doing AES-128-GCM ops for 3s "

  /** A progress line with the printed block size b, count o and time t,
      "Doing AES-128-GCM ops for 3s on <b> size blocks: <o> AES-128-GCM ops
      in <t>s", in three parts: up to the block size, up to the count, and
      the rest. */
  function LineOf(b: string, o: string, t: string): string {
    BlockPart(b) + CountPart(o) + TimePart(t)
  }

  function BlockPart(b: string): string {
    Doing + "on" + " " + b
  }

  function CountPart(o: string): string {
    " " + "size blocks:" + " " + o
  }

  function TimePart(t: string): string {
    " " + "AES-128-GCM ops" + " in" + " " + t + "s"
  }

  function ProgressLine(x: Progress): string
    requires DecimalOk(x.time)
  {
    LineOf(NatToDigits(x.block), NatToDigits(x.ops), DecimalText(x.time))
  }

  /** Each line followed by its newline. */
  function ProgressLines(xs: seq<Progress>): string
    requires AllTimed(xs)
  {
    if xs == [] then "" else ProgressLine(xs[0]) + "\n" + ProgressLines(xs[1..])
  }

  /** The whole output: the progress lines, then the summary table. */
  function Output(xs: seq<Progress>, sizes: seq<nat>, ks: seq<Decimal>, padded: bool): string
    requires AllTimed(xs) && AllOk(ks)
  {
    ProgressLines(xs) + Summary(sizes, ks, padded)
  }

  /** The row charts.py:87-92 makes of a line. */
  function ProgressRow(x: Progress): SslRow
    requires Measured(x)
  {
    SslRow(x.block, Mbps(x.ops, x.block, DecimalValue(x.time)), Label)
  }

  function ProgressRows(xs: seq<Progress>): (r: seq<SslRow>)
    requires AllMeasured(xs)
    ensures |r| == |xs| && forall i :: 0 <= i < |xs| ==> r[i] == ProgressRow(xs[i])
  {
    seq(|xs|, i requires 0 <= i < |xs| => ProgressRow(xs[i]))
  }

  // ----- the characters of the rendered pieces -----

  /** Every character of t is a digit or one of letters. */
  predicate Spelled(t: string, letters: string) {
    forall j :: 0 <= j < |t| ==> IsDigit(t[j]) || t[j] in letters
  }

  lemma SpelledConcat(a: string, b: string, letters: string)
    requires Spelled(a, letters) && Spelled(b, letters)
    ensures Spelled(a + b, letters)
  {
    forall j | 0 <= j < |a + b| ensures IsDigit((a + b)[j]) || (a + b)[j] in letters {
      if j >= |a| {
        assert (a + b)[j] == b[j - |a|];
      }
    }
  }

  /** A character that is neither a digit nor one of letters is not in t. */
  lemma SpelledLacks(t: string, letters: string, c: char)
    requires Spelled(t, letters) && !IsDigit(c) && c !in letters
    ensures c !in t
  {
    forall j | 0 <= j < |t| ensures t[j] != c {
    }
  }

  const HeaderLetters: string := " bytpes"
  const RowLetters: string := " AES-GCM.k"

  lemma {:induction false} SizeCellsSpelled(ts: seq<string>)
    requires Numerals(ts)
    ensures Spelled(SizeCells(ts), HeaderLetters)
    decreases |ts|
  {
    if ts != [] {
      SizeCellsSpelled(ts[1..]);
      assert Spelled(ts[0], HeaderLetters);
      SpelledConcat(" ", ts[0], HeaderLetters);
      SpelledConcat(" " + ts[0], " bytes", HeaderLetters);
      SpelledConcat(SizeCell(ts[0]), SizeCells(ts[1..]), HeaderLetters);
    }
  }

  lemma {:induction false} KiloCellsSpelled(vs: seq<string>)
    requires DecimalTexts(vs)
    ensures Spelled(KiloCells(vs), RowLetters)
    decreases |vs|
  {
    if vs != [] {
      KiloCellsSpelled(vs[1..]);
      assert Spelled(vs[0], RowLetters);
      SpelledConcat(" ", vs[0], RowLetters);
      SpelledConcat(" " + vs[0], "k", RowLetters);
      SpelledConcat(KiloCell(vs[0]), KiloCells(vs[1..]), RowLetters);
    }
  }

  /** The header line holds no newline, no 'A' and no 'o' or 'O'. */
  lemma HeaderLineChars(sizes: seq<nat>)
    ensures '\n' !in HeaderLine(sizes) && 'A' !in HeaderLine(sizes)
    ensures 'o' !in HeaderLine(sizes) && 'O' !in HeaderLine(sizes)
  {
    var h := HeaderLine(sizes);
    SizeCellsSpelled(SizeTexts(sizes));
    SpelledConcat("type", SizeCells(SizeTexts(sizes)), HeaderLetters);
    SpelledLacks(h, HeaderLetters, '\n');
    SpelledLacks(h, HeaderLetters, 'A');
    SpelledLacks(h, HeaderLetters, 'o');
    SpelledLacks(h, HeaderLetters, 'O');
  }

  /** The row holds no newline and no 'o' or 'O'. */
  lemma RowLineChars(ks: seq<Decimal>)
    requires AllOk(ks)
    ensures '\n' !in RowLine(ks) && 'o' !in RowLine(ks) && 'O' !in RowLine(ks)
  {
    var r := RowLine(ks);
    KiloCellsSpelled(KiloTexts(ks));
    SpelledConcat("AES-128-GCM", KiloCells(KiloTexts(ks)), RowLetters);
    SpelledLacks(r, RowLetters, '\n');
    SpelledLacks(r, RowLetters, 'o');
    SpelledLacks(r, RowLetters, 'O');
  }
}
