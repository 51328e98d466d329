/** The sweep log as the benchmark writes it: a header per section, then one
    line `threads | chunk | whole.frac` per measurement. Rendering a log from
    its measurements and reading it back with the patterns of both parsers
    recovers every line's fields. */
module SweepLog {
  import opened Results
  import opened Chars
  import opened Regex

  /** One measurement line: the throughput is printed as whole.frac. */
  datatype Sample = Sample(threads: nat, chunk: nat, whole: nat, frac: string)

  predicate WellFormed(x: Sample) {
    x.frac != [] && IsDigits(x.frac)
  }

  predicate AllWellFormed(xs: seq<Sample>) {
    forall i :: 0 <= i < |xs| ==> WellFormed(xs[i])
  }

  function Throughput(x: Sample): (t: string)
    requires WellFormed(x)
    ensures |t| > 0 && IsNumRun(t) && IsDigit(t[0])
  {
    var w := NatToDigits(x.whole);
    assert (w + "." + x.frac)[0] == w[0];
    w + "." + x.frac
  }

  /** The value float() reads from the throughput. */
  function Value(x: Sample): real
    requires WellFormed(x)
  {
    x.whole as real + Fraction(x.frac)
  }

  function Line(x: Sample): string
    requires WellFormed(x)
  {
    NatToDigits(x.threads) + " | " + NatToDigits(x.chunk) + " | " + Throughput(x)
  }

  /** Each line preceded by its newline. */
  function Lines(xs: seq<Sample>): string
    requires AllWellFormed(xs)
  {
    if xs == [] then "" else "\n" + Line(xs[0]) + Lines(xs[1..])
  }

  /** One section: its header, its lines, and the newline that closes them. */
  function RenderedSection(op: Op, xs: seq<Sample>): string
    requires AllWellFormed(xs)
  {
    LiteralHeader(op) + (Lines(xs) + "\n")
  }

  /** A complete log with both sections. */
  function Log(enc: seq<Sample>, dec: seq<Sample>): string
    requires AllWellFormed(enc) && AllWellFormed(dec)
  {
    RenderedSection(Encryption, enc) + RenderedSection(Decryption, dec)
  }

  /** A log whose decryption section was never written. */
  function EncryptionLog(enc: seq<Sample>): string
    requires AllWellFormed(enc)
  {
    RenderedSection(Encryption, enc)
  }

  /** The three groups the triplet pattern captures from a line. */
  function Fields(x: Sample): seq<string>
    requires WellFormed(x)
  {
    [NatToDigits(x.threads), NatToDigits(x.chunk), Throughput(x)]
  }

  // ----- literals inside a text -----

  /** A text holding u + v at p holds u at p and v right after it. */
  lemma StartsAtConcat(b: string, p: nat, u: string, v: string)
    requires StartsAt(b, p, u + v)
    ensures StartsAt(b, p, u) && StartsAt(b, p + |u|, v)
  {
    assert b[p..p + |u|] == (u + v)[..|u|];
    assert b[p + |u|..p + |u| + |v|] == (u + v)[|u|..];
  }

  /** The same, with the position of the second part named. */
  lemma StartsAtSplit(b: string, p: nat, q: nat, u: string, v: string)
    requires StartsAt(b, p, u + v) && q == p + |u|
    ensures StartsAt(b, p, u) && StartsAt(b, q, v)
  {
    StartsAtConcat(b, p, u, v);
  }

  /** A run given as a literal piece of the text, followed by a character
      outside its class, is the run RunEnd finds. */
  lemma PieceRun(b: string, lo: nat, piece: string, k: CharClass)
    requires StartsAt(b, lo, piece)
    requires forall j :: 0 <= j < |piece| ==> InClass(piece[j], k)
    requires lo + |piece| == |b| || !InClass(b[lo + |piece|], k)
    ensures RunEnd(b, lo, k) == lo + |piece| && b[lo..lo + |piece|] == piece
  {
    forall j | lo <= j < lo + |piece| ensures InClass(b[j], k) {
      CharOfLiteral(b, lo, piece, j - lo);
    }
    RunEndIs(b, lo, lo + |piece|, k);
  }

  lemma DigitsInClass(t: string, k: CharClass)
    requires IsDigits(t) && k != Space
    ensures forall j :: 0 <= j < |t| ==> InClass(t[j], k)
  {
  }

  // ----- one line -----

  /** The triplet pattern, tried at the start of a line that is followed by a
      character that cannot continue a number, captures the line's fields. */
  lemma LineMatch(b: string, p: nat, e: nat, x: Sample, integerChunk: bool)
    requires WellFormed(x) && e == p + |Line(x)| && StartsAt(b, p, Line(x))
    requires e == |b| || !InClass(b[e], DigitOrDot)
    ensures TripletAt(b, p, integerChunk) == Some(Match(p, e, Fields(x)))
  {
    var t, c, v := NatToDigits(x.threads), NatToDigits(x.chunk), Throughput(x);
    DigitsOfNat(x.threads);
    DigitsOfNat(x.chunk);
    var p1 := p + |t|;
    var p3 := p1 + 3;
    var p4 := p3 + |c|;
    var p6 := p4 + 3;
    PiecesAt(b, p, p1, p3, p4, p6, e, t, c, v);
    PiecesPlaced(b, p, p1, p3, p4, p6, e, t, c, v, integerChunk);
  }

  /** The triplet pattern over `t | c | v`, each piece a run of its group,
      with the positions of the pieces named. */
  lemma PiecesPlaced(b: string, p: nat, p1: nat, p3: nat, p4: nat, p6: nat, e: nat,
                     t: string, c: string, v: string, integerChunk: bool)
    requires p1 == p + |t| && p3 == p1 + 3 && p4 == p3 + |c| && p6 == p4 + 3 && e == p6 + |v|
    requires t != [] && IsDigits(t) && c != [] && IsDigits(c) && v != [] && IsNumRun(v) && IsDigit(v[0])
    requires StartsAt(b, p, t) && StartsAt(b, p1, " | ") && StartsAt(b, p3, c)
    requires StartsAt(b, p4, " | ") && StartsAt(b, p6, v)
    requires e == |b| || !InClass(b[e], DigitOrDot)
    ensures TripletAt(b, p, integerChunk) == Some(Match(p, e, [t, c, v]))
  {
    CharOfLiteral(b, p3, c, 0);
    CharOfLiteral(b, p6, v, 0);
    FieldBar(b, p, p1, p3, t, Digit);
    FieldBar(b, p3, p4, p6, c, ChunkClass(integerChunk));
    ValuePiece(b, p6, e, v);
    TripletFound(b, p, p1, p3, p4, p6, e, integerChunk, t, c, v);
  }

  /** Where each piece of `t | c | v` lies. */
  lemma PiecesAt(b: string, p: nat, p1: nat, p3: nat, p4: nat, p6: nat, e: nat, t: string, c: string, v: string)
    requires p1 == p + |t| && p3 == p1 + 3 && p4 == p3 + |c| && p6 == p4 + 3
    requires StartsAt(b, p, t + " | " + c + " | " + v) && e == p + |t + " | " + c + " | " + v|
    ensures StartsAt(b, p, t) && StartsAt(b, p1, " | ") && StartsAt(b, p3, c)
    ensures StartsAt(b, p4, " | ") && StartsAt(b, p6, v) && e == p6 + |v|
  {
    StartsAtSplit(b, p, p6, t + " | " + c + " | ", v);
    StartsAtSplit(b, p, p4, t + " | " + c, " | ");
    StartsAtSplit(b, p, p3, t + " | ", c);
    StartsAtSplit(b, p, p1, t, " | ");
  }

  /** The separator ` | ` between two fields, followed by a field. */
  lemma Separator(b: string, q: nat)
    requires StartsAt(b, q, " | ") && q + 3 < |b| && !IsSpace(b[q + 3])
    ensures b[q] == ' ' && BarAt(b, q) == Some(q + 3)
  {
    CharOfLiteral(b, q, " | ", 0);
    CharOfLiteral(b, q, " | ", 1);
    CharOfLiteral(b, q, " | ", 2);
    RunEndIs(b, q, q + 1, Space);
    RunEndIs(b, q + 2, q + 3, Space);
  }

  /** A field of digits, then the separator and the first digit of the next
      field. */
  lemma FieldBar(b: string, lo: nat, hi: nat, next: nat, piece: string, k: CharClass)
    requires hi == lo + |piece| && next == hi + 3
    requires StartsAt(b, lo, piece) && IsDigits(piece) && k != Space
    requires StartsAt(b, hi, " | ") && next < |b| && IsDigit(b[next])
    ensures RunEnd(b, lo, k) == hi && b[lo..hi] == piece && BarAt(b, hi) == Some(next)
  {
    Separator(b, hi);
    DigitsInClass(piece, k);
    PieceRun(b, lo, piece, k);
  }

  /** The throughput run, followed by a character that cannot continue it. */
  lemma ValuePiece(b: string, lo: nat, e: nat, v: string)
    requires e == lo + |v| && StartsAt(b, lo, v) && IsNumRun(v)
    requires e == |b| || !InClass(b[e], DigitOrDot)
    ensures RunEnd(b, lo, DigitOrDot) == e && b[lo..e] == v
  {
    PieceRun(b, lo, v, DigitOrDot);
  }

  /** The triplet pattern at p, once its runs are known. */
  lemma TripletFound(b: string, p: nat, p1: nat, p3: nat, p4: nat, p6: nat, e: nat, integerChunk: bool,
                     t: string, c: string, v: string)
    requires p < p1 && p1 + 3 == p3 < p4 && p4 + 3 == p6 < e <= |b|
    requires RunEnd(b, p, Digit) == p1 && BarAt(b, p1) == Some(p3)
    requires RunEnd(b, p3, ChunkClass(integerChunk)) == p4 && BarAt(b, p4) == Some(p6)
    requires RunEnd(b, p6, DigitOrDot) == e
    requires b[p..p1] == t && b[p3..p4] == c && b[p6..e] == v
    ensures TripletAt(b, p, integerChunk) == Some(Match(p, e, [t, c, v]))
  {
  }

  // ----- a block of lines -----

  /** No character from position e on can start or continue a number. */
  predicate NumberFree(b: string, e: nat) {
    forall j :: e <= j < |b| ==> !InClass(b[j], DigitOrDot)
  }

  /** Where no digit follows, the triplet pattern finds nothing. */
  lemma {:induction false} NoTripletAfter(b: string, from: nat, integerChunk: bool)
    requires from <= |b| && NumberFree(b, from)
    ensures FindAll(Triplet(integerChunk), b, from) == []
    decreases |b| - from
  {
    if from < |b| {
      assert RunEnd(b, from, Digit) == from;
      NoTripletAfter(b, from + 1, integerChunk);
    }
  }

  /** A newline and then a match: the newline is passed over. */
  lemma ScanStep(b: string, from: nat, m: Match, integerChunk: bool)
    requires from < |b| && b[from] == '\n' && TripletAt(b, from + 1, integerChunk) == Some(m)
    ensures FindAll(Triplet(integerChunk), b, from) == [m] + FindAll(Triplet(integerChunk), b, m.end)
  {
    NoTripletAtNewline(b, from, integerChunk);
    FindAllPass(b, from, integerChunk);
    FindAllTake(b, from + 1, m, integerChunk);
  }

  lemma NoTripletAtNewline(b: string, from: nat, integerChunk: bool)
    requires from < |b| && b[from] == '\n'
    ensures MatchAt(Triplet(integerChunk), b, from).None?
  {
    assert RunEnd(b, from, Digit) == from;
  }

  /** A position where the triplet pattern fails is passed over. */
  lemma FindAllPass(b: string, from: nat, integerChunk: bool)
    requires from < |b| && MatchAt(Triplet(integerChunk), b, from).None?
    ensures FindAll(Triplet(integerChunk), b, from) == FindAll(Triplet(integerChunk), b, from + 1)
  {
  }

  /** A match is taken and the scan resumes where it ends. */
  lemma FindAllTake(b: string, from: nat, m: Match, integerChunk: bool)
    requires from < |b| && TripletAt(b, from, integerChunk) == Some(m)
    ensures FindAll(Triplet(integerChunk), b, from) == [m] + FindAll(Triplet(integerChunk), b, m.end)
  {
    assert MatchAt(Triplet(integerChunk), b, from) == Some(m);
  }

  /** Only the empty block renders as nothing. */
  lemma LinesEmpty(xs: seq<Sample>)
    requires AllWellFormed(xs)
    ensures Lines(xs) == [] <==> xs == []
  {
    if xs != [] {
      LinesCons(xs);
    }
  }

  /** The first line of a non-empty block, and the block after it. */
  lemma LinesCons(xs: seq<Sample>)
    requires AllWellFormed(xs) && xs != []
    ensures WellFormed(xs[0]) && AllWellFormed(xs[1..])
    ensures Lines(xs) == "\n" + Line(xs[0]) + Lines(xs[1..])
  {
    var rest := xs[1..];
    assert WellFormed(xs[0]);
    assert AllWellFormed(rest) by {
      forall i | 0 <= i < |rest| ensures WellFormed(rest[i]) {
        assert rest[i] == xs[i + 1];
      }
    }
  }

  /** A non-empty block opens with a newline. */
  lemma LinesOpen(xs: seq<Sample>)
    requires AllWellFormed(xs) && xs != []
    ensures Lines(xs)[0] == '\n'
  {
    LinesCons(xs);
    assert ("\n" + Line(xs[0]))[0] == '\n';
  }

  /** The matches of the triplet pattern over a block of rendered lines are
      the lines, in order, with their fields. */
  lemma {:induction false} LinesScan(b: string, from: nat, xs: seq<Sample>, integerChunk: bool)
    requires AllWellFormed(xs) && StartsAt(b, from, Lines(xs)) && NumberFree(b, from + |Lines(xs)|)
    ensures var ms := FindAll(Triplet(integerChunk), b, from);
      |ms| == |xs| && forall i :: 0 <= i < |xs| ==> ms[i].groups == Fields(xs[i])
    decreases |xs|
  {
    if xs == [] {
      NoTripletAfter(b, from, integerChunk);
    } else {
      var x, rest := xs[0], xs[1..];
      LinesCons(xs);
      var e := from + 1 + |Line(x)|;
      LinesSplit(b, from, e, Line(x), Lines(rest));
      LineStops(b, e, rest);
      ScanLine(b, from, e, x, integerChunk);
      LinesScan(b, e, rest, integerChunk);
      FieldsCons(Match(from + 1, e, Fields(x)), FindAll(Triplet(integerChunk), b, e), xs, rest);
    }
  }

  /** Where the first line of a block and the rest of the block lie. */
  lemma LinesSplit(b: string, from: nat, e: nat, line: string, rest: string)
    requires e == from + 1 + |line| && StartsAt(b, from, "\n" + line + rest)
    ensures from < |b| && b[from] == '\n' && StartsAt(b, from + 1, line) && StartsAt(b, e, rest)
  {
    StartsAtConcat(b, from, "\n" + line, rest);
    StartsAtConcat(b, from, "\n", line);
    CharOfLiteral(b, from, "\n", 0);
  }

  /** One line of a block: a newline, then a match of the triplet pattern. */
  lemma ScanLine(b: string, from: nat, e: nat, x: Sample, integerChunk: bool)
    requires WellFormed(x) && e == from + 1 + |Line(x)|
    requires from < |b| && b[from] == '\n' && StartsAt(b, from + 1, Line(x))
    requires e == |b| || !InClass(b[e], DigitOrDot)
    ensures FindAll(Triplet(integerChunk), b, from)
      == [Match(from + 1, e, Fields(x))] + FindAll(Triplet(integerChunk), b, e)
  {
    LineMatch(b, from + 1, e, x, integerChunk);
    ScanStep(b, from, Match(from + 1, e, Fields(x)), integerChunk);
  }

  /** What follows a line of a block cannot extend its last number. */
  lemma LineStops(b: string, e: nat, rest: seq<Sample>)
    requires AllWellFormed(rest) && StartsAt(b, e, Lines(rest))
    requires NumberFree(b, e + |Lines(rest)|)
    ensures e == |b| || !InClass(b[e], DigitOrDot)
  {
    if e < |b| && rest != [] {
      LinesOpen(rest);
      CharOfLiteral(b, e, Lines(rest), 0);
    }
  }

  /** The fields of a first match and of the matches after it. */
  lemma FieldsCons(m: Match, ms: seq<Match>, xs: seq<Sample>, rest: seq<Sample>)
    requires AllWellFormed(xs) && xs != [] && rest == xs[1..] && AllWellFormed(rest)
    requires m.groups == Fields(xs[0])
    requires |ms| == |rest| && forall i :: 0 <= i < |rest| ==> ms[i].groups == Fields(rest[i])
    ensures |[m] + ms| == |xs| && forall i :: 0 <= i < |xs| ==> ([m] + ms)[i].groups == Fields(xs[i])
  {
    forall i | 0 <= i < |xs| ensures ([m] + ms)[i].groups == Fields(xs[i]) {
      if i > 0 {
        assert xs[i] == rest[i - 1];
      }
    }
  }

  // ----- where the sections are -----

  /** A block of lines followed by its closing newline never holds '=', starts
      with a newline, and the character after that newline, if any, is the
      first digit of a thread count. */
  lemma BlockChars(xs: seq<Sample>)
    requires AllWellFormed(xs)
    ensures var mid := Lines(xs) + "\n";
      && mid[0] == '\n'
      && (|mid| > 1 ==> IsDigit(mid[1]))
      && forall j :: 0 <= j < |mid| ==> mid[j] != '='
  {
    var mid := Lines(xs) + "\n";
    LinesPlain(xs);
    if xs != [] {
      LinesCons(xs);
      LineOpens(xs[0]);
      assert mid[1] == Lines(xs)[1] == Line(xs[0])[0];
    }
    forall j | 0 <= j < |mid| ensures mid[j] != '=' {
      if j < |Lines(xs)| {
        assert mid[j] == Lines(xs)[j];
      }
    }
  }

  /** A line opens with the first digit of its thread count. */
  lemma LineOpens(x: Sample)
    requires WellFormed(x)
    ensures |Line(x)| > 0 && IsDigit(Line(x)[0])
  {
    var t := NatToDigits(x.threads);
    assert Line(x) == t + (" | " + NatToDigits(x.chunk) + " | " + Throughput(x));
    assert Line(x)[0] == t[0];
  }

  /** No character of s is '='. */
  predicate NoEquals(s: string) {
    forall j :: 0 <= j < |s| ==> s[j] != '='
  }

  lemma NoEqualsConcat(a: string, b: string)
    requires NoEquals(a) && NoEquals(b)
    ensures NoEquals(a + b)
  {
    forall j | 0 <= j < |a + b| ensures (a + b)[j] != '=' {
      if j >= |a| {
        assert (a + b)[j] == b[j - |a|];
      }
    }
  }

  lemma NumRunNoEquals(t: string)
    requires IsNumRun(t)
    ensures NoEquals(t)
  {
    forall j | 0 <= j < |t| ensures t[j] != '=' {
      assert IsDigit(t[j]) || t[j] == '.';
    }
  }

  /** A line is digits, dots and the separators " | ". */
  lemma LineNoEquals(x: Sample)
    requires WellFormed(x)
    ensures NoEquals("\n" + Line(x))
  {
    var t, c, v := NatToDigits(x.threads), NatToDigits(x.chunk), Throughput(x);
    DigitsOfNat(x.threads);
    DigitsOfNat(x.chunk);
    NumRunNoEquals(t);
    NumRunNoEquals(c);
    NumRunNoEquals(v);
    var nl, bar := "\n", " | ";
    assert NoEquals(nl) && NoEquals(bar);
    var a1 := t + bar;
    NoEqualsConcat(t, bar);
    var a2 := a1 + c;
    NoEqualsConcat(a1, c);
    var a3 := a2 + bar;
    NoEqualsConcat(a2, bar);
    NoEqualsConcat(a3, v);
    assert Line(x) == a3 + v;
    NoEqualsConcat(nl, Line(x));
  }

  /** The characters a block of lines is made of never include '='. */
  lemma {:induction false} LinesPlain(xs: seq<Sample>)
    requires AllWellFormed(xs)
    ensures NoEquals(Lines(xs))
    decreases |xs|
  {
    if xs != [] {
      LinesCons(xs);
      LinesPlain(xs[1..]);
      LineNoEquals(xs[0]);
      NoEqualsConcat("\n" + Line(xs[0]), Lines(xs[1..]));
    }
  }

  /** How a header is assembled. */
  lemma HeaderMarkers(op: Op)
    ensures |LiteralHeader(op)| == 37 && |Title(op)| == 29
    ensures LiteralHeader(op) == "===" + " " + Title(op) + " " + "==="
  {
  }

  /** Inside the encryption header, '=' appears only in its two markers. */
  lemma EncryptionHeaderMarkers()
    ensures forall j :: 0 <= j < 37 && LiteralHeader(Encryption)[j] == '=' ==> j < 3 || 34 <= j
  {
    var t := Title(Encryption);
    forall j | 0 <= j < 29 ensures t[j] != '=' {
    }
    forall j | 3 <= j < 34 ensures LiteralHeader(Encryption)[j] != '=' {
      if 4 <= j < 33 {
        assert LiteralHeader(Encryption)[j] == t[j - 4];
      }
    }
  }

  /** A literal header at p ends at p + 37, read either way. */
  lemma HeaderAt(s: string, p: nat, op: Op, literal: bool)
    requires StartsAt(s, p, LiteralHeader(op))
    ensures SweepHeaderEnd(s, p, op, literal) == Some(p + 37)
  {
    HeaderMarkers(op);
    var title := Title(op);
    StartsAtConcat(s, p, "===" + " " + title + " ", "===");
    StartsAtConcat(s, p, "===" + " " + title, " ");
    StartsAtConcat(s, p, "===" + " ", title);
    StartsAtConcat(s, p, "===", " ");
    CharOfLiteral(s, p + 4, title, 0);
    CharOfLiteral(s, p + 3, " ", 0);
    CharOfLiteral(s, p + 33, " ", 0);
    CharOfLiteral(s, p + 34, "===", 0);
    RunEndIs(s, p + 3, p + 4, Space);
    RunEndIs(s, p + 33, p + 34, Space);
  }

  lemma StartsAtWithin(s: string, p: nat, u: string, q: nat, v: string)
    requires StartsAt(s, p, u) && StartsAt(u, q, v)
    ensures StartsAt(s, p + q, v)
  {
    forall t | 0 <= t < |v| ensures s[p + q + t] == v[t] {
      CharOfLiteral(s, p, u, q + t);
      CharOfLiteral(u, q, v, t);
    }
    assert s[p + q..p + q + |v|] == v;
  }

  /** A stretch of text without '=' holds no section end, except, for the
      literal header, just before a final newline. */
  lemma NoEndIn(s: string, h: nat, mid: string, literal: bool)
    requires StartsAt(s, h, mid) && forall j :: 0 <= j < |mid| ==> mid[j] != '='
    ensures forall j :: h <= j < h + |mid| && (!literal || j + 1 < |s|) ==> !SectionEnd(s, j, literal)
  {
    forall j | h <= j < h + |mid| && (!literal || j + 1 < |s|) ensures !SectionEnd(s, j, literal) {
      CharOfLiteral(s, h, mid, j - h);
      if StartsAt(s, j, "==") {
        CharOfLiteral(s, j, "==", 0);
      }
    }
  }

  /** A section body without '=' that runs up to a marker. */
  lemma BodyToMarker(s: string, h: nat, mid: string, literal: bool)
    requires StartsAt(s, h, mid) && StartsAt(s, h + |mid|, "===")
    requires forall j :: 0 <= j < |mid| ==> mid[j] != '='
    ensures NextSectionEnd(s, h, literal) == h + |mid| && s[h..h + |mid|] == mid
  {
    var k := h + |mid|;
    assert StartsAt(s, k, "==") by {
      assert s[k..k + 2] == s[k..k + 3][..2];
    }
    NoEndIn(s, h, mid, literal);
    NextSectionEndIs(s, h, k, literal);
  }

  /** A section body without '=' that ends the text with a newline: charts.py
      takes it whole, test_parser.py stops before the final newline. */
  lemma BodyToEnd(s: string, h: nat, mid: string, literal: bool)
    requires StartsAt(s, h, mid) && h + |mid| == |s| && mid != [] && mid[|mid| - 1] == '\n'
    requires forall j :: 0 <= j < |mid| ==> mid[j] != '='
    ensures var k := if literal then |s| - 1 else |s|;
      NextSectionEnd(s, h, literal) == k && s[h..k] == (if literal then mid[..|mid| - 1] else mid)
  {
    var k := if literal then |s| - 1 else |s|;
    NoEndIn(s, h, mid, literal);
    CharOfLiteral(s, h, mid, |mid| - 1);
    NextSectionEndIs(s, h, k, literal);
    assert s[h..k] == s[h..|s|][..k - h];
    assert mid[..|mid|] == mid;
  }

  lemma NextSectionEndIs(s: string, h: nat, k: nat, literal: bool)
    requires h <= k <= |s| && SectionEnd(s, k, literal)
    requires forall j :: h <= j < k ==> !SectionEnd(s, j, literal)
    ensures NextSectionEnd(s, h, literal) == k
  {
  }

  /** The match of a section header at p, with the lazy body after it. */
  lemma HeaderMatch(s: string, p: nat, op: Op, literal: bool, h: nat, k: nat, body: string)
    requires p <= |s| && SweepHeaderEnd(s, p, op, literal) == Some(h)
    requires NextSectionEnd(s, h, literal) == k && s[h..k] == body
    ensures MatchAt(SweepHeader(op, literal), s, p) == Some(Match(p, k, [body]))
  {
  }

  /** A text that opens with a section header whose body runs up to a
      marker: the search finds that section. */
  lemma FirstSection(s: string, e: nat, op: Op, mid: string, literal: bool)
    requires StartsAt(s, 0, LiteralHeader(op)) && StartsAt(s, 37, mid) && e == 37 + |mid|
    requires StartsAt(s, e, "===") && forall j :: 0 <= j < |mid| ==> mid[j] != '='
    ensures Search(SweepHeader(op, literal), s) == Some(Match(0, e, [mid]))
  {
    HeaderAt(s, 0, op, literal);
    BodyToMarker(s, 37, mid, literal);
    HeaderMatch(s, 0, op, literal, 37, e, mid);
    SearchAt(SweepHeader(op, literal), s, 0);
  }

  /** The header of op at n, then a body without '=' that ends the text with
      a newline. */
  predicate ClosingSection(s: string, n: nat, op: Op, mid: string) {
    && n + 37 + |mid| == |s| && StartsAt(s, n, LiteralHeader(op)) && StartsAt(s, n + 37, mid)
    && mid != [] && mid[|mid| - 1] == '\n' && forall j :: 0 <= j < |mid| ==> mid[j] != '='
  }

  /** No position before n starts a section with the header of op. */
  predicate NoHeaderBefore(s: string, n: nat, op: Op, literal: bool)
    requires n <= |s|
  {
    forall q :: 0 <= q < n ==> SweepHeaderAt(s, q, op, literal).None?
  }

  /** A section header at n that no earlier position matches, whose body
      ends the text with a newline: the search finds that section. */
  lemma LastSection(s: string, n: nat, op: Op, mid: string, literal: bool, k: nat, body: string)
    requires ClosingSection(s, n, op, mid) && NoHeaderBefore(s, n, op, literal)
    requires k == (if literal then |s| - 1 else |s|) && body == (if literal then mid[..|mid| - 1] else mid)
    ensures Search(SweepHeader(op, literal), s) == Some(Match(n, k, [body]))
  {
    var h := n + 37;
    var pat := SweepHeader(op, literal);
    HeaderAt(s, n, op, literal);
    BodyToEnd(s, h, mid, literal);
    HeaderMatch(s, n, op, literal, h, k, body);
    forall q | 0 <= q < n ensures MatchAt(pat, s, q).None? {
      assert MatchAt(pat, s, q) == SweepHeaderAt(s, q, op, literal);
    }
    SearchAt(pat, s, n);
  }

  /** What the search for the decryption header meets in the first n
      characters of a log: the encryption header, a newline, no '=' up to n,
      and after the newline a digit, a '=' or the end of the text. */
  predicate HeadShape(s: string, n: nat) {
    && 38 <= n <= |s| && StartsAt(s, 0, LiteralHeader(Encryption)) && s[37] == '\n'
    && (forall j :: 37 <= j < n ==> s[j] != '=')
    && (38 < |s| ==> IsDigit(s[38]) || s[38] == '=')
  }

  /** In such a head, "===" occurs only at 0 and 34, the markers of the
      encryption header. */
  lemma MarkerInHead(s: string, n: nat, q: nat)
    requires HeadShape(s, n) && q < n && StartsAt(s, q, "===")
    ensures q == 0 || q == 34
  {
    CharOfLiteral(s, q, "===", 0);
    CharOfLiteral(s, q, "===", 1);
    CharOfLiteral(s, q, "===", 2);
    EncryptionHeaderMarkers();
    if q < 37 {
      CharOfLiteral(s, 0, LiteralHeader(Encryption), q);
      if q + 1 < 37 {
        CharOfLiteral(s, 0, LiteralHeader(Encryption), q + 1);
      }
      if q + 2 < 37 {
        CharOfLiteral(s, 0, LiteralHeader(Encryption), q + 2);
      }
    }
  }

  /** At 0 stands the other title. */
  lemma DecryptionNotAtStart(s: string, n: nat, literal: bool)
    requires HeadShape(s, n)
    ensures SweepHeaderEnd(s, 0, Decryption, literal).None?
  {
    HeaderMarkers(Decryption);
    HeaderMarkers(Encryption);
    CharOfLiteral(s, 0, LiteralHeader(Encryption), 3);
    CharOfLiteral(s, 0, LiteralHeader(Encryption), 4);
    if literal {
      assert !StartsAt(s, 0, LiteralHeader(Decryption)) by {
        if StartsAt(s, 0, LiteralHeader(Decryption)) {
          CharOfLiteral(s, 0, LiteralHeader(Decryption), 4);
        }
      }
    } else {
      RunEndIs(s, 3, 4, Space);
      assert !StartsAt(s, 4, Title(Decryption)) by {
        if StartsAt(s, 4, Title(Decryption)) {
          CharOfLiteral(s, 4, Title(Decryption), 0);
        }
      }
    }
  }

  /** At 34 the closing marker of the encryption header is followed by a
      newline and then by a digit, a '=' or the end of the text. */
  lemma DecryptionNotAtClose(s: string, n: nat, literal: bool)
    requires HeadShape(s, n)
    ensures SweepHeaderEnd(s, 34, Decryption, literal).None?
  {
    HeaderMarkers(Decryption);
    if literal {
      assert !StartsAt(s, 34, LiteralHeader(Decryption)) by {
        if StartsAt(s, 34, LiteralHeader(Decryption)) {
          CharOfLiteral(s, 34, LiteralHeader(Decryption), 3);
        }
      }
    } else if 38 < |s| {
      RunEndIs(s, 37, 38, Space);
      assert !StartsAt(s, 38, Title(Decryption)) by {
        if StartsAt(s, 38, Title(Decryption)) {
          CharOfLiteral(s, 38, Title(Decryption), 0);
        }
      }
    } else {
      RunEndIs(s, 37, 38, Space);
    }
  }

  /** The decryption header does not start anywhere in the head. */
  lemma NoDecryptionInHead(s: string, n: nat, literal: bool, q: nat)
    requires HeadShape(s, n) && q < n
    ensures SweepHeaderAt(s, q, Decryption, literal).None?
  {
    if StartsAt(s, q, "===") {
      MarkerInHead(s, n, q);
      if q == 0 {
        DecryptionNotAtStart(s, n, literal);
      } else {
        DecryptionNotAtClose(s, n, literal);
      }
    } else if literal {
      HeaderMarkers(Decryption);
      assert !StartsAt(s, q, LiteralHeader(Decryption)) by {
        if StartsAt(s, q, LiteralHeader(Decryption)) {
          StartsAtConcat(s, q, "===", " " + Title(Decryption) + " " + "===");
        }
      }
    }
  }

  // ----- the sections of a rendered log -----

  lemma SectionLayout(op: Op, xs: seq<Sample>, tail: string)
    requires AllWellFormed(xs)
    ensures var s := RenderedSection(op, xs) + tail;
      && StartsAt(s, 0, LiteralHeader(op))
      && StartsAt(s, 37, Lines(xs) + "\n")
      && StartsAt(s, |RenderedSection(op, xs)|, tail)
      && |RenderedSection(op, xs)| == 38 + |Lines(xs)|
  {
    var s := RenderedSection(op, xs) + tail;
    HeaderMarkers(op);
    StartsAtConcat(s, 0, RenderedSection(op, xs), tail);
    StartsAtConcat(s, 0, LiteralHeader(op), Lines(xs) + "\n");
  }

  /** A section opens with a marker. */
  lemma SectionOpens(op: Op, xs: seq<Sample>)
    requires AllWellFormed(xs)
    ensures StartsAt(RenderedSection(op, xs), 0, "===") && RenderedSection(op, xs)[0] == '='
  {
    var t := RenderedSection(op, xs);
    SectionLayout(op, xs, "");
    assert t + "" == t;
    HeaderOpens(op);
    StartsAtWithin(t, 0, LiteralHeader(op), 0, "===");
    CharOfLiteral(t, 0, "===", 0);
  }

  lemma HeaderOpens(op: Op)
    ensures StartsAt(LiteralHeader(op), 0, "===")
  {
    var t := LiteralHeader(op);
    assert t == "=== " + (Title(op) + " ===");
    assert t[0] == '=' && t[1] == '=' && t[2] == '=';
    assert t[0..3] == "===";
  }

  /** The encryption section followed by nothing or by a marker has the shape
      above. */
  lemma LogHead(enc: seq<Sample>, tail: string)
    requires AllWellFormed(enc) && (tail == [] || tail[0] == '=')
    ensures HeadShape(RenderedSection(Encryption, enc) + tail, |RenderedSection(Encryption, enc)|)
  {
    var s := RenderedSection(Encryption, enc) + tail;
    var mid := Lines(enc) + "\n";
    var n := |RenderedSection(Encryption, enc)|;
    SectionLayout(Encryption, enc, tail);
    BlockChars(enc);
    CharOfLiteral(s, 37, mid, 0);
    if 38 < n {
      CharOfLiteral(s, 37, mid, 1);
    } else if 38 < |s| {
      CharOfLiteral(s, n, tail, 0);
    }
    forall j | 37 <= j < n ensures s[j] != '=' {
      CharOfLiteral(s, 37, mid, j - 37);
    }
  }

  /** The triplet matches of a block of lines, on its own or with its
      closing newline, are the lines with their fields. */
  lemma BlockScan(xs: seq<Sample>, integerChunk: bool, closed: bool)
    requires AllWellFormed(xs)
    ensures var ms := FindAll(Triplet(integerChunk), Lines(xs) + (if closed then "\n" else ""), 0);
      |ms| == |xs| && forall i :: 0 <= i < |xs| ==> ms[i].groups == Fields(xs[i])
  {
    var b := Lines(xs) + (if closed then "\n" else "");
    assert b[0..|Lines(xs)|] == Lines(xs);
    LinesScan(b, 0, xs, integerChunk);
  }

  /** In a complete log, the encryption section runs up to the decryption
      header. */
  lemma EncryptionSection(enc: seq<Sample>, dec: seq<Sample>, literal: bool)
    requires AllWellFormed(enc) && AllWellFormed(dec)
    ensures Search(SweepHeader(Encryption, literal), Log(enc, dec))
      == Some(Match(0, |RenderedSection(Encryption, enc)|, [Lines(enc) + "\n"]))
  {
    var tail := RenderedSection(Decryption, dec);
    var s := RenderedSection(Encryption, enc) + tail;
    SectionLayout(Encryption, enc, tail);
    SectionOpens(Decryption, dec);
    BlockChars(enc);
    StartsAtWithin(s, |RenderedSection(Encryption, enc)|, tail, 0, "===");
    FirstSection(s, |RenderedSection(Encryption, enc)|, Encryption, Lines(enc) + "\n", literal);
  }

  /** In a log that ends after its encryption section, that section runs to
      the end of the text (charts.py) or to its final newline
      (test_parser.py). */
  lemma EncryptionSectionAlone(enc: seq<Sample>, literal: bool, s: string, mid: string)
    requires AllWellFormed(enc) && s == EncryptionLog(enc) && mid == Lines(enc) + "\n"
    ensures Search(SweepHeader(Encryption, literal), s)
      == Some(Match(0, if literal then |s| - 1 else |s|, [if literal then mid[..|mid| - 1] else mid]))
  {
    assert s + "" == s;
    SectionLayout(Encryption, enc, "");
    BlockChars(enc);
    LastSection(s, 0, Encryption, mid, literal, if literal then |s| - 1 else |s|,
      if literal then mid[..|mid| - 1] else mid);
  }

  /** A text with a newline appended, less its last character. */
  lemma DropNewline(t: string)
    ensures (t + "\n")[..|t + "\n"| - 1] == t
  {
    assert (t + "\n")[..|t|] == t;
  }

  /** The decryption section of a log runs from its header at n, the length
      of the encryption section, to the end of the text (charts.py) or to its
      final newline (test_parser.py). */
  lemma DecryptionSection(enc: seq<Sample>, dec: seq<Sample>, literal: bool, s: string, n: nat, mid: string)
    requires AllWellFormed(enc) && AllWellFormed(dec) && s == Log(enc, dec)
    requires n == |RenderedSection(Encryption, enc)| && mid == Lines(dec) + "\n"
    ensures Search(SweepHeader(Decryption, literal), s)
      == Some(Match(n, if literal then |s| - 1 else |s|, [if literal then mid[..|mid| - 1] else mid]))
  {
    DecryptionLayout(enc, dec, literal);
    LastSection(s, n, Decryption, mid, literal, if literal then |s| - 1 else |s|,
      if literal then mid[..|mid| - 1] else mid);
  }

  /** Where the decryption header and its lines lie in a log, and that no
      earlier position starts a decryption section. */
  lemma DecryptionLayout(enc: seq<Sample>, dec: seq<Sample>, literal: bool)
    requires AllWellFormed(enc) && AllWellFormed(dec)
    ensures var s := RenderedSection(Encryption, enc) + RenderedSection(Decryption, dec);
      var n, mid := |RenderedSection(Encryption, enc)|, Lines(dec) + "\n";
      ClosingSection(s, n, Decryption, mid) && NoHeaderBefore(s, n, Decryption, literal)
  {
    var tail := RenderedSection(Decryption, dec);
    var s := RenderedSection(Encryption, enc) + tail;
    var n := |RenderedSection(Encryption, enc)|;
    SectionLayout(Encryption, enc, tail);
    SectionLayout(Decryption, dec, "");
    assert tail + "" == tail;
    BlockChars(dec);
    ClosingAfter(s, n, tail, Decryption, Lines(dec) + "\n");
    SectionOpens(Decryption, dec);
    LogHead(enc, tail);
    HeadNoHeader(s, n, literal);
  }

  /** A closing section t placed at the end of s. */
  lemma ClosingAfter(s: string, n: nat, t: string, op: Op, mid: string)
    requires StartsAt(s, n, t) && n + |t| == |s|
    requires StartsAt(t, 0, LiteralHeader(op)) && StartsAt(t, 37, mid) && |t| == 37 + |mid|
    requires mid != [] && mid[|mid| - 1] == '\n' && forall j :: 0 <= j < |mid| ==> mid[j] != '='
    ensures ClosingSection(s, n, op, mid)
  {
    StartsAtWithin(s, n, t, 0, LiteralHeader(op));
    StartsAtWithin(s, n, t, 37, mid);
  }

  /** No decryption header starts in a head. */
  lemma HeadNoHeader(s: string, n: nat, literal: bool)
    requires HeadShape(s, n)
    ensures NoHeaderBefore(s, n, Decryption, literal)
  {
    forall q | 0 <= q < n ensures SweepHeaderAt(s, q, Decryption, literal).None? {
      NoDecryptionInHead(s, n, literal, q);
    }
  }

  /** A log without a decryption header has no decryption section. */
  lemma NoDecryptionSection(enc: seq<Sample>, literal: bool)
    requires AllWellFormed(enc)
    ensures Search(SweepHeader(Decryption, literal), EncryptionLog(enc)).None?
  {
    var s := RenderedSection(Encryption, enc);
    assert s + "" == s;
    LogHead(enc, "");
    forall q | 0 <= q <= |s| ensures MatchAt(SweepHeader(Decryption, literal), s, q).None? {
      if q < |s| {
        NoDecryptionInHead(s, |s|, literal, q);
      }
    }
    SearchNone(SweepHeader(Decryption, literal), s);
  }
}
