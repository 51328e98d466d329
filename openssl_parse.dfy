/** parse_openssl_results (charts.py:57-112) over a rendered `openssl speed`
    output: which path it takes and the table it returns. With a space
    before the newline of the header line the summary table is read; with
    the newline right after the last "bytes", or with no summary at all,
    the progress lines are. */
module OpensslParse {
  import opened Results
  import opened Chars
  import opened Regex
  import opened Charts
  import opened OpensslLog
  import opened OpensslSummary
  import opened OpensslProgress
  import SweepLog

  // ----- where lines start -----

  /** Every line that starts inside t starts with "D", and a non-empty t
      ends with a newline. */
  predicate DLines(t: string) {
    && (forall j :: 0 <= j < |t| && StartsLine(t, j) ==> t[j] == 'D')
    && (t != [] ==> t[|t| - 1] == '\n')
  }

  /** A line of t starts at j. */
  predicate StartsLine(t: string, j: nat)
    requires j <= |t|
  {
    j == 0 || t[j - 1] == '\n'
  }

  /** A run of digits and dots holds no newline. */
  lemma NumRunNoNewline(t: string)
    requires IsNumRun(t)
    ensures '\n' !in t
  {
  }

  /** A progress line starts with "D" and holds no newline. */
  lemma ProgressLineChars(x: Progress)
    requires DecimalOk(x.time)
    ensures ProgressLine(x) != [] && ProgressLine(x)[0] == 'D' && '\n' !in ProgressLine(x)
  {
    var b, o, t := NatToDigits(x.block), NatToDigits(x.ops), DecimalText(x.time);
    NumRunNoNewline(b);
    NumRunNoNewline(o);
    NumRunNoNewline(t);
    assert '\n' !in BlockPart(b) && '\n' !in CountPart(o) && '\n' !in TimePart(t);
    assert LineOf(b, o, t)[0] == Doing[0];
  }

  lemma DLinesCons(l: string, rest: string)
    requires l != [] && l[0] == 'D' && '\n' !in l && DLines(rest)
    ensures DLines(l + "\n" + rest)
  {
    var t := l + "\n" + rest;
    forall j | 0 <= j < |l| ensures t[j] != '\n' {
      assert t[j] == l[j] && l[j] in l;
    }
    forall j | 0 <= j < |t| && StartsLine(t, j) ensures t[j] == 'D' {
      if j == 0 {
        assert t[0] == l[0];
      } else if j > |l| {
        assert t[j] == rest[j - |l| - 1];
        if j > |l| + 1 {
          assert t[j - 1] == rest[j - |l| - 2];
        }
      }
    }
  }

  lemma {:induction false} LinesDLines(xs: seq<Progress>)
    requires AllTimed(xs)
    ensures DLines(ProgressLines(xs))
    decreases |xs|
  {
    if xs != [] {
      LinesDLines(xs[1..]);
      ProgressLineChars(xs[0]);
      DLinesCons(ProgressLine(xs[0]), ProgressLines(xs[1..]));
    }
  }

  /** Inside a text without newlines placed at p, no line starts after p. */
  lemma NoLineStartIn(s: string, p: nat, t: string, q: nat)
    requires StartsAt(s, p, t) && '\n' !in t && p < q <= p + |t|
    ensures !LineStart(s, q)
  {
    CharOfLiteral(s, p, t, q - 1 - p);
  }

  /** A character not in t is nowhere in t's place in s. */
  lemma AbsentIn(s: string, p: nat, t: string, c: char)
    requires StartsAt(s, p, t) && c !in t
    ensures forall q :: p <= q < p + |t| ==> s[q] != c
  {
    forall q | p <= q < p + |t| ensures s[q] != c {
      CharOfLiteral(s, p, t, q - p);
    }
  }

  // ----- where the two summary patterns do not match -----

  /** `^type` needs a line start with a 't'. */
  lemma HeaderNotAt(s: string, q: nat)
    requires q <= |s| && (!LineStart(s, q) || q == |s| || s[q] != 't')
    ensures MatchAt(SpeedHeader, s, q).None?
  {
    if SpeedHeaderAt(s, q).Some? {
      CharOfLiteral(s, q, "type", 0);
    }
  }

  /** `^AES-128-GCM` needs a line start with an 'A'. */
  lemma RowNotAt(s: string, q: nat)
    requires q <= |s| && (!LineStart(s, q) || q == |s| || s[q] != 'A')
    ensures MatchAt(SpeedRow, s, q).None?
  {
    if SpeedRowAt(s, q).Some? {
      CharOfLiteral(s, q, "AES-128-GCM", 0);
    }
  }

  /** Within the progress lines at the start of s, every line starts with
      "D", so neither summary pattern matches there. */
  lemma LinesNotSummary(s: string, t: string, q: nat)
    requires DLines(t) && StartsAt(s, 0, t) && q < |t|
    ensures MatchAt(SpeedHeader, s, q).None? && MatchAt(SpeedRow, s, q).None?
  {
    CharOfLiteral(s, 0, t, q);
    if q > 0 {
      CharOfLiteral(s, 0, t, q - 1);
    }
    if LineStart(s, q) {
      assert StartsLine(t, q);
    }
    HeaderNotAt(s, q);
    RowNotAt(s, q);
  }

  /** After the progress lines, the next line starts. */
  lemma LinesEnd(s: string, t: string)
    requires DLines(t) && StartsAt(s, 0, t)
    ensures LineStart(s, |t|)
  {
    if t != [] {
      CharOfLiteral(s, 0, t, |t| - 1);
    }
  }

  /** Where the header line ends in a space, `^type\s+((?:\d+\s+bytes\s+)+)\s*$`
      is first found at the header line. */
  lemma HeaderSearched(s: string, t: string, e: nat, ts: seq<string>)
    requires DLines(t) && StartsAt(s, 0, t) && ts != [] && Numerals(ts)
    requires StartsAt(s, |t|, "type") && |t| + 5 <= e && CellsAt(s, |t| + 4, e, ts)
    requires StartsAt(s, e, " \n") && e + 2 < |s| && s[e + 2] == 'A'
    ensures Search(SpeedHeader, s) == Some(Match(|t|, e + 1, [s[|t| + 5..e + 1]]))
  {
    LinesEnd(s, t);
    HeaderFound(s, |t|, e, ts);
    forall q | 0 <= q < |t| ensures MatchAt(SpeedHeader, s, q).None? {
      LinesNotSummary(s, t, q);
    }
    SearchAt(SpeedHeader, s, |t|);
  }

  /** No match before k, at k or after k: re.search finds none. */
  lemma SearchNoneAround(pat: Pattern, s: string, k: nat)
    requires k <= |s| && MatchAt(pat, s, k).None?
    requires forall q :: 0 <= q < k ==> MatchAt(pat, s, q).None?
    requires forall q :: k < q <= |s| ==> MatchAt(pat, s, q).None?
    ensures Search(pat, s).None?
  {
    SearchNone(pat, s);
  }

  /** Neither summary pattern matches within the progress lines at the start of s. */
  lemma LinesNotHeader(s: string, t: string)
    requires DLines(t) && StartsAt(s, 0, t)
    ensures forall q :: 0 <= q < |t| ==> MatchAt(SpeedHeader, s, q).None? && MatchAt(SpeedRow, s, q).None?
  {
    forall q | 0 <= q < |t| ensures MatchAt(SpeedHeader, s, q).None? && MatchAt(SpeedRow, s, q).None? {
      LinesNotSummary(s, t, q);
    }
  }

  /** Where the newline follows the last "bytes" of the header line directly,
      `^type\s+((?:\d+\s+bytes\s+)+)\s*$` is found nowhere: only the
      header line starts with 't', and there the group cannot end. */
  lemma HeaderNowhere(s: string, t: string, h: string, e: nat, ts: seq<string>, r: string)
    requires DLines(t) && StartsAt(s, 0, t) && ts != [] && Numerals(ts)
    requires StartsAt(s, |t|, h) && '\n' !in h && e == |t| + |h| && CellsAt(s, |t| + 4, e, ts)
    requires StartsAt(s, e, "\n") && StartsAt(s, e + 1, r) && r != [] && r[0] == 'A' && '\n' !in r
    requires e + 1 + |r| + 1 == |s|
    ensures Search(SpeedHeader, s).None?
  {
    TailNotHeader(s, |t|, h, r);
    LinesNotHeader(s, t);
    HeaderMissed(s, |t|, e, ts);
    SearchNoneAround(SpeedHeader, s, |t|);
  }

  /** After the "t" of a header line at p that a newline and one more line
      starting with 'A' follow, no line starts with 't'. */
  lemma TailNotHeader(s: string, p: nat, h: string, r: string)
    requires StartsAt(s, p, h) && '\n' !in h && StartsAt(s, p + |h|, "\n")
    requires StartsAt(s, p + |h| + 1, r) && r != [] && r[0] == 'A' && '\n' !in r
    requires p + |h| + 1 + |r| + 1 == |s|
    ensures forall q :: p < q <= |s| ==> MatchAt(SpeedHeader, s, q).None?
  {
    var e := p + |h|;
    CharOfLiteral(s, e + 1, r, 0);
    forall q | p < q <= |s| ensures MatchAt(SpeedHeader, s, q).None? {
      if q <= e {
        NoLineStartIn(s, p, h, q);
      } else if e + 1 < q < |s| {
        NoLineStartIn(s, e + 1, r, q);
      }
      HeaderNotAt(s, q);
    }
  }

  /** Where no text without an 'A' lies, no line starts with "AES-128-GCM". */
  lemma MidNotRow(s: string, p: nat, mid: string)
    requires StartsAt(s, p, mid) && 'A' !in mid
    ensures forall q :: p <= q < p + |mid| ==> MatchAt(SpeedRow, s, q).None?
  {
    AbsentIn(s, p, mid, 'A');
    forall q | p <= q < p + |mid| ensures MatchAt(SpeedRow, s, q).None? {
      RowNotAt(s, q);
    }
  }

  /** No match before lo, none from lo up to k, and one at k: re.search finds
      the one at k. */
  lemma SearchAtAfter(pat: Pattern, s: string, lo: nat, k: nat)
    requires lo <= k <= |s| && MatchAt(pat, s, k).Some?
    requires forall q :: 0 <= q < lo ==> MatchAt(pat, s, q).None?
    requires forall q :: lo <= q < k ==> MatchAt(pat, s, q).None?
    ensures Search(pat, s) == MatchAt(pat, s, k)
  {
    SearchAt(pat, s, k);
  }

  /** With the header line and its ending between the progress lines and the
      row, and no 'A' in them, `^AES-128-GCM\s+(.+?)\s*$` is first found at
      the row, the last line. */
  lemma RowSearched(s: string, t: string, mid: string, rs: nat, n: nat, ks: seq<Decimal>)
    requires DLines(t) && StartsAt(s, 0, t) && StartsAt(s, |t|, mid) && 'A' !in mid && rs == |t| + |mid|
    requires ks != [] && AllOk(ks) && LineStart(s, rs)
    requires StartsAt(s, rs, RowLine(ks)) && n == rs + |RowLine(ks)| && n + 1 == |s| && s[n] == '\n'
    ensures rs + 12 <= n
    ensures Search(SpeedRow, s) == Some(Match(rs, |s|, [s[rs + 12..n]]))
  {
    RowFound(s, rs, n, ks);
    LinesNotHeader(s, t);
    MidNotRow(s, |t|, mid);
    SearchAtAfter(SpeedRow, s, |t|, rs);
  }

  // ----- the table of each path -----

  /** charts.py:87-92 make a progress line's row from the groups of its match. */
  lemma OpsRowOf(x: Progress)
    requires Measured(x)
    ensures OpsRow(LineGroups(OpsBlock, x)) == Success(ProgressRow(x))
  {
    DigitsOfNat(x.block);
    DigitsOfNat(x.ops);
    ReadDecimal(x.time);
  }

  /** The fallback over a text that starts with the progress lines of xs and
      has no 'o' or 'O' after them: every time converts, and the table is one
      row per line, sorted by block size. */
  lemma FallbackOf(s: string, xs: seq<Progress>)
    requires AllMeasured(xs) && StartsAt(s, 0, ProgressLines(xs))
    requires forall q :: |ProgressLines(xs)| <= q < |s| ==> s[q] != 'o' && s[q] != 'O'
    ensures FallbackSpec(s) == Success(SortByBlock(ProgressRows(xs)))
  {
    LinesFound(TimedBlock, s, xs);
    LinesFound(OpsBlock, s, xs);
    var timed := TimedMatches(s);
    forall i | 0 <= i < |timed| ensures ToFloat(timed[i].groups[1]).Success? {
      ReadDecimal(xs[i].time);
    }
    var ops := OpsMatches(s);
    forall i | 0 <= i < |ops| ensures OpsRow(ops[i].groups) == Success(ProgressRow(xs[i])) {
      OpsRowOf(xs[i]);
    }
    assert OpsRows(ops).value == ProgressRows(xs);
  }

  /** The pieces of an output: its progress lines t, the header line h,
      the header line's ending pad, the row r and the final newline. */
  lemma Pieces(s: string, t: string, h: string, pad: string, r: string, rs: nat)
    requires s == t + (h + pad + r + "\n") && rs == |t| + |h| + |pad|
    ensures StartsAt(s, 0, t) && StartsAt(s, |t|, h + pad) && StartsAt(s, |t|, h)
    ensures StartsAt(s, |t| + |h|, pad) && StartsAt(s, rs, r)
    ensures |s| == rs + |r| + 1 && s[rs + |r|] == '\n'
  {
    assert s[0..|s|] == s;
    SweepLog.StartsAtSplit(s, 0, |t|, t, h + pad + r + "\n");
    SweepLog.StartsAtSplit(s, |t|, |t| + |h + pad + r|, h + pad + r, "\n");
    SweepLog.StartsAtSplit(s, |t|, |t| + |h + pad|, h + pad, r);
    SweepLog.StartsAtSplit(s, |t|, |t| + |h|, h, pad);
  }

  /** A header line placed after the progress lines t and ending in a
      space: it is what re.search finds, and its sizes read back. */
  lemma HeaderRead(s: string, t: string, e: nat, sizes: seq<nat>)
    requires DLines(t) && StartsAt(s, 0, t) && sizes != []
    requires StartsAt(s, |t|, HeaderLine(sizes)) && e == |t| + |HeaderLine(sizes)|
    requires StartsAt(s, e, " \n") && e + 2 < |s| && s[e + 2] == 'A'
    ensures |t| + 5 <= e
    ensures Search(SpeedHeader, s) == Some(Match(|t|, e + 1, [s[|t| + 5..e + 1]]))
    ensures HeaderSizes(Match(|t|, e + 1, [s[|t| + 5..e + 1]])) == sizes
  {
    var ts := SizeTexts(sizes);
    HeaderPlaced(s, |t|, sizes);
    CellsSpan(s, |t| + 4, e, ts);
    HeaderSearched(s, t, e, ts);
    HeaderSizesOf(s, |t|, e, sizes);
  }

  /** The row, the last line, after the progress lines t and a text mid
      without an 'A': it is what re.search finds, and its k-values read back. */
  lemma RowRead(s: string, t: string, mid: string, rs: nat, n: nat, ks: seq<Decimal>)
    requires DLines(t) && StartsAt(s, 0, t) && StartsAt(s, |t|, mid) && 'A' !in mid && rs == |t| + |mid|
    requires ks != [] && AllOk(ks) && LineStart(s, rs)
    requires StartsAt(s, rs, RowLine(ks)) && n == rs + |RowLine(ks)| && n + 1 == |s| && s[n] == '\n'
    ensures rs + 12 <= n
    ensures Search(SpeedRow, s) == Some(Match(rs, |s|, [s[rs + 12..n]]))
    ensures RowKilos(Match(rs, |s|, [s[rs + 12..n]])) == Success(Kilos(ks))
  {
    RowSearched(s, t, mid, rs, n, ks);
    RowKilosOf(s, rs, n, ks);
  }

  /** The layout of an output whose header line h ends in a space: the
      progress lines t, h from |t| to e, " \n", and the row r from rs to the
      final newline at n. */
  predicate PaddedAt(s: string, t: string, h: string, r: string, e: nat, rs: nat, n: nat) {
    && e == |t| + |h| && rs == e + 2 && n == rs + |r| && |s| == n + 1
    && StartsAt(s, 0, t) && StartsAt(s, |t|, h + " \n") && StartsAt(s, |t|, h)
    && StartsAt(s, e, " \n") && StartsAt(s, rs, r) && s[n] == '\n'
  }

  /** Where the two summary patterns match in an output whose header line
      ends in a space, and what the sizes and the k-values of the matches
      read as. */
  lemma SummaryFound(s: string, t: string, h: string, r: string, e: nat, rs: nat, n: nat, sizes: seq<nat>, ks: seq<Decimal>)
    requires DLines(t) && AllOk(ks) && sizes != [] && ks != [] && h == HeaderLine(sizes) && r == RowLine(ks)
    requires PaddedAt(s, t, h, r, e, rs, n)
    ensures rs + 12 <= n
    ensures Search(SpeedHeader, s) == Some(Match(|t|, e + 1, [s[|t| + 5..e + 1]]))
    ensures Search(SpeedRow, s) == Some(Match(rs, |s|, [s[rs + 12..n]]))
    ensures HeaderSizes(Match(|t|, e + 1, [s[|t| + 5..e + 1]])) == sizes
    ensures RowKilos(Match(rs, |s|, [s[rs + 12..n]])) == Success(Kilos(ks))
  {
    CharOfLiteral(s, rs, r, 0);
    assert s[e + 2] == 'A';
    CharOfLiteral(s, e, " \n", 1);
    assert LineStart(s, rs) by {
      assert rs - 1 == e + 1;
    }
    HeaderRead(s, t, e, sizes);
    HeaderLineChars(sizes);
    RowRead(s, t, h + " \n", rs, n, ks);
  }

  /** The layout of an output whose header line h ends right after its last
      "bytes": the progress lines t, h from |t| to e, the newline, and the
      row r from e + 1 to the final newline. */
  predicate PlainAt(s: string, t: string, h: string, r: string, e: nat) {
    && e == |t| + |h| && |s| == e + 1 + |r| + 1
    && StartsAt(s, 0, t) && StartsAt(s, |t|, h) && StartsAt(s, e, "\n") && StartsAt(s, e + 1, r)
    && s[e + 1 + |r|] == '\n'
  }

  /** In an output whose header line ends right after its last "bytes",
      the header pattern is found nowhere. */
  lemma PlainFound(s: string, t: string, h: string, r: string, e: nat, sizes: seq<nat>, ks: seq<Decimal>)
    requires DLines(t) && AllOk(ks) && sizes != [] && h == HeaderLine(sizes) && r == RowLine(ks)
    requires PlainAt(s, t, h, r, e)
    ensures Search(SpeedHeader, s).None?
  {
    HeaderPlaced(s, |t|, sizes);
    HeaderLineChars(sizes);
    RowLineChars(ks);
    HeaderNowhere(s, t, h, e, SizeTexts(sizes), r);
  }

  /** No 'o' or 'O' follows the progress lines of such an output. */
  lemma PlainNoO(s: string, t: string, h: string, r: string, e: nat, sizes: seq<nat>, ks: seq<Decimal>)
    requires AllOk(ks) && h == HeaderLine(sizes) && r == RowLine(ks) && PlainAt(s, t, h, r, e)
    ensures forall q :: |t| <= q < |s| ==> s[q] != 'o' && s[q] != 'O'
  {
    HeaderLineChars(sizes);
    RowLineChars(ks);
    AbsentIn(s, |t|, h, 'o');
    AbsentIn(s, |t|, h, 'O');
    AbsentIn(s, e + 1, r, 'o');
    AbsentIn(s, e + 1, r, 'O');
    CharOfLiteral(s, e, "\n", 0);
    forall q | |t| <= q < |s| ensures s[q] != 'o' && s[q] != 'O' {
      if q < e {
      } else if q == e {
      } else if q < e + 1 + |r| {
      }
    }
  }

  /** parse_openssl_results takes the summary path when both searches succeed. */
  lemma SummaryPath(s: string, header: Match, row: Match)
    requires Search(SpeedHeader, s) == Some(header) && Search(SpeedRow, s) == Some(row)
    ensures |header.groups| == 1 && |row.groups| == 1
    ensures ParseOpensslSpec(s) == SummarySpec(header, row)
  {
  }

  /** It takes the fallback when the header is not found. */
  lemma FallbackPath(s: string)
    requires Search(SpeedHeader, s).None?
    ensures ParseOpensslSpec(s) == FallbackSpec(s)
  {
  }

  /** A text in which the header is not found, which starts with the progress
      lines of xs and has no 'o' or 'O' after them, is read from those lines. */
  lemma FallbackRead(s: string, xs: seq<Progress>)
    requires Search(SpeedHeader, s).None? && AllMeasured(xs) && StartsAt(s, 0, ProgressLines(xs))
    requires forall q :: |ProgressLines(xs)| <= q < |s| ==> s[q] != 'o' && s[q] != 'O'
    ensures ParseOpensslSpec(s) == Success(SortByBlock(ProgressRows(xs)))
  {
    FallbackPath(s);
    FallbackOf(s, xs);
  }

  /** The summary table of sizes and k-values read back. */
  lemma SummaryOf(header: Match, row: Match, sizes: seq<nat>, kilos: seq<real>)
    requires |header.groups| == 1 && |row.groups| == 1
    requires HeaderSizes(header) == sizes && RowKilos(row) == Success(kilos)
    ensures SummarySpec(header, row) == Success(SortByBlock(Paired(sizes, kilos)))
  {
  }

  /** The table read from the summary of an output laid out as PaddedAt says. */
  lemma SummaryParsed(s: string, t: string, h: string, r: string, e: nat, rs: nat, n: nat, sizes: seq<nat>, ks: seq<Decimal>)
    requires DLines(t) && AllOk(ks) && sizes != [] && ks != [] && h == HeaderLine(sizes) && r == RowLine(ks)
    requires PaddedAt(s, t, h, r, e, rs, n)
    ensures ParseOpensslSpec(s) == Success(SortByBlock(Paired(sizes, Kilos(ks))))
  {
    SummaryFound(s, t, h, r, e, rs, n, sizes, ks);
    var header, row := Match(|t|, e + 1, [s[|t| + 5..e + 1]]), Match(rs, |s|, [s[rs + 12..n]]);
    SummaryPath(s, header, row);
    SummaryOf(header, row, sizes, Kilos(ks));
  }

  /** The table read from the progress lines of an output laid out as
      PlainAt says. */
  lemma PlainParsed(s: string, xs: seq<Progress>, h: string, r: string, e: nat, sizes: seq<nat>, ks: seq<Decimal>)
    requires AllMeasured(xs) && AllOk(ks) && sizes != [] && h == HeaderLine(sizes) && r == RowLine(ks)
    requires DLines(ProgressLines(xs)) && PlainAt(s, ProgressLines(xs), h, r, e)
    ensures Search(SpeedHeader, s).None?
    ensures ParseOpensslSpec(s) == Success(SortByBlock(ProgressRows(xs)))
  {
    PlainFound(s, ProgressLines(xs), h, r, e, sizes, ks);
    PlainNoO(s, ProgressLines(xs), h, r, e, sizes, ks);
    FallbackRead(s, xs);
  }

  /** An output whose header line ends in a space before its newline is read
      from its summary table: the sizes of the header paired, in order, with
      the k-values of the row divided by 1000, then sorted by block size.
      The progress lines are not read. */
  lemma SummaryRead(s: string, xs: seq<Progress>, sizes: seq<nat>, ks: seq<Decimal>)
    requires AllTimed(xs) && AllOk(ks) && sizes != [] && ks != []
    requires s == Output(xs, sizes, ks, true)
    ensures ParseOpensslSpec(s) == Success(SortByBlock(Paired(sizes, Kilos(ks))))
  {
    var t, h, r := ProgressLines(xs), HeaderLine(sizes), RowLine(ks);
    var e := |t| + |h|;
    LinesDLines(xs);
    Pieces(s, t, h, " \n", r, e + 2);
    SummaryParsed(s, t, h, r, e, e + 2, e + 2 + |r|, sizes, ks);
  }

  /** An output whose header line ends right after its last "bytes" is read
      from its progress lines, as if it had no summary table. */
  lemma PlainHeaderRead(s: string, xs: seq<Progress>, sizes: seq<nat>, ks: seq<Decimal>)
    requires AllMeasured(xs) && AllOk(ks) && sizes != []
    requires s == Output(xs, sizes, ks, false)
    ensures Search(SpeedHeader, s).None?
    ensures ParseOpensslSpec(s) == Success(SortByBlock(ProgressRows(xs)))
  {
    var t, h, r := ProgressLines(xs), HeaderLine(sizes), RowLine(ks);
    var e := |t| + |h|;
    LinesDLines(xs);
    Pieces(s, t, h, "\n", r, e + 1);
    PlainParsed(s, xs, h, r, e, sizes, ks);
  }

  /** Progress lines alone are read as the fallback's table. */
  lemma ProgressRead(xs: seq<Progress>)
    requires AllMeasured(xs)
    ensures ParseOpensslSpec(ProgressLines(xs)) == Success(SortByBlock(ProgressRows(xs)))
  {
    var s := ProgressLines(xs);
    LinesDLines(xs);
    assert StartsAt(s, 0, s);
    forall q | 0 <= q <= |s| ensures MatchAt(SpeedHeader, s, q).None? {
      if q < |s| {
        LinesNotSummary(s, s, q);
      } else {
        HeaderNotAt(s, q);
      }
    }
    SearchNone(SpeedHeader, s);
    FallbackOf(s, xs);
  }
}
