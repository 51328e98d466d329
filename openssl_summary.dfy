/** Reading a rendered summary table back (charts.py:70-72, 95-112): where
    `^type\s+((?:\d+\s+bytes\s+)+)\s*$` and `^AES-128-GCM\s+(.+?)\s*$`
    match in it, and what the sizes and the k-values of those matches are. */
module OpensslSummary {
  import opened Results
  import opened Chars
  import opened Regex
  import opened Charts
  import opened OpensslLog
  import SweepLog

  // ----- where the pieces of a summary lie -----

  /** A summary placed at off: the header line from off, its ending at e,
      and the row from rs to n, where a newline follows. */
  lemma Layout(s: string, off: nat, sizes: seq<nat>, ks: seq<Decimal>, padded: bool)
    requires AllOk(ks) && StartsAt(s, off, Summary(sizes, ks, padded))
    ensures var e := off + |HeaderLine(sizes)|;
      var rs := e + |Pad(padded)|;
      && StartsAt(s, off, HeaderLine(sizes)) && StartsAt(s, e, Pad(padded))
      && StartsAt(s, rs, RowLine(ks)) && StartsAt(s, rs + |RowLine(ks)|, "\n")
  {
    var h, pad, r := HeaderLine(sizes), Pad(padded), RowLine(ks);
    SweepLog.StartsAtSplit(s, off, off + |h + pad + r|, h + pad + r, "\n");
    SweepLog.StartsAtSplit(s, off, off + |h + pad|, h + pad, r);
    SweepLog.StartsAtSplit(s, off, off + |h|, h, pad);
  }

  // ----- the header line: `(?:\d+\s+bytes\s+)+` -----

  /** The cell of the printed size d at p: a space, d, and " bytes". */
  predicate CellAt(s: string, p: nat, d: string) {
    p < |s| && s[p] == ' ' && StartsAt(s, p + 1, d) && StartsAt(s, p + 1 + |d|, " bytes")
  }

  function CellWidth(d: string): (w: nat)
    ensures w == |SizeCell(d)| && w >= 7
  {
    |d| + 7
  }

  /** The cells of the printed sizes ts lie in s from p to e. */
  predicate CellsAt(s: string, p: nat, e: nat, ts: seq<string>)
    decreases |ts|
  {
    if ts == [] then p == e
    else CellAt(s, p, ts[0]) && CellsAt(s, p + CellWidth(ts[0]), e, ts[1..])
  }

  lemma CellPlaced(s: string, p: nat, d: string)
    requires StartsAt(s, p, SizeCell(d))
    ensures CellAt(s, p, d)
  {
    SweepLog.StartsAtSplit(s, p, p + 1 + |d|, " " + d, " bytes");
    SweepLog.StartsAtSplit(s, p, p + 1, " ", d);
    CharOfLiteral(s, p, " ", 0);
  }

  lemma {:induction false} CellsPlaced(s: string, p: nat, ts: seq<string>)
    requires StartsAt(s, p, SizeCells(ts))
    ensures CellsAt(s, p, p + |SizeCells(ts)|, ts)
    decreases |ts|
  {
    if ts != [] {
      var c := SizeCell(ts[0]);
      SweepLog.StartsAtSplit(s, p, p + |c|, c, SizeCells(ts[1..]));
      CellPlaced(s, p, ts[0]);
      CellsPlaced(s, p + |c|, ts[1..]);
    }
  }

  /** The cells end where their text does. */
  lemma {:induction false} CellsSpan(s: string, p: nat, e: nat, ts: seq<string>)
    requires CellsAt(s, p, e, ts)
    ensures e == p + |SizeCells(ts)|
    decreases |ts|
  {
    if ts != [] {
      CellsSpan(s, p + CellWidth(ts[0]), e, ts[1..]);
    }
  }

  /** `\d+\s+bytes` over one cell, from its first digit. */
  lemma CellRuns(s: string, p: nat, d: string)
    requires IsNumeral(d) && CellAt(s, p, d)
    ensures p + 1 < |s| && s[p] == ' ' && IsDigit(s[p + 1]) && p + CellWidth(d) <= |s|
    ensures SizesEnd(s, p + 1) == SizesAfter(s, p + CellWidth(d))
  {
    var q, b := p + 1, p + 1 + |d|;
    SweepLog.StartsAtSplit(s, b, b + 1, " ", "bytes");
    CharOfLiteral(s, q, d, 0);
    CharOfLiteral(s, b, " bytes", 0);
    CharOfLiteral(s, b, " bytes", 1);
    SweepLog.PieceRun(s, q, d, Digit);
    RunEndIs(s, b, b + 1, Space);
  }

  /** `(?:\d+\s+bytes\s+)+` from the first digit of the cells from p to e
      carries on, cell after cell, to the whitespace after the last one. */
  lemma {:induction false} CellsChain(s: string, p: nat, e: nat, ts: seq<string>)
    requires ts != [] && Numerals(ts) && CellsAt(s, p, e, ts)
    ensures p + 1 < |s| && s[p] == ' ' && IsDigit(s[p + 1]) && e <= |s|
    ensures SizesEnd(s, p + 1) == SizesAfter(s, e)
    decreases |ts|
  {
    var r0 := p + CellWidth(ts[0]);
    CellRuns(s, p, ts[0]);
    if ts[1..] != [] {
      CellsChain(s, r0, e, ts[1..]);
      NextCell(s, r0, SizesEnd(s, r0 + 1));
    }
  }

  /** The space before the next cell: one space, then a digit. */
  lemma NextCell(s: string, r0: nat, g: Option<nat>)
    requires r0 + 1 < |s| && s[r0] == ' ' && IsDigit(s[r0 + 1]) && SizesEnd(s, r0 + 1) == g
    ensures SizesAfter(s, r0) == g
  {
    RunEndIs(s, r0, r0 + 1, Space);
  }

  lemma PaddedEnd(s: string, r0: nat)
    requires StartsAt(s, r0, " \n") && r0 + 2 < |s| && s[r0 + 2] == 'A'
    ensures SizesAfter(s, r0) == Some(r0 + 1)
  {
    CharOfLiteral(s, r0, " \n", 0);
    CharOfLiteral(s, r0, " \n", 1);
    RunEndIs(s, r0, r0 + 2, Space);
    assert LastLineEnd(s, r0 + 1, r0 + 2) == Some(r0 + 1);
  }

  lemma PlainEnd(s: string, r0: nat)
    requires StartsAt(s, r0, "\n") && r0 + 1 < |s| && s[r0 + 1] == 'A'
    ensures SizesAfter(s, r0).None?
  {
    CharOfLiteral(s, r0, "\n", 0);
    RunEndIs(s, r0, r0 + 1, Space);
  }

  /** A header line placed at off: "type", then its cells. */
  lemma HeaderPlaced(s: string, off: nat, sizes: seq<nat>)
    requires StartsAt(s, off, HeaderLine(sizes))
    ensures StartsAt(s, off, "type") && CellsAt(s, off + 4, off + |HeaderLine(sizes)|, SizeTexts(sizes))
  {
    SweepLog.StartsAtSplit(s, off, off + 4, "type", SizeCells(SizeTexts(sizes)));
    CellsPlaced(s, off + 4, SizeTexts(sizes));
  }

  /** Where group 1 of the header pattern ends when a space comes before
      the newline. */
  lemma PaddedHeaderEnd(s: string, off: nat, e: nat, ts: seq<string>)
    requires ts != [] && Numerals(ts) && CellsAt(s, off + 4, e, ts)
    requires StartsAt(s, e, " \n") && e + 2 < |s| && s[e + 2] == 'A'
    ensures off + 5 < |s| && RunEnd(s, off + 4, Space) == off + 5 && SizesEnd(s, off + 5) == Some(e + 1)
  {
    CellsChain(s, off + 4, e, ts);
    RunEndIs(s, off + 4, off + 5, Space);
    PaddedEnd(s, e);
  }

  /** The same when the newline follows "bytes": group 1 cannot end. */
  lemma PlainHeaderEnd(s: string, off: nat, e: nat, ts: seq<string>)
    requires ts != [] && Numerals(ts) && CellsAt(s, off + 4, e, ts)
    requires StartsAt(s, e, "\n") && e + 1 < |s| && s[e + 1] == 'A'
    ensures off + 5 < |s| && RunEnd(s, off + 4, Space) == off + 5 && SizesEnd(s, off + 5).None?
  {
    CellsChain(s, off + 4, e, ts);
    RunEndIs(s, off + 4, off + 5, Space);
    PlainEnd(s, e);
  }

  /** The header matches at off when its line ends in " \n" and the next
      line starts with 'A': the group runs from the first digit up to the
      newline, the trailing space included. */
  lemma HeaderFound(s: string, off: nat, e: nat, ts: seq<string>)
    requires ts != [] && Numerals(ts) && off <= |s| && LineStart(s, off) && StartsAt(s, off, "type")
    requires off + 5 <= e && CellsAt(s, off + 4, e, ts)
    requires StartsAt(s, e, " \n") && e + 2 < |s| && s[e + 2] == 'A'
    ensures SpeedHeaderAt(s, off) == Some(Match(off, e + 1, [s[off + 5..e + 1]]))
  {
    PaddedHeaderEnd(s, off, e, ts);
  }

  /** The header does not match at off when the newline follows the last
      "bytes" directly and the next line starts with 'A'. */
  lemma HeaderMissed(s: string, off: nat, e: nat, ts: seq<string>)
    requires ts != [] && Numerals(ts) && off <= |s| && CellsAt(s, off + 4, e, ts)
    requires StartsAt(s, e, "\n") && e + 1 < |s| && s[e + 1] == 'A'
    ensures SpeedHeaderAt(s, off).None?
  {
    PlainHeaderEnd(s, off, e, ts);
  }

  // ----- the sizes of the header: `(\d+)\s+bytes` -----

  /** A literal that lies in s between lo and hi lies in s[lo..hi] too. */
  lemma SliceStartsAt(s: string, lo: nat, hi: nat, p: nat, x: string)
    requires lo <= p && p + |x| <= hi <= |s| && StartsAt(s, p, x)
    ensures StartsAt(s[lo..hi], p - lo, x)
  {
    forall j | 0 <= j < |x| ensures s[lo..hi][p - lo + j] == x[j] {
      CharOfLiteral(s, p, x, j);
    }
    assert s[lo..hi][p - lo..p - lo + |x|] == x;
  }

  lemma CellSlice(s: string, lo: nat, hi: nat, p: nat, d: string)
    requires lo <= p && p + CellWidth(d) <= hi <= |s| && CellAt(s, p, d)
    ensures CellAt(s[lo..hi], p - lo, d)
  {
    SliceStartsAt(s, lo, hi, p + 1, d);
    SliceStartsAt(s, lo, hi, p + 1 + |d|, " bytes");
  }

  lemma {:induction false} CellsSlice(s: string, lo: nat, hi: nat, p: nat, e: nat, ts: seq<string>)
    requires lo <= p <= e <= hi <= |s| && CellsAt(s, p, e, ts)
    ensures CellsAt(s[lo..hi], p - lo, e - lo, ts)
    decreases |ts|
  {
    if ts != [] {
      var r0 := p + CellWidth(ts[0]);
      CellsSpan(s, r0, e, ts[1..]);
      CellSlice(s, lo, hi, p, ts[0]);
      CellsSlice(s, lo, hi, r0, e, ts[1..]);
    }
  }

  /** `(\d+)\s+bytes` at the first digit of a printed size. */
  lemma ByteCell(t: string, q: nat, d: string)
    requires IsNumeral(d) && StartsAt(t, q, d) && StartsAt(t, q + |d|, " bytes")
    ensures ByteSizeAt(t, q) == Some(Match(q, q + CellWidth(d) - 1, [d]))
  {
    var b := q + |d|;
    SweepLog.StartsAtSplit(t, b, b + 1, " ", "bytes");
    CharOfLiteral(t, b, " bytes", 0);
    CharOfLiteral(t, b, " bytes", 1);
    SweepLog.PieceRun(t, q, d, Digit);
    RunEndIs(t, b, b + 1, Space);
  }

  /** One cell: its space is passed over, and `(\d+)\s+bytes` matches its
      digits and "bytes". */
  lemma ByteStep(t: string, k: nat, d: string)
    requires IsNumeral(d) && CellAt(t, k, d)
    ensures k + CellWidth(d) <= |t|
    ensures FindAll(ByteSize, t, k) == [Match(k + 1, k + CellWidth(d), [d])] + FindAll(ByteSize, t, k + CellWidth(d))
  {
    ByteCell(t, k + 1, d);
    SpaceThenMatch(ByteSize, t, k, Match(k + 1, k + CellWidth(d), [d]));
  }

  /** Scanning the cells from k, to a last space that ends t: one match per
      cell, capturing its digits. */
  lemma {:induction false} ByteScan(t: string, k: nat, e: nat, ts: seq<string>)
    requires Numerals(ts) && CellsAt(t, k, e, ts) && e + 1 == |t| && t[e] == ' '
    ensures Captured(FindAll(ByteSize, t, k), ts)
    decreases |ts|
  {
    if ts == [] {
      LastSpace(t, e);
    } else {
      ByteScan(t, k + CellWidth(ts[0]), e, ts[1..]);
      ByteScanStep(t, k, ts);
    }
  }

  /** The scan over one more cell. */
  lemma ByteScanStep(t: string, k: nat, ts: seq<string>)
    requires ts != [] && IsNumeral(ts[0]) && CellAt(t, k, ts[0])
    requires Captured(FindAll(ByteSize, t, k + CellWidth(ts[0])), ts[1..])
    ensures Captured(FindAll(ByteSize, t, k), ts)
  {
    var r0 := k + CellWidth(ts[0]);
    ByteStep(t, k, ts[0]);
    ScanCons(ByteSize, t, k, Match(k + 1, r0, [ts[0]]), ts);
  }

  /** Nothing is found in the last character of t, a space. */
  lemma LastSpace(t: string, e: nat)
    requires e + 1 == |t| && t[e] == ' '
    ensures FindAll(ByteSize, t, e) == []
  {
    assert RunEnd(t, e, Digit) == e;
    assert MatchAt(ByteSize, t, e).None?;
  }

  /** One match per text of ts, in order, capturing it as its only group. */
  predicate Captured(ms: seq<Match>, ts: seq<string>)
    decreases |ts|
  {
    |ms| == |ts| && (ms != [] ==> ms[0].groups == [ts[0]] && Captured(ms[1..], ts[1..]))
  }

  /** One more match capturing the first text. */
  lemma CapturedCons(m: Match, rest: seq<Match>, ts: seq<string>)
    requires ts != [] && m.groups == [ts[0]] && Captured(rest, ts[1..])
    ensures Captured([m] + rest, ts)
  {
    assert ([m] + rest)[1..] == rest;
  }

  /** Captured, match by match. */
  lemma {:induction false} CapturedAt(ms: seq<Match>, ts: seq<string>)
    requires Captured(ms, ts)
    ensures |ms| == |ts| && forall i :: 0 <= i < |ms| ==> ms[i].groups == [ts[i]]
    decreases |ts|
  {
    if ms != [] {
      CapturedAt(ms[1..], ts[1..]);
      forall i | 0 < i < |ms| ensures ms[i].groups == [ts[i]] {
        assert ms[i] == ms[1..][i - 1];
      }
    }
  }

  /** Group 1 of a padded header, s[off + 5..e + 1], holds the cells after
      the first, up to its last character ... */
  lemma GroupRest(s: string, off: nat, e: nat, ts: seq<string>)
    requires ts != [] && off + 5 <= e && CellsAt(s, off + 4, e, ts) && StartsAt(s, e, " \n")
    ensures var t := s[off + 5..e + 1]; CellsAt(t, |ts[0]| + 6, |t| - 1, ts[1..])
  {
    var r0 := off + 4 + CellWidth(ts[0]);
    CellsSpan(s, r0, e, ts[1..]);
    CellsSlice(s, off + 5, e + 1, r0, e, ts[1..]);
  }

  /** ... which is the space before the newline, ... */
  lemma GroupLast(s: string, off: nat, e: nat)
    requires off + 5 <= e && StartsAt(s, e, " \n")
    ensures var t := s[off + 5..e + 1]; |t| > 0 && t[|t| - 1] == ' '
  {
    CharOfLiteral(s, e, " \n", 0);
    assert s[off + 5..e + 1][e - off - 5] == s[e];
  }

  /** ... and starts with the digits of the first cell and " bytes". */
  lemma GroupFirst(s: string, off: nat, e: nat, ts: seq<string>)
    requires ts != [] && off + 5 <= e && CellsAt(s, off + 4, e, ts) && StartsAt(s, e, " \n")
    ensures var t := s[off + 5..e + 1]; StartsAt(t, 0, ts[0]) && StartsAt(t, |ts[0]|, " bytes")
  {
    CellsSpan(s, off + 4 + CellWidth(ts[0]), e, ts[1..]);
    SliceStartsAt(s, off + 5, e + 1, off + 5, ts[0]);
    SliceStartsAt(s, off + 5, e + 1, off + 5 + |ts[0]|, " bytes");
  }

  /** Scanning group 1 of a padded header: one match per size, capturing
      its digits. */
  lemma GroupScan(t: string, ts: seq<string>)
    requires ts != [] && Numerals(ts) && |t| > 0 && t[|t| - 1] == ' '
    requires StartsAt(t, 0, ts[0]) && StartsAt(t, |ts[0]|, " bytes")
    requires CellsAt(t, |ts[0]| + 6, |t| - 1, ts[1..])
    ensures Captured(FindAll(ByteSize, t, 0), ts)
  {
    ByteCell(t, 0, ts[0]);
    CellsScan(t, ts);
  }

  lemma CellsScan(t: string, ts: seq<string>)
    requires ts != [] && Numerals(ts) && |t| > 0 && t[|t| - 1] == ' ' && |ts[0]| + 6 <= |t| - 1
    requires MatchAt(ByteSize, t, 0) == Some(Match(0, |ts[0]| + 6, [ts[0]]))
    requires CellsAt(t, |ts[0]| + 6, |t| - 1, ts[1..])
    ensures Captured(FindAll(ByteSize, t, 0), ts)
  {
    var j := |ts[0]| + 6;
    ByteScan(t, j, |t| - 1, ts[1..]);
    ScanOn(ByteSize, t, Match(0, j, [ts[0]]), ts);
  }

  /** A match capturing the first text, then matches capturing the rest. */
  lemma ScanCons(pat: Pattern, t: string, k: nat, m: Match, ts: seq<string>)
    requires Scanning(pat) && k <= m.end <= |t| && ts != [] && m.groups == [ts[0]]
    requires FindAll(pat, t, k) == [m] + FindAll(pat, t, m.end)
    requires Captured(FindAll(pat, t, m.end), ts[1..])
    ensures Captured(FindAll(pat, t, k), ts)
  {
    CapturedCons(m, FindAll(pat, t, m.end), ts);
  }

  /** A first match at 0 capturing the first text, then matches capturing the rest. */
  lemma ScanOn(pat: Pattern, t: string, m: Match, ts: seq<string>)
    requires Scanning(pat) && 0 < |t| && MatchAt(pat, t, 0) == Some(m) && ts != [] && m.groups == [ts[0]]
    requires m.end <= |t| && Captured(FindAll(pat, t, m.end), ts[1..])
    ensures Captured(FindAll(pat, t, 0), ts)
  {
    FindAllTake(pat, t, 0, m);
    CapturedCons(m, FindAll(pat, t, m.end), ts);
  }

  /** int() of the digits of each size gives the sizes back. */
  lemma IntsOfDigits(ms: seq<Match>, sizes: seq<nat>)
    requires Captured(ms, SizeTexts(sizes))
    ensures IsDigitGroup(ms, 0) && IntsOf(ms, 0) == sizes
  {
    CapturedAt(ms, SizeTexts(sizes));
    forall i | 0 <= i < |ms| ensures DigitsValue(ms[i].groups[0]) == sizes[i] {
      DigitsOfNat(sizes[i]);
    }
  }

  /** charts.py:96-97 read the sizes of a padded header back. */
  lemma HeaderSizesOf(s: string, off: nat, e: nat, sizes: seq<nat>)
    requires sizes != [] && off + 5 <= e && CellsAt(s, off + 4, e, SizeTexts(sizes)) && StartsAt(s, e, " \n")
    ensures HeaderSizes(Match(off, e + 1, [s[off + 5..e + 1]])) == sizes
  {
    var t, ts := s[off + 5..e + 1], SizeTexts(sizes);
    GroupRest(s, off, e, ts);
    GroupLast(s, off, e);
    GroupFirst(s, off, e, ts);
    GroupScan(t, ts);
    IntsOfDigits(FindAll(ByteSize, t, 0), sizes);
  }

  // ----- the row: `^AES-128-GCM\s+(.+?)\s*$` -----

  /** Every character is a digit, a '.', a 'k', or a space that a digit
      follows: the characters of the row's cells. */
  predicate RowShape(t: string) {
    forall j :: 0 <= j < |t| ==>
      IsDigit(t[j]) || t[j] == '.' || t[j] == 'k' || (t[j] == ' ' && j + 1 < |t| && IsDigit(t[j + 1]))
  }

  lemma RowShapeConcat(a: string, b: string)
    requires RowShape(a) && RowShape(b)
    ensures RowShape(a + b)
  {
    var t := a + b;
    forall j | 0 <= j < |t|
      ensures IsDigit(t[j]) || t[j] == '.' || t[j] == 'k' || (t[j] == ' ' && j + 1 < |t| && IsDigit(t[j + 1]))
    {
      if j < |a| {
        assert IsDigit(a[j]) || a[j] == '.' || a[j] == 'k' || (a[j] == ' ' && j + 1 < |a| && IsDigit(a[j + 1]));
        assert t[j] == a[j];
        if j + 1 < |a| {
          assert t[j + 1] == a[j + 1];
        }
      } else {
        var i := j - |a|;
        assert IsDigit(b[i]) || b[i] == '.' || b[i] == 'k' || (b[i] == ' ' && i + 1 < |b| && IsDigit(b[i + 1]));
        assert t[j] == b[i];
        if j + 1 < |t| {
          assert t[j + 1] == b[i + 1];
        }
      }
    }
  }

  lemma {:induction false} KiloCellsShape(vs: seq<string>)
    requires DecimalTexts(vs)
    ensures RowShape(KiloCells(vs))
    decreases |vs|
  {
    if vs != [] {
      var d := vs[0];
      KiloCellsShape(vs[1..]);
      assert RowShape(d);
      assert RowShape(" " + d) by {
        var t := " " + d;
        assert t[1] == d[0];
        forall j | 1 <= j < |t| ensures t[j] == d[j - 1] {
        }
      }
      RowShapeConcat(" " + d, "k");
      RowShapeConcat(KiloCell(d), KiloCells(vs[1..]));
    }
  }

  /** The character at j, before the end n of the cells, is one of theirs. */
  predicate RowCharAt(s: string, j: int, n: int)
    requires 0 <= j < n <= |s|
  {
    IsDigit(s[j]) || s[j] == '.' || s[j] == 'k' || (s[j] == ' ' && j + 1 < n && IsDigit(s[j + 1]))
  }

  /** The shape of a piece of s, seen position by position. */
  lemma ShapeAt(s: string, a: nat, t: string, n: nat)
    requires StartsAt(s, a, t) && RowShape(t) && n == a + |t|
    ensures forall j :: a <= j < n ==> RowCharAt(s, j, n)
  {
    forall j | a <= j < n ensures RowCharAt(s, j, n)
    {
      var i := j - a;
      assert IsDigit(t[i]) || t[i] == '.' || t[i] == 'k' || (t[i] == ' ' && i + 1 < |t| && IsDigit(t[i + 1]));
      CharOfLiteral(s, a, t, i);
      if i + 1 < |t| {
        CharOfLiteral(s, a, t, i + 1);
      }
    }
  }

  /** The lazy group, from g, over the cells of a row that a newline ends
      at n, the last character of s: it cannot stop before the newline,
      since no line end follows any whitespace before it. */
  lemma {:induction false} LazyToLineEnd(s: string, g: nat, n: nat)
    requires 0 < g <= n && n + 1 == |s| && s[n] == '\n'
    requires forall j :: g - 1 <= j < n ==> RowCharAt(s, j, n)
    ensures LazyGroupEnd(s, g) == Some((n, n + 1))
    decreases n - g
  {
    if g == n {
      assert RowCharAt(s, n - 1, n);
      RunEndIs(s, n, n + 1, Space);
    } else {
      LazyToLineEnd(s, g + 1, n);
      assert RowCharAt(s, g - 1, n) && RowCharAt(s, g, n);
      if s[g] == ' ' {
        RunEndIs(s, g, g + 1, Space);
        assert LastLineEnd(s, g, g + 1).None?;
      } else {
        RunEndIs(s, g, g, Space);
      }
    }
  }

  /** The row cells, started: a space, then at least a digit and a 'k'. */
  lemma KiloCellsHead(vs: seq<string>)
    requires vs != [] && DecimalTexts(vs)
    ensures |KiloCells(vs)| >= 3 && KiloCells(vs)[0] == ' '
  {
    assert KiloCells(vs) == " " + vs[0] + "k" + KiloCells(vs[1..]);
  }

  /** The row placed at rs: its name, then characters of its cells up to n,
      the first a space. */
  lemma RowPlaced(s: string, rs: nat, n: nat, ks: seq<Decimal>)
    requires ks != [] && AllOk(ks)
    requires StartsAt(s, rs, RowLine(ks)) && n == rs + |RowLine(ks)|
    ensures StartsAt(s, rs, "AES-128-GCM") && rs + 13 <= n && s[rs + 11] == ' '
    ensures forall j :: rs + 11 <= j < n ==> RowCharAt(s, j, n)
  {
    var a, vs := rs + 11, KiloTexts(ks);
    var cells := KiloCells(vs);
    SweepLog.StartsAtSplit(s, rs, a, "AES-128-GCM", cells);
    KiloCellsShape(vs);
    ShapeAt(s, a, cells, n);
    KiloCellsHead(vs);
    CharOfLiteral(s, a, cells, 0);
  }

  /** A row of cells as the last line of s: the row pattern's `\s+` takes the
      one space, and the lazy group runs to the newline. */
  lemma RowMatched(s: string, rs: nat, n: nat)
    requires rs <= |s| && LineStart(s, rs) && StartsAt(s, rs, "AES-128-GCM")
    requires rs + 13 <= n && n + 1 == |s| && s[n] == '\n' && s[rs + 11] == ' '
    requires forall j :: rs + 11 <= j < n ==> RowCharAt(s, j, n)
    ensures SpeedRowAt(s, rs) == Some(Match(rs, |s|, [s[rs + 12..n]]))
  {
    var a := rs + 11;
    assert RowCharAt(s, a, n);
    RunEndIs(s, a, a + 1, Space);
    LazyToLineEnd(s, a + 2, n);
  }

  /** The row placed at rs, the last line of s: the row pattern matches it,
      and its group runs from the first digit to the last 'k'. */
  lemma RowFound(s: string, rs: nat, n: nat, ks: seq<Decimal>)
    requires ks != [] && AllOk(ks) && rs <= |s| && LineStart(s, rs)
    requires StartsAt(s, rs, RowLine(ks)) && n == rs + |RowLine(ks)| && n + 1 == |s| && s[n] == '\n'
    ensures rs + 12 <= n
    ensures SpeedRowAt(s, rs) == Some(Match(rs, |s|, [s[rs + 12..n]]))
  {
    RowPlaced(s, rs, n, ks);
    RowMatched(s, rs, n);
  }

  // ----- the k-values of the row: `([\d.]+)k` -----

  /** The row cell of the printed number v at p: a space, v, and "k". */
  predicate KiloCellAt(s: string, p: nat, v: string) {
    p < |s| && s[p] == ' ' && StartsAt(s, p + 1, v) && StartsAt(s, p + 1 + |v|, "k")
  }

  function KiloWidth(v: string): (w: nat)
    ensures w == |KiloCell(v)| && w >= 2
  {
    |v| + 2
  }

  /** The row cells of vs lie in s from p to e. */
  predicate KiloCellsAt(s: string, p: nat, e: nat, vs: seq<string>)
    decreases |vs|
  {
    if vs == [] then p == e
    else KiloCellAt(s, p, vs[0]) && KiloCellsAt(s, p + KiloWidth(vs[0]), e, vs[1..])
  }

  lemma KiloCellPlaced(s: string, p: nat, v: string)
    requires StartsAt(s, p, KiloCell(v))
    ensures KiloCellAt(s, p, v)
  {
    SweepLog.StartsAtSplit(s, p, p + 1 + |v|, " " + v, "k");
    SweepLog.StartsAtSplit(s, p, p + 1, " ", v);
    CharOfLiteral(s, p, " ", 0);
  }

  lemma {:induction false} KiloCellsPlaced(s: string, p: nat, vs: seq<string>)
    requires StartsAt(s, p, KiloCells(vs))
    ensures KiloCellsAt(s, p, p + |KiloCells(vs)|, vs)
    decreases |vs|
  {
    if vs != [] {
      var c := KiloCell(vs[0]);
      SweepLog.StartsAtSplit(s, p, p + |c|, c, KiloCells(vs[1..]));
      KiloCellPlaced(s, p, vs[0]);
      KiloCellsPlaced(s, p + |c|, vs[1..]);
    }
  }

  lemma {:induction false} KiloCellsSpan(s: string, p: nat, e: nat, vs: seq<string>)
    requires KiloCellsAt(s, p, e, vs)
    ensures e == p + |KiloCells(vs)|
    decreases |vs|
  {
    if vs != [] {
      KiloCellsSpan(s, p + KiloWidth(vs[0]), e, vs[1..]);
    }
  }

  lemma KiloCellSlice(s: string, lo: nat, hi: nat, p: nat, v: string)
    requires lo <= p && p + KiloWidth(v) <= hi <= |s| && KiloCellAt(s, p, v)
    ensures KiloCellAt(s[lo..hi], p - lo, v)
  {
    SliceStartsAt(s, lo, hi, p + 1, v);
    SliceStartsAt(s, lo, hi, p + 1 + |v|, "k");
  }

  lemma {:induction false} KiloCellsSlice(s: string, lo: nat, hi: nat, p: nat, e: nat, vs: seq<string>)
    requires lo <= p <= e <= hi <= |s| && KiloCellsAt(s, p, e, vs)
    ensures KiloCellsAt(s[lo..hi], p - lo, e - lo, vs)
    decreases |vs|
  {
    if vs != [] {
      var r0 := p + KiloWidth(vs[0]);
      KiloCellsSpan(s, r0, e, vs[1..]);
      KiloCellSlice(s, lo, hi, p, vs[0]);
      KiloCellsSlice(s, lo, hi, r0, e, vs[1..]);
    }
  }

  /** `([\d.]+)k` at the first character of a printed number followed by "k". */
  lemma KiloMatch(t: string, q: nat, v: string)
    requires IsDecimalText(v) && StartsAt(t, q, v) && StartsAt(t, q + |v|, "k")
    ensures KiloValueAt(t, q) == Some(Match(q, q + KiloWidth(v) - 1, [v]))
  {
    CharOfLiteral(t, q + |v|, "k", 0);
    SweepLog.PieceRun(t, q, v, DigitOrDot);
  }

  /** One row cell: its space is passed over, and `([\d.]+)k` matches its
      number and "k". */
  lemma KiloStep(t: string, p: nat, v: string)
    requires IsDecimalText(v) && KiloCellAt(t, p, v)
    ensures p + KiloWidth(v) <= |t|
    ensures FindAll(KiloValue, t, p) == [Match(p + 1, p + KiloWidth(v), [v])] + FindAll(KiloValue, t, p + KiloWidth(v))
  {
    KiloMatch(t, p + 1, v);
    SpaceThenMatch(KiloValue, t, p, Match(p + 1, p + KiloWidth(v), [v]));
  }

  /** Scanning the row cells from p to the end of t: one match per cell,
      capturing its number. */
  lemma {:induction false} KiloScan(t: string, p: nat, vs: seq<string>)
    requires DecimalTexts(vs) && p <= |t| && KiloCellsAt(t, p, |t|, vs)
    ensures Captured(FindAll(KiloValue, t, p), vs)
    decreases |vs|
  {
    if vs != [] {
      KiloScan(t, p + KiloWidth(vs[0]), vs[1..]);
      KiloScanStep(t, p, vs);
    }
  }

  /** The scan over one more row cell. */
  lemma KiloScanStep(t: string, p: nat, vs: seq<string>)
    requires vs != [] && IsDecimalText(vs[0]) && KiloCellAt(t, p, vs[0])
    requires p + KiloWidth(vs[0]) <= |t| && Captured(FindAll(KiloValue, t, p + KiloWidth(vs[0])), vs[1..])
    ensures Captured(FindAll(KiloValue, t, p), vs)
  {
    KiloStep(t, p, vs[0]);
    ScanCons(KiloValue, t, p, Match(p + 1, p + KiloWidth(vs[0]), [vs[0]]), vs);
  }

  /** The row's group s[rs + 12..n] holds the row cells after the first ... */
  lemma RowGroupRest(s: string, rs: nat, n: nat, vs: seq<string>)
    requires vs != [] && rs + 11 <= n <= |s| && KiloCellsAt(s, rs + 11, n, vs)
    ensures rs + 12 <= n
    ensures var t := s[rs + 12..n]; KiloCellsAt(t, KiloWidth(vs[0]) - 1, |t|, vs[1..])
  {
    var r0 := rs + 11 + KiloWidth(vs[0]);
    KiloCellsSpan(s, r0, n, vs[1..]);
    KiloCellsSlice(s, rs + 12, n, r0, n, vs[1..]);
  }

  /** ... and starts with the first number and its "k". */
  lemma RowGroupFirst(s: string, rs: nat, n: nat, vs: seq<string>)
    requires vs != [] && rs + 11 <= n <= |s| && KiloCellsAt(s, rs + 11, n, vs)
    ensures rs + 12 <= n
    ensures var t := s[rs + 12..n]; StartsAt(t, 0, vs[0]) && StartsAt(t, |vs[0]|, "k")
  {
    KiloCellsSpan(s, rs + 11 + KiloWidth(vs[0]), n, vs[1..]);
    SliceStartsAt(s, rs + 12, n, rs + 12, vs[0]);
    SliceStartsAt(s, rs + 12, n, rs + 12 + |vs[0]|, "k");
  }

  /** Scanning the row's group: one match per k-value, capturing its number. */
  lemma RowGroupScan(t: string, vs: seq<string>)
    requires vs != [] && DecimalTexts(vs)
    requires StartsAt(t, 0, vs[0]) && StartsAt(t, |vs[0]|, "k")
    requires KiloWidth(vs[0]) - 1 <= |t| && KiloCellsAt(t, KiloWidth(vs[0]) - 1, |t|, vs[1..])
    ensures Captured(FindAll(KiloValue, t, 0), vs)
  {
    var j := KiloWidth(vs[0]) - 1;
    KiloMatch(t, 0, vs[0]);
    FindAllTake(KiloValue, t, 0, Match(0, j, [vs[0]]));
    KiloScan(t, j, vs[1..]);
    CapturedCons(Match(0, j, [vs[0]]), FindAll(KiloValue, t, j), vs);
  }

  /** float() of each printed number gives its value. */
  lemma FloatsOfNumbers(ms: seq<Match>, ks: seq<Decimal>)
    requires AllOk(ks) && Captured(ms, KiloTexts(ks))
    ensures IsNumGroup(ms, 0) && FloatsOf(ms, 0) == Success(Kilos(ks))
  {
    CapturedAt(ms, KiloTexts(ks));
    ReadDecimals(ks);
    var r := FloatsOf(ms, 0);
    assert r.value == Kilos(ks);
  }

  lemma ReadDecimals(ks: seq<Decimal>)
    requires AllOk(ks)
    ensures forall i :: 0 <= i < |ks| ==> ToFloat(DecimalText(ks[i])) == Success(DecimalValue(ks[i]))
  {
    forall i | 0 <= i < |ks| ensures ToFloat(DecimalText(ks[i])) == Success(DecimalValue(ks[i])) {
      ReadDecimal(ks[i]);
    }
  }

  /** The row cells placed after the row's name. */
  lemma RowCellsPlaced(s: string, rs: nat, n: nat, ks: seq<Decimal>)
    requires AllOk(ks) && StartsAt(s, rs, RowLine(ks)) && n == rs + |RowLine(ks)|
    ensures rs + 11 <= n <= |s| && KiloCellsAt(s, rs + 11, n, KiloTexts(ks))
  {
    SweepLog.StartsAtSplit(s, rs, rs + 11, "AES-128-GCM", KiloCells(KiloTexts(ks)));
    KiloCellsPlaced(s, rs + 11, KiloTexts(ks));
  }

  /** charts.py:98-99 read the k-values of the row back. */
  lemma RowKilosOf(s: string, rs: nat, n: nat, ks: seq<Decimal>)
    requires ks != [] && AllOk(ks) && StartsAt(s, rs, RowLine(ks)) && n == rs + |RowLine(ks)|
    ensures rs + 12 <= n <= |s|
    ensures RowKilos(Match(rs, n + 1, [s[rs + 12..n]])) == Success(Kilos(ks))
  {
    var vs := KiloTexts(ks);
    RowCellsPlaced(s, rs, n, ks);
    RowGroupRest(s, rs, n, vs);
    RowGroupFirst(s, rs, n, vs);
    var t := s[rs + 12..n];
    RowGroupScan(t, vs);
    FloatsOfNumbers(FindAll(KiloValue, t, 0), ks);
  }
}
