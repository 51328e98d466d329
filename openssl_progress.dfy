/** Scanning the progress lines of `openssl speed` output with the two
    patterns of the fallback (charts.py:77, 84): each line gives one match,
    from its "on" to the "s" after its time, whose groups are the numbers
    printed on the line. */
module OpensslProgress {
  import opened Results
  import opened Chars
  import opened Regex
  import opened Charts
  import opened OpensslLog
  import SweepLog

  // ----- characters under re.IGNORECASE -----

  lemma FoldO(c: char)
    ensures FoldEq('o', c) <==> c == 'o' || c == 'O'
  {
  }

  lemma FoldN(c: char)
    ensures FoldEq('n', c) <==> c == 'n' || c == 'N'
  {
  }

  lemma FoldI(c: char)
    ensures FoldEq('i', c) <==> c == 'i' || c == 'I'
  {
  }

  lemma FoldSpace(c: char)
    ensures FoldEq(' ', c) <==> c == ' '
  {
  }

  /** The first two characters of a literal found under re.IGNORECASE. */
  lemma FoldHead(s: string, p: nat, lit: string)
    ensures StartsAtIgnoreCase(s, p, lit) && |lit| >= 2 ==> FoldEq(lit[0], s[p]) && FoldEq(lit[1], s[p + 1])
  {
    if StartsAtIgnoreCase(s, p, lit) && |lit| >= 2 {
      assert FoldEq(lit[0], s[p + 0]);
      assert FoldEq(lit[1], s[p + 1]);
    }
  }

  /** A literal that occurs in s also occurs there under re.IGNORECASE. */
  lemma ExactIgnoreCase(s: string, p: nat, lit: string)
    requires StartsAt(s, p, lit)
    ensures StartsAtIgnoreCase(s, p, lit)
  {
    forall k | 0 <= k < |lit| ensures FoldEq(lit[k], s[p + k]) {
      CharOfLiteral(s, p, lit, k);
    }
  }

  // ----- where the scan passes over a position -----

  /** "on", in either case, starts at q. */
  predicate OnAt(s: string, q: nat)
    requires q < |s|
  {
    (s[q] == 'o' || s[q] == 'O') && q + 1 < |s| && (s[q + 1] == 'n' || s[q + 1] == 'N')
  }

  /** Both patterns start with `on`: where no "on" starts, neither matches. */
  lemma NoOnNoMatch(pat: Pattern, s: string, q: nat)
    requires (pat == TimedBlock || pat == OpsBlock) && q < |s| && !OnAt(s, q)
    ensures MatchAt(pat, s, q).None?
  {
    FoldHead(s, q, "on");
    FoldO(s[q]);
    if q + 1 < |s| {
      FoldN(s[q + 1]);
    }
  }

  /** Neither pattern matches in a stretch where no "on" starts. */
  lemma NoOnHits(pat: Pattern, s: string, lo: nat, hi: nat)
    requires (pat == TimedBlock || pat == OpsBlock) && lo <= hi <= |s|
    requires forall q :: lo <= q < hi ==> !OnAt(s, q)
    ensures forall q :: lo <= q < hi ==> Hits(pat, s)[q].None?
  {
    forall q | lo <= q < hi ensures Hits(pat, s)[q].None? {
      NoOnNoMatch(pat, s, q);
      HitAt(pat, s, q);
    }
  }

  /** No "on" starts in t, and t does not end in an 'o'. */
  predicate NoOnText(t: string) {
    forall j :: 0 <= j < |t| ==> (t[j] != 'o' && t[j] != 'O') || (j + 1 < |t| && t[j + 1] != 'n' && t[j + 1] != 'N')
  }

  lemma DoingNoOn()
    ensures NoOnText(Doing)
  {
  }

  lemma PieceNoOn(s: string, p: nat, t: string)
    requires StartsAt(s, p, t) && NoOnText(t)
    ensures forall q :: p <= q < p + |t| ==> !OnAt(s, q)
  {
    forall q | p <= q < p + |t| ensures !OnAt(s, q) {
      var k := q - p;
      CharOfLiteral(s, p, t, k);
      assert (t[k] != 'o' && t[k] != 'O') || (k + 1 < |t| && t[k + 1] != 'n' && t[k + 1] != 'N');
      if k + 1 < |t| {
        CharOfLiteral(s, p, t, k + 1);
      }
    }
  }

  /** Neither pattern matches in a text without 'o' or 'O'. */
  lemma NoOFound(pat: Pattern, s: string, p: nat)
    requires (pat == TimedBlock || pat == OpsBlock) && p <= |s|
    requires forall q :: p <= q < |s| ==> s[q] != 'o' && s[q] != 'O'
    ensures Forward(Hits(pat, s)) && ScanHits(Hits(pat, s), p) == []
  {
    HitsForward(pat, s);
    NoOnHits(pat, s, p, |s|);
    ScanPassOver(Hits(pat, s), p, |s|);
  }

  // ----- the lazy `.*? in` -----

  /** ` in\s+([\d.]+)s` cannot start at j, and `.*?` can pass over j. */
  predicate Quiet(s: string, j: nat)
    requires j < |s|
  {
    s[j] != '\n' && !(s[j] == ' ' && j + 1 < |s| && (s[j + 1] == 'i' || s[j + 1] == 'I'))
  }

  lemma QuietNoDuration(s: string, j: nat)
    requires j < |s| && Quiet(s, j)
    ensures DurationAt(s, j).None?
  {
    FoldHead(s, j, " in");
    FoldSpace(s[j]);
    if j + 1 < |s| {
      FoldI(s[j + 1]);
    }
  }

  lemma {:induction false} LazySkip(s: string, lo: nat, hi: nat)
    requires lo <= hi <= |s| && forall j :: lo <= j < hi ==> Quiet(s, j)
    ensures LazyDuration(s, lo) == LazyDuration(s, hi)
    decreases hi - lo
  {
    if lo < hi {
      QuietNoDuration(s, lo);
      LazySkip(s, lo + 1, hi);
    }
  }

  /** Every position of t is quiet, wherever t lies. */
  predicate QuietText(t: string) {
    forall j :: 0 <= j < |t| ==> t[j] != '\n' && (t[j] == ' ' ==> j + 1 < |t| && t[j + 1] != 'i' && t[j + 1] != 'I')
  }

  lemma OpsQuiet()
    ensures QuietText("AES-128-GCM ops")
  {
  }

  lemma PieceQuiet(s: string, p: nat, t: string)
    requires StartsAt(s, p, t) && QuietText(t)
    ensures forall j :: p <= j < p + |t| ==> Quiet(s, j)
  {
    forall j | p <= j < p + |t| ensures Quiet(s, j) {
      var k := j - p;
      CharOfLiteral(s, p, t, k);
      assert t[k] != '\n' && (t[k] == ' ' ==> k + 1 < |t| && t[k + 1] != 'i' && t[k + 1] != 'I');
      if k + 1 < |t| {
        CharOfLiteral(s, p, t, k + 1);
      }
    }
  }

  // ----- one progress line -----

  /** From the "on" of a line at q: "on", a space, the block size b, a space
      and "size blocks:". */
  predicate OnsetAt(s: string, q: nat, b: string) {
    && q + 16 + |b| <= |s|
    && StartsAt(s, q, "on") && s[q + 2] == ' ' && StartsAt(s, q + 3, b)
    && s[q + 3 + |b|] == ' ' && StartsAt(s, q + 4 + |b|, "size blocks:")
  }

  /** From the space after "size blocks:" at q: the space, the count o and a space. */
  predicate CountAt(s: string, q: nat, o: string) {
    q + 2 + |o| <= |s| && s[q] == ' ' && StartsAt(s, q + 1, o) && s[q + 1 + |o|] == ' '
  }

  /** From q: "AES-128-GCM ops in", a space, the time t, its "s" and the newline. */
  predicate TailAt(s: string, q: nat, t: string) {
    && q + 21 + |t| <= |s|
    && StartsAt(s, q, "AES-128-GCM ops") && StartsAt(s, q + 15, " in") && s[q + 18] == ' '
    && StartsAt(s, q + 19, t) && s[q + 19 + |t|] == 's' && s[q + 20 + |t|] == '\n'
  }

  /** A progress line at p with the printed block size b, count o and time t,
      and the newline after it. */
  predicate LineAt(s: string, p: nat, b: string, o: string, t: string) {
    StartsAt(s, p, Doing) && OnsetAt(s, p + 29, b) && CountAt(s, p + 45 + |b|, o)
    && TailAt(s, p + 47 + |b| + |o|, t)
  }

  /** Where the time of the line ends: the position of its "s". */
  function TimeEnd(p: nat, b: string, o: string, t: string): nat {
    p + 66 + |b| + |o| + |t|
  }

  lemma BlockPlaced(s: string, p: nat, b: string)
    requires StartsAt(s, p, BlockPart(b))
    ensures StartsAt(s, p, Doing) && StartsAt(s, p + 29, "on") && s[p + 31] == ' ' && StartsAt(s, p + 32, b)
  {
    SweepLog.StartsAtSplit(s, p, p + 32, Doing + "on" + " ", b);
    SweepLog.StartsAtSplit(s, p, p + 31, Doing + "on", " ");
    SweepLog.StartsAtSplit(s, p, p + 29, Doing, "on");
    CharOfLiteral(s, p + 31, " ", 0);
  }

  lemma CountPlaced(s: string, q: nat, o: string)
    requires StartsAt(s, q, CountPart(o))
    ensures s[q] == ' ' && StartsAt(s, q + 1, "size blocks:") && s[q + 13] == ' ' && StartsAt(s, q + 14, o)
  {
    SweepLog.StartsAtSplit(s, q, q + 14, " " + "size blocks:" + " ", o);
    SweepLog.StartsAtSplit(s, q, q + 13, " " + "size blocks:", " ");
    SweepLog.StartsAtSplit(s, q, q + 1, " ", "size blocks:");
    CharOfLiteral(s, q, " ", 0);
    CharOfLiteral(s, q + 13, " ", 0);
  }

  lemma TimePlaced(s: string, q: nat, t: string)
    requires StartsAt(s, q, TimePart(t))
    ensures s[q] == ' ' && StartsAt(s, q + 1, "AES-128-GCM ops") && StartsAt(s, q + 16, " in")
    ensures s[q + 19] == ' ' && StartsAt(s, q + 20, t) && s[q + 20 + |t|] == 's'
  {
    var u := " " + "AES-128-GCM ops" + " in" + " ";
    SweepLog.StartsAtSplit(s, q, q + 20 + |t|, u + t, "s");
    SweepLog.StartsAtSplit(s, q, q + 20, u, t);
    SweepLog.StartsAtSplit(s, q, q + 19, " " + "AES-128-GCM ops" + " in", " ");
    SweepLog.StartsAtSplit(s, q, q + 16, " " + "AES-128-GCM ops", " in");
    SweepLog.StartsAtSplit(s, q, q + 1, " ", "AES-128-GCM ops");
    CharOfLiteral(s, q, " ", 0);
    CharOfLiteral(s, q + 19, " ", 0);
    CharOfLiteral(s, q + 20 + |t|, "s", 0);
  }

  /** A progress line and its newline placed at p. */
  lemma LinePlaced(s: string, p: nat, b: string, o: string, t: string)
    requires StartsAt(s, p, LineOf(b, o, t) + "\n")
    ensures LineAt(s, p, b, o, t) && |LineOf(b, o, t)| == TimeEnd(p, b, o, t) + 1 - p
  {
    var B := p + 32 + |b|;
    var O := B + 14 + |o|;
    var T := O + 20 + |t|;
    SweepLog.StartsAtSplit(s, p, T + 1, LineOf(b, o, t), "\n");
    SweepLog.StartsAtSplit(s, p, O, BlockPart(b) + CountPart(o), TimePart(t));
    SweepLog.StartsAtSplit(s, p, B, BlockPart(b), CountPart(o));
    BlockPlaced(s, p, b);
    CountPlaced(s, B, o);
    TimePlaced(s, O, t);
    CharOfLiteral(s, T + 1, "\n", 0);
  }

  /** ` in\s+([\d.]+)s` at the " in" of the line. */
  lemma DurationFound(s: string, q: nat, t: string)
    requires IsDecimalText(t) && StartsAt(s, q, " in") && q + 4 + |t| < |s| && s[q + 3] == ' '
    requires StartsAt(s, q + 4, t) && s[q + 4 + |t|] == 's'
    ensures DurationAt(s, q) == Some((q + 4, q + 4 + |t|))
  {
    ExactIgnoreCase(s, q, " in");
    CharOfLiteral(s, q + 4, t, 0);
    RunEndIs(s, q + 3, q + 4, Space);
    SweepLog.PieceRun(s, q + 4, t, DigitOrDot);
  }

  /** No position of the count, or of the spaces around it, is where ` in`
      starts or where `.*?` stops. */
  lemma CountQuiet(s: string, q: nat, o: string)
    requires IsNumeral(o) && CountAt(s, q, o) && q + 2 + |o| < |s| && s[q + 2 + |o|] == 'A'
    ensures forall j :: q <= j < q + 2 + |o| ==> Quiet(s, j)
  {
    CharOfLiteral(s, q + 1, o, 0);
    forall j | q + 1 <= j < q + 1 + |o| ensures Quiet(s, j) {
      CharOfLiteral(s, q + 1, o, j - q - 1);
    }
  }

  /** `.*?` passes over the count and the spaces around it. */
  lemma LazyCount(s: string, q: nat, o: string)
    requires IsNumeral(o) && CountAt(s, q, o) && q + 2 + |o| < |s| && s[q + 2 + |o|] == 'A'
    ensures LazyDuration(s, q) == LazyDuration(s, q + 2 + |o|)
  {
    CountQuiet(s, q, o);
    LazySkip(s, q, q + 2 + |o|);
  }

  /** `.*?` passes over "AES-128-GCM ops" and stops at " in". */
  lemma LazyTail(s: string, a: nat, t: string)
    requires IsDecimalText(t) && TailAt(s, a, t)
    ensures LazyDuration(s, a) == Some((a + 19, a + 19 + |t|))
  {
    OpsQuiet();
    PieceQuiet(s, a, "AES-128-GCM ops");
    LazySkip(s, a, a + 15);
    DurationFound(s, a + 15, t);
  }

  /** `.*? in\s+([\d.]+)s` from the space after "size blocks:". */
  lemma LazyFound(s: string, q: nat, o: string, t: string, a: nat)
    requires IsNumeral(o) && IsDecimalText(t) && a == q + 2 + |o| && CountAt(s, q, o) && TailAt(s, a, t)
    ensures LazyDuration(s, q) == Some((a + 19, a + 19 + |t|))
  {
    CharOfLiteral(s, a, "AES-128-GCM ops", 0);
    LazyCount(s, q, o);
    LazyTail(s, a, t);
  }

  // ----- the two patterns on one line -----

  /** What the patterns see from the "on" of a line at q: "on", one space,
      the block size b, one space and "size blocks:". */
  predicate OnsetRunsAt(s: string, q: nat, b: string) {
    var d := q + 3 + |b|;
    && d + 13 <= |s| && StartsAtIgnoreCase(s, q, "on") && RunEnd(s, q + 2, Space) == q + 3
    && RunEnd(s, q + 3, Digit) == d && s[q + 3..d] == b && RunEnd(s, d, Space) == d + 1
    && StartsAtIgnoreCase(s, d + 1, "size blocks:")
  }

  /** What the second pattern sees from the space after "size blocks:" at c:
      one space, the count o and one space. */
  predicate CountRunsAt(s: string, c: nat, o: string) {
    var e := c + 1 + |o|;
    && e < |s| && RunEnd(s, c, Space) == c + 1 && RunEnd(s, c + 1, Digit) == e
    && s[c + 1..e] == o && RunEnd(s, e, Space) == e + 1
  }

  /** What the second pattern sees from a: "AES-128-GCM ops in", one space,
      the time t and its "s". */
  predicate TailRunsAt(s: string, a: nat, t: string) {
    var n := a + 19 + |t|;
    && n < |s| && StartsAtIgnoreCase(s, a, "AES-128-GCM ops in") && RunEnd(s, a + 18, Space) == a + 19
    && RunEnd(s, a + 19, DigitOrDot) == n && s[a + 19..n] == t && s[n] == 's'
  }

  lemma OnsetRuns(s: string, q: nat, b: string)
    requires IsNumeral(b) && OnsetAt(s, q, b)
    ensures OnsetRunsAt(s, q, b)
  {
    var d := q + 3 + |b|;
    ExactIgnoreCase(s, q, "on");
    CharOfLiteral(s, q + 3, b, 0);
    RunEndIs(s, q + 2, q + 3, Space);
    SweepLog.PieceRun(s, q + 3, b, Digit);
    CharOfLiteral(s, d + 1, "size blocks:", 0);
    RunEndIs(s, d, d + 1, Space);
    ExactIgnoreCase(s, d + 1, "size blocks:");
  }

  lemma CountRuns(s: string, c: nat, o: string)
    requires IsNumeral(o) && CountAt(s, c, o) && c + 2 + |o| < |s| && s[c + 2 + |o|] == 'A'
    ensures CountRunsAt(s, c, o)
  {
    CharOfLiteral(s, c + 1, o, 0);
    RunEndIs(s, c, c + 1, Space);
    SweepLog.PieceRun(s, c + 1, o, Digit);
    RunEndIs(s, c + 1 + |o|, c + 2 + |o|, Space);
  }

  lemma TailRuns(s: string, a: nat, t: string)
    requires IsDecimalText(t) && TailAt(s, a, t)
    ensures TailRunsAt(s, a, t)
  {
    OpsInPlaced(s, a);
    ExactIgnoreCase(s, a, "AES-128-GCM ops in");
    CharOfLiteral(s, a + 19, t, 0);
    RunEndIs(s, a + 18, a + 19, Space);
    SweepLog.PieceRun(s, a + 19, t, DigitOrDot);
  }

  lemma OpsInPlaced(s: string, q: nat)
    requires StartsAt(s, q, "AES-128-GCM ops") && StartsAt(s, q + 15, " in")
    ensures StartsAt(s, q, "AES-128-GCM ops in")
  {
    assert s[q..q + 18] == s[q..q + 15] + s[q + 15..q + 18];
    assert "AES-128-GCM ops" + " in" == "AES-128-GCM ops in";
  }

  /** `on\s+(\d+)\s+size blocks:.*? in\s+([\d.]+)s` from the "on" of a line. */
  lemma TimedFound(s: string, q: nat, b: string, c: nat, t0: nat, t: string)
    requires IsNumeral(b) && OnsetRunsAt(s, q, b) && c == q + 16 + |b| && c < t0 && t0 + |t| < |s|
    requires LazyDuration(s, c) == Some((t0, t0 + |t|)) && s[t0..t0 + |t|] == t
    ensures TimedBlockAt(s, q) == Some(Match(q, t0 + |t| + 1, [b, t]))
  {
  }

  /** `on\s+(\d+)\s+size blocks:\s*(\d+)\s+AES-128-GCM ops in\s+([\d.]+)s`
      from the "on" of a line. */
  lemma OpsFound(s: string, q: nat, b: string, o: string, t: string)
    requires IsNumeral(b) && IsNumeral(o) && IsDecimalText(t)
    requires OnsetRunsAt(s, q, b) && CountRunsAt(s, q + 16 + |b|, o) && TailRunsAt(s, q + 18 + |b| + |o|, t)
    ensures OpsBlockAt(s, q) == Some(Match(q, q + 38 + |b| + |o| + |t|, [b, o, t]))
  {
  }

  /** The groups of the match of pat on a line: the block size and the time,
      and for the second pattern the count between them. */
  function Groups(pat: Pattern, b: string, o: string, t: string): seq<string> {
    if pat == OpsBlock then [b, o, t] else [b, t]
  }

  /** The table of pattern pat over a line at p: no match before its "on",
      the match at the "on", which ends at e, and none at the newline at e. */
  predicate LineHit(hits: seq<Option<Match>>, p: nat, e: nat, g: seq<string>) {
    && p + 29 < e < |hits|
    && (forall q :: p <= q < p + 29 ==> hits[q].None?)
    && hits[p + 29] == Some(Match(p + 29, e, g))
    && hits[e].None?
  }

  /** The scan of a line: one match, then the scan goes on after the newline. */
  lemma LineHitScan(hits: seq<Option<Match>>, p: nat, e: nat, g: seq<string>)
    requires Forward(hits) && LineHit(hits, p, e, g)
    ensures ScanHits(hits, p) == [Match(p + 29, e, g)] + ScanHits(hits, e + 1)
  {
    ScanPassOver(hits, p, p + 29);
  }

  lemma TimedHit(s: string, q: nat, b: string, c: nat, t0: nat, t: string)
    requires IsNumeral(b) && OnsetRunsAt(s, q, b) && c == q + 16 + |b| && c < t0 && t0 + |t| < |s|
    requires LazyDuration(s, c) == Some((t0, t0 + |t|)) && s[t0..t0 + |t|] == t
    ensures Hits(TimedBlock, s)[q] == Some(Match(q, t0 + |t| + 1, [b, t]))
  {
    TimedFound(s, q, b, c, t0, t);
    HitAt(TimedBlock, s, q);
  }

  lemma OpsHit(s: string, q: nat, b: string, o: string, t: string)
    requires IsNumeral(b) && IsNumeral(o) && IsDecimalText(t)
    requires OnsetRunsAt(s, q, b) && CountRunsAt(s, q + 16 + |b|, o) && TailRunsAt(s, q + 18 + |b| + |o|, t)
    ensures Hits(OpsBlock, s)[q] == Some(Match(q, q + 38 + |b| + |o| + |t|, [b, o, t]))
  {
    OpsFound(s, q, b, o, t);
    HitAt(OpsBlock, s, q);
  }

  /** Neither pattern matches at a newline. */
  lemma NewlineHit(pat: Pattern, s: string, e: nat)
    requires (pat == TimedBlock || pat == OpsBlock) && e < |s| && s[e] == '\n'
    ensures Hits(pat, s)[e].None?
  {
    NoOnNoMatch(pat, s, e);
    HitAt(pat, s, e);
  }

  /** No match starts in the text before a line's "on". */
  lemma DoingHits(pat: Pattern, s: string, p: nat)
    requires (pat == TimedBlock || pat == OpsBlock) && StartsAt(s, p, Doing)
    ensures forall q :: p <= q < p + 29 ==> Hits(pat, s)[q].None?
  {
    DoingNoOn();
    PieceNoOn(s, p, Doing);
    NoOnHits(pat, s, p, p + 29);
  }

  /** Each pattern matches at the line's "on", up to the "s" after its time,
      and nowhere else on the line. */
  lemma LineStep(pat: Pattern, s: string, p: nat, x: Progress)
    requires (pat == TimedBlock || pat == OpsBlock) && DecimalOk(x.time)
    requires StartsAt(s, p, ProgressLine(x) + "\n")
    ensures LineHit(Hits(pat, s), p, p + |ProgressLine(x)|, LineGroups(pat, x))
  {
    var b, o, t := NatToDigits(x.block), NatToDigits(x.ops), DecimalText(x.time);
    LinePlaced(s, p, b, o, t);
    if pat == TimedBlock {
      TimedLine(s, p, b, o, t);
    } else {
      OpsLine(s, p, b, o, t);
    }
    DoingHits(pat, s, p);
    NewlineHit(pat, s, p + |ProgressLine(x)|);
  }

  /** What the first pattern needs of a line past its "on". */
  lemma TimedRuns(s: string, p: nat, b: string, o: string, t: string, c: nat, a: nat)
    requires IsNumeral(b) && IsNumeral(o) && IsDecimalText(t) && c == p + 45 + |b| && a == c + 2 + |o|
    requires OnsetAt(s, p + 29, b) && CountAt(s, c, o) && TailAt(s, a, t)
    ensures OnsetRunsAt(s, p + 29, b)
    ensures LazyDuration(s, c) == Some((a + 19, a + 19 + |t|)) && s[a + 19..a + 19 + |t|] == t
  {
    OnsetRuns(s, p + 29, b);
    LazyFound(s, c, o, t, a);
    TimeSlice(s, a, t);
  }

  lemma TimeSlice(s: string, a: nat, t: string)
    requires TailAt(s, a, t)
    ensures s[a + 19..a + 19 + |t|] == t
  {
  }

  /** The table of the first pattern at a line's "on". */
  lemma TimedLine(s: string, p: nat, b: string, o: string, t: string)
    requires IsNumeral(b) && IsNumeral(o) && IsDecimalText(t)
    requires OnsetAt(s, p + 29, b) && CountAt(s, p + 45 + |b|, o) && TailAt(s, p + 47 + |b| + |o|, t)
    ensures Hits(TimedBlock, s)[p + 29] == Some(Match(p + 29, TimeEnd(p, b, o, t) + 1, [b, t]))
  {
    var c := p + 45 + |b|;
    var a := p + 47 + |b| + |o|;
    TimedRuns(s, p, b, o, t, c, a);
    TimedHit(s, p + 29, b, c, a + 19, t);
  }

  /** What the second pattern needs of a line past its "on". */
  lemma OpsRuns(s: string, p: nat, b: string, o: string, t: string)
    requires IsNumeral(b) && IsNumeral(o) && IsDecimalText(t)
    requires OnsetAt(s, p + 29, b) && CountAt(s, p + 45 + |b|, o) && TailAt(s, p + 47 + |b| + |o|, t)
    ensures OnsetRunsAt(s, p + 29, b) && CountRunsAt(s, p + 45 + |b|, o) && TailRunsAt(s, p + 47 + |b| + |o|, t)
  {
    var c := p + 45 + |b|;
    var a := c + 2 + |o|;
    OnsetRuns(s, p + 29, b);
    CharOfLiteral(s, a, "AES-128-GCM ops", 0);
    CountRuns(s, c, o);
    TailRuns(s, a, t);
  }

  /** The table of the second pattern at a line's "on". */
  lemma OpsLine(s: string, p: nat, b: string, o: string, t: string)
    requires IsNumeral(b) && IsNumeral(o) && IsDecimalText(t)
    requires OnsetAt(s, p + 29, b) && CountAt(s, p + 45 + |b|, o) && TailAt(s, p + 47 + |b| + |o|, t)
    ensures Hits(OpsBlock, s)[p + 29] == Some(Match(p + 29, TimeEnd(p, b, o, t) + 1, [b, o, t]))
  {
    OpsRuns(s, p, b, o, t);
    OpsHit(s, p + 29, b, o, t);
  }

  // ----- all the progress lines -----

  /** The groups of the match of pat on the line of x. */
  function LineGroups(pat: Pattern, x: Progress): seq<string>
    requires DecimalOk(x.time)
  {
    Groups(pat, NatToDigits(x.block), NatToDigits(x.ops), DecimalText(x.time))
  }

  /** Lines joined, each followed by a newline. */
  function Joined(ls: seq<string>): string {
    if ls == [] then "" else ls[0] + "\n" + Joined(ls[1..])
  }

  /** Line l, with its newline, sits at q. */
  predicate LinePlacedAt(s: string, q: nat, l: string) {
    StartsAt(s, q, l + "\n")
  }

  /** The table over lines ls at p, where the match on each line captures
      the groups gs lists for it. */
  predicate LinesHit(hits: seq<Option<Match>>, p: nat, ls: seq<string>, gs: seq<seq<string>>)
    requires |ls| == |gs|
    decreases |ls|
  {
    ls == [] ||
      (LineHit(hits, p, p + |ls[0]|, gs[0]) && LinesHit(hits, p + |ls[0]| + 1, ls[1..], gs[1..]))
  }

  /** Wherever line i of ls sits in s, the table holds its match. */
  ghost predicate EachHit(hits: seq<Option<Match>>, s: string, ls: seq<string>, gs: seq<seq<string>>)
    requires |ls| == |gs|
  {
    forall q: nat, i :: 0 <= i < |ls| && LinePlacedAt(s, q, ls[i]) ==> LineHit(hits, q, q + |ls[i]|, gs[i])
  }

  lemma {:induction false} LinesPlacedHit(hits: seq<Option<Match>>, s: string, p: nat, ls: seq<string>, gs: seq<seq<string>>)
    requires |ls| == |gs| && EachHit(hits, s, ls, gs) && StartsAt(s, p, Joined(ls))
    ensures LinesHit(hits, p, ls, gs)
    decreases |ls|
  {
    if ls != [] {
      var q := p + |ls[0]| + 1;
      SweepLog.StartsAtSplit(s, p, q, ls[0] + "\n", Joined(ls[1..]));
      assert LinePlacedAt(s, p, ls[0]);
      forall r: nat, i | 0 <= i < |ls| - 1 && LinePlacedAt(s, r, ls[1..][i])
        ensures LineHit(hits, r, r + |ls[1..][i]|, gs[1..][i])
      {
        assert ls[1..][i] == ls[i + 1];
      }
      LinesPlacedHit(hits, s, q, ls[1..], gs[1..]);
    }
  }

  /** The scan of such lines, when nothing matches after them: one match per
      line, capturing its groups. */
  lemma {:induction false} LinesScan(hits: seq<Option<Match>>, p: nat, ls: seq<string>, gs: seq<seq<string>>)
    requires Forward(hits) && |ls| == |gs| && LinesHit(hits, p, ls, gs)
    requires p + |Joined(ls)| <= |hits| && ScanHits(hits, p + |Joined(ls)|) == []
    ensures var ms := ScanHits(hits, p);
      |ms| == |gs| && forall i :: 0 <= i < |gs| ==> ms[i].groups == gs[i]
    decreases |ls|
  {
    if ls != [] {
      var e := p + |ls[0]|;
      LineHitScan(hits, p, e, gs[0]);
      LinesScan(hits, e + 1, ls[1..], gs[1..]);
      var ms := ScanHits(hits, p);
      forall i | 1 <= i < |gs| ensures ms[i].groups == gs[i] {
        assert ms[i] == ScanHits(hits, e + 1)[i - 1];
      }
    }
  }

  /** The lines of xs. */
  function LineTexts(xs: seq<Progress>): (ls: seq<string>)
    requires AllTimed(xs)
    ensures |ls| == |xs| && forall i :: 0 <= i < |xs| ==> ls[i] == ProgressLine(xs[i])
  {
    seq(|xs|, i requires 0 <= i < |xs| => ProgressLine(xs[i]))
  }

  lemma {:induction false} LinesJoined(xs: seq<Progress>)
    requires AllTimed(xs)
    ensures ProgressLines(xs) == Joined(LineTexts(xs))
    decreases |xs|
  {
    if xs != [] {
      LinesJoined(xs[1..]);
      assert LineTexts(xs)[1..] == LineTexts(xs[1..]);
    }
  }

  /** The groups of pat on the lines of xs. */
  function LinesGroups(pat: Pattern, xs: seq<Progress>): (gs: seq<seq<string>>)
    requires AllTimed(xs)
    ensures |gs| == |xs| && forall i :: 0 <= i < |xs| ==> gs[i] == LineGroups(pat, xs[i])
  {
    seq(|xs|, i requires 0 <= i < |xs| => LineGroups(pat, xs[i]))
  }

  /** Wherever a line of xs sits, the table of pat holds its match. */
  lemma LinesEach(pat: Pattern, s: string, xs: seq<Progress>)
    requires (pat == TimedBlock || pat == OpsBlock) && AllTimed(xs)
    ensures EachHit(Hits(pat, s), s, LineTexts(xs), LinesGroups(pat, xs))
  {
    var ls := LineTexts(xs);
    forall q: nat, i | 0 <= i < |ls| && LinePlacedAt(s, q, ls[i])
      ensures LineHit(Hits(pat, s), q, q + |ls[i]|, LinesGroups(pat, xs)[i])
    {
      LineStep(pat, s, q, xs[i]);
    }
  }

  /** findall over progress lines followed by text without 'o' or 'O': one
      match per line, capturing its numbers. */
  lemma LinesFound(pat: Pattern, s: string, xs: seq<Progress>)
    requires (pat == TimedBlock || pat == OpsBlock) && AllTimed(xs)
    requires StartsAt(s, 0, ProgressLines(xs))
    requires forall q :: |ProgressLines(xs)| <= q < |s| ==> s[q] != 'o' && s[q] != 'O'
    ensures var ms := FindAll(pat, s, 0);
      |ms| == |xs| && forall i :: 0 <= i < |xs| ==> ms[i].groups == LineGroups(pat, xs[i])
  {
    var ls := LineTexts(xs);
    var gs := LinesGroups(pat, xs);
    LinesJoined(xs);
    LinesEach(pat, s, xs);
    LinesPlacedHit(Hits(pat, s), s, 0, ls, gs);
    NoOFound(pat, s, |Joined(ls)|);
    LinesScan(Hits(pat, s), 0, ls, gs);
    FindAllHits(pat, s, 0);
  }
}
