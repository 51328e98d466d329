/** The fixed regular expressions of the parsers, each read as a deterministic
    matcher at one start position, and the three ways the code applies them:
    re.search (the first start position that matches) and re.findall /
    re.finditer (leftmost, non-overlapping matches, left to right). */
module Regex {
  import opened Results
  import opened Chars

  /** The two benchmark sections of the sweep log. */
  datatype Op = Encryption | Decryption

  function Title(op: Op): string {
    match op
    case Encryption => "ENCRYPTION THREAD/CHUNK SWEEP"
    case Decryption => "DECRYPTION THREAD/CHUNK SWEEP"
  }

  /** The header as test_parser.py spells it: a literal with single spaces. */
  function LiteralHeader(op: Op): string {
    "=== " + Title(op) + " ==="
  }

  /** Every regular expression the core compiles. */
  datatype Pattern =
    | SweepHeader(op: Op, literal: bool)  // charts.py:34-35 (literal == false), test_parser.py:12-15
    | Triplet(integerChunk: bool)         // charts.py:42 (integerChunk == false), test_parser.py:23
    | SpeedHeader                         // charts.py:71
    | SpeedRow                            // charts.py:72
    | TimedBlock                          // charts.py:77
    | OpsBlock                            // charts.py:84
    | ByteSize                            // charts.py:97
    | KiloValue                           // charts.py:99

  /** A match: where it starts and ends, and the text of each capture group. */
  datatype Match = Match(start: nat, end: nat, groups: seq<string>)

  /** A list of matches is its prefix followed by its last match. */
  lemma LastSplit(ms: seq<Match>)
    requires ms != []
    ensures ms[..|ms| - 1] + [ms[|ms| - 1]] == ms
  {
  }

  /** The patterns applied with findall or finditer. None of them matches the
      empty string, so a scan always moves forward. */
  predicate Scanning(pat: Pattern) {
    !(pat.SweepHeader? || pat.SpeedHeader? || pat.SpeedRow?)
  }

  /** How many groups each pattern captures, and what characters they hold. */
  predicate GroupsFit(pat: Pattern, g: seq<string>) {
    match pat
    case SweepHeader(_, _) => |g| == 1
    case Triplet(integerChunk) =>
      |g| == 3 && IsDigits(g[0]) && IsNumRun(g[1]) && (integerChunk ==> IsDigits(g[1])) && IsNumRun(g[2])
    case SpeedHeader => |g| == 1
    case SpeedRow => |g| == 1
    case TimedBlock => |g| == 2 && IsDigits(g[0]) && IsNumRun(g[1])
    case OpsBlock => |g| == 3 && IsDigits(g[0]) && IsDigits(g[1]) && IsNumRun(g[2])
    case ByteSize => |g| == 1 && IsDigits(g[0])
    case KiloValue => |g| == 1 && IsNumRun(g[0])
  }

  // ----- section headers of the sweep log -----

  /** A position where a section body stops. `(?===|\Z)` of charts.py is the
      lookahead `(?=` over `==|\Z`, and `(?===|$)` of test_parser.py the
      lookahead over `==|$`, whose `$` (no MULTILINE) also matches just before
      a newline that ends the text. So a body stops at the first "==", not at
      the first "===". */
  predicate SectionEnd(s: string, k: nat, literal: bool)
    requires k <= |s|
  {
    k == |s| || StartsAt(s, k, "==") || (literal && k + 1 == |s| && s[k] == '\n')
  }

  /** The lazy `(.*?)` (DOTALL) before that lookahead: the first section end
      at or after h. */
  function NextSectionEnd(s: string, h: nat, literal: bool): (k: nat)
    requires h <= |s|
    ensures h <= k <= |s| && SectionEnd(s, k, literal)
    ensures forall j :: h <= j < k ==> !SectionEnd(s, j, literal)
    decreases |s| - h
  {
    if SectionEnd(s, h, literal) then h else NextSectionEnd(s, h + 1, literal)
  }

  /** Two '=' are enough: in "a==b" the body after position 0 is "a". */
  lemma EndsAtDoubleEquals(literal: bool)
    ensures NextSectionEnd("a==b", 0, literal) == 1
  {
    assert "a==b"[0..2][0] == 'a';
    assert "a==b"[1..3] == "==";
  }

  /** Where the header text ends when a header starts at p: after
      `===\s*TITLE\s*===` (charts.py:34-35) or after the literal header
      (test_parser.py:13,15). Both `\s*` are followed by a character that is
      not whitespace, so each takes the whole run of whitespace. */
  function SweepHeaderEnd(s: string, p: nat, op: Op, literal: bool): (h: Option<nat>)
    requires p <= |s|
    ensures h.Some? ==> p + 3 <= h.value <= |s|
    ensures literal ==> (h.Some? <==> StartsAt(s, p, LiteralHeader(op)))
    ensures literal && h.Some? ==> h.value == p + |LiteralHeader(op)|
    ensures !literal && h.Some? ==> StartsAt(s, p, "===") && StartsAt(s, h.value - 3, "===")
  {
    if literal then
      if StartsAt(s, p, LiteralHeader(op)) then Some(p + |LiteralHeader(op)|) else None
    else MarkedHeaderEnd(s, p, op)
  }

  /** `===\s*TITLE\s*===` at p: where the closing "===" ends. */
  function MarkedHeaderEnd(s: string, p: nat, op: Op): (h: Option<nat>)
    requires p <= |s|
    ensures h.Some? ==> p + 3 <= h.value <= |s| && StartsAt(s, p, "===") && StartsAt(s, h.value - 3, "===")
  {
    if !StartsAt(s, p, "===") then None
    else
      var a := RunEnd(s, p + 3, Space);
      if !StartsAt(s, a, Title(op)) then None
      else
        var b := RunEnd(s, a + |Title(op)|, Space);
        if StartsAt(s, b, "===") then Some(b + 3) else None
  }

  /** No "==" occurs in t. */
  predicate NoMarker(t: string) {
    forall j :: 0 <= j < |t| ==> !StartsAt(t, j, "==")
  }

  lemma NoMarkerBefore(s: string, h: nat, k: nat, literal: bool)
    requires h <= k <= |s| && forall j :: h <= j < k ==> !SectionEnd(s, j, literal)
    ensures NoMarker(s[h..k])
  {
    var body := s[h..k];
    forall j | 0 <= j < |body| ensures !StartsAt(body, j, "==") {
      assert !SectionEnd(s, h + j, literal);
      if j + 2 <= |body| {
        assert body[j] == s[h + j] && body[j + 1] == s[h + j + 1];
        assert body[j..j + 2] == s[h + j..h + j + 2];
      }
    }
  }

  /** The header and the section body after it, up to where the section ends;
      the body holds no "==". */
  function SweepHeaderAt(s: string, p: nat, op: Op, literal: bool): (r: Option<Match>)
    requires p <= |s|
    ensures r.Some? ==> r.value.start == p <= r.value.end <= |s| && |r.value.groups| == 1
    ensures r.Some? ==> SectionEnd(s, r.value.end, literal) && NoMarker(r.value.groups[0])
    ensures r.Some? <==> SweepHeaderEnd(s, p, op, literal).Some?
    ensures r.Some? ==> var h := SweepHeaderEnd(s, p, op, literal).value;
      h <= r.value.end && r.value.groups[0] == s[h..r.value.end]
      && forall j :: h <= j < r.value.end ==> !SectionEnd(s, j, literal)
  {
    match SweepHeaderEnd(s, p, op, literal)
    case None => None
    case Some(h) =>
      var k := NextSectionEnd(s, h, literal);
      NoMarkerBefore(s, h, k, literal);
      Some(Match(p, k, [s[h..k]]))
  }

  // ----- the data rows of the sweep log -----

  /** `(\d+)\s*\|\s*([\d.]+)\s*\|\s*([\d.]+)` (charts.py:42) or, with an
      integer chunk, `(\d+)\s*\|\s*(\d+)\s*\|\s*([\d.]+)` (test_parser.py:23),
      tried at p. Each repetition is followed by a character it cannot consume,
      so backtracking never shortens one: every run is maximal. */
  function TripletAt(s: string, p: nat, integerChunk: bool): (r: Option<Match>)
    requires p <= |s|
    ensures r.Some? ==> r.value.start == p < r.value.end <= |s| && GroupsFit(Triplet(integerChunk), r.value.groups)
  {
    var chunk := ChunkClass(integerChunk);
    var i1 := RunEnd(s, p, Digit);
    if i1 == p then None
    else match BarAt(s, i1)
    case None => None
    case Some(i3) =>
      var i4 := RunEnd(s, i3, chunk);
      if i4 == i3 then None
      else match BarAt(s, i4)
      case None => None
      case Some(i6) =>
        var i7 := RunEnd(s, i6, DigitOrDot);
        if i7 == i6 then None
        else
          RunText(s, p, Digit);
          RunText(s, i3, chunk);
          RunText(s, i6, DigitOrDot);
          Some(Match(p, i7, [s[p..i1], s[i3..i4], s[i6..i7]]))
  }

  /** The class of the chunk-size group: `\d` or `[\d.]`. */
  function ChunkClass(integerChunk: bool): (k: CharClass)
    ensures k != Space
  {
    if integerChunk then Digit else DigitOrDot
  }

  /** `\s*\|\s*` tried at q: where the blanks after the bar end. */
  function BarAt(s: string, q: nat): (r: Option<nat>)
    requires q <= |s|
    ensures r.Some? ==> q < r.value <= |s|
  {
    var i := RunEnd(s, q, Space);
    if i == |s| || s[i] != '|' then None else Some(RunEnd(s, i + 1, Space))
  }

  // ----- the OpenSSL summary table -----

  /** The last position in [lo, hi] where `$` matches under re.MULTILINE. */
  function LastLineEnd(s: string, lo: nat, hi: nat): (e: Option<nat>)
    requires hi <= |s|
    ensures e.Some? ==> lo <= e.value <= hi && LineEnd(s, e.value)
    ensures e.Some? ==> forall j :: e.value < j <= hi ==> !LineEnd(s, j)
    ensures e.None? ==> forall j :: lo <= j <= hi ==> !LineEnd(s, j)
    decreases hi
  {
    if hi < lo then None
    else if LineEnd(s, hi) then Some(hi)
    else if hi == lo then None
    else LastLineEnd(s, lo, hi - 1)
  }

  /** `(?:\d+\s+bytes\s+)+\s*$` from q: where group 1 (and the match) ends.
      An iteration is a maximal digit run, a maximal whitespace run, "bytes"
      and a whitespace run r0..r1. The engine first tries one more iteration
      after the whole run; failing that, it gives whitespace back and ends the
      group at the last position in (r0, r1] where `\s*$` then succeeds, which
      is the last line end there. */
  function SizesEnd(s: string, q: nat): (g: Option<nat>)
    requires q <= |s|
    ensures g.Some? ==> q < g.value <= |s| && LineEnd(s, g.value)
    decreases |s| - q, 0
  {
    var d := RunEnd(s, q, Digit);
    var b := RunEnd(s, d, Space);
    if d == q || b == d || !StartsAt(s, b, "bytes") then None
    else SizesAfter(s, b + 5)
  }

  /** The rest of an iteration once "bytes" ends at r0: the whitespace run
      r0..r1, then one more iteration or the group's end. */
  function SizesAfter(s: string, r0: nat): (g: Option<nat>)
    requires r0 <= |s|
    ensures g.Some? ==> r0 < g.value <= |s| && LineEnd(s, g.value)
    decreases |s| - r0, 1
  {
    var r1 := RunEnd(s, r0, Space);
    if r1 == r0 then None
    else
      var more := if r1 < |s| && IsDigit(s[r1]) then SizesEnd(s, r1) else None;
      if more.Some? then more else LastLineEnd(s, r0 + 1, r1)
  }

  /** `^type\s+((?:\d+\s+bytes\s+)+)\s*$` with re.MULTILINE (charts.py:71),
      tried at p. The `\s+` after "type" is followed by a digit, so it takes
      the whole whitespace run. */
  function SpeedHeaderAt(s: string, p: nat): (r: Option<Match>)
    requires p <= |s|
    ensures r.Some? ==> r.value.start == p <= r.value.end <= |s| && |r.value.groups| == 1
    ensures r.Some? ==> (LineStart(s, p) && StartsAt(s, p, "type") && LineEnd(s, r.value.end)
      && var w := RunEnd(s, p + 4, Space);
        p + 4 < w < r.value.end && AllIn(s, p + 4, w, Space) && r.value.groups[0] == s[w..r.value.end])
  {
    if !(LineStart(s, p) && StartsAt(s, p, "type")) then None
    else
      var w := RunEnd(s, p + 4, Space);
      RunEndRun(s, p + 4, Space);
      if w == p + 4 then None
      else
        match SizesEnd(s, w)
        case None => None
        case Some(g) => Some(Match(p, g, [s[w..g]]))
  }

  /** The lazy `(.+?)` followed by `\s*$` (re.MULTILINE), with the group
      currently ending at g: the first group end, extending one character at a
      time but never over a newline, at which `\s*$` succeeds, and where the
      match then ends (greedy `\s*` gives whitespace back until `$` holds). */
  function LazyGroupEnd(s: string, g: nat): (r: Option<(nat, nat)>)
    requires 0 < g <= |s|
    ensures r.Some? ==> (g <= r.value.0 <= r.value.1 <= |s| && LineEnd(s, r.value.1)
      && AllIn(s, r.value.0, r.value.1, Space) && forall j :: g - 1 <= j < r.value.0 ==> s[j] != '\n')
    decreases |s| - g
  {
    if s[g - 1] == '\n' then None
    else
      RunEndRun(s, g, Space);
      match LastLineEnd(s, g, RunEnd(s, g, Space))
      case Some(e) => Some((g, e))
      case None => if g == |s| then None else LazyGroupEnd(s, g + 1)
  }

  /** The `\s+` after "AES-128-GCM" ending at c, c - 1, ..., a + 1 in turn
      (greedy, giving back one character at a time), each followed by the lazy
      group: the group's start and end and the match end of the first that
      succeeds. */
  function RowGroupFrom(s: string, a: nat, c: nat): (r: Option<(nat, nat, nat)>)
    requires c <= |s|
    ensures r.Some? ==> (a < r.value.0 < r.value.1 <= r.value.2 <= |s| && r.value.0 <= c
      && LineEnd(s, r.value.2) && AllIn(s, r.value.1, r.value.2, Space)
      && forall j :: r.value.0 <= j < r.value.1 ==> s[j] != '\n')
    decreases c
  {
    if c <= a then None
    else
      match (if c < |s| then LazyGroupEnd(s, c + 1) else None)
      case Some((g, e)) => Some((c, g, e))
      case None => RowGroupFrom(s, a, c - 1)
  }

  /** `^AES-128-GCM\s+(.+?)\s*$` with re.MULTILINE (charts.py:72), tried at p. */
  function SpeedRowAt(s: string, p: nat): (r: Option<Match>)
    requires p <= |s|
    ensures r.Some? ==> r.value.start == p <= r.value.end <= |s| && |r.value.groups| == 1
    ensures r.Some? ==> (LineStart(s, p) && StartsAt(s, p, "AES-128-GCM") && LineEnd(s, r.value.end)
      && exists c, g :: (p + 11 < c < g <= r.value.end && r.value.groups[0] == s[c..g]
        && AllIn(s, p + 11, c, Space) && AllIn(s, g, r.value.end, Space)
        && forall j :: c <= j < g ==> s[j] != '\n'))
  {
    if !(LineStart(s, p) && StartsAt(s, p, "AES-128-GCM")) then None
    else
      var a := p + 11;
      RunEndRun(s, a, Space);
      match RowGroupFrom(s, a, RunEnd(s, a, Space))
      case None => None
      case Some((c, g, e)) => Some(Match(p, e, [s[c..g]]))
  }

  /** `(\d+)\s+bytes` (charts.py:97), tried at p. */
  function ByteSizeAt(s: string, p: nat): (r: Option<Match>)
    requires p <= |s|
    ensures r.Some? ==> r.value.start == p < r.value.end <= |s| && GroupsFit(ByteSize, r.value.groups)
  {
    var d := RunEnd(s, p, Digit);
    var w := RunEnd(s, d, Space);
    if d == p || w == d || !StartsAt(s, w, "bytes") then None
    else RunText(s, p, Digit); Some(Match(p, w + 5, [s[p..d]]))
  }

  /** `([\d.]+)k` (charts.py:99), tried at p. */
  function KiloValueAt(s: string, p: nat): (r: Option<Match>)
    requires p <= |s|
    ensures r.Some? ==> r.value.start == p < r.value.end <= |s| && GroupsFit(KiloValue, r.value.groups)
  {
    var n := RunEnd(s, p, DigitOrDot);
    if n == p || n == |s| || s[n] != 'k' then None
    else RunText(s, p, DigitOrDot); Some(Match(p, n + 1, [s[p..n]]))
  }

  // ----- the OpenSSL progress lines -----

  /** ` in\s+([\d.]+)s` under re.IGNORECASE at j: the span of the duration. */
  function DurationAt(s: string, j: nat): (r: Option<(nat, nat)>)
    requires j <= |s|
    ensures r.Some? ==> j < r.value.0 < r.value.1 < |s| && IsNumRun(s[r.value.0..r.value.1])
  {
    if !StartsAtIgnoreCase(s, j, " in") then None
    else
      var w := RunEnd(s, j + 3, Space);
      var n := RunEnd(s, w, DigitOrDot);
      if w == j + 3 || n == w || n == |s| || !FoldEq('s', s[n]) then None
      else RunText(s, w, DigitOrDot); Some((w, n))
  }

  /** `.*? in\s+([\d.]+)s` from j: the lazy `.*?`, which cannot cross a
      newline, stops at the first position where the duration matches. */
  function LazyDuration(s: string, j: nat): (r: Option<(nat, nat)>)
    requires j <= |s|
    ensures r.Some? ==> j < r.value.0 < r.value.1 < |s| && IsNumRun(s[r.value.0..r.value.1])
    decreases |s| - j
  {
    match DurationAt(s, j)
    case Some(t) => Some(t)
    case None => if j == |s| || s[j] == '\n' then None else LazyDuration(s, j + 1)
  }

  /** `on\s+(\d+)\s+size blocks:.*? in\s+([\d.]+)s` under re.IGNORECASE
      (charts.py:77), tried at p. */
  function TimedBlockAt(s: string, p: nat): (r: Option<Match>)
    requires p <= |s|
    ensures r.Some? ==> r.value.start == p < r.value.end <= |s| && GroupsFit(TimedBlock, r.value.groups)
  {
    if !StartsAtIgnoreCase(s, p, "on") then None
    else
      var w1 := RunEnd(s, p + 2, Space);
      var d := RunEnd(s, w1, Digit);
      var w2 := RunEnd(s, d, Space);
      if w1 == p + 2 || d == w1 || w2 == d || !StartsAtIgnoreCase(s, w2, "size blocks:") then None
      else
        match LazyDuration(s, w2 + 12)
        case None => None
        case Some((t0, t1)) => RunText(s, w1, Digit); Some(Match(p, t1 + 1, [s[w1..d], s[t0..t1]]))
  }

  /** `on\s+(\d+)\s+size blocks:\s*(\d+)\s+AES-128-GCM ops in\s+([\d.]+)s`
      under re.IGNORECASE (charts.py:84), tried at p. */
  function OpsBlockAt(s: string, p: nat): (r: Option<Match>)
    requires p <= |s|
    ensures r.Some? ==> r.value.start == p < r.value.end <= |s| && GroupsFit(OpsBlock, r.value.groups)
  {
    if !StartsAtIgnoreCase(s, p, "on") then None
    else
      var w1 := RunEnd(s, p + 2, Space);
      var d1 := RunEnd(s, w1, Digit);
      var w2 := RunEnd(s, d1, Space);
      if w1 == p + 2 || d1 == w1 || w2 == d1 || !StartsAtIgnoreCase(s, w2, "size blocks:") then None
      else
        var w3 := RunEnd(s, w2 + 12, Space);
        var d2 := RunEnd(s, w3, Digit);
        var w4 := RunEnd(s, d2, Space);
        if d2 == w3 || w4 == d2 || !StartsAtIgnoreCase(s, w4, "AES-128-GCM ops in") then None
        else
          var w5 := RunEnd(s, w4 + 18, Space);
          var n := RunEnd(s, w5, DigitOrDot);
          if w5 == w4 + 18 || n == w5 || n == |s| || !FoldEq('s', s[n]) then None
          else
            RunText(s, w1, Digit);
            RunText(s, w3, Digit);
            RunText(s, w5, DigitOrDot);
            Some(Match(p, n + 1, [s[w1..d1], s[w3..d2], s[w5..n]]))
  }

  // ----- applying a pattern -----

  /** The match of pat that starts at p, if any. */
  function MatchAt(pat: Pattern, s: string, p: nat): (r: Option<Match>)
    requires p <= |s|
    ensures r.Some? ==> r.value.start == p <= r.value.end <= |s| && GroupsFit(pat, r.value.groups)
    ensures r.Some? && Scanning(pat) ==> p < r.value.end
  {
    match pat
    case SweepHeader(op, literal) => SweepHeaderAt(s, p, op, literal)
    case Triplet(integerChunk) => TripletAt(s, p, integerChunk)
    case SpeedHeader => SpeedHeaderAt(s, p)
    case SpeedRow => SpeedRowAt(s, p)
    case TimedBlock => TimedBlockAt(s, p)
    case OpsBlock => OpsBlockAt(s, p)
    case ByteSize => ByteSizeAt(s, p)
    case KiloValue => KiloValueAt(s, p)
  }

  /** The matcher of pat over s, as a function of the start position. */
  function MatcherOf(pat: Pattern, s: string): nat -> Option<Match> {
    (q: nat) => if q <= |s| then MatchAt(pat, s, q) else None
  }

  /** r is the match at the first start position in [from, n] where `at` has
      one, or None when there is no such position. */
  ghost predicate FirstBy(at: nat -> Option<Match>, n: nat, from: nat, r: Option<Match>) {
    && (r.Some? ==> from <= r.value.start <= n && at(r.value.start) == r)
    && (forall q :: from <= q <= n && (r.None? || q < r.value.start) ==> at(q).None?)
  }

  /** The result at the first position in [from, n] where `at` has a match,
      or what `at` gives at n when there is none. */
  function FirstFrom(at: nat -> Option<Match>, n: nat, from: nat): Option<Match>
    decreases n - from
  {
    if at(from).Some? || from >= n then at(from) else FirstFrom(at, n, from + 1)
  }

  /** Every match `at` gives starts where it was tried. */
  ghost predicate Anchored(at: nat -> Option<Match>) {
    forall q :: at(q).Some? ==> at(q).value.start == q
  }

  lemma {:induction false} FirstFromFirst(at: nat -> Option<Match>, n: nat, from: nat)
    requires from <= n && Anchored(at)
    ensures FirstBy(at, n, from, FirstFrom(at, n, from))
    decreases n - from
  {
    if at(from).None? && from < n {
      FirstFromFirst(at, n, from + 1);
    }
  }

  /** re.search: the match at the first start position that has one. */
  function Search(pat: Pattern, s: string): (r: Option<Match>)
    ensures r.Some? ==> r.value.start <= r.value.end <= |s| && GroupsFit(pat, r.value.groups)
  {
    MatcherAnchored(pat, s);
    FirstFromFirst(MatcherOf(pat, s), |s|, 0);
    FirstFrom(MatcherOf(pat, s), |s|, 0)
  }

  lemma MatcherAnchored(pat: Pattern, s: string)
    ensures Anchored(MatcherOf(pat, s))
  {
    forall q: nat ensures MatcherOf(pat, s)(q).Some? ==> MatcherOf(pat, s)(q).value.start == q {
      if q <= |s| {
        assert MatcherOf(pat, s)(q) == MatchAt(pat, s, q);
      }
    }
  }

  /** re.search returns the match at the first start position that has one. */
  lemma SearchFirst(pat: Pattern, s: string)
    ensures FirstBy(MatcherOf(pat, s), |s|, 0, Search(pat, s))
  {
    MatcherAnchored(pat, s);
    FirstFromFirst(MatcherOf(pat, s), |s|, 0);
  }

  /** Where `at` first has a match, FirstBy finds exactly that match. */
  lemma FirstByIs(at: nat -> Option<Match>, n: nat, from: nat, r: Option<Match>, k: nat)
    requires FirstBy(at, n, from, r) && from <= k <= n && at(k).Some?
    requires forall q :: from <= q < k ==> at(q).None?
    ensures r == at(k)
  {
  }

  /** re.search returns the match at k when k is the first position with one. */
  lemma SearchAt(pat: Pattern, s: string, k: nat)
    requires k <= |s| && MatchAt(pat, s, k).Some?
    requires forall q :: 0 <= q < k ==> MatchAt(pat, s, q).None?
    ensures Search(pat, s) == MatchAt(pat, s, k)
  {
    var at := MatcherOf(pat, s);
    SearchFirst(pat, s);
    assert at(k) == MatchAt(pat, s, k);
    forall q | 0 <= q < k ensures at(q).None? {
      assert at(q) == MatchAt(pat, s, q);
    }
    FirstByIs(at, |s|, 0, Search(pat, s), k);
  }

  /** re.search returns None when no position has a match. */
  lemma SearchNone(pat: Pattern, s: string)
    requires forall q :: 0 <= q <= |s| ==> MatchAt(pat, s, q).None?
    ensures Search(pat, s).None?
  {
    SearchFirst(pat, s);
  }

  /** The section re.search finds is the one SweepHeaderAt gives at its
      start, and no earlier position starts a section. */
  lemma SearchHeader(s: string, op: Op, literal: bool)
    requires Search(SweepHeader(op, literal), s).Some?
    ensures var m := Search(SweepHeader(op, literal), s).value;
      && m.start <= |s| && SweepHeaderAt(s, m.start, op, literal) == Some(m)
      && forall q :: 0 <= q < m.start ==> SweepHeaderAt(s, q, op, literal).None?
  {
    var pat := SweepHeader(op, literal);
    var m := Search(pat, s).value;
    SearchFirst(pat, s);
    assert MatcherOf(pat, s)(m.start) == SweepHeaderAt(s, m.start, op, literal);
    forall q | 0 <= q < m.start ensures SweepHeaderAt(s, q, op, literal).None? {
      assert MatcherOf(pat, s)(q) == SweepHeaderAt(s, q, op, literal);
    }
  }

  /** The elements of ms are matches that `at` gives at their own starts,
      from position from on, left to right and without overlap. */
  ghost predicate FoundBy(at: nat -> Option<Match>, n: nat, from: nat, ms: seq<Match>) {
    && (forall i :: 0 <= i < |ms| ==>
          from <= ms[i].start < ms[i].end && ms[i].start <= n && at(ms[i].start) == Some(ms[i]))
    && (forall i, j :: 0 <= i < j < |ms| ==> ms[i].end <= ms[j].start)
  }

  /** Every start position in [from, n] where `at` has a match lies inside one
      of the matches of ms: a position between two of them would have been
      tried by a left-to-right scan. */
  ghost predicate MissedBy(at: nat -> Option<Match>, n: nat, from: nat, ms: seq<Match>) {
    forall q :: from <= q <= n && at(q).Some? ==> exists i :: 0 <= i < |ms| && ms[i].start <= q < ms[i].end
  }

  lemma ScanConsFound(at: nat -> Option<Match>, n: nat, from: nat, m: Match, rest: seq<Match>)
    requires from <= n && at(from) == Some(m) && m.start == from < m.end
    requires FoundBy(at, n, m.end, rest)
    ensures FoundBy(at, n, from, [m] + rest)
  {
    var ms := [m] + rest;
    forall i | 0 <= i < |ms|
      ensures from <= ms[i].start < ms[i].end && ms[i].start <= n && at(ms[i].start) == Some(ms[i])
    {
      if i > 0 {
        assert ms[i] == rest[i - 1];
      }
    }
    forall i, j | 0 <= i < j < |ms| ensures ms[i].end <= ms[j].start {
      assert ms[j] == rest[j - 1];
      if i > 0 {
        assert ms[i] == rest[i - 1];
      }
    }
  }

  lemma ScanConsMissed(at: nat -> Option<Match>, n: nat, from: nat, m: Match, rest: seq<Match>)
    requires m.start == from
    requires MissedBy(at, n, m.end, rest)
    ensures MissedBy(at, n, from, [m] + rest)
  {
    var ms := [m] + rest;
    forall q | from <= q <= n && at(q).Some? ensures exists i :: 0 <= i < |ms| && ms[i].start <= q < ms[i].end {
      if q < m.end {
        assert ms[0].start <= q < ms[0].end;
      } else {
        var j :| 0 <= j < |rest| && rest[j].start <= q < rest[j].end;
        assert ms[j + 1] == rest[j];
      }
    }
  }

  lemma ScanSkip(at: nat -> Option<Match>, n: nat, from: nat, rest: seq<Match>)
    requires from < n && at(from).None?
    requires FoundBy(at, n, from + 1, rest) && MissedBy(at, n, from + 1, rest)
    ensures FoundBy(at, n, from, rest) && MissedBy(at, n, from, rest)
  {
  }

  /** ms is what findall returns when it scans s from position from: each
      element is the match at its start, each starts at or after the end of
      the one before, and no start position that the scan tries in between
      (nor any after the last match) has a match. */
  ghost predicate Scanned(pat: Pattern, s: string, from: nat, ms: seq<Match>) {
    FoundBy(MatcherOf(pat, s), |s|, from, ms) && MissedBy(MatcherOf(pat, s), |s|, from, ms)
  }

  /** re.findall / re.finditer of pat over s, starting at position from. */
  function FindAll(pat: Pattern, s: string, from: nat): (ms: seq<Match>)
    requires Scanning(pat) && from <= |s|
    ensures forall i :: 0 <= i < |ms| ==> GroupsFit(pat, ms[i].groups)
    decreases |s| - from
  {
    if from == |s| then []
    else
      match MatchAt(pat, s, from)
      case Some(m) => [m] + FindAll(pat, s, m.end)
      case None => FindAll(pat, s, from + 1)
  }

  /** A position where pat fails is passed over. */
  lemma FindAllPass(pat: Pattern, s: string, from: nat)
    requires Scanning(pat) && from < |s| && MatchAt(pat, s, from).None?
    ensures FindAll(pat, s, from) == FindAll(pat, s, from + 1)
  {
  }

  /** A match is taken and the scan resumes where it ends. */
  lemma FindAllTake(pat: Pattern, s: string, from: nat, m: Match)
    requires Scanning(pat) && from < |s| && MatchAt(pat, s, from) == Some(m)
    ensures FindAll(pat, s, from) == [m] + FindAll(pat, s, m.end)
  {
  }

  /** A space cannot start `(\d+)\s+bytes` or `([\d.]+)k`: the scan passes
      over it to the match after it. */
  lemma SpaceThenMatch(pat: Pattern, s: string, k: nat, m: Match)
    requires pat == ByteSize || pat == KiloValue
    requires k + 1 < |s| && s[k] == ' ' && MatchAt(pat, s, k + 1) == Some(m)
    ensures FindAll(pat, s, k) == [m] + FindAll(pat, s, m.end)
  {
    assert RunEnd(s, k, Digit) == k && RunEnd(s, k, DigitOrDot) == k;
    assert MatchAt(pat, s, k).None?;
  }

  // ----- the scan over a table of matches -----

  /** The match of pat at each of the first n start positions of s. */
  function HitsUpTo(pat: Pattern, s: string, n: nat): (hits: seq<Option<Match>>)
    requires n <= |s|
    ensures |hits| == n
  {
    if n == 0 then [] else HitsUpTo(pat, s, n - 1) + [MatchAt(pat, s, n - 1)]
  }

  /** The match of pat at every start position FindAll tries. */
  function Hits(pat: Pattern, s: string): (hits: seq<Option<Match>>)
    ensures |hits| == |s|
  {
    HitsUpTo(pat, s, |s|)
  }

  lemma {:induction false} HitsUpToAt(pat: Pattern, s: string, n: nat, q: nat)
    requires q < n <= |s|
    ensures HitsUpTo(pat, s, n)[q] == MatchAt(pat, s, q)
    decreases n
  {
    if q < n - 1 {
      HitsUpToAt(pat, s, n - 1, q);
    }
  }

  lemma HitAt(pat: Pattern, s: string, q: nat)
    requires q < |s|
    ensures Hits(pat, s)[q] == MatchAt(pat, s, q)
  {
    HitsUpToAt(pat, s, |s|, q);
  }

  /** Every match in the table starts where it is listed and ends after
      that, within the text. */
  predicate Forward(hits: seq<Option<Match>>) {
    forall q :: 0 <= q < |hits| && hits[q].Some? ==> hits[q].value.start == q < hits[q].value.end <= |hits|
  }

  /** The left-to-right scan of FindAll, over a table of matches. */
  function ScanHits(hits: seq<Option<Match>>, from: nat): seq<Match>
    requires Forward(hits) && from <= |hits|
    decreases |hits| - from
  {
    if from == |hits| then []
    else
      match hits[from]
      case Some(m) => [m] + ScanHits(hits, m.end)
      case None => ScanHits(hits, from + 1)
  }

  lemma HitsForward(pat: Pattern, s: string)
    requires Scanning(pat)
    ensures Forward(Hits(pat, s))
  {
    forall q | 0 <= q < |s| && Hits(pat, s)[q].Some?
      ensures Hits(pat, s)[q].value.start == q < Hits(pat, s)[q].value.end <= |s|
    {
      HitAt(pat, s, q);
    }
  }

  /** FindAll is the scan of the table of matches. */
  lemma {:induction false} FindAllHits(pat: Pattern, s: string, from: nat)
    requires Scanning(pat) && from <= |s|
    ensures Forward(Hits(pat, s)) && FindAll(pat, s, from) == ScanHits(Hits(pat, s), from)
    decreases |s| - from
  {
    HitsForward(pat, s);
    if from < |s| {
      HitAt(pat, s, from);
      match MatchAt(pat, s, from)
      case Some(m) => FindAllHits(pat, s, m.end);
      case None => FindAllHits(pat, s, from + 1);
    }
  }

  /** A stretch of the table without matches is passed over. */
  lemma {:induction false} ScanPassOver(hits: seq<Option<Match>>, lo: nat, hi: nat)
    requires Forward(hits) && lo <= hi <= |hits|
    requires forall q :: lo <= q < hi ==> hits[q].None?
    ensures ScanHits(hits, lo) == ScanHits(hits, hi)
    decreases hi - lo
  {
    if lo < hi {
      ScanPassOver(hits, lo + 1, hi);
    }
  }

  /** FindAll returns the leftmost non-overlapping matches, left to right. */
  lemma {:induction false} FindAllScanned(pat: Pattern, s: string, from: nat)
    requires Scanning(pat) && from <= |s|
    ensures Scanned(pat, s, from, FindAll(pat, s, from))
    decreases |s| - from
  {
    if from < |s| {
      var here := MatchAt(pat, s, from);
      if here.Some? {
        var m := here.value;
        FindAllScanned(pat, s, m.end);
        ScannedHit(pat, s, from, m, FindAll(pat, s, m.end));
      } else {
        FindAllScanned(pat, s, from + 1);
        ScannedMiss(pat, s, from, FindAll(pat, s, from + 1));
      }
    }
  }

  /** A match at from is taken before the matches after it. */
  lemma ScannedHit(pat: Pattern, s: string, from: nat, m: Match, rest: seq<Match>)
    requires Scanning(pat) && from < |s| && MatchAt(pat, s, from) == Some(m)
    requires Scanned(pat, s, m.end, rest)
    ensures Scanned(pat, s, from, [m] + rest)
  {
    var at := MatcherOf(pat, s);
    assert at(from) == Some(m);
    ScanConsFound(at, |s|, from, m, rest);
    ScanConsMissed(at, |s|, from, m, rest);
  }

  /** A position without a match is passed over. */
  lemma ScannedMiss(pat: Pattern, s: string, from: nat, rest: seq<Match>)
    requires from < |s| && MatchAt(pat, s, from).None?
    requires Scanned(pat, s, from + 1, rest)
    ensures Scanned(pat, s, from, rest)
  {
    var at := MatcherOf(pat, s);
    assert at(from).None?;
    ScanSkip(at, |s|, from, rest);
  }
}
