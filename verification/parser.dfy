/** The training command's reading of a back-test report (`parseSimulation`):
    five regular expressions searched in the last 512 characters of the
    result file, each capture kept as a string. The main results: the parse
    of a text of lines is the first-found merge of the parses of its lines,
    and parsing a printed report gives back the printed fields. */
module Parser {
  import opened Common
  import opened Regex
  import opened Ledger
  import opened Report

  /** `end balance: .* \((.*)%\)` */
  const EndBalancePattern := Pattern(Literal("end balance: "), [" (", "%)"])
  /** `buy hold: .* \((.*)%\)` */
  const BuyHoldPattern := Pattern(Literal("buy hold: "), [" (", "%)"])
  /** `vs\. buy hold: (.*)%` */
  const VsBuyHoldPattern := Pattern(Literal("vs. buy hold: "), ["%"])
  /** `([0-9].* trades over .* days \(avg (.*) trades\/day\))` */
  const TradesPattern := Pattern(Digit, [" trades over ", " days (avg ", " trades/day)"])
  /** `error rate: (.*)%` */
  const ErrorRatePattern := Pattern(Literal("error rate: "), ["%"])

  /** A capture group of the fragment: the `.*` between the end of piece k
      and the start of piece k + 1, the `.*` between the head and piece 0, or
      everything from the start of the match to the end of piece k. */
  datatype Group = Between(k: nat) | AfterHead | Through(k: nat)

  predicate GroupFits(pat: Pattern, g: Group) {
    match g
    case Between(k) => k + 1 < |pat.pieces|
    case AfterHead => |pat.pieces| > 0
    case Through(k) => k < |pat.pieces|
  }

  /** Where a group starts and ends in a match. */
  function Bounds(pat: Pattern, m: Match, g: Group): (int, int)
    requires GroupFits(pat, g) && |m.positions| == |pat.pieces|
  {
    match g
    case Between(k) => (m.positions[k] + |pat.pieces[k]|, m.positions[k + 1])
    case AfterHead => (m.start + HeadLen(pat.head), m.positions[0])
    case Through(k) => (m.start, m.positions[k] + |pat.pieces[k]|)
  }

  lemma BoundsInMatch(text: string, pat: Pattern, m: Match, g: Group)
    requires GroupFits(pat, g) && MatchAt(text, pat, m.start) == Some(m.positions)
    ensures GroupInText(text, pat, m, g)
  {
    MatchAtOrdered(text, pat, m.start);
    MatchAtOccurs(text, pat, m.start);
  }

  predicate GroupInText(text: string, pat: Pattern, m: Match, g: Group) {
    && GroupFits(pat, g) && |m.positions| == |pat.pieces|
    && 0 <= Bounds(pat, m, g).0 <= Bounds(pat, m, g).1 <= |text|
  }

  /** The text a group captured. */
  function GroupText(text: string, pat: Pattern, m: Match, g: Group): (r: string)
    requires GroupInText(text, pat, m, g)
  {
    text[Bounds(pat, m, g).0..Bounds(pat, m, g).1]
  }

  /** `text.match(pat)[n]` when the match exists. */
  function Capture(text: string, pat: Pattern, g: Group): (r: Option<string>)
    requires GroupFits(pat, g)
  {
    match Search(text, pat)
    case None => None
    case Some(m) =>
      SearchFromFound(text, pat, 0);
      BoundsInMatch(text, pat, m, g);
      Some(GroupText(text, pat, m, g))
  }

  /** The object `parseSimulation` returns; a missing key is None. */
  datatype SimulationResult = SimulationResult(
    endBalance: Option<string>,
    buyHold: Option<string>,
    vsBuyHold: Option<string>,
    trades: Option<string>,
    avgTradesPerDay: Option<string>,
    errorRate: Option<string>)

  const NoFields := SimulationResult(None, None, None, None, None, None)

  function ParseReport(text: string): SimulationResult {
    SimulationResult(
      Capture(text, EndBalancePattern, Between(0)),
      Capture(text, BuyHoldPattern, Between(0)),
      Capture(text, VsBuyHoldPattern, AfterHead),
      Capture(text, TradesPattern, Through(2)),
      Capture(text, TradesPattern, Between(1)),
      Capture(text, ErrorRatePattern, AfterHead))
  }

  /** The part of the result file that is searched: `substr(length - 512)`. */
  function ReportTail(file: string): (r: string)
    ensures |file| >= 512 ==> r == file[|file| - 512..]
    ensures |file| <= 256 ==> r == file
    ensures 256 < |file| < 512 ==> r == file[2 * |file| - 512..]
  {
    Substr(file, |file| - 512)
  }

  /** `parseSimulation` on the contents of the result file. */
  function ParseSimulation(file: string): SimulationResult {
    ParseReport(ReportTail(file))
  }

  /** What `substr(length - 512)` is evidently meant to keep: the last 512
      characters, or the whole file when it is shorter. */
  function LastChars(file: string): (r: string)
    ensures |r| == Min(|file|, 512)
    ensures file == file[..|file| - |r|] + r
  {
    file[Max(|file| - 512, 0)..]
  }

  /** `parseSimulation` reading the last 512 characters. */
  function ParseLastChars(file: string): SimulationResult {
    ParseReport(LastChars(file))
  }

  /** The two tails agree except on files of 257 to 511 characters, where
      `substr` drops the first 2 * length - 512 of them. */
  lemma TailsAgree(file: string)
    ensures (|file| >= 512 || |file| <= 256) <==> ReportTail(file) == LastChars(file)
  {
    if 256 < |file| < 512 {
      assert |ReportTail(file)| == 512 - |file| < |file| == |LastChars(file)|;
    }
  }

  // ---- Parsing a text line by line ----

  function First(x: Option<string>, y: Option<string>): Option<string> {
    if x.Some? then x else y
  }

  /** Field by field, the value from the first parse that found it. */
  function Merge(a: SimulationResult, b: SimulationResult): (r: SimulationResult)
    ensures a == NoFields ==> r == b
    ensures b == NoFields ==> r == a
  {
    SimulationResult(
      First(a.endBalance, b.endBalance),
      First(a.buyHold, b.buyHold),
      First(a.vsBuyHold, b.vsBuyHold),
      First(a.trades, b.trades),
      First(a.avgTradesPerDay, b.avgTradesPerDay),
      First(a.errorRate, b.errorRate))
  }

  lemma SliceOfFirst(a: string, b: string, lo: nat, hi: nat)
    requires lo <= hi <= |a|
    ensures (a + b)[lo..hi] == a[lo..hi]
  {
  }

  lemma SliceOfSecond(a: string, b: string, lo: nat, hi: nat)
    requires lo <= hi <= |b|
    ensures (a + b)[|a| + lo..|a| + hi] == b[lo..hi]
  {
  }

  lemma CaptureInFirstLine(a: string, b: string, pat: Pattern, g: Group)
    requires WellFormed(pat) && GroupFits(pat, g) && Search(a, pat).Some?
    ensures Capture(a + "\n" + b, pat, g) == Capture(a, pat, g)
  {
    SearchLines(a, b, pat);
    var m := Search(a, pat).value;
    SearchFromFound(a, pat, 0);
    BoundsInMatch(a, pat, m, g);
    var (lo, hi) := Bounds(pat, m, g);
    SliceOfFirst(a, "\n" + b, lo, hi);
    assert a + "\n" + b == a + ("\n" + b);
  }

  /** A group of a match found after a prefix is the same text as the group
      of the match found without it. */
  lemma GroupTextShift(pre: string, b: string, pat: Pattern, m: Match, sm: Match, g: Group)
    requires GroupInText(b, pat, m, g) && |sm.positions| == |pat.pieces|
    requires Bounds(pat, sm, g).0 == Bounds(pat, m, g).0 + |pre|
    requires Bounds(pat, sm, g).1 == Bounds(pat, m, g).1 + |pre|
    ensures GroupInText(pre + b, pat, sm, g)
    ensures GroupText(pre + b, pat, sm, g) == GroupText(b, pat, m, g)
  {
    ShiftedSlice(pre, b, Bounds(pat, m, g).0, Bounds(pat, m, g).1, Bounds(pat, sm, g).0, Bounds(pat, sm, g).1);
  }

  lemma ShiftedSlice(pre: string, b: string, lo: int, hi: int, x: int, y: int)
    requires 0 <= lo <= hi <= |b| && x == |pre| + lo && y == |pre| + hi
    ensures 0 <= x <= y <= |pre + b| && (pre + b)[x..y] == b[lo..hi]
  {
    SliceOfSecond(pre, b, lo, hi);
  }

  lemma BoundsShift(pat: Pattern, m: Match, g: Group, d: nat)
    requires GroupFits(pat, g) && |m.positions| == |pat.pieces|
    ensures var sm := Match(m.start + d, ShiftAll(m.positions, d));
      Bounds(pat, sm, g) == (Bounds(pat, m, g).0 + d, Bounds(pat, m, g).1 + d)
  {
  }

  /** A capture is unaffected by a prefix that only shifts the match. */
  lemma CaptureAfterPrefix(pre: string, b: string, pat: Pattern, g: Group)
    requires GroupFits(pat, g) && Search(pre + b, pat) == ShiftMatch(Search(b, pat), |pre|)
    ensures Capture(pre + b, pat, g) == Capture(b, pat, g)
  {
    if Search(b, pat).Some? {
      ShiftedCapture(pre, b, pat, g, Search(b, pat).value);
    }
  }

  lemma ShiftedCapture(pre: string, b: string, pat: Pattern, g: Group, m: Match)
    requires GroupFits(pat, g) && Search(b, pat) == Some(m)
    requires Search(pre + b, pat) == Some(Match(m.start + |pre|, ShiftAll(m.positions, |pre|)))
    ensures Capture(pre + b, pat, g) == Capture(b, pat, g)
  {
    var sm := Match(m.start + |pre|, ShiftAll(m.positions, |pre|));
    SearchFromFound(b, pat, 0);
    BoundsInMatch(b, pat, m, g);
    BoundsShift(pat, m, g, |pre|);
    GroupTextShift(pre, b, pat, m, sm, g);
  }

  lemma CaptureInLaterLine(a: string, b: string, pat: Pattern, g: Group)
    requires WellFormed(pat) && GroupFits(pat, g) && Search(a, pat).None?
    ensures Capture(a + "\n" + b, pat, g) == Capture(b, pat, g)
  {
    SearchLines(a, b, pat);
    assert a + "\n" + b == (a + "\n") + b;
    CaptureAfterPrefix(a + "\n", b, pat, g);
  }

  /** A capture in `a + "\n" + b` is the capture in `a` when the pattern
      matches there, and otherwise the capture in `b`. */
  lemma CaptureLines(a: string, b: string, pat: Pattern, g: Group)
    requires WellFormed(pat) && GroupFits(pat, g)
    ensures Capture(a + "\n" + b, pat, g)
         == if Search(a, pat).Some? then Capture(a, pat, g) else Capture(b, pat, g)
  {
    if Search(a, pat).Some? {
      CaptureInFirstLine(a, b, pat, g);
    } else {
      CaptureInLaterLine(a, b, pat, g);
    }
  }

  lemma LiteralsWellFormed(lits: seq<string>)
    requires forall k :: 0 <= k < |lits| ==> forall j :: 0 <= j < |lits[k]| ==> lits[k][j] as int < 128 && lits[k][j] != '\n' && lits[k][j] != '\r'
    ensures forall k :: 0 <= k < |lits| ==> NoTerminator(lits[k])
  {
  }

  lemma PatternWellFormed(pat: Pattern)
    requires pat.head.Literal? ==> |pat.head.lit| > 0
    requires pat.head.Literal? ==> forall j :: 0 <= j < |pat.head.lit| ==> pat.head.lit[j] as int < 128 && pat.head.lit[j] != '\n' && pat.head.lit[j] != '\r'
    requires forall k :: 0 <= k < |pat.pieces| ==> forall j :: 0 <= j < |pat.pieces[k]| ==> pat.pieces[k][j] as int < 128 && pat.pieces[k][j] != '\n' && pat.pieces[k][j] != '\r'
    ensures WellFormed(pat)
  {
    LiteralsWellFormed(pat.pieces);
    if pat.head.Literal? {
      LiteralsWellFormed([pat.head.lit]);
      assert [pat.head.lit][0] == pat.head.lit;
    }
  }

  lemma EndBalanceWellFormed() ensures WellFormed(EndBalancePattern) { PatternWellFormed(EndBalancePattern); }
  lemma BuyHoldWellFormed() ensures WellFormed(BuyHoldPattern) { PatternWellFormed(BuyHoldPattern); }
  lemma VsBuyHoldWellFormed() ensures WellFormed(VsBuyHoldPattern) { PatternWellFormed(VsBuyHoldPattern); }
  lemma TradesWellFormed() ensures WellFormed(TradesPattern) { PatternWellFormed(TradesPattern); }
  lemma ErrorRateWellFormed() ensures WellFormed(ErrorRatePattern) { PatternWellFormed(ErrorRatePattern); }

  /** None of the report patterns can match across a line terminator. */
  lemma PatternsWellFormed()
    ensures WellFormed(EndBalancePattern) && WellFormed(BuyHoldPattern) && WellFormed(VsBuyHoldPattern)
    ensures WellFormed(TradesPattern) && WellFormed(ErrorRatePattern)
  {
    EndBalanceWellFormed();
    BuyHoldWellFormed();
    VsBuyHoldWellFormed();
    TradesWellFormed();
    ErrorRateWellFormed();
  }

  /** Parsing a text of lines: each field comes from the first line where its
      pattern matches. */
  lemma ParseLines(a: string, b: string)
    ensures ParseReport(a + "\n" + b) == Merge(ParseReport(a), ParseReport(b))
  {
    PatternsWellFormed();
    CaptureLines(a, b, EndBalancePattern, Between(0));
    CaptureLines(a, b, BuyHoldPattern, Between(0));
    CaptureLines(a, b, VsBuyHoldPattern, AfterHead);
    CaptureLines(a, b, TradesPattern, Through(2));
    CaptureLines(a, b, TradesPattern, Between(1));
    CaptureLines(a, b, ErrorRatePattern, AfterHead);
  }

  /** The line-by-line reference: merge the parses of the lines in order. */
  function MergeLines(lines: seq<string>): SimulationResult
    requires |lines| > 0
  {
    if |lines| == 1 then ParseReport(lines[0])
    else Merge(ParseReport(lines[0]), MergeLines(lines[1..]))
  }

  /** Parsing a joined report equals merging the parses of its lines. */
  lemma {:induction false} ParseJoin(lines: seq<string>)
    requires |lines| > 0
    ensures ParseReport(Join(lines, "\n")) == MergeLines(lines)
  {
    if |lines| > 1 {
      ParseJoin(lines[1..]);
      ParseLines(lines[0], Join(lines[1..], "\n"));
    }
  }
}
