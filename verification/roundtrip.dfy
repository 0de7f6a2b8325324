/** Reading a printed report back: what each report line yields under the
    training command's patterns, and the round trip from the finalised
    summary through the report text to the parsed fields. */
module RoundTrip {
  import opened Common
  import opened Regex
  import opened Ledger
  import opened Report
  import opened Parser

  /** A formatted value that cannot be confused with the report's own
      punctuation: on one line, and without `(`, `:` or `/`. */
  predicate SafeField(s: string) {
    NoTerminator(s) && '(' !in s && ':' !in s && '/' !in s
  }

  // ---- Where characters can be ----

  /** In `pre + mid + post`, a character absent from pre and post sits where
      mid has it. */
  lemma CharOnlyInMiddle(pre: string, mid: string, post: string, c: char, j: nat)
    requires c !in pre && c !in post
    requires forall i :: 0 <= i < |mid| && mid[i] == c ==> i == j
    ensures forall k :: 0 <= k < |pre + mid + post| && (pre + mid + post)[k] == c ==> k == |pre| + j
  {
    var t := pre + mid + post;
    forall k | 0 <= k < |t|
      ensures t[k] == c ==> k == |pre| + j
    {
      if k < |pre| {
        assert t[k] == pre[k];
      } else if k < |pre| + |mid| {
        assert t[k] == mid[k - |pre|];
      } else {
        assert t[k] == post[k - |pre| - |mid|];
      }
    }
  }

  /** A literal one of whose characters occurs in the text only at `pos`
      (or nowhere, when pos is |text|) occurs at most where that character
      lines up with pos. */
  lemma AbsentByAnchor(text: string, lit: string, j: nat, pos: nat)
    requires j < |lit|
    requires forall k :: 0 <= k < |text| && text[k] == lit[j] ==> k == pos
    requires pos >= j ==> !OccursAt(text, pos - j, lit)
    ensures forall q: nat :: !OccursAt(text, q, lit)
  {
    forall q: nat
      ensures !OccursAt(text, q, lit)
    {
      if q + |lit| <= |text| {
        assert text[q..q + |lit|][j] == text[q + j];
      }
    }
  }

  lemma AbsentChar(text: string, lit: string, j: nat)
    requires j < |lit| && lit[j] !in text
    ensures forall q: nat :: !OccursAt(text, q, lit)
  {
    AbsentByAnchor(text, lit, j, |text|);
  }

  lemma NoTerminatorConcat(a: string, b: string)
    requires NoTerminator(a) && NoTerminator(b)
    ensures NoTerminator(a + b)
  {
    forall k | 0 <= k < |a + b|
      ensures !IsLineTerminator((a + b)[k])
    {
      if k >= |a| { assert (a + b)[k] == b[k - |a|]; }
    }
  }

  lemma Digits(s: string)
    requires forall i :: 0 <= i < |s| ==> IsDigit(s[i])
    ensures SafeField(s)
  {
  }

  // ---- Lines that match ----

  /** A match whose head is at 0 is the leftmost one. */
  lemma SearchAtStart(line: string, pat: Pattern, ps: seq<nat>)
    requires HeadAt(line, 0, pat.head) && HeadLen(pat.head) <= |line|
    requires Greedy(line, HeadLen(pat.head), pat.pieces) == Some(ps)
    ensures Search(line, pat) == Some(Match(0, ps))
  {
    assert MatchAt(line, pat, 0) == Some(ps);
  }

  /** A single-piece `.*lit` on a line ending with lit stops at that end. */
  lemma GreedyLastPiece(line: string, i: nat, lit: string)
    requires NoTerminator(line) && i + |lit| <= |line|
    requires OccursAt(line, |line| - |lit|, lit)
    ensures Greedy(line, i, [lit]) == Some([|line| - |lit|])
  {
    var q := |line| - |lit|;
    LineEndOfLine(line, i);
    assert [lit][1..] == [];
    var g := Greedy(line, q + |lit|, [lit][1..]);
    assert g == Some([]);
    GreedyPicks(line, i, [lit], q);
    assert [q] + g.value == [q];
  }

  lemma LiteralAtStart(h: string, rest: string)
    ensures OccursAt(h + rest, 0, h)
  {
    assert (h + rest)[0..|h|] == h;
  }

  lemma LiteralAt(a: string, lit: string, c: string)
    ensures OccursAt(a + lit + c, |a|, lit)
  {
    assert (a + lit + c)[|a|..|a| + |lit|] == lit;
  }

  lemma ParenLineShape(h: string, b: string, p: string)
    requires NoTerminator(h) && '(' !in h
    requires SafeField(b) && SafeField(p)
    ensures var line := h + b + " (" + p + "%)";
      && NoTerminator(line)
      && OccursAt(line, |h| + |b|, " (")
      && OccursAt(line, |h| + |b| + 2 + |p|, "%)")
      && forall x: nat :: |h| + |b| < x ==> !OccursAt(line, x, " (")
  {
    var line := h + b + " (" + p + "%)";
    NoTerminatorConcat(h, b);
    NoTerminatorConcat(h + b, " (");
    NoTerminatorConcat(h + b + " (", p);
    NoTerminatorConcat(h + b + " (" + p, "%)");
    LiteralAt(h + b + " (" + p, "%)", "");
    assert h + b + " (" + p + "%)" + "" == line;
    LiteralAt(h + b, " (", p + "%)");
    assert line == (h + b) + " (" + (p + "%)");
    CharOnlyInMiddle(h + b, " (", p + "%)", '(', 1);
    forall x: nat | |h| + |b| < x
      ensures !OccursAt(line, x, " (")
    {
      if x + 2 <= |line| { assert line[x..x + 2][1] == line[x + 1]; }
    }
  }

  /** `H.* \((.*)%\)` on a line that starts with H, has its last ` (` at q
      and ends with `%)`: the group is what lies between the two. */
  lemma ParenCapture(line: string, h: string, q: nat)
    requires NoTerminator(line) && |h| > 0 && |h| <= q && q + 4 <= |line|
    requires OccursAt(line, 0, h)
    requires OccursAt(line, q, " (") && OccursAt(line, |line| - 2, "%)")
    requires forall x: nat :: q < x ==> !OccursAt(line, x, " (")
    ensures Capture(line, Pattern(Literal(h), [" (", "%)"]), Between(0)) == Some(line[q + 2..|line| - 2])
  {
    var e := |line| - 2;
    GreedyLastPiece(line, q + 2, "%)");
    LineEndOfLine(line, |h|);
    assert [" (", "%)"][1..] == ["%)"];
    GreedyPicks(line, |h|, [" (", "%)"], q);
    assert [q] + [e] == [q, e];
    SearchAtStart(line, Pattern(Literal(h), [" (", "%)"]), [q, e]);
  }

  /** `H + B + " (" + P + "%)"` matches `H.* \((.*)%\)` with the group P. */
  lemma ParenLineMatch(h: string, b: string, p: string)
    requires |h| > 0 && NoTerminator(h) && '(' !in h
    requires SafeField(b) && SafeField(p)
    ensures var line := h + b + " (" + p + "%)";
      Capture(line, Pattern(Literal(h), [" (", "%)"]), Between(0)) == Some(p)
  {
    var line := h + b + " (" + p + "%)";
    var q := |h| + |b|;
    ParenLineShape(h, b, p);
    LiteralAtStart(h, b + " (" + p + "%)");
    assert line == h + (b + " (" + p + "%)");
    ParenCapture(line, h, q);
    assert line[q + 2..|line| - 2] == p;
  }

  /** `H(.*)%` on a line that starts with H and ends with `%`. */
  lemma PercentCapture(line: string, h: string)
    requires NoTerminator(line) && 0 < |h| < |line|
    requires OccursAt(line, 0, h) && OccursAt(line, |line| - 1, "%")
    ensures Capture(line, Pattern(Literal(h), ["%"]), AfterHead) == Some(line[|h|..|line| - 1])
  {
    GreedyLastPiece(line, |h|, "%");
    SearchAtStart(line, Pattern(Literal(h), ["%"]), [|line| - 1]);
  }

  /** `H + V + "%"` matches `H(.*)%` with the group V. */
  lemma PercentLineMatch(h: string, v: string)
    requires |h| > 0 && NoTerminator(h) && NoTerminator(v)
    ensures var line := h + v + "%";
      Capture(line, Pattern(Literal(h), ["%"]), AfterHead) == Some(v)
  {
    var line := h + v + "%";
    NoTerminatorConcat(h, v);
    NoTerminatorConcat(h + v, "%");
    LiteralAt(h + v, "%", "");
    assert h + v + "%" + "" == line;
    LiteralAtStart(h, v + "%");
    assert line == h + (v + "%");
    PercentCapture(line, h);
    assert line[|h|..|line| - 1] == v;
  }

  /** The last two `.*` of the trades pattern: ` days (avg ` at its only
      occurrence, ` trades/day)` at the end of the line. */
  lemma TradesTail(line: string, i: nat, a2: nat)
    requires NoTerminator(line) && i <= a2 && a2 + 23 <= |line|
    requires OccursAt(line, a2, " days (avg ") && OccursAt(line, |line| - 12, " trades/day)")
    requires forall y: nat :: OccursAt(line, y, " days (avg ") ==> y == a2
    ensures Greedy(line, i, [" days (avg ", " trades/day)"]) == Some([a2, |line| - 12])
  {
    var e := |line| - 12;
    GreedyLastPiece(line, a2 + 11, " trades/day)");
    LineEndOfLine(line, i);
    assert [" days (avg ", " trades/day)"][1..] == [" trades/day)"];
    GreedyPicks(line, i, [" days (avg ", " trades/day)"], a2);
    assert [a2] + [e] == [a2, e];
  }

  lemma TradesSplitAt(line: string, a1: nat, a2: nat, x: nat)
    requires a1 + 13 <= a2 <= |line| && a1 < x && x + 13 <= |line|
    requires forall y: nat :: OccursAt(line, y, " days (avg ") ==> y == a2
    requires forall j :: a1 + 13 <= j < a2 ==> IsDigit(line[j])
    ensures Greedy(line, x + 13, [" days (avg ", " trades/day)"]).Some? ==> !OccursAt(line, x, " trades over ")
  {
    var r := Greedy(line, x + 13, [" days (avg ", " trades/day)"]);
    GreedyOccurs(line, x + 13, [" days (avg ", " trades/day)"]);
    if r.Some? {
      assert OccursAt(line, r.value[0], " days (avg ");
      assert IsDigit(line[x + 12]);
      assert line[x..x + 13][12] == line[x + 12];
    }
  }

  /** No ` trades over ` after the one at a1 can be followed by the rest of
      the pattern: it would have to end inside the digits before ` days (avg `. */
  lemma TradesNoLaterSplit(line: string, a1: nat, a2: nat)
    requires a1 + 13 <= a2 <= |line|
    requires forall y: nat :: OccursAt(line, y, " days (avg ") ==> y == a2
    requires forall j :: a1 + 13 <= j < a2 ==> IsDigit(line[j])
    ensures forall x: nat :: a1 < x <= |line| ==>
      !(OccursAt(line, x, " trades over ") && Greedy(line, x + 13, [" days (avg ", " trades/day)"]).Some?)
  {
    forall x: nat | a1 < x <= |line|
      ensures !(OccursAt(line, x, " trades over ") && Greedy(line, x + 13, [" days (avg ", " trades/day)"]).Some?)
    {
      if x + 13 <= |line| {
        TradesSplitAt(line, a1, a2, x);
      }
    }
  }

  /** The trades pattern on a line `N + " trades over " + D + " days (avg " + R
      + " trades/day)"`: the only `(` is the one of ` days (avg `, and the
      text between ` trades over ` and it is digits. */
  lemma TradesCapture(line: string, a1: nat, a2: nat)
    requires NoTerminator(line) && 0 < a1 && a1 + 13 <= a2 && a2 + 23 <= |line|
    requires IsDigit(line[0])
    requires OccursAt(line, a1, " trades over ") && OccursAt(line, a2, " days (avg ")
    requires OccursAt(line, |line| - 12, " trades/day)")
    requires forall y: nat :: OccursAt(line, y, " days (avg ") ==> y == a2
    requires forall j :: a1 + 13 <= j < a2 ==> IsDigit(line[j])
    ensures Search(line, TradesPattern) == Some(Match(0, [a1, a2, |line| - 12]))
  {
    var e := |line| - 12;
    TradesTail(line, a1 + 13, a2);
    TradesNoLaterSplit(line, a1, a2);
    LineEndOfLine(line, 1);
    assert [" trades over ", " days (avg ", " trades/day)"][1..] == [" days (avg ", " trades/day)"];
    GreedyPicks(line, 1, [" trades over ", " days (avg ", " trades/day)"], a1);
    assert [a1] + [a2, e] == [a1, a2, e];
    SearchAtStart(line, TradesPattern, [a1, a2, e]);
  }

  lemma DigitsNoTerminator(s: string)
    requires forall i :: 0 <= i < |s| ==> IsDigit(s[i])
    ensures NoTerminator(s) && '(' !in s && ':' !in s && '/' !in s && ')' !in s
  {
  }

  /** The printed trades line, as a concatenation of five parts. */
  function TradesText(n: string, d: string, r: string): string {
    n + " trades over " + d + " days (avg " + r + " trades/day)"
  }

  lemma TradesTextChars(n: string, d: string, r: string)
    requires |n| > 0 && (forall i :: 0 <= i < |n| ==> IsDigit(n[i]))
    requires forall i :: 0 <= i < |d| ==> IsDigit(d[i])
    requires SafeField(r)
    ensures var line := TradesText(n, d, r);
      && NoTerminator(line) && IsDigit(line[0]) && ':' !in line
      && (forall j :: |n| + 13 <= j < |n| + 13 + |d| ==> IsDigit(line[j]))
  {
    var line := TradesText(n, d, r);
    DigitsNoTerminator(n);
    DigitsNoTerminator(d);
    NoTerminatorConcat(n, " trades over ");
    NoTerminatorConcat(n + " trades over ", d);
    NoTerminatorConcat(n + " trades over " + d, " days (avg ");
    NoTerminatorConcat(n + " trades over " + d + " days (avg ", r);
    NoTerminatorConcat(n + " trades over " + d + " days (avg " + r, " trades/day)");
    assert line[0] == n[0];
    forall j | |n| + 13 <= j < |n| + 13 + |d|
      ensures IsDigit(line[j])
    {
      assert line[j] == d[j - |n| - 13];
    }
  }

  lemma TradesTextPieces(n: string, d: string, r: string)
    requires forall i :: 0 <= i < |n| ==> IsDigit(n[i])
    requires forall i :: 0 <= i < |d| ==> IsDigit(d[i])
    requires '(' !in r
    ensures var line := TradesText(n, d, r);
      var a2 := |n| + 13 + |d|;
      && OccursAt(line, |n|, " trades over ") && OccursAt(line, a2, " days (avg ")
      && OccursAt(line, |line| - 12, " trades/day)")
      && (forall y: nat :: OccursAt(line, y, " days (avg ") ==> y == a2)
      && line[a2 + 11..|line| - 12] == r
  {
    var line := TradesText(n, d, r);
    var a2 := |n| + 13 + |d|;
    DigitsNoTerminator(n);
    DigitsNoTerminator(d);
    LiteralAt(n, " trades over ", d + " days (avg " + r + " trades/day)");
    assert line == n + " trades over " + (d + " days (avg " + r + " trades/day)");
    LiteralAt(n + " trades over " + d, " days (avg ", r + " trades/day)");
    assert line == (n + " trades over " + d) + " days (avg " + (r + " trades/day)");
    LiteralAt(n + " trades over " + d + " days (avg " + r, " trades/day)", "");
    assert line == line + "";
    CharOnlyInMiddle(n + " trades over " + d, " days (avg ", r + " trades/day)", '(', 6);
    forall y: nat | OccursAt(line, y, " days (avg ")
      ensures y == a2
    {
      assert line[y..y + 11][6] == line[y + 6];
    }
    assert line[a2 + 11..|line| - 12] == r;
  }

  // ---- Lines that do not match ----

  /** Each report head ends with `: `; on a line whose only `:` is at c, the
      head can only start at c - (|head| - 2). */
  lemma HeadAbsentByColon(line: string, pat: Pattern, c: nat)
    requires pat.head.Literal? && |pat.head.lit| >= 2 && pat.head.lit[|pat.head.lit| - 2] == ':'
    requires forall k :: 0 <= k < |line| && line[k] == ':' ==> k == c
    requires c >= |pat.head.lit| - 2 ==> !OccursAt(line, c - (|pat.head.lit| - 2), pat.head.lit)
    ensures Search(line, pat) == None
  {
    AbsentByAnchor(line, pat.head.lit, |pat.head.lit| - 2, c);
    NoMatchWithoutHead(line, pat);
  }

  lemma HeadAbsentNoColon(line: string, pat: Pattern)
    requires pat.head.Literal? && |pat.head.lit| >= 2 && pat.head.lit[|pat.head.lit| - 2] == ':'
    requires ':' !in line
    ensures Search(line, pat) == None
  {
    HeadAbsentByColon(line, pat, |line|);
  }

  /** The trades pattern needs a `/`. */
  lemma TradesAbsentNoSlash(line: string)
    requires '/' !in line
    ensures Search(line, TradesPattern) == None
  {
    AbsentChar(line, " trades/day)", 7);
    NoMatchWithoutPiece(line, TradesPattern, 2);
  }

  lemma HeadColons()
    ensures forall i :: 0 <= i < 13 && "end balance: "[i] == ':' ==> i == 11
    ensures forall i :: 0 <= i < 10 && "buy hold: "[i] == ':' ==> i == 8
    ensures forall i :: 0 <= i < 14 && "vs. buy hold: "[i] == ':' ==> i == 12
    ensures forall i :: 0 <= i < 12 && "error rate: "[i] == ':' ==> i == 10
    ensures forall i :: 0 <= i < 10 && "win/loss: "[i] == ':' ==> i == 8
  {
  }

  /** The only `:` of `H + rest` is the head's. */
  lemma ColonOnlyInHead(h: string, rest: string, j: nat)
    requires ':' !in rest
    requires forall i :: 0 <= i < |h| && h[i] == ':' ==> i == j
    ensures forall k :: 0 <= k < |h + rest| && (h + rest)[k] == ':' ==> k == j
  {
    CharOnlyInMiddle("", h, rest, ':', j);
    assert "" + h + rest == h + rest;
  }

  /** The end-balance line: its only `:` ends the head, and its characters
      1 and 3 rule out the error-rate and buy-hold heads there. */
  lemma EndBalanceLineOthers(line: string)
    requires forall k :: 0 <= k < |line| && line[k] == ':' ==> k == 11
    requires '/' !in line && |line| > 3 && line[1] == 'n' && line[3] == ' '
    ensures Search(line, BuyHoldPattern) == None && Search(line, VsBuyHoldPattern) == None
    ensures Search(line, TradesPattern) == None && Search(line, ErrorRatePattern) == None
  {
    if 13 <= |line| { assert line[3..13][0] == line[3]; }
    HeadAbsentByColon(line, BuyHoldPattern, 11);
    HeadAbsentByColon(line, VsBuyHoldPattern, 11);
    if 13 <= |line| { assert line[1..13][0] == line[1]; }
    HeadAbsentByColon(line, ErrorRatePattern, 11);
    TradesAbsentNoSlash(line);
  }

  /** The buy-hold line: its only `:` is at 8, too early for the longer heads. */
  lemma BuyHoldLineOthers(line: string)
    requires forall k :: 0 <= k < |line| && line[k] == ':' ==> k == 8
    requires '/' !in line
    ensures Search(line, EndBalancePattern) == None && Search(line, VsBuyHoldPattern) == None
    ensures Search(line, TradesPattern) == None && Search(line, ErrorRatePattern) == None
  {
    HeadAbsentByColon(line, EndBalancePattern, 8);
    HeadAbsentByColon(line, VsBuyHoldPattern, 8);
    HeadAbsentByColon(line, ErrorRatePattern, 8);
    TradesAbsentNoSlash(line);
  }

  /** The vs-buy-hold line contains `buy hold: `, but no `(` for the rest of
      that pattern. */
  lemma VsBuyHoldLineOthers(line: string)
    requires forall k :: 0 <= k < |line| && line[k] == ':' ==> k == 12
    requires '/' !in line && '(' !in line && |line| > 2 && line[1] == 's' && line[2] == '.'
    ensures Search(line, EndBalancePattern) == None && Search(line, BuyHoldPattern) == None
    ensures Search(line, TradesPattern) == None && Search(line, ErrorRatePattern) == None
  {
    if 14 <= |line| { assert line[1..14][0] == line[1]; }
    HeadAbsentByColon(line, EndBalancePattern, 12);
    AbsentChar(line, " (", 1);
    NoMatchWithoutPiece(line, BuyHoldPattern, 0);
    if 14 <= |line| { assert line[2..14][0] == line[2]; }
    HeadAbsentByColon(line, ErrorRatePattern, 12);
    TradesAbsentNoSlash(line);
  }

  lemma TradesLineOthers(line: string)
    requires ':' !in line
    ensures Search(line, EndBalancePattern) == None && Search(line, BuyHoldPattern) == None
    ensures Search(line, VsBuyHoldPattern) == None && Search(line, ErrorRatePattern) == None
  {
    HeadAbsentNoColon(line, EndBalancePattern);
    HeadAbsentNoColon(line, BuyHoldPattern);
    HeadAbsentNoColon(line, VsBuyHoldPattern);
    HeadAbsentNoColon(line, ErrorRatePattern);
  }

  /** The two trades groups: the whole line, and the text between
      ` days (avg ` and ` trades/day)`. */
  lemma TradesGroups(line: string, a1: nat, a2: nat)
    requires NoTerminator(line) && 0 < a1 && a1 + 13 <= a2 && a2 + 23 <= |line|
    requires IsDigit(line[0])
    requires OccursAt(line, a1, " trades over ") && OccursAt(line, a2, " days (avg ")
    requires OccursAt(line, |line| - 12, " trades/day)")
    requires forall y: nat :: OccursAt(line, y, " days (avg ") ==> y == a2
    requires forall j :: a1 + 13 <= j < a2 ==> IsDigit(line[j])
    ensures Capture(line, TradesPattern, Through(2)) == Some(line)
    ensures Capture(line, TradesPattern, Between(1)) == Some(line[a2 + 11..|line| - 12])
  {
    TradesCapture(line, a1, a2);
    assert line[0..|line|] == line;
  }

  // ---- Each printed line, parsed ----

  lemma EndBalanceShape(b: string, p: string)
    requires SafeField(b) && SafeField(p)
    ensures var line := "end balance: " + b + " (" + p + "%)";
      && (forall k :: 0 <= k < |line| && line[k] == ':' ==> k == 11)
      && '/' !in line && |line| > 3 && line[1] == 'n' && line[3] == ' '
  {
    var rest := b + " (" + p + "%)";
    HeadColons();
    ColonOnlyInHead("end balance: ", rest, 11);
    assert "end balance: " + b + " (" + p + "%)" == "end balance: " + rest;
  }

  /** The end-balance line yields the profit percentage and nothing else. */
  lemma EndBalanceLineParse(fmt: Format, s: Summary)
    requires SafeField(fmt.balance(s.currency)) && SafeField(fmt.percent(s.profit))
    ensures ParseReport(EndBalanceLine(fmt, s)) == SimulationResult(Some(fmt.percent(s.profit)), None, None, None, None, None)
  {
    var line := EndBalanceLine(fmt, s);
    EndBalanceShape(fmt.balance(s.currency), fmt.percent(s.profit));
    ParenLineMatch("end balance: ", fmt.balance(s.currency), fmt.percent(s.profit));
    EndBalanceLineOthers(line);
  }

  lemma BuyHoldShape(b: string, p: string)
    requires SafeField(b) && SafeField(p)
    ensures var line := "buy hold: " + b + " (" + p + "%)";
      && (forall k :: 0 <= k < |line| && line[k] == ':' ==> k == 8)
      && '/' !in line
  {
    var rest := b + " (" + p + "%)";
    HeadColons();
    ColonOnlyInHead("buy hold: ", rest, 8);
    assert "buy hold: " + b + " (" + p + "%)" == "buy hold: " + rest;
  }

  /** The buy-hold line yields the buy-and-hold profit percentage and nothing
      else. */
  lemma BuyHoldLineParse(fmt: Format, s: Summary)
    requires SafeField(fmt.balance(s.buyHold)) && SafeField(fmt.percent(s.buyHoldProfit))
    ensures ParseReport(BuyHoldLine(fmt, s)) == SimulationResult(None, Some(fmt.percent(s.buyHoldProfit)), None, None, None, None)
  {
    var line := BuyHoldLine(fmt, s);
    BuyHoldShape(fmt.balance(s.buyHold), fmt.percent(s.buyHoldProfit));
    ParenLineMatch("buy hold: ", fmt.balance(s.buyHold), fmt.percent(s.buyHoldProfit));
    BuyHoldLineOthers(line);
  }

  lemma VsBuyHoldShape(v: string)
    requires SafeField(v)
    ensures var line := "vs. buy hold: " + v + "%";
      && (forall k :: 0 <= k < |line| && line[k] == ':' ==> k == 12)
      && '/' !in line && '(' !in line && |line| > 2 && line[1] == 's' && line[2] == '.'
  {
    HeadColons();
    ColonOnlyInHead("vs. buy hold: ", v + "%", 12);
    assert "vs. buy hold: " + v + "%" == "vs. buy hold: " + (v + "%");
  }

  /** The vs-buy-hold line yields its percentage (or the non-finite text) and
      nothing else. */
  lemma VsBuyHoldLineParse(fmt: Format, s: Summary)
    requires SafeField(PercentOf(fmt, s.vsBuyHold))
    ensures ParseReport(VsBuyHoldLine(fmt, s)) == SimulationResult(None, None, Some(PercentOf(fmt, s.vsBuyHold)), None, None, None)
  {
    var line := VsBuyHoldLine(fmt, s);
    VsBuyHoldShape(PercentOf(fmt, s.vsBuyHold));
    PercentLineMatch("vs. buy hold: ", PercentOf(fmt, s.vsBuyHold));
    VsBuyHoldLineOthers(line);
  }

  /** The trades line yields itself as `trades` and the average as
      `avgTradesPerDay`, and nothing else. */
  lemma TradesLineParse(fmt: Format, s: Summary)
    requires SafeField(Fixed2Of(fmt, s.avgTradesPerDay))
    ensures ParseReport(TradesLine(fmt, s))
         == SimulationResult(None, None, None, Some(TradesLine(fmt, s)), Some(Fixed2Of(fmt, s.avgTradesPerDay)), None)
  {
    var n := NatToString(s.tradeCount);
    var d := NatToString(s.dayCount);
    var r := Fixed2Of(fmt, s.avgTradesPerDay);
    var line := TradesText(n, d, r);
    assert TradesLine(fmt, s) == line;
    TradesTextChars(n, d, r);
    TradesTextPieces(n, d, r);
    TradesGroups(line, |n|, |n| + 13 + |d|);
    TradesLineOthers(line);
  }

  lemma WinLossShape(w: string, l: string)
    requires forall i :: 0 <= i < |w| ==> IsDigit(w[i])
    requires forall i :: 0 <= i < |l| ==> IsDigit(l[i])
    ensures var line := "win/loss: " + w + " / " + l;
      forall k :: 0 <= k < |line| && line[k] == ':' ==> k == 8
  {
    DigitsNoTerminator(w);
    DigitsNoTerminator(l);
    HeadColons();
    ColonOnlyInHead("win/loss: ", w + " / " + l, 8);
    assert "win/loss: " + w + " / " + l == "win/loss: " + (w + " / " + l);
  }

  /** The win/loss line has no error rate in it. */
  lemma WinLossLineParse(s: Summary)
    ensures ParseReport(WinLossLine(s)).errorRate == None
  {
    WinLossShape(NatToString(s.wins), NatToString(s.losses));
    HeadAbsentByColon(WinLossLine(s), ErrorRatePattern, 8);
  }

  /** The error-rate line yields the printed error rate. */
  lemma ErrorRateLineParse(fmt: Format, s: Summary)
    requires NoTerminator(ErrorRateText(fmt, s))
    ensures ParseReport(ErrorRateLine(fmt, s)).errorRate == Some(ErrorRateText(fmt, s))
  {
    PercentLineMatch("error rate: ", ErrorRateText(fmt, s));
  }

  // ---- The whole report ----

  /** The formatted values the report prints are each on one line and free
      of the report's punctuation. */
  predicate Printable(fmt: Format, s: Summary) {
    && SafeField(fmt.balance(s.currency)) && SafeField(fmt.percent(s.profit))
    && SafeField(fmt.balance(s.buyHold)) && SafeField(fmt.percent(s.buyHoldProfit))
    && SafeField(PercentOf(fmt, s.vsBuyHold)) && SafeField(Fixed2Of(fmt, s.avgTradesPerDay))
    && (s.sells > 0 ==> NoTerminator(fmt.percent(s.losses as real / s.sells as real)))
  }

  /** What the training command should read from a report of summary s: the
      printed percentages, the whole trades line, the printed average, and
      the error rate exactly when the report has one. */
  function Expected(fmt: Format, s: Summary): SimulationResult {
    SimulationResult(
      Some(fmt.percent(s.profit)),
      Some(fmt.percent(s.buyHoldProfit)),
      Some(PercentOf(fmt, s.vsBuyHold)),
      Some(TradesLine(fmt, s)),
      Some(Fixed2Of(fmt, s.avgTradesPerDay)),
      if s.tradeCount > 0 then Some(ErrorRateText(fmt, s)) else None)
  }

  /** Merging four one-field parses with a tail: each field comes from the
      parse that carries it, the error rate from the tail. */
  lemma MergeFields(r0: SimulationResult, r1: SimulationResult, r2: SimulationResult, r3: SimulationResult,
                    t: SimulationResult, eb: string, bh: string, vs: string, tr: string, avg: string)
    requires r0 == SimulationResult(Some(eb), None, None, None, None, None)
    requires r1 == SimulationResult(None, Some(bh), None, None, None, None)
    requires r2 == SimulationResult(None, None, Some(vs), None, None, None)
    requires r3 == SimulationResult(None, None, None, Some(tr), Some(avg), None)
    ensures Merge(r0, Merge(r1, Merge(r2, Merge(r3, t))))
         == SimulationResult(Some(eb), Some(bh), Some(vs), Some(tr), Some(avg), t.errorRate)
  {
  }

  lemma MergeLinesStep(lines: seq<string>, k: nat)
    requires k + 1 < |lines|
    ensures MergeLines(lines[k..]) == Merge(ParseReport(lines[k]), MergeLines(lines[k + 1..]))
  {
    assert lines[k..][1..] == lines[k + 1..];
  }

  lemma MergeLinesFour(lines: seq<string>)
    requires |lines| == 4
    ensures MergeLines(lines)
         == Merge(ParseReport(lines[0]), Merge(ParseReport(lines[1]), Merge(ParseReport(lines[2]), ParseReport(lines[3]))))
  {
    assert lines[0..] == lines;
    assert lines[3..] == [lines[3]];
    MergeLinesStep(lines, 2);
    MergeLinesStep(lines, 1);
    MergeLinesStep(lines, 0);
  }

  lemma MergeLinesSix(lines: seq<string>)
    requires |lines| == 6
    ensures MergeLines(lines)
         == Merge(ParseReport(lines[0]), Merge(ParseReport(lines[1]), Merge(ParseReport(lines[2]),
              Merge(ParseReport(lines[3]), Merge(ParseReport(lines[4]), ParseReport(lines[5]))))))
  {
    assert lines[0..] == lines;
    assert lines[5..] == [lines[5]];
    MergeLinesStep(lines, 4);
    MergeLinesStep(lines, 3);
    MergeLinesStep(lines, 2);
    MergeLinesStep(lines, 1);
    MergeLinesStep(lines, 0);
  }

  lemma ErrorRateOneLine(fmt: Format, s: Summary)
    requires Printable(fmt, s)
    ensures NoTerminator(ErrorRateText(fmt, s))
  {
    if s.sells == 0 {
      assert forall i :: 0 <= i < |"0.00"| ==> "0.00"[i] in "0.";
    }
  }

  /** The report lines after the options line parse to the expected fields. */
  lemma ReportBodyParse(fmt: Format, s: Summary, lines: seq<string>)
    requires Printable(fmt, s)
    requires |lines| == 4 + (if s.tradeCount > 0 then 2 else 0)
    requires lines[0] == EndBalanceLine(fmt, s) && lines[1] == BuyHoldLine(fmt, s)
    requires lines[2] == VsBuyHoldLine(fmt, s) && lines[3] == TradesLine(fmt, s)
    requires s.tradeCount > 0 ==> lines[4] == WinLossLine(s) && lines[5] == ErrorRateLine(fmt, s)
    ensures MergeLines(lines) == Expected(fmt, s)
  {
    EndBalanceLineParse(fmt, s);
    BuyHoldLineParse(fmt, s);
    VsBuyHoldLineParse(fmt, s);
    TradesLineParse(fmt, s);
    var t := NoFields;
    if s.tradeCount > 0 {
      WinLossLineParse(s);
      ErrorRateOneLine(fmt, s);
      ErrorRateLineParse(fmt, s);
      MergeLinesSix(lines);
      t := Merge(ParseReport(lines[4]), ParseReport(lines[5]));
    } else {
      MergeLinesFour(lines);
    }
    MergeFields(ParseReport(lines[0]), ParseReport(lines[1]), ParseReport(lines[2]), ParseReport(lines[3]), t,
                fmt.percent(s.profit), fmt.percent(s.buyHoldProfit), PercentOf(fmt, s.vsBuyHold),
                TradesLine(fmt, s), Fixed2Of(fmt, s.avgTradesPerDay));
  }

  /** The round trip: the training command's parse of a printed report gives
      back the printed values. The options line, when shown, must itself
      match none of the patterns. */
  lemma ReportRoundTrip(fmt: Format, s: Summary, showOptions: bool, optionsJson: string)
    requires Printable(fmt, s)
    requires showOptions ==> ParseReport(optionsJson) == NoFields
    ensures ParseReport(Join(ReportLines(fmt, s, showOptions, optionsJson), "\n")) == Expected(fmt, s)
  {
    var lines := ReportLines(fmt, s, showOptions, optionsJson);
    ParseJoin(lines);
    if showOptions {
      ReportBodyParse(fmt, s, lines[1..]);
    } else {
      ReportBodyParse(fmt, s, lines);
    }
  }

  /** What a completed back-test writes is what the training command reads
      back: the report text of `exitSim` parses to the printed figures of its
      own summary. */
  lemma RunExitRoundTrip(fmt: Format, st: SimState, showOptions: bool, optionsJson: string)
    requires showOptions ==> ParseReport(optionsJson) == NoFields
    requires RunExit(fmt, st, showOptions, optionsJson).Completed?
    requires Printable(fmt, RunExit(fmt, st, showOptions, optionsJson).finalized.summary)
    ensures var o := RunExit(fmt, st, showOptions, optionsJson);
      ParseReport(o.text) == Expected(fmt, o.finalized.summary)
  {
    var o := RunExit(fmt, st, showOptions, optionsJson);
    ReportRoundTrip(fmt, o.finalized.summary, showOptions, optionsJson);
  }

  // ---- The result file ----

  /** A text in which none of the report patterns matches. */
  predicate Quiet(t: string) {
    && Search(t, EndBalancePattern).None? && Search(t, BuyHoldPattern).None?
    && Search(t, VsBuyHoldPattern).None? && Search(t, TradesPattern).None?
    && Search(t, ErrorRatePattern).None?
  }

  lemma QuietParse(t: string)
    requires Quiet(t)
    ensures ParseReport(t) == NoFields
  {
  }

  /** No match from 0 means no match from any later position. */
  lemma {:induction false} SearchFromNone(t: string, pat: Pattern, s: nat, k: nat)
    requires s <= k <= |t| + 1 && SearchFrom(t, pat, s).None?
    ensures SearchFrom(t, pat, k).None?
    decreases k - s
  {
    if s < k {
      SearchFromNone(t, pat, s + 1, k);
    }
  }

  lemma SuffixNoMatch(t: string, pat: Pattern, k: nat)
    requires k <= |t| && Search(t, pat).None?
    ensures Search(t[k..], pat).None?
  {
    SearchFromNone(t, pat, 0, k);
    SearchShift(t[..k], t[k..], pat, 0);
    assert t[..k] + t[k..] == t;
  }

  /** Every suffix of a quiet text is quiet, so cutting a quiet prefix anywhere
      leaves it quiet. */
  lemma QuietSuffix(t: string, k: nat)
    requires k <= |t| && Quiet(t)
    ensures Quiet(t[k..])
  {
    SuffixNoMatch(t, EndBalancePattern, k);
    SuffixNoMatch(t, BuyHoldPattern, k);
    SuffixNoMatch(t, VsBuyHoldPattern, k);
    SuffixNoMatch(t, TradesPattern, k);
    SuffixNoMatch(t, ErrorRatePattern, k);
  }

  /** A report between quiet lines parses as the report alone. */
  lemma ReportBetweenQuiet(pre: string, text: string, post: string)
    requires Quiet(pre) && Quiet(post)
    ensures ParseReport(pre + "\n" + text + "\n" + post) == ParseReport(text)
  {
    var rest := text + "\n" + post;
    assert pre + "\n" + text + "\n" + post == pre + "\n" + rest;
    QuietParse(post);
    ParseLines(text, post);
    assert ParseReport(rest) == ParseReport(text);
    QuietParse(pre);
    ParseLines(pre, rest);
  }

  /** The searched tail of a file made of a quiet head, the report and a quiet
      foot, when the report and foot fit in the last 512 characters and the
      file is either at least 512 or at most 256 characters long. */
  lemma FileTail(head: string, text: string, foot: string)
    requires Quiet(head) && Quiet(foot)
    requires |text| + |foot| + 2 <= 512
    requires var n := |head| + |text| + |foot| + 2; n >= 512 || n <= 256
    ensures ParseSimulation(head + "\n" + text + "\n" + foot) == ParseReport(text)
  {
    var file := head + "\n" + text + "\n" + foot;
    if |file| >= 512 {
      var k := |file| - 512;
      assert file[k..] == head[k..] + "\n" + text + "\n" + foot;
      QuietSuffix(head, k);
      ReportBetweenQuiet(head[k..], text, foot);
    } else {
      ReportBetweenQuiet(head, text, foot);
    }
  }

  /** End to end: a back-test report written between quiet lines of the
      result file is read back by `parseSimulation` as the printed values. */
  lemma SimulationRoundTrip(fmt: Format, s: Summary, showOptions: bool, optionsJson: string, head: string, foot: string)
    requires Printable(fmt, s)
    requires showOptions ==> ParseReport(optionsJson) == NoFields
    requires Quiet(head) && Quiet(foot)
    requires var text := Join(ReportLines(fmt, s, showOptions, optionsJson), "\n");
      && |text| + |foot| + 2 <= 512
      && var n := |head| + |text| + |foot| + 2; (n >= 512 || n <= 256)
    ensures ParseSimulation(head + "\n" + Join(ReportLines(fmt, s, showOptions, optionsJson), "\n") + "\n" + foot)
         == Expected(fmt, s)
  {
    var text := Join(ReportLines(fmt, s, showOptions, optionsJson), "\n");
    FileTail(head, text, foot);
    ReportRoundTrip(fmt, s, showOptions, optionsJson);
  }

  /** With the last 512 characters read, the report comes back whatever the
      length of the file. */
  lemma LastCharsFileTail(head: string, text: string, foot: string)
    requires Quiet(head) && Quiet(foot)
    requires |text| + |foot| + 2 <= 512
    ensures ParseLastChars(head + "\n" + text + "\n" + foot) == ParseReport(text)
  {
    var file := head + "\n" + text + "\n" + foot;
    var k := Max(|file| - 512, 0);
    assert file[k..] == head[k..] + "\n" + text + "\n" + foot;
    QuietSuffix(head, k);
    ReportBetweenQuiet(head[k..], text, foot);
  }

  /** A 400-character result file that starts with an end-balance line and
      is padded with `x`: `substr(400 - 512)` starts reading at 288, past
      the line, so the end balance is lost, while the last 512 characters
      (the whole file) still hold it. */
  lemma ShortFileLosesEndBalance(b: string, p: string, pad: string)
    requires SafeField(b) && SafeField(p)
    requires |"end balance: " + b + " (" + p + "%)"| < 288
    requires forall i :: 0 <= i < |pad| ==> pad[i] == 'x'
    requires |"end balance: " + b + " (" + p + "%)"| + 1 + |pad| == 400
    ensures ParseLastChars("end balance: " + b + " (" + p + "%)" + "\n" + pad).endBalance == Some(p)
    ensures ParseSimulation("end balance: " + b + " (" + p + "%)" + "\n" + pad).endBalance == None
  {
    var line := "end balance: " + b + " (" + p + "%)";
    var file := line + "\n" + pad;
    PatternsWellFormed();
    ParenLineMatch("end balance: ", b, p);
    CaptureLines(line, pad, EndBalancePattern, Between(0));
    assert LastChars(file) == file;
    var k := 288 - |line| - 1;
    assert ReportTail(file) == pad[k..];
    HeadAbsentNoColon(pad[k..], EndBalancePattern);
  }
}
