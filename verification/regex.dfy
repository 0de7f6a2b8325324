/** The fragment of JavaScript regular expressions the report parser uses:
    a head (a literal, or the class `[0-9]`) followed by `.*`-separated
    literals, e.g. `end balance: .* \((.*)%\)` is the head `end balance: `
    followed by the pieces ` (` and `%)`. `String.prototype.match` tries the
    start positions from left to right; at each start every `.*` is greedy
    (it takes the longest run that still lets the rest match) and, like `.`,
    never runs over a line terminator. */
module Regex {
  import opened Common

  predicate IsLineTerminator(c: char) {
    c == '\n' || c == '\r' || c == '\U{2028}' || c == '\U{2029}'
  }

  predicate NoTerminator(s: string) {
    forall i :: 0 <= i < |s| ==> !IsLineTerminator(s[i])
  }

  datatype Head = Literal(lit: string) | Digit

  datatype Pattern = Pattern(head: Head, pieces: seq<string>)

  /** A match: where the head starts, and where each piece starts. */
  datatype Match = Match(start: nat, positions: seq<nat>)

  /** Patterns whose literals cannot match a line terminator. */
  predicate WellFormed(pat: Pattern) {
    && (pat.head.Literal? ==> |pat.head.lit| > 0 && NoTerminator(pat.head.lit))
    && forall k :: 0 <= k < |pat.pieces| ==> NoTerminator(pat.pieces[k])
  }

  predicate OccursAt(text: string, p: nat, lit: string) {
    p + |lit| <= |text| && text[p..p + |lit|] == lit
  }

  function HeadLen(h: Head): nat {
    match h
    case Literal(l) => |l|
    case Digit => 1
  }

  predicate HeadAt(text: string, s: nat, h: Head) {
    match h
    case Literal(l) => OccursAt(text, s, l)
    case Digit => s < |text| && IsDigit(text[s])
  }

  /** End of the line holding position i: the first line terminator at or
      after i, or the end of the text. */
  function LineEnd(text: string, i: nat): (e: nat)
    requires i <= |text|
    ensures i <= e <= |text|
    ensures forall k :: i <= k < e ==> !IsLineTerminator(text[k])
    ensures e < |text| ==> IsLineTerminator(text[e])
    decreases |text| - i
  {
    if i == |text| || IsLineTerminator(text[i]) then i else LineEnd(text, i + 1)
  }

  /** Matches `.* p1 .* p2 ...` from position i, each `.*` greedy: the
      positions where the pieces start, or None. */
  function Greedy(text: string, i: nat, pieces: seq<string>): (r: Option<seq<nat>>)
    requires i <= |text|
    ensures r.Some? ==> |r.value| == |pieces|
    decreases |pieces|, 1, 0
  {
    if |pieces| == 0 then Some([]) else GreedyFrom(text, i, pieces, LineEnd(text, i))
  }

  /** The first `.*` tried at lengths p - i, p - i - 1, ..., 0. */
  function GreedyFrom(text: string, i: nat, pieces: seq<string>, p: nat): (r: Option<seq<nat>>)
    requires i <= p <= |text| && |pieces| > 0
    ensures r.Some? ==> |r.value| == |pieces|
    decreases |pieces|, 0, p
  {
    var rest := if OccursAt(text, p, pieces[0]) then Greedy(text, p + |pieces[0]|, pieces[1..]) else None;
    if rest.Some? then Some([p] + rest.value)
    else if p == i then None
    else GreedyFrom(text, i, pieces, p - 1)
  }

  /** The piece positions of a match whose head is at s, if there is one. */
  function MatchAt(text: string, pat: Pattern, s: nat): (r: Option<seq<nat>>)
    ensures r.Some? ==> HeadAt(text, s, pat.head) && s + HeadLen(pat.head) <= |text|
    ensures r.Some? ==> |r.value| == |pat.pieces|
  {
    if HeadAt(text, s, pat.head) && s + HeadLen(pat.head) <= |text| then Greedy(text, s + HeadLen(pat.head), pat.pieces)
    else None
  }

  /** Leftmost match starting at or after s. */
  function SearchFrom(text: string, pat: Pattern, s: nat): (r: Option<Match>)
    requires s <= |text| + 1
    decreases |text| + 1 - s
  {
    if s > |text| then None
    else if MatchAt(text, pat, s).Some? then Some(Match(s, MatchAt(text, pat, s).value))
    else SearchFrom(text, pat, s + 1)
  }

  /** Every piece of a greedy match occurs where the match places it. */
  lemma {:induction false} GreedyOccurs(text: string, i: nat, pieces: seq<string>)
    requires i <= |text|
    ensures var r := Greedy(text, i, pieces);
      r.Some? ==> forall k :: 0 <= k < |pieces| ==> i <= r.value[k] && OccursAt(text, r.value[k], pieces[k])
    decreases |pieces|, 1, 0
  {
    if |pieces| > 0 {
      GreedyFromOccurs(text, i, pieces, LineEnd(text, i));
    }
  }

  lemma {:induction false} GreedyFromOccurs(text: string, i: nat, pieces: seq<string>, p: nat)
    requires i <= p <= |text| && |pieces| > 0
    ensures var r := GreedyFrom(text, i, pieces, p);
      r.Some? ==> forall k :: 0 <= k < |pieces| ==> i <= r.value[k] && OccursAt(text, r.value[k], pieces[k])
    decreases |pieces|, 0, p
  {
    var r := GreedyFrom(text, i, pieces, p);
    if OccursAt(text, p, pieces[0]) && Greedy(text, p + |pieces[0]|, pieces[1..]).Some? {
      var rest := Greedy(text, p + |pieces[0]|, pieces[1..]);
      GreedyOccurs(text, p + |pieces[0]|, pieces[1..]);
      assert r.value == [p] + rest.value;
      forall k | 0 <= k < |pieces|
        ensures i <= r.value[k] && OccursAt(text, r.value[k], pieces[k])
      {
        if k > 0 {
          assert r.value[k] == rest.value[k - 1];
          assert pieces[k] == pieces[1..][k - 1];
        }
      }
    } else if p > i {
      GreedyFromOccurs(text, i, pieces, p - 1);
    }
  }

  /** A match at s has its head at s and every piece where it places it. */
  lemma MatchAtOccurs(text: string, pat: Pattern, s: nat)
    ensures var r := MatchAt(text, pat, s);
      r.Some? ==> forall k :: 0 <= k < |pat.pieces| ==> s + HeadLen(pat.head) <= r.value[k] && OccursAt(text, r.value[k], pat.pieces[k])
  {
    if HeadAt(text, s, pat.head) && s + HeadLen(pat.head) <= |text| {
      GreedyOccurs(text, s + HeadLen(pat.head), pat.pieces);
    }
  }

  /** What SearchFrom returns is a match at or after s. */
  lemma {:induction false} SearchFromFound(text: string, pat: Pattern, s: nat)
    requires s <= |text| + 1
    ensures var r := SearchFrom(text, pat, s);
      r.Some? ==> s <= r.value.start && MatchAt(text, pat, r.value.start) == Some(r.value.positions)
    decreases |text| + 1 - s
  {
    if s <= |text| && MatchAt(text, pat, s).None? {
      SearchFromFound(text, pat, s + 1);
    }
  }

  /** The match found is the leftmost one: no earlier start matches. */
  lemma {:induction false} SearchFromLeftmost(text: string, pat: Pattern, s: nat, x: nat)
    requires s <= |text| + 1
    requires SearchFrom(text, pat, s).Some? && s <= x < SearchFrom(text, pat, s).value.start
    ensures MatchAt(text, pat, x).None?
    decreases |text| + 1 - s
  {
    if x > s {
      SearchFromLeftmost(text, pat, s + 1, x);
    }
  }

  /** `text.match(pattern)`. */
  function Search(text: string, pat: Pattern): Option<Match> {
    SearchFrom(text, pat, 0)
  }

  /** A pattern whose head literal never occurs in the text has no match. */
  lemma NoMatchWithoutHead(text: string, pat: Pattern)
    requires pat.head.Literal?
    requires forall q :: !OccursAt(text, q, pat.head.lit)
    ensures Search(text, pat) == None
  {
    MatchedHeadOccurs(text, pat);
  }

  lemma MatchedHeadOccurs(text: string, pat: Pattern)
    ensures Search(text, pat).Some? ==> HeadAt(text, Search(text, pat).value.start, pat.head)
  {
    SearchFromFound(text, pat, 0);
  }

  /** A pattern one of whose pieces never occurs in the text has no match. */
  lemma NoMatchWithoutPiece(text: string, pat: Pattern, k: nat)
    requires k < |pat.pieces|
    requires forall q :: !OccursAt(text, q, pat.pieces[k])
    ensures Search(text, pat) == None
  {
    PieceNeeded(text, pat, k);
  }

  lemma PieceNeeded(text: string, pat: Pattern, k: nat)
    requires k < |pat.pieces|
    ensures Search(text, pat).Some? ==> exists q :: OccursAt(text, q, pat.pieces[k])
  {
    MatchedPiecesOccur(text, pat);
    var r := Search(text, pat);
    if r.Some? {
      assert OccursAt(text, r.value.positions[k], pat.pieces[k]);
    }
  }

  /** The pieces of a match found by `match` occur where it places them. */
  lemma MatchedPiecesOccur(text: string, pat: Pattern)
    ensures var r := Search(text, pat);
      r.Some? ==> (|r.value.positions| == |pat.pieces|
                   && forall k :: 0 <= k < |pat.pieces| ==> OccursAt(text, r.value.positions[k], pat.pieces[k]))
  {
    SearchFromFound(text, pat, 0);
    var r := Search(text, pat);
    if r.Some? {
      MatchAtOccurs(text, pat, r.value.start);
    }
  }

  /** A line with no terminator ends at the end of the text. */
  lemma {:induction false} LineEndOfLine(text: string, i: nat)
    requires i <= |text|
    requires NoTerminator(text)
    ensures LineEnd(text, i) == |text|
    decreases |text| - i
  {
    if i < |text| { LineEndOfLine(text, i + 1); }
  }

  /** The greedy `.*` stops at the last position q from which the rest of the
      pattern matches. */
  lemma {:induction false} GreedyFromPicks(text: string, i: nat, pieces: seq<string>, p: nat, q: nat)
    requires i <= q <= p <= |text| && |pieces| > 0
    requires OccursAt(text, q, pieces[0]) && Greedy(text, q + |pieces[0]|, pieces[1..]).Some?
    requires forall x :: q < x <= p ==> !(OccursAt(text, x, pieces[0]) && Greedy(text, x + |pieces[0]|, pieces[1..]).Some?)
    ensures GreedyFrom(text, i, pieces, p) == Some([q] + Greedy(text, q + |pieces[0]|, pieces[1..]).value)
    decreases p
  {
    if p > q {
      GreedyFromPicks(text, i, pieces, p - 1, q);
    }
  }

  lemma GreedyPicks(text: string, i: nat, pieces: seq<string>, q: nat)
    requires i <= |text| && i <= q <= LineEnd(text, i) && |pieces| > 0
    requires OccursAt(text, q, pieces[0]) && Greedy(text, q + |pieces[0]|, pieces[1..]).Some?
    requires forall x :: q < x <= LineEnd(text, i) ==> !(OccursAt(text, x, pieces[0]) && Greedy(text, x + |pieces[0]|, pieces[1..]).Some?)
    ensures Greedy(text, i, pieces) == Some([q] + Greedy(text, q + |pieces[0]|, pieces[1..]).value)
  {
    GreedyFromPicks(text, i, pieces, LineEnd(text, i), q);
  }

  /** The pieces of a match follow each other without overlapping. */
  lemma {:induction false} GreedyOrdered(text: string, i: nat, pieces: seq<string>)
    requires i <= |text|
    ensures var r := Greedy(text, i, pieces);
      r.Some? ==> forall k :: 0 < k < |pieces| ==> r.value[k - 1] + |pieces[k - 1]| <= r.value[k]
    decreases |pieces|, 1, 0
  {
    if |pieces| > 0 {
      GreedyFromOrdered(text, i, pieces, LineEnd(text, i));
    }
  }

  lemma {:induction false} GreedyFromOrdered(text: string, i: nat, pieces: seq<string>, p: nat)
    requires i <= p <= |text| && |pieces| > 0
    ensures var r := GreedyFrom(text, i, pieces, p);
      r.Some? ==> forall k :: 0 < k < |pieces| ==> r.value[k - 1] + |pieces[k - 1]| <= r.value[k]
    decreases |pieces|, 0, p
  {
    GreedyFromUnfold(text, i, pieces, p);
    var t := TryAt(text, p, pieces);
    if t.Some? {
      var rest := Greedy(text, p + |pieces[0]|, pieces[1..]);
      GreedyOrdered(text, p + |pieces[0]|, pieces[1..]);
      GreedyOccurs(text, p + |pieces[0]|, pieces[1..]);
      assert t.value == [p] + rest.value;
      forall k | 0 < k < |pieces|
        ensures t.value[k - 1] + |pieces[k - 1]| <= t.value[k]
      {
        assert t.value[k] == rest.value[k - 1];
        if k > 1 {
          assert t.value[k - 1] == rest.value[k - 2];
          assert pieces[k - 1] == pieces[1..][k - 2];
        }
      }
    } else if p > i {
      GreedyFromOrdered(text, i, pieces, p - 1);
    }
  }

  lemma MatchAtOrdered(text: string, pat: Pattern, s: nat)
    ensures var r := MatchAt(text, pat, s);
      r.Some? ==> forall k :: 0 < k < |pat.pieces| ==> r.value[k - 1] + |pat.pieces[k - 1]| <= r.value[k]
  {
    if HeadAt(text, s, pat.head) && s + HeadLen(pat.head) <= |text| {
      GreedyOrdered(text, s + HeadLen(pat.head), pat.pieces);
    }
  }

  // ---- Searching a text made of lines ----

  function ShiftAll(ps: seq<nat>, d: nat): (r: seq<nat>)
    ensures |r| == |ps|
    ensures forall k :: 0 <= k < |ps| ==> r[k] == ps[k] + d
  {
    if |ps| == 0 then [] else [ps[0] + d] + ShiftAll(ps[1..], d)
  }

  function ShiftOpt(o: Option<seq<nat>>, d: nat): Option<seq<nat>> {
    match o
    case None => None
    case Some(ps) => Some(ShiftAll(ps, d))
  }

  function ShiftMatch(m: Option<Match>, d: nat): Option<Match> {
    match m
    case None => None
    case Some(x) => Some(Match(x.start + d, ShiftAll(x.positions, d)))
  }

  lemma {:induction false} LineEndShift(pre: string, text: string, i: nat)
    requires i <= |text|
    ensures LineEnd(pre + text, |pre| + i) == |pre| + LineEnd(text, i)
    decreases |text| - i
  {
    assert forall k :: 0 <= k < |text| ==> (pre + text)[|pre| + k] == text[k];
    if i < |text| && !IsLineTerminator(text[i]) {
      LineEndShift(pre, text, i + 1);
    }
  }

  lemma OccursShift(pre: string, text: string, p: nat, lit: string)
    ensures OccursAt(pre + text, |pre| + p, lit) <==> OccursAt(text, p, lit)
  {
    if p + |lit| <= |text| {
      assert (pre + text)[|pre| + p..|pre| + p + |lit|] == text[p..p + |lit|];
    }
  }

  /** Matching after a prefix is matching without it, shifted. */
  lemma {:induction false} GreedyShift(pre: string, text: string, i: nat, pieces: seq<string>)
    requires i <= |text|
    ensures Greedy(pre + text, |pre| + i, pieces) == ShiftOpt(Greedy(text, i, pieces), |pre|)
    decreases |pieces|, 2, 0
  {
    if |pieces| > 0 {
      LineEndShift(pre, text, i);
      GreedyFromShift(pre, text, i, pieces, LineEnd(text, i));
    }
  }

  /** The step GreedyFrom takes at position p, before falling back to p - 1. */
  function TryAt(text: string, p: nat, pieces: seq<string>): Option<seq<nat>>
    requires p <= |text| && |pieces| > 0
  {
    if OccursAt(text, p, pieces[0]) then
      match Greedy(text, p + |pieces[0]|, pieces[1..])
      case None => None
      case Some(rest) => Some([p] + rest)
    else None
  }

  lemma GreedyFromUnfold(text: string, i: nat, pieces: seq<string>, p: nat)
    requires i <= p <= |text| && |pieces| > 0
    ensures GreedyFrom(text, i, pieces, p)
         == if TryAt(text, p, pieces).Some? then TryAt(text, p, pieces)
            else if p == i then None else GreedyFrom(text, i, pieces, p - 1)
  {
  }

  lemma TryAtShift(pre: string, text: string, p: nat, pieces: seq<string>)
    requires p <= |text| && |pieces| > 0
    ensures TryAt(pre + text, |pre| + p, pieces) == ShiftOpt(TryAt(text, p, pieces), |pre|)
    decreases |pieces|, 0, 0
  {
    OccursShift(pre, text, p, pieces[0]);
    if OccursAt(text, p, pieces[0]) {
      GreedyShift(pre, text, p + |pieces[0]|, pieces[1..]);
      var g := Greedy(text, p + |pieces[0]|, pieces[1..]);
      if g.Some? {
        assert ShiftAll([p] + g.value, |pre|) == [|pre| + p] + ShiftAll(g.value, |pre|);
      }
    }
  }

  lemma {:induction false} GreedyFromShift(pre: string, text: string, i: nat, pieces: seq<string>, p: nat)
    requires i <= p <= |text| && |pieces| > 0
    ensures GreedyFrom(pre + text, |pre| + i, pieces, |pre| + p)
         == ShiftOpt(GreedyFrom(text, i, pieces, p), |pre|)
    decreases |pieces|, 1, p
  {
    TryAtShift(pre, text, p, pieces);
    GreedyFromUnfold(text, i, pieces, p);
    GreedyFromUnfold(pre + text, |pre| + i, pieces, |pre| + p);
    if TryAt(text, p, pieces).None? && p > i {
      GreedyFromShift(pre, text, i, pieces, p - 1);
    }
  }

  lemma HeadShift(pre: string, text: string, s: nat, h: Head)
    ensures HeadAt(pre + text, |pre| + s, h) <==> HeadAt(text, s, h)
  {
    match h {
      case Literal(l) => OccursShift(pre, text, s, l);
      case Digit =>
        if s < |text| { assert (pre + text)[|pre| + s] == text[s]; }
    }
  }

  lemma MatchAtShift(pre: string, text: string, pat: Pattern, s: nat)
    requires s <= |text|
    ensures MatchAt(pre + text, pat, |pre| + s) == ShiftOpt(MatchAt(text, pat, s), |pre|)
  {
    HeadShift(pre, text, s, pat.head);
    if HeadAt(text, s, pat.head) && s + HeadLen(pat.head) <= |text| {
      GreedyShift(pre, text, s + HeadLen(pat.head), pat.pieces);
    }
  }

  lemma SearchFromUnfold(text: string, pat: Pattern, s: nat)
    requires s <= |text|
    ensures SearchFrom(text, pat, s)
         == if MatchAt(text, pat, s).Some? then Some(Match(s, MatchAt(text, pat, s).value))
            else SearchFrom(text, pat, s + 1)
  {
  }

  /** One step of SearchShift, over the values involved. */
  lemma ShiftStep(x: Option<Match>, y: Option<Match>, a: Option<seq<nat>>, b: Option<seq<nat>>,
                  xn: Option<Match>, yn: Option<Match>, s: nat, d: nat)
    requires b == ShiftOpt(a, d)
    requires x == if a.Some? then Some(Match(s, a.value)) else xn
    requires y == if b.Some? then Some(Match(s + d, b.value)) else yn
    requires a.None? ==> yn == ShiftMatch(xn, d)
    ensures y == ShiftMatch(x, d)
  {
  }

  lemma {:induction false} SearchShift(pre: string, text: string, pat: Pattern, s: nat)
    requires s <= |text| + 1
    ensures SearchFrom(pre + text, pat, |pre| + s) == ShiftMatch(SearchFrom(text, pat, s), |pre|)
    decreases |text| + 1 - s
  {
    var t := pre + text;
    if s <= |text| {
      MatchAtShift(pre, text, pat, s);
      SearchFromUnfold(text, pat, s);
      SearchFromUnfold(t, pat, |pre| + s);
      SearchShift(pre, text, pat, s + 1);
      ShiftStep(SearchFrom(text, pat, s), SearchFrom(t, pat, |pre| + s),
                MatchAt(text, pat, s), MatchAt(t, pat, |pre| + s),
                SearchFrom(text, pat, s + 1), SearchFrom(t, pat, |pre| + s + 1), s, |pre|);
    }
  }

  /** A literal without terminators that occurs in `a + "\n" + b` at a
      position inside `a` lies wholly inside `a`. */
  lemma OccursBeforeNewline(a: string, b: string, p: nat, lit: string)
    requires p <= |a| && NoTerminator(lit)
    ensures OccursAt(a + "\n" + b, p, lit) <==> OccursAt(a, p, lit)
  {
    var t := a + "\n" + b;
    if p + |lit| <= |a| {
      assert t[p..p + |lit|] == a[p..p + |lit|];
    } else if p + |lit| <= |t| {
      assert t[p..p + |lit|][|a| - p] == '\n';
      assert !IsLineTerminator(lit[|a| - p]);
    }
  }

  lemma {:induction false} LineEndBeforeNewline(a: string, b: string, i: nat)
    requires i <= |a|
    ensures LineEnd(a + "\n" + b, i) == LineEnd(a, i)
    decreases |a| - i
  {
    var t := a + "\n" + b;
    assert t[|a|] == '\n';
    if i < |a| {
      assert t[i] == a[i];
      if !IsLineTerminator(a[i]) { LineEndBeforeNewline(a, b, i + 1); }
    }
  }

  lemma {:induction false} GreedyBeforeNewline(a: string, b: string, i: nat, pieces: seq<string>)
    requires i <= |a|
    requires forall k :: 0 <= k < |pieces| ==> NoTerminator(pieces[k])
    ensures Greedy(a + "\n" + b, i, pieces) == Greedy(a, i, pieces)
    decreases |pieces|, 1, 0
  {
    if |pieces| > 0 {
      LineEndBeforeNewline(a, b, i);
      GreedyFromBeforeNewline(a, b, i, pieces, LineEnd(a, i));
    }
  }

  lemma {:induction false} GreedyFromBeforeNewline(a: string, b: string, i: nat, pieces: seq<string>, p: nat)
    requires i <= p <= |a| && |pieces| > 0
    requires forall k :: 0 <= k < |pieces| ==> NoTerminator(pieces[k])
    ensures GreedyFrom(a + "\n" + b, i, pieces, p) == GreedyFrom(a, i, pieces, p)
    decreases |pieces|, 0, p
  {
    OccursBeforeNewline(a, b, p, pieces[0]);
    if OccursAt(a, p, pieces[0]) {
      assert forall k :: 0 <= k < |pieces[1..]| ==> pieces[1..][k] == pieces[k + 1];
      GreedyBeforeNewline(a, b, p + |pieces[0]|, pieces[1..]);
    }
    if p > i {
      GreedyFromBeforeNewline(a, b, i, pieces, p - 1);
    }
  }

  lemma MatchAtBeforeNewline(a: string, b: string, pat: Pattern, s: nat)
    requires s <= |a|
    requires WellFormed(pat)
    ensures MatchAt(a + "\n" + b, pat, s) == MatchAt(a, pat, s)
  {
    var t := a + "\n" + b;
    var hl := HeadLen(pat.head);
    assert HeadAt(t, s, pat.head) && s + hl <= |t| <==> HeadAt(a, s, pat.head) && s + hl <= |a| by {
      match pat.head {
        case Literal(l) =>
          OccursBeforeNewline(a, b, s, l);
        case Digit =>
          assert t[|a|] == '\n';
          if s < |a| { assert t[s] == a[s]; }
      }
    }
    if HeadAt(a, s, pat.head) && s + hl <= |a| {
      GreedyBeforeNewline(a, b, s + hl, pat.pieces);
    }
  }

  lemma {:induction false} SearchBeforeNewline(a: string, b: string, pat: Pattern, s: nat)
    requires s <= |a| + 1
    requires WellFormed(pat)
    ensures SearchFrom(a + "\n" + b, pat, s)
         == if SearchFrom(a, pat, s).Some? then SearchFrom(a, pat, s)
            else ShiftMatch(SearchFrom(b, pat, 0), |a| + 1)
    decreases |a| + 1 - s
  {
    if s == |a| + 1 {
      assert a + "\n" + b == (a + "\n") + b;
      SearchShift(a + "\n", b, pat, 0);
    } else {
      MatchAtBeforeNewline(a, b, pat, s);
      SearchBeforeNewline(a, b, pat, s + 1);
    }
  }

  /** The leftmost match in a text of lines is the leftmost match of the
      first line that has one. */
  lemma SearchLines(a: string, b: string, pat: Pattern)
    requires WellFormed(pat)
    ensures Search(a + "\n" + b, pat)
         == if Search(a, pat).Some? then Search(a, pat) else ShiftMatch(Search(b, pat), |a| + 1)
  {
    SearchBeforeNewline(a, b, pat, 0);
  }
}
