/** Small building blocks shared by the back-test and training models:
    an Option type standing for JavaScript's `undefined`, JavaScript truthiness
    of numbers, the two JavaScript string/array primitives whose negative-index
    behaviour the commands rely on (`substr` and `slice`), decimal rendering of
    counters, and `split`/`join` on a one-character separator. */
module Common {

  datatype Option<+T> = None | Some(value: T) {
    function GetOr(default: T): T {
      match this
      case Some(v) => v
      case None => default
    }
  }

  /** `if (x)` on a numeric field: `undefined` and `0` are falsy. */
  predicate Truthy(x: Option<int>) {
    x.Some? && x.value != 0
  }

  /** `if (x)` on a numeric field holding a real. */
  predicate TruthyReal(x: Option<real>) {
    x.Some? && x.value != 0.0
  }

  /** `if (!so.min_periods) so.min_periods = 1`, as both commands default it. */
  function MinPeriods(mp: Option<int>): (r: int)
    ensures Truthy(mp) ==> r == mp.value
    ensures !Truthy(mp) ==> r == 1
  {
    if Truthy(mp) then mp.value else 1
  }

  function Max(a: int, b: int): int { if a < b then b else a }
  function Min(a: int, b: int): int { if a < b then a else b }

  /** A relative index as `substr` and `slice` resolve it: a negative index
      counts from the end and is clamped at 0, an index past the end is
      clamped to the length. */
  function RelativeIndex(len: nat, i: int): (k: nat)
    ensures k <= len
    ensures i >= 0 ==> k == Min(i, len)
    ensures i < 0 ==> k == Max(len + i, 0)
  {
    if i < 0 then (if len + i < 0 then 0 else len + i)
    else if i > len then len else i
  }

  /** `s.substr(start)` with no length argument. */
  function Substr<T>(s: seq<T>, start: int): (r: seq<T>)
    ensures r == s[RelativeIndex(|s|, start)..]
  {
    s[RelativeIndex(|s|, start)..]
  }

  /** `a.slice(0, end)`. */
  function SliceTo<T>(s: seq<T>, end: int): (r: seq<T>)
    ensures r == s[..RelativeIndex(|s|, end)]
  {
    s[..RelativeIndex(|s|, end)]
  }

  /** `a.slice(0, a.length - n)` for n >= 0: drops the last n elements when
      n <= |a|, and otherwise (a negative end) keeps max(2|a| - n, 0) of them. */
  lemma DropLastSlice<T>(s: seq<T>, n: nat)
    ensures n <= |s| ==> SliceTo(s, |s| - n) == s[..|s| - n]
    ensures n > |s| ==> SliceTo(s, |s| - n) == s[..Max(2 * |s| - n, 0)]
  {
  }

  function DigitChar(d: nat): (c: char)
    requires d < 10
    ensures '0' <= c <= '9'
  {
    ['0', '1', '2', '3', '4', '5', '6', '7', '8', '9'][d]
  }

  predicate IsDigit(c: char) { '0' <= c <= '9' }

  /** Decimal rendering of a counter, as `${n}` produces it. */
  function NatToString(n: nat): (r: string)
    ensures |r| > 0
    ensures forall i :: 0 <= i < |r| ==> IsDigit(r[i])
    ensures NatValue(r) == n
    decreases n
  {
    if n < 10 then [DigitChar(n)]
    else
      var r := NatToString(n / 10) + [DigitChar(n % 10)];
      assert r[..|r| - 1] == NatToString(n / 10);
      r
  }

  /** Value of a string of decimal digits (the inverse of NatToString). */
  function NatValue(s: string): nat
    requires forall i :: 0 <= i < |s| ==> IsDigit(s[i])
  {
    if |s| == 0 then 0
    else
      assert IsDigit(s[|s| - 1]);
      NatValue(s[..|s| - 1]) * 10 + ((s[|s| - 1] as int) - ('0' as int))
  }

  /** `s.split(sep)` for a one-character separator. */
  function Split(s: string, sep: char): (parts: seq<string>)
    ensures |parts| > 0
    ensures forall i :: 0 <= i < |parts| ==> sep !in parts[i]
    decreases |s|
  {
    if sep !in s then [s]
    else
      var k := IndexOf(s, sep);
      [s[..k]] + Split(s[k + 1..], sep)
  }

  /** First index of `c` in `s`. */
  function IndexOf(s: string, c: char): (k: nat)
    requires c in s
    ensures k < |s| && s[k] == c && c !in s[..k]
  {
    if s[0] == c then 0
    else
      assert c in s[1..] by { var j :| 0 <= j < |s| && s[j] == c; assert s[1..][j - 1] == c; }
      var k := 1 + IndexOf(s[1..], c);
      assert s[..k] == [s[0]] + s[1..][..k - 1];
      k
  }

  /** The first separator of `a + [c] + b` is the one right after `a` when `a` has none. */
  lemma {:induction false} IndexOfSeparatorAfter(a: string, c: char, b: string)
    requires c !in a
    ensures IndexOf(a + [c] + b, c) == |a|
  {
    if |a| > 0 {
      assert (a + [c] + b)[1..] == a[1..] + [c] + b;
      IndexOfSeparatorAfter(a[1..], c, b);
    }
  }

  /** `parts.join(sep)`. */
  function Join(parts: seq<string>, sep: string): string {
    if |parts| == 0 then []
    else if |parts| == 1 then parts[0]
    else parts[0] + sep + Join(parts[1..], sep)
  }

  /** Joining ends with the separator and the last part. */
  lemma {:induction false} JoinSnoc(p: seq<string>, sep: string)
    requires |p| >= 2
    ensures Join(p, sep) == Join(p[..|p| - 1], sep) + sep + p[|p| - 1]
    decreases |p|
  {
    var init := p[..|p| - 1];
    if |p| == 2 {
      assert init == [p[0]];
    } else {
      JoinSnoc(p[1..], sep);
      assert p[1..][..|p| - 2] == init[1..];
      var j := Join(init[1..], sep);
      assert Join(init, sep) == p[0] + sep + j;
      assert Join(p, sep) == p[0] + sep + (j + sep + p[|p| - 1]);
    }
  }

  /** Splitting and re-joining on the same separator gives back the string. */
  lemma {:induction false} SplitJoin(s: string, sep: char)
    ensures Join(Split(s, sep), [sep]) == s
    decreases |s|
  {
    if sep in s {
      var k := IndexOf(s, sep);
      SplitJoin(s[k + 1..], sep);
      assert s == s[..k] + [sep] + s[k + 1..];
    }
  }

  /** Joining separator-free parts and splitting again gives back the parts. */
  lemma {:induction false} JoinSplit(parts: seq<string>, sep: char)
    requires |parts| > 0
    requires forall i :: 0 <= i < |parts| ==> sep !in parts[i]
    ensures Split(Join(parts, [sep]), sep) == parts
    decreases |parts|
  {
    if |parts| > 1 {
      var rest := Join(parts[1..], [sep]);
      var s := parts[0] + [sep] + rest;
      assert Join(parts, [sep]) == s;
      assert sep in s by { assert s[|parts[0]|] == sep; }
      IndexOfSeparatorAfter(parts[0], sep, rest);
      var k := |parts[0]|;
      assert s[..k] == parts[0];
      assert s[k + 1..] == rest;
      assert Split(s, sep) == [parts[0]] + Split(rest, sep);
      JoinSplit(parts[1..], sep);
      assert parts == [parts[0]] + parts[1..];
    } else {
      assert Join(parts, [sep]) == parts[0];
    }
  }
}
