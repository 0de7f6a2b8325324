/** Paging through the trade store, as `getNext` (back-test) and `getTrades`
    (training) do it: the query each fetch sends, the one-time switch into
    reverse ("symmetrical") mode, the time mirror applied to reversed trades,
    and the cursor that selects the next page. The store is an in-memory
    sequence of trade records; the candle engine that consumes each page is
    not part of this module. */
module Paging {
  import opened Common

  /** A stored trade. `origTime` is the field the mirror adds (`orig_time`);
      records read from the store carry `None` there. */
  datatype TradeRecord = TradeRecord(selector: string, time: int, origTime: Option<int>, price: real, size: real)

  /** A store query: the selector, the four optional time bounds
      (`$lte`, `$gt`, `$lt`, `$gte`), the sort direction and the page size. */
  datatype Query = Query(
    selector: string,
    lte: Option<int>,
    gt: Option<int>,
    lt: Option<int>,
    gte: Option<int>,
    ascending: bool,
    limit: nat)

  const PageSize: nat := 1000

  /** Whether a record satisfies every bound present in the query. */
  predicate Admits(q: Query, r: TradeRecord) {
    && r.selector == q.selector
    && (q.lte.Some? ==> r.time <= q.lte.value)
    && (q.gt.Some? ==> r.time > q.gt.value)
    && (q.lt.Some? ==> r.time < q.lt.value)
    && (q.gte.Some? ==> r.time >= q.gte.value)
  }

  function IfTruthy(x: Option<int>): Option<int> {
    if Truthy(x) then x else None
  }

  /** The query object built before every fetch, step by step as the source
      builds it: the ascending first page bounded by `end`, then the cursor
      bound (which, when reversing, replaces the whole time constraint and
      flips the sort), or `queryStart` when there is no cursor yet. */
  function BuildQuery(selector: string, end: Option<int>, cursor: Option<int>, reversing: bool, queryStart: Option<int>): (q: Query)
    ensures q.selector == selector && q.limit == PageSize
    ensures q.ascending <==> !(Truthy(cursor) && reversing)
    ensures !(Truthy(cursor) && reversing) ==> q.lte == IfTruthy(end) && q.lt == None
    ensures Truthy(cursor) && reversing ==> q.lte == None && q.gt == None && q.lt == cursor && q.gte == IfTruthy(queryStart)
    ensures Truthy(cursor) && !reversing ==> q.gt == cursor && q.gte == None
    ensures !Truthy(cursor) ==> q.gt == None && q.gte == IfTruthy(queryStart)
  {
    var base := Query(selector, None, None, None, None, true, PageSize);
    var bounded := if Truthy(end) then base.(lte := end) else base;
    if Truthy(cursor) then
      if reversing then
        bounded.(lte := None, lt := cursor, gte := IfTruthy(queryStart), ascending := false)
      else
        bounded.(gt := cursor)
    else if Truthy(queryStart) then bounded.(gte := queryStart)
    else bounded
  }

  /** What the forward query with a cursor fetches: exactly the records of the
      selector strictly after the cursor and not after `end`. */
  lemma ForwardQueryWindow(selector: string, end: Option<int>, c: int, queryStart: Option<int>, r: TradeRecord)
    requires c != 0
    ensures Admits(BuildQuery(selector, end, Some(c), false, queryStart), r)
        <==> r.selector == selector && r.time > c && (Truthy(end) ==> r.time <= end.value)
  {
  }

  /** What the reversing query fetches: records strictly before the cursor and
      not before `queryStart`; the `end` bound no longer applies. */
  lemma ReverseQueryWindow(selector: string, end: Option<int>, c: int, queryStart: Option<int>, r: TradeRecord)
    requires c != 0
    ensures Admits(BuildQuery(selector, end, Some(c), true, queryStart), r)
        <==> r.selector == selector && r.time < c && (Truthy(queryStart) ==> r.time >= queryStart.value)
  {
  }

  /** Records of the store the query admits, in store order. */
  function Filter(store: seq<TradeRecord>, q: Query): (r: seq<TradeRecord>)
    ensures |r| <= |store|
    ensures forall i :: 0 <= i < |r| ==> r[i] in store && Admits(q, r[i])
    ensures |r| == 0 <==> forall i :: 0 <= i < |store| ==> !Admits(q, store[i])
  {
    if |store| == 0 then []
    else
      var rest := Filter(store[1..], q);
      assert forall i :: 1 <= i < |store| ==> store[i] == store[1..][i - 1];
      if Admits(q, store[0]) then [store[0]] + rest else rest
  }

  /** Every admitted record of the store is in the filter. */
  lemma {:induction false} FilterHasAdmitted(store: seq<TradeRecord>, q: Query, x: TradeRecord)
    requires x in store && Admits(q, x)
    ensures x in Filter(store, q)
  {
    if store[0] != x {
      assert x in store[1..];
      FilterHasAdmitted(store[1..], q, x);
    }
  }

  function Reverse<T>(s: seq<T>): (r: seq<T>)
    ensures |r| == |s|
    ensures forall i :: 0 <= i < |s| ==> r[i] == s[|s| - 1 - i]
  {
    if |s| == 0 then [] else Reverse(s[1..]) + [s[0]]
  }

  function Take<T>(s: seq<T>, n: nat): (r: seq<T>)
    ensures |r| == Min(|s|, n)
    ensures r == s[..|r|]
  {
    if |s| <= n then s else s[..n]
  }

  /** One fetch from the store: the admitted records sorted as the query asks
      (the store is kept in time order), at most `limit` of them. */
  function Select(store: seq<TradeRecord>, q: Query): (r: seq<TradeRecord>)
    ensures |r| <= q.limit && |r| == Min(|Filter(store, q)|, q.limit)
    ensures forall i :: 0 <= i < |r| ==> r[i] in store && Admits(q, r[i])
    ensures q.limit > 0 ==> (|r| == 0 <==> forall i :: 0 <= i < |store| ==> !Admits(q, store[i]))
  {
    var f := Filter(store, q);
    var ordered := if q.ascending then f else Reverse(f);
    assert forall i :: 0 <= i < |ordered| ==> ordered[i] in f;
    Take(ordered, q.limit)
  }

  predicate NonDecreasing(s: seq<TradeRecord>) {
    forall i, j :: 0 <= i < j < |s| ==> s[i].time <= s[j].time
  }

  predicate NonIncreasing(s: seq<TradeRecord>) {
    forall i, j :: 0 <= i < j < |s| ==> s[i].time >= s[j].time
  }

  lemma {:induction false} FilterKeepsOrder(store: seq<TradeRecord>, q: Query)
    requires NonDecreasing(store)
    ensures NonDecreasing(Filter(store, q))
  {
    if |store| > 0 {
      FilterKeepsOrder(store[1..], q);
      var rest := Filter(store[1..], q);
      forall i | 0 <= i < |rest|
        ensures store[0].time <= rest[i].time
      {
        var k :| 0 <= k < |store[1..]| && store[1..][k] == rest[i];
        assert store[1..][k] == store[k + 1];
      }
    }
  }

  /** A page is the first admitted records in the query's order: an admitted
      record the page leaves out only occurs when the page is full, and then
      it comes no earlier, in that order, than any record of the page. */
  lemma SelectIsEarliest(store: seq<TradeRecord>, q: Query, x: TradeRecord)
    requires NonDecreasing(store)
    requires x in store && Admits(q, x) && x !in Select(store, q)
    ensures |Select(store, q)| == q.limit
    ensures q.ascending ==> forall j :: 0 <= j < |Select(store, q)| ==> Select(store, q)[j].time <= x.time
    ensures !q.ascending ==> forall j :: 0 <= j < |Select(store, q)| ==> Select(store, q)[j].time >= x.time
  {
    var f := Filter(store, q);
    FilterKeepsOrder(store, q);
    FilterHasAdmitted(store, q, x);
    var k :| 0 <= k < |f| && f[k] == x;
    if q.ascending {
      assert Select(store, q) == Take(f, q.limit);
      TakeEarliest(f, q.limit, k, true);
    } else {
      assert Select(store, q) == Take(Reverse(f), q.limit);
      ReversedTakeEarliest(f, q.limit, k);
    }
  }

  lemma ReversedTakeEarliest(f: seq<TradeRecord>, n: nat, k: nat)
    requires k < |f| && NonDecreasing(f) && f[k] !in Take(Reverse(f), n)
    ensures |Take(Reverse(f), n)| == n
    ensures forall j :: 0 <= j < n ==> Take(Reverse(f), n)[j].time >= f[k].time
  {
    ReverseNonIncreasing(f);
    assert Reverse(f)[|f| - 1 - k] == f[k];
    TakeEarliest(Reverse(f), n, |f| - 1 - k, false);
  }

  /** An element left out of `Take(s, n)` of an ordered sequence: the prefix
      is full and ends no later, in that order, than the element. */
  lemma TakeEarliest(s: seq<TradeRecord>, n: nat, k: nat, ascending: bool)
    requires k < |s| && s[k] !in Take(s, n)
    requires ascending ==> NonDecreasing(s)
    requires !ascending ==> NonIncreasing(s)
    ensures |Take(s, n)| == n
    ensures ascending ==> forall j :: 0 <= j < n ==> Take(s, n)[j].time <= s[k].time
    ensures !ascending ==> forall j :: 0 <= j < n ==> Take(s, n)[j].time >= s[k].time
  {
  }

  lemma ReverseNonIncreasing(f: seq<TradeRecord>)
    requires NonDecreasing(f)
    ensures NonIncreasing(Reverse(f))
  {
    var rf := Reverse(f);
    forall i, j | 0 <= i < j < |rf|
      ensures rf[i].time >= rf[j].time
    {
      assert rf[i] == f[|f| - 1 - i] && rf[j] == f[|f| - 1 - j];
    }
  }

  /** A page from a time-ordered store comes back ascending, or descending
      when the query asks for descending order. */
  lemma SelectOrder(store: seq<TradeRecord>, q: Query)
    requires NonDecreasing(store)
    ensures q.ascending ==> NonDecreasing(Select(store, q))
    ensures !q.ascending ==> NonIncreasing(Select(store, q))
  {
    FilterKeepsOrder(store, q);
  }

  /** The time mirror around the reverse point: `rp + (rp - t)`. */
  function MirrorTime(rp: int, t: int): (m: int)
    ensures m - rp == rp - t
    ensures t < rp <==> m > rp
  {
    rp + (rp - t)
  }

  /** Mirroring twice gives back the original time. */
  lemma MirrorInvolution(rp: int, t: int)
    ensures MirrorTime(rp, MirrorTime(rp, t)) == t
  {
  }

  /** A reversed trade keeps its original time in `origTime`. */
  function Mirror(rp: int, r: TradeRecord): (m: TradeRecord)
    ensures m.origTime == Some(r.time) && m.time == MirrorTime(rp, r.time)
    ensures m.selector == r.selector && m.price == r.price && m.size == r.size
  {
    r.(origTime := Some(r.time), time := MirrorTime(rp, r.time))
  }

  function MirrorBatch(rp: int, b: seq<TradeRecord>): (m: seq<TradeRecord>)
    ensures |m| == |b|
    ensures forall i :: 0 <= i < |b| ==> m[i] == Mirror(rp, b[i])
  {
    if |b| == 0 then [] else [Mirror(rp, b[0])] + MirrorBatch(rp, b[1..])
  }

  /** A descending page of times before the reverse point becomes an
      ascending page of times after it, each carrying its original time. */
  lemma MirrorReversesOrder(rp: int, b: seq<TradeRecord>)
    requires NonIncreasing(b)
    requires forall i :: 0 <= i < |b| ==> b[i].time < rp
    ensures NonDecreasing(MirrorBatch(rp, b))
    ensures forall i :: 0 <= i < |b| ==> MirrorBatch(rp, b)[i].time > rp
    ensures forall i :: 0 <= i < |b| ==> MirrorBatch(rp, b)[i].origTime == Some(b[i].time)
  {
  }

  /** Cursor after a page in the back-test: the last trade's original time
      while reversing, its time otherwise. */
  function SimCursorAfter(reversing: bool, delivered: seq<TradeRecord>): Option<int>
    requires |delivered| > 0
  {
    if reversing then delivered[|delivered| - 1].origTime
    else Some(delivered[|delivered| - 1].time)
  }

  /** Cursor after a page in training: always the last trade's time, which
      while reversing is the mirrored time. */
  function TrainCursorAfter(delivered: seq<TradeRecord>): Option<int>
    requires |delivered| > 0
  {
    Some(delivered[|delivered| - 1].time)
  }

  /** In the back-test the cursor after a reversed page is the oldest original
      time of that page, so the next reversing query no longer admits it. */
  lemma SimReverseProgress(selector: string, end: Option<int>, queryStart: Option<int>, rp: int, b: seq<TradeRecord>)
    requires |b| > 0
    requires b[|b| - 1].time != 0
    ensures SimCursorAfter(true, MirrorBatch(rp, b)) == Some(b[|b| - 1].time)
    ensures !Admits(BuildQuery(selector, end, SimCursorAfter(true, MirrorBatch(rp, b)), true, queryStart), b[|b| - 1])
  {
  }

  /** In training the cursor after a reversed page is a mirrored time past the
      reverse point, so the next reversing query (`$lt cursor`) admits every
      trade of that page again. This holds for every reversed page, the first
      one included: the fetch after it is never empty, so reverse paging
      never reaches the empty page that ends it. */
  lemma TrainReverseRefetches(selector: string, end: Option<int>, queryStart: Option<int>, c: int, rp: int, b: seq<TradeRecord>)
    requires |b| > 0 && 0 < rp
    requires forall i :: 0 <= i < |b| ==> b[i].time < rp
    requires forall i :: 0 <= i < |b| ==> Admits(BuildQuery(selector, end, Some(c), true, queryStart), b[i])
    ensures TrainCursorAfter(MirrorBatch(rp, b)).value > rp
    ensures forall i :: 0 <= i < |b| ==> Admits(BuildQuery(selector, end, TrainCursorAfter(MirrorBatch(rp, b)), true, queryStart), b[i])
  {
    var m := MirrorBatch(rp, b);
    assert m[|m| - 1].time > rp;
  }

  /** Settings of one replay: the selector, the optional `end`, the
      `queryStart` derived from `start`, and whether `symmetrical` is set. */
  datatype ReplayConfig = ReplayConfig(selector: string, end: Option<int>, queryStart: Option<int>, symmetrical: bool)

  /** Paging state kept between fetches. */
  datatype Paging = Paging(cursor: Option<int>, reversing: bool, reversePoint: Option<int>)

  function NextQuery(cfg: ReplayConfig, p: Paging): Query {
    BuildQuery(cfg.selector, cfg.end, p.cursor, p.reversing, cfg.queryStart)
  }

  /** `queryStart`: the period bucket of `start`, moved back by
      `min_periods + 2` periods (with `min_periods` defaulted to 1), or absent
      when `start` is unset. */
  function QueryStart(start: Option<int>, periodMs: int, minPeriods: Option<int>): (qs: Option<int>)
    requires periodMs > 0
    ensures Truthy(start) <==> qs.Some?
    ensures qs.Some? ==> qs.value % periodMs == 0
    ensures qs.Some? ==> (qs.value <= start.value - (MinPeriods(minPeriods) + 2) * periodMs
                          && start.value - (MinPeriods(minPeriods) + 3) * periodMs < qs.value)
  {
    if Truthy(start) then
      var k := start.value / periodMs - (MinPeriods(minPeriods) + 2);
      GridBucket(start.value, periodMs, MinPeriods(minPeriods) + 2, k);
      Some(k * periodMs)
    else None
  }

  /** The bucket of t moved back by n periods is a multiple of the period
      in (t - (n + 1) * d, t - n * d]. */
  lemma GridBucket(t: int, d: int, n: int, k: int)
    requires d > 0 && k == t / d - n
    ensures (k * d) % d == 0
    ensures k * d <= t - n * d && t - (n + 1) * d < k * d
  {
    var b := t / d;
    assert t == d * b + t % d && 0 <= t % d < d;
    assert k * d == b * d - n * d;
    assert (n + 1) * d == n * d + d;
    MultipleMod(k, d);
  }

  lemma MultipleMod(k: int, d: int)
    requires d > 0
    ensures (k * d) % d == 0
  {
    DivModUnique(k * d, d, k, 0);
  }

  /** Euclidean division is unique: m = d * q + r with 0 <= r < d fixes
      the remainder. */
  lemma DivModUnique(m: int, d: int, q: int, r: int)
    requires d > 0 && m == d * q + r && 0 <= r < d
    ensures m % d == r
  {
    var q0, r0 := m / d, m % d;
    assert m == d * q0 + r0 && 0 <= r0 < d;
    assert d * (q - q0) == r0 - r;
    if q - q0 >= 1 {
      PositiveMultiple(d, q - q0);
    } else if q0 - q >= 1 {
      PositiveMultiple(d, q0 - q);
    }
    assert q == q0;
  }

  /** The period grid and the two bounds pin `queryStart` down: it is the only
      multiple of the period in that interval. */
  lemma QueryStartUnique(start: int, periodMs: int, minPeriods: Option<int>, q: int)
    requires periodMs > 0 && start != 0
    requires q % periodMs == 0
    requires q <= start - (MinPeriods(minPeriods) + 2) * periodMs
    requires start - (MinPeriods(minPeriods) + 3) * periodMs < q
    ensures QueryStart(Some(start), periodMs, minPeriods) == Some(q)
  {
    var qs := QueryStart(Some(start), periodMs, minPeriods).value;
    var top := start - (MinPeriods(minPeriods) + 2) * periodMs;
    assert start - (MinPeriods(minPeriods) + 3) * periodMs == top - periodMs;
    if q < qs {
      GridPointsApart(q, qs, periodMs);
    } else if qs < q {
      GridPointsApart(qs, q, periodMs);
    }
  }

  /** Two distinct multiples of d lie at least d apart. */
  lemma GridPointsApart(a: int, b: int, d: int)
    requires d > 0 && a % d == 0 && b % d == 0 && a < b
    ensures b - a >= d
  {
    var i, j := a / d, b / d;
    assert a == d * i;
    assert b == d * j;
    assert b - a == d * (j - i);
    if j - i < 1 {
      NonPositiveMultiple(d, j - i);
    } else {
      PositiveMultiple(d, j - i);
    }
  }

  lemma NonPositiveMultiple(d: nat, k: int)
    requires k <= 0
    ensures d * k <= 0
  {
  }

  lemma PositiveMultiple(d: nat, k: int)
    requires k >= 1
    ensures d * k >= d
  {
  }

  function CountAbove(store: seq<TradeRecord>, t: int): (n: nat)
    ensures n <= |store|
  {
    if |store| == 0 then 0
    else (if store[0].time > t then 1 else 0) + CountAbove(store[1..], t)
  }

  function CountBelow(store: seq<TradeRecord>, t: int): (n: nat)
    ensures n <= |store|
  {
    if |store| == 0 then 0
    else (if store[0].time < t then 1 else 0) + CountBelow(store[1..], t)
  }

  lemma {:induction false} CountAboveShrinks(store: seq<TradeRecord>, c: int, x: TradeRecord)
    requires x in store && x.time > c
    ensures CountAbove(store, x.time) < CountAbove(store, c)
  {
    if store[0] != x {
      assert x in store[1..];
      CountAboveShrinks(store[1..], c, x);
    } else {
      CountAboveMonotone(store[1..], c, x.time);
    }
  }

  lemma {:induction false} CountAboveMonotone(store: seq<TradeRecord>, c: int, d: int)
    requires c <= d
    ensures CountAbove(store, d) <= CountAbove(store, c)
  {
    if |store| > 0 { CountAboveMonotone(store[1..], c, d); }
  }

  lemma {:induction false} CountBelowShrinks(store: seq<TradeRecord>, c: int, x: TradeRecord)
    requires x in store && x.time < c
    ensures CountBelow(store, x.time) < CountBelow(store, c)
  {
    if store[0] != x {
      assert x in store[1..];
      CountBelowShrinks(store[1..], c, x);
    } else {
      CountBelowMonotone(store[1..], x.time, c);
    }
  }

  lemma {:induction false} CountBelowMonotone(store: seq<TradeRecord>, c: int, d: int)
    requires c <= d
    ensures CountBelow(store, c) <= CountBelow(store, d)
  {
    if |store| > 0 { CountBelowMonotone(store[1..], c, d); }
  }

  /** Fetches still possible in the current direction (termination measure). */
  function Remaining(store: seq<TradeRecord>, p: Paging): nat {
    match p.cursor
    case None => |store|
    case Some(c) => if p.reversing then CountBelow(store, c) else CountAbove(store, c)
  }

  /** Forward pages stay inside the selector and the `end` bound. */
  predicate InForwardWindow(cfg: ReplayConfig, r: TradeRecord) {
    r.selector == cfg.selector && (Truthy(cfg.end) ==> r.time <= cfg.end.value)
  }

  /** Mirrored pages lie after the reverse point and remember an original time
      before it. */
  predicate InMirrorWindow(cfg: ReplayConfig, rp: int, r: TradeRecord) {
    r.selector == cfg.selector && r.time > rp && r.origTime.Some? && r.origTime.value < rp
  }

  /** What the paging state keeps true between fetches: the cursor is a store
      time (so it is truthy), only a symmetrical run reverses, and a run that
      reversed with no cursor has nothing left to fetch. */
  predicate Consistent(cfg: ReplayConfig, store: seq<TradeRecord>, p: Paging) {
    && (p.cursor.Some? ==> p.cursor.value > 0)
    && (p.reversing ==> cfg.symmetrical)
    && (!p.reversing ==> p.reversePoint.None?)
    && (p.reversing && p.reversePoint.None? ==> p.cursor.None? && Select(store, NextQuery(cfg, p)) == [])
    && (p.reversing && p.reversePoint.Some? ==> p.cursor.Some? && p.cursor.value <= p.reversePoint.value)
  }

  /** Outcome of one fetch: switch into reverse mode, stop (the engine's
      `exit`), or hand a page to the engine and move the cursor. */
  datatype Step = Flip(next: Paging) | Stop | Deliver(page: seq<TradeRecord>, next: Paging)

  lemma ReversePageBeforeCursor(cfg: ReplayConfig, store: seq<TradeRecord>, c: int, q: Query, batch: seq<TradeRecord>)
    requires c != 0 && q == BuildQuery(cfg.selector, cfg.end, Some(c), true, cfg.queryStart)
    requires batch == Select(store, q)
    ensures forall i :: 0 <= i < |batch| ==> batch[i].time < c && batch[i] in store
  {
    forall i | 0 <= i < |batch| ensures batch[i].time < c {
      ReverseQueryWindow(cfg.selector, cfg.end, c, cfg.queryStart, batch[i]);
    }
  }

  lemma MirroredPageOrder(store: seq<TradeRecord>, q: Query, rp: int, batch: seq<TradeRecord>)
    requires !q.ascending && batch == Select(store, q)
    requires forall i :: 0 <= i < |batch| ==> batch[i].time < rp
    ensures NonDecreasing(store) ==> NonDecreasing(MirrorBatch(rp, batch))
  {
    if NonDecreasing(store) {
      SelectOrder(store, q);
      MirrorReversesOrder(rp, batch);
    }
  }

  lemma ForwardPageOrder(store: seq<TradeRecord>, q: Query)
    requires q.ascending
    ensures NonDecreasing(store) ==> NonDecreasing(Select(store, q))
  {
    if NonDecreasing(store) { SelectOrder(store, q); }
  }

  lemma ForwardStepShrinks(cfg: ReplayConfig, store: seq<TradeRecord>, p: Paging, x: TradeRecord)
    requires Consistent(cfg, store, p) && !p.reversing
    requires x in store && Admits(NextQuery(cfg, p), x)
    ensures Remaining(store, Paging(Some(x.time), false, None)) < Remaining(store, p)
  {
    match p.cursor {
      case Some(c) =>
        ForwardQueryWindow(cfg.selector, cfg.end, c, cfg.queryStart, x);
        CountAboveShrinks(store, c, x);
      case None =>
        CountAboveShrinks(store, x.time - 1, x);
    }
  }

  /** One round of `getNext`. */
  function SimStep(cfg: ReplayConfig, store: seq<TradeRecord>, p: Paging): (s: Step)
    requires forall i :: 0 <= i < |store| ==> store[i].time > 0
    requires Consistent(cfg, store, p)
    ensures s.Flip? <==> Select(store, NextQuery(cfg, p)) == [] && cfg.symmetrical && !p.reversing
    ensures s.Flip? ==> s.next == Paging(p.cursor, true, p.cursor) && Consistent(cfg, store, s.next)
    ensures s.Stop? ==> Select(store, NextQuery(cfg, p)) == [] && (p.reversing <==> cfg.symmetrical)
    ensures s.Deliver? ==> && 0 < |s.page| <= PageSize
                           && Consistent(cfg, store, s.next)
                           && s.next.reversing == p.reversing
                           && s.next.reversePoint == p.reversePoint
                           && Remaining(store, s.next) < Remaining(store, p)
    ensures s.Deliver? && !p.reversing ==>
              forall i :: 0 <= i < |s.page| ==> s.page[i] in store && InForwardWindow(cfg, s.page[i])
    ensures s.Deliver? && p.reversing ==>
              forall i :: 0 <= i < |s.page| ==> InMirrorWindow(cfg, p.reversePoint.value, s.page[i])
    ensures s.Deliver? && NonDecreasing(store) ==> NonDecreasing(s.page)
    ensures s.Deliver? ==> var b := Select(store, NextQuery(cfg, p));
              && |b| > 0 && (p.reversing ==> p.reversePoint.Some?)
              && s.page == (if p.reversing then MirrorBatch(p.reversePoint.value, b) else b)
              && s.next.cursor == (if p.reversing then s.page[|s.page| - 1].origTime else Some(s.page[|s.page| - 1].time))
              && s.next.cursor == Some(b[|b| - 1].time)
  {
    var batch := Select(store, NextQuery(cfg, p));
    if |batch| == 0 then
      if cfg.symmetrical && !p.reversing then Flip(Paging(p.cursor, true, p.cursor)) else Stop
    else if p.reversing then ReverseDeliver(cfg, store, p)
    else ForwardDeliver(cfg, store, p)
  }

  /** A non-empty forward fetch: the batch as it came, the cursor at its last
      trade's time. */
  function ForwardDeliver(cfg: ReplayConfig, store: seq<TradeRecord>, p: Paging): (s: Step)
    requires forall i :: 0 <= i < |store| ==> store[i].time > 0
    requires Consistent(cfg, store, p) && !p.reversing
    requires Select(store, NextQuery(cfg, p)) != []
    ensures var b := Select(store, NextQuery(cfg, p));
      && s.Deliver? && s.page == b && s.next == Paging(Some(b[|b| - 1].time), false, None)
      && Consistent(cfg, store, s.next)
      && Remaining(store, s.next) < Remaining(store, p)
      && (forall i :: 0 <= i < |s.page| ==> s.page[i] in store && InForwardWindow(cfg, s.page[i]))
      && (NonDecreasing(store) ==> NonDecreasing(s.page))
  {
    var q := NextQuery(cfg, p);
    var batch := Select(store, q);
    var x := batch[|batch| - 1];
    ForwardPageOrder(store, q);
    ForwardStepShrinks(cfg, store, p, x);
    Deliver(batch, Paging(SimCursorAfter(false, batch), false, None))
  }

  /** A non-empty reversing fetch: the batch mirrored around the reverse
      point, the cursor at the last trade's original time. */
  function ReverseDeliver(cfg: ReplayConfig, store: seq<TradeRecord>, p: Paging): (s: Step)
    requires forall i :: 0 <= i < |store| ==> store[i].time > 0
    requires Consistent(cfg, store, p) && p.reversing
    requires Select(store, NextQuery(cfg, p)) != []
    ensures p.reversePoint.Some?
    ensures var b := Select(store, NextQuery(cfg, p));
      && s.Deliver? && s.page == MirrorBatch(p.reversePoint.value, b)
      && s.next == Paging(Some(b[|b| - 1].time), true, p.reversePoint)
      && s.next.cursor == s.page[|s.page| - 1].origTime
      && Consistent(cfg, store, s.next)
      && Remaining(store, s.next) < Remaining(store, p)
      && (forall i :: 0 <= i < |s.page| ==> InMirrorWindow(cfg, p.reversePoint.value, s.page[i]))
      && (NonDecreasing(store) ==> NonDecreasing(s.page))
  {
    var batch := Select(store, NextQuery(cfg, p));
    ReverseBatchFacts(cfg, store, p);
    var mirrored := MirrorBatch(p.reversePoint.value, batch);
    Deliver(mirrored, Paging(SimCursorAfter(true, mirrored), true, p.reversePoint))
  }

  lemma ReverseBatchFacts(cfg: ReplayConfig, store: seq<TradeRecord>, p: Paging)
    requires forall i :: 0 <= i < |store| ==> store[i].time > 0
    requires Consistent(cfg, store, p) && p.reversing
    requires Select(store, NextQuery(cfg, p)) != []
    ensures p.reversePoint.Some?
    ensures var b := Select(store, NextQuery(cfg, p));
      var m := MirrorBatch(p.reversePoint.value, b);
      var next := Paging(Some(b[|b| - 1].time), true, p.reversePoint);
      && m[|m| - 1].origTime == Some(b[|b| - 1].time)
      && Consistent(cfg, store, next)
      && Remaining(store, next) < Remaining(store, p)
      && (forall i :: 0 <= i < |m| ==> InMirrorWindow(cfg, p.reversePoint.value, m[i]))
      && (NonDecreasing(store) ==> NonDecreasing(m))
  {
    var q := NextQuery(cfg, p);
    var batch := Select(store, q);
    var x := batch[|batch| - 1];
    var rp := p.reversePoint.value;
    var c := p.cursor.value;
    ReversePageBeforeCursor(cfg, store, c, q, batch);
    MirroredPageOrder(store, q, rp, batch);
    CountBelowShrinks(store, c, x);
  }

  /** The pages handed over so far: those before `split` are forward pages
      from the store, the rest are mirrored around the reverse point. */
  predicate PagesFit(cfg: ReplayConfig, store: seq<TradeRecord>, pages: seq<seq<TradeRecord>>, split: nat, p: Paging) {
    && split <= |pages|
    && (!p.reversing ==> split == |pages|)
    && (p.reversePoint.None? ==> split == |pages|)
    && (forall k :: 0 <= k < |pages| ==> 0 < |pages[k]| <= PageSize)
    && (forall k, i :: 0 <= k < split && 0 <= i < |pages[k]| ==> pages[k][i] in store && InForwardWindow(cfg, pages[k][i]))
    && (forall k, i :: split <= k < |pages| && 0 <= i < |pages[k]| ==> InMirrorWindow(cfg, p.reversePoint.value, pages[k][i]))
    && (NonDecreasing(store) ==> forall k :: 0 <= k < |pages| ==> NonDecreasing(pages[k]))
  }

  lemma DeliverKeepsPages(cfg: ReplayConfig, store: seq<TradeRecord>, pages: seq<seq<TradeRecord>>, split: nat,
                          p: Paging, page: seq<TradeRecord>, next: Paging)
    requires PagesFit(cfg, store, pages, split, p)
    requires 0 < |page| <= PageSize
    requires next.reversing == p.reversing && next.reversePoint == p.reversePoint
    requires !p.reversing ==> forall i :: 0 <= i < |page| ==> page[i] in store && InForwardWindow(cfg, page[i])
    requires p.reversing ==> p.reversePoint.Some? && forall i :: 0 <= i < |page| ==> InMirrorWindow(cfg, p.reversePoint.value, page[i])
    requires NonDecreasing(store) ==> NonDecreasing(page)
    ensures PagesFit(cfg, store, pages + [page], if p.reversing then split else |pages| + 1, next)
  {
    var pages' := pages + [page];
    var split' := if p.reversing then split else |pages| + 1;
    assert forall k :: 0 <= k < |pages| ==> pages'[k] == pages[k];
    assert pages'[|pages|] == page;
    forall k, i | 0 <= k < split' && 0 <= i < |pages'[k]|
      ensures pages'[k][i] in store && InForwardWindow(cfg, pages'[k][i])
    {
      if k < |pages| { assert pages'[k] == pages[k]; }
    }
    forall k, i | split' <= k < |pages'| && 0 <= i < |pages'[k]|
      ensures InMirrorWindow(cfg, next.reversePoint.value, pages'[k][i])
    {
      if k < |pages| { assert pages'[k] == pages[k]; }
    }
  }

  lemma FlipKeepsPages(cfg: ReplayConfig, store: seq<TradeRecord>, pages: seq<seq<TradeRecord>>, split: nat,
                       p: Paging, next: Paging)
    requires forall i :: 0 <= i < |store| ==> store[i].time > 0
    requires Consistent(cfg, store, p) && PagesFit(cfg, store, pages, split, p)
    requires SimStep(cfg, store, p) == Flip(next)
    ensures PagesFit(cfg, store, pages, split, next)
  {
  }

  /** The pages among the steps, in order. */
  function Delivered(steps: seq<Step>): (pages: seq<seq<TradeRecord>>)
    ensures |pages| <= |steps|
  {
    if |steps| == 0 then []
    else Delivered(steps[..|steps| - 1]) + (if steps[|steps| - 1].Deliver? then [steps[|steps| - 1].page] else [])
  }

  /** `states` is a run of `getNext` rounds: it starts with no cursor, going
      forward, and each state is the one the previous round's step moves to. */
  predicate IsRun(cfg: ReplayConfig, store: seq<TradeRecord>, states: seq<Paging>, steps: seq<Step>)
    requires forall i :: 0 <= i < |store| ==> store[i].time > 0
  {
    && |states| == |steps| + 1
    && states[0] == Paging(None, false, None)
    && forall k :: 0 <= k < |steps| ==> Round(cfg, store, states[k], steps[k], states[k + 1])
  }

  /** One round that does not stop: `step` is what `getNext` does from `p`,
      and `q` is the state it moves to. */
  predicate Round(cfg: ReplayConfig, store: seq<TradeRecord>, p: Paging, step: Step, q: Paging)
    requires forall i :: 0 <= i < |store| ==> store[i].time > 0
  {
    Consistent(cfg, store, p) && step == SimStep(cfg, store, p) && !step.Stop? && step.next == q
  }

  lemma RunExtends(cfg: ReplayConfig, store: seq<TradeRecord>, states: seq<Paging>, steps: seq<Step>, step: Step)
    requires forall i :: 0 <= i < |store| ==> store[i].time > 0
    requires IsRun(cfg, store, states, steps) && Consistent(cfg, store, states[|steps|])
    requires step == SimStep(cfg, store, states[|steps|]) && !step.Stop?
    ensures IsRun(cfg, store, states + [step.next], steps + [step])
  {
    var states', steps' := states + [step.next], steps + [step];
    forall k | 0 <= k < |steps'|
      ensures Round(cfg, store, states'[k], steps'[k], states'[k + 1])
    {
      assert states'[k] == states[k];
      if k < |steps| {
        assert steps'[k] == steps[k] && states'[k + 1] == states[k + 1];
      }
    }
  }

  /** What the replay loop keeps true: the paging invariant, the shape of
      the pages so far, and the run of rounds that produced them. */
  predicate Progress(cfg: ReplayConfig, store: seq<TradeRecord>, pages: seq<seq<TradeRecord>>, split: nat,
                     p: Paging, states: seq<Paging>, steps: seq<Step>)
    requires forall i :: 0 <= i < |store| ==> store[i].time > 0
  {
    && Consistent(cfg, store, p)
    && PagesFit(cfg, store, pages, split, p)
    && IsRun(cfg, store, states, steps) && states[|steps|] == p
    && pages == Delivered(steps)
  }

  lemma FlipProgress(cfg: ReplayConfig, store: seq<TradeRecord>, pages: seq<seq<TradeRecord>>, split: nat,
                     p: Paging, states: seq<Paging>, steps: seq<Step>)
    requires forall i :: 0 <= i < |store| ==> store[i].time > 0
    requires Progress(cfg, store, pages, split, p, states, steps)
    requires SimStep(cfg, store, p).Flip?
    ensures var step := SimStep(cfg, store, p);
      Progress(cfg, store, pages, split, step.next, states + [step.next], steps + [step])
  {
    var step := SimStep(cfg, store, p);
    FlipKeepsPages(cfg, store, pages, split, p, step.next);
    RunExtends(cfg, store, states, steps, step);
    assert Delivered(steps + [step]) == Delivered(steps);
  }

  lemma DeliverProgress(cfg: ReplayConfig, store: seq<TradeRecord>, pages: seq<seq<TradeRecord>>, split: nat,
                        p: Paging, states: seq<Paging>, steps: seq<Step>)
    requires forall i :: 0 <= i < |store| ==> store[i].time > 0
    requires Progress(cfg, store, pages, split, p, states, steps)
    requires SimStep(cfg, store, p).Deliver?
    ensures var step := SimStep(cfg, store, p);
      Progress(cfg, store, pages + [step.page], if p.reversing then split else |pages| + 1, step.next,
               states + [step.next], steps + [step])
  {
    var step := SimStep(cfg, store, p);
    assert p.reversing ==> p.reversePoint.Some?;
    DeliverKeepsPages(cfg, store, pages, split, p, step.page, step.next);
    RunExtends(cfg, store, states, steps, step);
    assert Delivered(steps + [step]) == Delivered(steps) + [step.page];
  }

  /** The back-test replay loop over the store: fetch a page; on an empty page
      either switch once into reverse mode (when `symmetrical` is set and not
      yet reversing) or stop; otherwise hand the page, mirrored when reversing,
      to the candle engine and advance the cursor. Returns the pages handed
      over, of which those from `split` on are mirrored, and the final paging
      state, whose next fetch is empty. `states` and `steps` record the
      rounds: the pages are exactly those the rounds delivered, and the
      round after the last state stops. */
  method Replay(cfg: ReplayConfig, store: seq<TradeRecord>)
    returns (pages: seq<seq<TradeRecord>>, split: nat, last: Paging, states: seq<Paging>, steps: seq<Step>)
    requires forall i :: 0 <= i < |store| ==> store[i].time > 0
    ensures IsRun(cfg, store, states, steps) && states[|steps|] == last
    ensures pages == Delivered(steps)
    ensures Consistent(cfg, store, last) && SimStep(cfg, store, last).Stop?
    ensures split <= |pages|
    ensures last.reversing <==> cfg.symmetrical
    ensures last.reversing && last.reversePoint.None? ==> split == |pages|
    ensures !last.reversing ==> split == |pages|
    ensures forall k :: 0 <= k < |pages| ==> 0 < |pages[k]| <= PageSize
    ensures forall k, i :: 0 <= k < split && 0 <= i < |pages[k]| ==> pages[k][i] in store && InForwardWindow(cfg, pages[k][i])
    ensures forall k, i :: split <= k < |pages| && 0 <= i < |pages[k]| ==> InMirrorWindow(cfg, last.reversePoint.value, pages[k][i])
    ensures NonDecreasing(store) ==> forall k :: 0 <= k < |pages| ==> NonDecreasing(pages[k])
    ensures Select(store, NextQuery(cfg, last)) == []
  {
    var p := Paging(None, false, None);
    pages := [];
    split := 0;
    states := [p];
    steps := [];
    var done := false;
    while !done
      invariant Progress(cfg, store, pages, split, p, states, steps)
      invariant done ==> SimStep(cfg, store, p).Stop?
      decreases if done then 0 else 1, if p.reversing then 0 else 1, Remaining(store, p)
    {
      var step := SimStep(cfg, store, p);
      match step {
        case Stop =>
          done := true;
        case Flip(next) =>
          FlipProgress(cfg, store, pages, split, p, states, steps);
          states, steps := states + [next], steps + [step];
          p := next;
        case Deliver(page, next) =>
          DeliverProgress(cfg, store, pages, split, p, states, steps);
          states, steps := states + [next], steps + [step];
          pages := pages + [page];
          if !p.reversing {
            split := |pages|;
          }
          p := next;
      }
    }
    last := p;
  }
}
