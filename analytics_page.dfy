/** AnalyticsPage.tsx: the overview of every URL's clicks. The per-URL
    chart tallies clicks by calendar date into a dictionary, lists its
    entries, sorts them by date and keeps the last seven. `new Date(date)
    .getTime()` on a date text is the parameter `dayValue`. */
module AnalyticsPages {
  import opened Common
  import opened Web
  import Sorting
  import ApiClient
  import Session

  /** types/index.ts: ClickDetail */
  datatype ClickView = ClickView(timestamp: string, ipAddress: string, userAgent: string, referer: string)

  /** types/index.ts: AnalyticsData */
  datatype AnalyticsData = AnalyticsData(
    shortCode: string,
    originalUrl: string,
    totalClicks: nat,
    createdAt: string,
    expiresAt: Option<string>,
    recentClicks: seq<ClickView>)

  /** One bar of the chart. */
  datatype ChartPoint = ChartPoint(date: string, clicks: nat)

  /** The chart shows at most this many dates. */
  const ChartDays: nat := 7

  // ---------------------------------------------------------------- the chart

  /** `timestamp.split('T')[0]`: the text before the first `T`, or all of
      it (a JavaScript split always has a first piece). */
  function DateKey(timestamp: string): (d: string)
    ensures 'T' !in d
    ensures |d| <= |timestamp| && d == timestamp[..|d|]
    ensures |d| < |timestamp| ==> timestamp[|d|] == 'T'
  {
    if timestamp == [] || timestamp[0] == 'T' then [] else [timestamp[0]] + DateKey(timestamp[1..])
  }

  function DateKeys(clicks: seq<ClickView>): (keys: seq<string>)
    ensures |keys| == |clicks|
    ensures forall i :: 0 <= i < |clicks| ==> keys[i] == DateKey(clicks[i].timestamp)
  {
    seq(|clicks|, i requires 0 <= i < |clicks| => DateKey(clicks[i].timestamp))
  }

  /** How many of `keys` are `d`. */
  function Count(keys: seq<string>, d: string): (n: nat)
    ensures n <= |keys|
    ensures n > 0 <==> d in keys
  {
    if keys == [] then 0
    else
      assert keys == keys[..|keys| - 1] + [keys[|keys| - 1]];
      Count(keys[..|keys| - 1], d) + (if keys[|keys| - 1] == d then 1 else 0)
  }

  /** Each date once, in the order of its first click: the order in which
      the tally's keys were created. */
  function FirstOccurrences(keys: seq<string>): (ds: seq<string>)
    ensures forall d :: d in ds <==> d in keys
    ensures |ds| <= |keys|
  {
    if keys == [] then []
    else
      assert keys == keys[..|keys| - 1] + [keys[|keys| - 1]];
      var prev := FirstOccurrences(keys[..|keys| - 1]);
      if keys[|keys| - 1] in prev then prev else prev + [keys[|keys| - 1]]
  }

  /** No date is listed twice. */
  lemma {:induction false} FirstOccurrencesDistinct(keys: seq<string>)
    ensures forall a, b :: 0 <= a < b < |FirstOccurrences(keys)| ==> FirstOccurrences(keys)[a] != FirstOccurrences(keys)[b]
    decreases |keys|
  {
    if keys != [] {
      var p, x := keys[..|keys| - 1], keys[|keys| - 1];
      FirstOccurrencesDistinct(p);
      FirstOccurrencesSnoc(p, x);
      assert keys == p + [x];
    }
  }

  /** The finished `reduce` accumulator: every date with its count. */
  function Tally(keys: seq<string>): (t: map<string, nat>)
    ensures forall d :: d in t <==> d in keys
    ensures forall d :: d in t ==> t[d] == Count(keys, d) && t[d] >= 1
  {
    map d | d in keys :: Count(keys, d)
  }

  /** `Object.entries(...).map(...)`: one point per date, in key order. */
  function Entries(order: seq<string>, counts: map<string, nat>): (es: seq<ChartPoint>)
    requires forall d :: d in order ==> d in counts
    ensures |es| == |order|
    ensures forall k :: 0 <= k < |order| ==> es[k] == ChartPoint(order[k], counts[order[k]])
  {
    seq(|order|, k requires 0 <= k < |order| => ChartPoint(order[k], counts[order[k]]))
  }

  /** The comparator's key: a point's date as an instant. */
  function ByDay(dayValue: string -> int): ChartPoint -> int {
    (p: ChartPoint) => dayValue(p.date)
  }

  /** The chart data of one URL. */
  function ChartOf(clicks: seq<ClickView>, dayValue: string -> int): seq<ChartPoint> {
    var keys := DateKeys(clicks);
    LastN(SortedEntries(keys, dayValue), ChartDays)
  }

  /** The sum of the bars. */
  function Total(points: seq<ChartPoint>): nat {
    if points == [] then 0 else Total(points[..|points| - 1]) + points[|points| - 1].clicks
  }

  lemma {:induction false} TotalAppend(a: seq<ChartPoint>, b: seq<ChartPoint>)
    ensures Total(a + b) == Total(a) + Total(b)
    decreases |b|
  {
    if b == [] {
      assert a + b == a;
    } else {
      var c := b[..|b| - 1];
      TotalAppend(a, c);
      assert (a + b)[..|a + b| - 1] == a + c;
      assert (a + b)[|a + b| - 1] == b[|b| - 1];
    }
  }

  /** Two lists of bars that differ by one click in one place. */
  lemma {:induction false} TotalBumpAt(a: seq<ChartPoint>, b: seq<ChartPoint>, k: nat)
    requires |a| == |b| && k < |a|
    requires a[k].clicks == b[k].clicks + 1
    requires forall j :: 0 <= j < |a| && j != k ==> a[j].clicks == b[j].clicks
    ensures Total(a) == Total(b) + 1
    decreases |a|
  {
    var n := |a| - 1;
    if n == k {
      TotalSame(a[..n], b[..n]);
    } else {
      TotalBumpAt(a[..n], b[..n], k);
    }
  }

  lemma {:induction false} TotalSame(a: seq<ChartPoint>, b: seq<ChartPoint>)
    requires |a| == |b|
    requires forall j :: 0 <= j < |a| ==> a[j].clicks == b[j].clicks
    ensures Total(a) == Total(b)
    decreases |a|
  {
    if a != [] {
      TotalSame(a[..|a| - 1], b[..|b| - 1]);
    }
  }

  /** Reordering the bars keeps their sum. */
  lemma {:induction false} TotalPermutation(a: seq<ChartPoint>, b: seq<ChartPoint>)
    requires multiset(a) == multiset(b)
    ensures Total(a) == Total(b)
    decreases |a|
  {
    if a == [] {
      assert |b| == |multiset(b)| == 0;
    } else {
      var x := a[|a| - 1];
      var rest := a[..|a| - 1];
      assert a == rest + [x];
      assert x in multiset(b);
      var j :| 0 <= j < |b| && b[j] == x;
      TotalRemoveAt(b, j);
      MultisetRemoveAt(b, j);
      TotalPermutation(rest, b[..j] + b[j + 1..]);
    }
  }

  /** Taking one bar out of a list takes its clicks out of the sum. */
  lemma TotalRemoveAt(b: seq<ChartPoint>, j: nat)
    requires j < |b|
    ensures Total(b) == Total(b[..j] + b[j + 1..]) + b[j].clicks
  {
    var x, left, right := b[j], b[..j], b[j + 1..];
    var withX := left + [x];
    assert withX[..|withX| - 1] == left;
    SplitAround(b, j);
    TotalAppend(withX, right);
    TotalAppend(left, right);
  }

  /** A list is the part before position `j`, the element there, and the
      part after it. */
  lemma SplitAround(b: seq<ChartPoint>, j: nat)
    requires j < |b|
    ensures b == b[..j] + [b[j]] + b[j + 1..]
  {
  }

  /** Taking one element out of a list takes it out of the multiset. */
  lemma MultisetRemoveAt(b: seq<ChartPoint>, j: nat)
    requires j < |b|
    ensures multiset(b[..j] + b[j + 1..]) == multiset(b) - multiset{b[j]}
  {
    SplitAround(b, j);
  }

  /** Counting one more click. */
  lemma CountSnoc(keys: seq<string>, x: string, d: string)
    ensures Count(keys + [x], d) == Count(keys, d) + (if x == d then 1 else 0)
  {
    assert (keys + [x])[..|keys|] == keys;
  }

  lemma FirstOccurrencesSnoc(keys: seq<string>, x: string)
    ensures FirstOccurrences(keys + [x]) ==
      if x in keys then FirstOccurrences(keys) else FirstOccurrences(keys) + [x]
  {
    assert (keys + [x])[..|keys|] == keys;
  }

  lemma TallySnoc(keys: seq<string>, x: string)
    ensures Tally(keys + [x]) ==
      if x in keys then Tally(keys)[x := Tally(keys)[x] + 1] else Tally(keys)[x := 1]
  {
    forall d ensures Count(keys + [x], d) == Count(keys, d) + (if x == d then 1 else 0) {
      CountSnoc(keys, x, d);
    }
  }

  /** A click on a date already tallied adds one to that date's bar. */
  lemma TallyTotalRepeat(p: seq<string>, x: string)
    requires x in p
    ensures Total(Entries(FirstOccurrences(p + [x]), Tally(p + [x])))
            == Total(Entries(FirstOccurrences(p), Tally(p))) + 1
  {
    FirstOccurrencesSnoc(p, x);
    TallySnoc(p, x);
    FirstOccurrencesDistinct(p);
    EntriesBump(FirstOccurrences(p), Tally(p), x);
  }

  /** One more click on a listed date adds one to the bars' sum. */
  lemma EntriesBump(order: seq<string>, counts: map<string, nat>, x: string)
    requires forall d :: d in order ==> d in counts
    requires forall a, b :: 0 <= a < b < |order| ==> order[a] != order[b]
    requires x in order
    ensures Total(Entries(order, counts[x := counts[x] + 1])) == Total(Entries(order, counts)) + 1
  {
    var k :| 0 <= k < |order| && order[k] == x;
    var before := Entries(order, counts);
    var after := Entries(order, counts[x := counts[x] + 1]);
    TotalBumpAt(after, before, k);
  }

  /** A click on a new date adds a bar of one. */
  lemma TallyTotalNew(p: seq<string>, x: string)
    requires x !in p
    ensures Total(Entries(FirstOccurrences(p + [x]), Tally(p + [x])))
            == Total(Entries(FirstOccurrences(p), Tally(p))) + 1
  {
    FirstOccurrencesSnoc(p, x);
    TallySnoc(p, x);
    var order, counts := FirstOccurrences(p), Tally(p);
    assert FirstOccurrences(p + [x]) == order + [x];
    assert Tally(p + [x]) == counts[x := 1];
    EntriesNew(order, counts, x);
  }

  /** A bar of one for a date not yet listed adds one to the bars' sum. */
  lemma EntriesNew(order: seq<string>, counts: map<string, nat>, x: string)
    requires forall d :: d in order ==> d in counts
    requires x !in order
    ensures Total(Entries(order + [x], counts[x := 1])) == Total(Entries(order, counts)) + 1
  {
    var before := Entries(order, counts);
    var after := Entries(order + [x], counts[x := 1]);
    assert after[..|after| - 1] == before;
  }

  /** The bars of the whole tally add up to the number of clicks. */
  lemma {:induction false} TallyTotal(keys: seq<string>)
    ensures Total(Entries(FirstOccurrences(keys), Tally(keys))) == |keys|
    decreases |keys|
  {
    if keys != [] {
      var p := keys[..|keys| - 1];
      var x := keys[|keys| - 1];
      assert keys == p + [x];
      TallyTotal(p);
      if x in p {
        TallyTotalRepeat(p, x);
      } else {
        TallyTotalNew(p, x);
      }
    }
  }

  /** Entries whose dates are distinct and whose counts follow their dates
      stay distinct under any reordering. */
  lemma DistinctAfterReorder(es: seq<ChartPoint>, s: seq<ChartPoint>, counts: map<string, nat>)
    requires multiset(es) == multiset(s)
    requires forall a, b :: 0 <= a < b < |es| ==> es[a].date != es[b].date
    requires forall k :: 0 <= k < |es| ==> es[k].date in counts && es[k].clicks == counts[es[k].date]
    ensures forall a, b :: 0 <= a < b < |s| ==> s[a].date != s[b].date
  {
    forall a, b | 0 <= a < b < |s| ensures s[a].date != s[b].date {
      if s[a].date == s[b].date {
        assert s[a] in multiset(es) && s[b] in multiset(es);
        var p :| 0 <= p < |es| && es[p] == s[a];
        var q :| 0 <= q < |es| && es[q] == s[b];
        assert p == q;
        assert s[a] == s[b];
        TwiceCounted(s, a, b);
        AtMostOnce(es, s[a]);
        assert false;
      }
    }
  }

  lemma TwiceCounted(s: seq<ChartPoint>, a: nat, b: nat)
    requires a < b < |s| && s[a] == s[b]
    ensures multiset(s)[s[a]] >= 2
  {
    assert s == s[..b] + [s[b]] + s[b + 1..];
    assert s[a] in multiset(s[..b]) by {
      assert s[..b][a] == s[a];
    }
  }

  lemma {:induction false} AtMostOnce(es: seq<ChartPoint>, x: ChartPoint)
    requires forall a, b :: 0 <= a < b < |es| ==> es[a].date != es[b].date
    ensures multiset(es)[x] <= 1
    decreases |es|
  {
    if es != [] {
      var rest := es[..|es| - 1];
      assert es == rest + [es[|es| - 1]];
      AtMostOnce(rest, x);
    }
  }

  /** Entries over distinct dates are on distinct dates, each with its
      count. */
  lemma EntriesDistinct(order: seq<string>, counts: map<string, nat>, es: seq<ChartPoint>)
    requires forall d :: d in order ==> d in counts
    requires forall a, b :: 0 <= a < b < |order| ==> order[a] != order[b]
    requires es == Entries(order, counts)
    ensures forall a, b :: 0 <= a < b < |es| ==> es[a].date != es[b].date
    ensures forall k :: 0 <= k < |es| ==> es[k].date in counts && es[k].clicks == counts[es[k].date]
  {
  }

  /** Every date's bar, sorted by date. */
  function SortedEntries(keys: seq<string>, dayValue: string -> int): seq<ChartPoint> {
    Sorting.SortBy(Entries(FirstOccurrences(keys), Tally(keys)), ByDay(dayValue))
  }

  /** The sorted bars are the tally's: each on a date among the clicks, with
      that date's count. */
  lemma SortedEntriesCounts(keys: seq<string>, dayValue: string -> int)
    ensures var sorted := SortedEntries(keys, dayValue);
      && |sorted| == |FirstOccurrences(keys)|
      && forall k :: 0 <= k < |sorted| ==>
           sorted[k].date in keys && sorted[k].clicks == Count(keys, sorted[k].date)
  {
    var es := Entries(FirstOccurrences(keys), Tally(keys));
    var sorted := SortedEntries(keys, dayValue);
    forall k | 0 <= k < |sorted|
      ensures sorted[k].date in keys && sorted[k].clicks == Count(keys, sorted[k].date)
    {
      assert sorted[k] in multiset(es);
      var j :| 0 <= j < |es| && es[j] == sorted[k];
    }
  }

  /** Every date has a bar. */
  lemma SortedEntriesCover(keys: seq<string>, dayValue: string -> int, d: string)
    requires d in keys
    ensures exists m :: 0 <= m < |SortedEntries(keys, dayValue)| && SortedEntries(keys, dayValue)[m].date == d
  {
    var order := FirstOccurrences(keys);
    var es := Entries(order, Tally(keys));
    var sorted := SortedEntries(keys, dayValue);
    var j :| 0 <= j < |order| && order[j] == d;
    assert es[j] in multiset(sorted);
    var m :| 0 <= m < |sorted| && sorted[m] == es[j];
  }

  /** The sorted bars have distinct dates, ascending. */
  lemma SortedEntriesOrder(keys: seq<string>, dayValue: string -> int)
    ensures var sorted := SortedEntries(keys, dayValue);
      && (forall a, b :: 0 <= a < b < |sorted| ==> sorted[a].date != sorted[b].date)
      && (forall a, b :: 0 <= a < b < |sorted| ==> dayValue(sorted[a].date) <= dayValue(sorted[b].date))
  {
    var tally := Tally(keys);
    var es := Entries(FirstOccurrences(keys), tally);
    var sorted := SortedEntries(keys, dayValue);
    FirstOccurrencesDistinct(keys);
    EntriesDistinct(FirstOccurrences(keys), tally, es);
    DistinctAfterReorder(es, sorted, tally);
    assert Sorting.SortedBy(sorted, ByDay(dayValue));
    forall a, b | 0 <= a < b < |sorted| ensures dayValue(sorted[a].date) <= dayValue(sorted[b].date) {
      assert ByDay(dayValue)(sorted[a]) <= ByDay(dayValue)(sorted[b]);
    }
  }

  /** The sorted bars add up to the number of clicks. */
  lemma SortedEntriesTotal(keys: seq<string>, dayValue: string -> int)
    ensures Total(SortedEntries(keys, dayValue)) == |keys|
  {
    TallyTotal(keys);
    TotalPermutation(Entries(FirstOccurrences(keys), Tally(keys)), SortedEntries(keys, dayValue));
  }

  /** The chart: at most seven bars, in ascending date order, on distinct
      dates that all occur among the clicks, each with its date's exact
      count (so never zero). */
  lemma ChartBars(clicks: seq<ClickView>, dayValue: string -> int)
    ensures var keys := DateKeys(clicks);
      var chart := ChartOf(clicks, dayValue);
      && |chart| == (if |FirstOccurrences(keys)| <= ChartDays then |FirstOccurrences(keys)| else ChartDays)
      && (forall k :: 0 <= k < |chart| ==>
            chart[k].date in keys && chart[k].clicks == Count(keys, chart[k].date) && chart[k].clicks >= 1)
      && (forall a, b :: 0 <= a < b < |chart| ==> dayValue(chart[a].date) <= dayValue(chart[b].date))
      && (forall a, b :: 0 <= a < b < |chart| ==> chart[a].date != chart[b].date)
  {
    var keys := DateKeys(clicks);
    var sorted := SortedEntries(keys, dayValue);
    var chart := LastN(sorted, ChartDays);
    var cut := |sorted| - |chart|;
    assert forall k :: 0 <= k < |chart| ==> chart[k] == sorted[cut + k];
    SortedEntriesCounts(keys, dayValue);
    SortedEntriesOrder(keys, dayValue);
  }

  /** Cutting an ascending list to its last `n` keeps its latest bars. */
  lemma LastNKeepsLatest(sorted: seq<ChartPoint>, dayValue: string -> int, n: nat, m: nat)
    requires forall a, b :: 0 <= a < b < |sorted| ==> dayValue(sorted[a].date) <= dayValue(sorted[b].date)
    requires m < |sorted|
    requires forall k :: 0 <= k < |LastN(sorted, n)| ==> LastN(sorted, n)[k].date != sorted[m].date
    ensures forall k :: 0 <= k < |LastN(sorted, n)| ==> dayValue(sorted[m].date) <= dayValue(LastN(sorted, n)[k].date)
  {
    var chart := LastN(sorted, n);
    var cut := |sorted| - |chart|;
    assert m < cut;
    forall k | 0 <= k < |chart| ensures dayValue(sorted[m].date) <= dayValue(chart[k].date) {
      assert chart[k] == sorted[cut + k];
    }
  }

  /** The dates left out of the chart are never later than the ones
      shown. */
  lemma ChartKeepsLatest(clicks: seq<ClickView>, dayValue: string -> int, d: string)
    requires d in DateKeys(clicks)
    requires forall m :: 0 <= m < |ChartOf(clicks, dayValue)| ==> ChartOf(clicks, dayValue)[m].date != d
    ensures forall k :: 0 <= k < |ChartOf(clicks, dayValue)| ==> dayValue(d) <= dayValue(ChartOf(clicks, dayValue)[k].date)
  {
    var keys := DateKeys(clicks);
    var sorted := SortedEntries(keys, dayValue);
    assert ChartOf(clicks, dayValue) == LastN(sorted, ChartDays);
    SortedEntriesOrder(keys, dayValue);
    SortedEntriesCover(keys, dayValue, d);
    var m :| 0 <= m < |sorted| && sorted[m].date == d;
    LastNKeepsLatest(sorted, dayValue, ChartDays, m);
  }

  /** With seven dates or fewer every date is shown and the bars add up to
      the number of clicks. */
  lemma ChartComplete(clicks: seq<ClickView>, dayValue: string -> int)
    requires |FirstOccurrences(DateKeys(clicks))| <= ChartDays
    ensures forall d :: d in DateKeys(clicks) ==>
      exists m :: 0 <= m < |ChartOf(clicks, dayValue)| && ChartOf(clicks, dayValue)[m].date == d
    ensures Total(ChartOf(clicks, dayValue)) == |clicks|
  {
    var keys := DateKeys(clicks);
    SortedEntriesCounts(keys, dayValue);
    assert ChartOf(clicks, dayValue) == SortedEntries(keys, dayValue);
    forall d | d in keys
      ensures exists m :: 0 <= m < |SortedEntries(keys, dayValue)| && SortedEntries(keys, dayValue)[m].date == d
    {
      SortedEntriesCover(keys, dayValue, d);
    }
    SortedEntriesTotal(keys, dayValue);
  }

  /** One step of the tally: a date seen before counts up ... */
  lemma TallyStepRepeat(p: seq<string>, x: string, acc: map<string, nat>, order: seq<string>)
    requires x in acc && acc == Tally(p) && order == FirstOccurrences(p)
    ensures acc[x := acc[x] + 1] == Tally(p + [x])
    ensures order == FirstOccurrences(p + [x])
  {
    assert x in p;
    FirstOccurrencesSnoc(p, x);
    TallySnoc(p, x);
  }

  /** ... and a new date gets a key of its own. */
  lemma TallyStepNew(p: seq<string>, x: string, acc: map<string, nat>, order: seq<string>)
    requires x !in acc && acc == Tally(p) && order == FirstOccurrences(p)
    ensures acc[x := 1] == Tally(p + [x])
    ensures order + [x] == FirstOccurrences(p + [x])
  {
    assert x !in p;
    FirstOccurrencesSnoc(p, x);
    TallySnoc(p, x);
  }

  /** The `reduce` over the clicks: the accumulator gains a key the first
      time a date is seen and counts up on every later click. */
  method TallyByDate(keys: seq<string>) returns (acc: map<string, nat>, order: seq<string>)
    ensures acc == Tally(keys)
    ensures order == FirstOccurrences(keys)
  {
    acc := map[];
    order := [];
    assert keys[..0] == [];
    var i := 0;
    while i < |keys|
      invariant 0 <= i <= |keys|
      invariant order == FirstOccurrences(keys[..i])
      invariant acc == Tally(keys[..i])
    {
      var date := keys[i];
      assert keys[..i + 1] == keys[..i] + [date];
      if date in acc {
        TallyStepRepeat(keys[..i], date, acc, order);
        acc := acc[date := acc[date] + 1];
      } else {
        TallyStepNew(keys[..i], date, acc, order);
        acc := acc[date := 1];
        order := order + [date];
      }
      i := i + 1;
    }
    assert keys[..i] == keys;
  }

  /** `BuildChart`: the tally, then its entries sorted by date and cut to
      the last seven. */
  method BuildChart(clicks: seq<ClickView>, dayValue: string -> int) returns (points: seq<ChartPoint>)
    ensures points == ChartOf(clicks, dayValue)
  {
    var keys := DateKeys(clicks);
    var acc, order := TallyByDate(keys);
    var entries := Entries(order, acc);
    points := LastN(Sorting.SortBy(entries, ByDay(dayValue)), ChartDays);
  }

  // ---------------------------------------------------------------- totals

  /** `analytics.reduce((sum, item) => sum + item.totalClicks, 0)` */
  function TotalClicks(analytics: seq<AnalyticsData>): nat {
    if analytics == [] then 0
    else TotalClicks(analytics[..|analytics| - 1]) + analytics[|analytics| - 1].totalClicks
  }

  /** The sum splits over a split list, so no URL's count is lost or
      counted twice. */
  lemma {:induction false} TotalClicksAppend(a: seq<AnalyticsData>, b: seq<AnalyticsData>)
    ensures TotalClicks(a + b) == TotalClicks(a) + TotalClicks(b)
    decreases |b|
  {
    if b == [] {
      assert a + b == a;
    } else {
      TotalClicksAppend(a, b[..|b| - 1]);
      assert (a + b)[..|a + b| - 1] == a + b[..|b| - 1];
      assert (a + b)[|a + b| - 1] == b[|b| - 1];
    }
  }

  /** `totalUrls > 0 ? Math.round(totalClicks / totalUrls) : 0` on
      non-negative whole numbers: the nearest whole number, halves
      rounded up. */
  function AverageClicks(totalClicks: nat, totalUrls: nat): (r: nat)
    ensures totalUrls == 0 ==> r == 0
    ensures totalUrls > 0 ==>
      2 * r * totalUrls <= 2 * totalClicks + totalUrls < 2 * r * totalUrls + 2 * totalUrls
  {
    if totalUrls == 0 then 0 else (2 * totalClicks + totalUrls) / (2 * totalUrls)
  }

  /** Exactly one whole number lies that close, so the rounding is
      determined. */
  lemma AverageIsUnique(totalClicks: nat, totalUrls: nat, m: int)
    requires totalUrls > 0
    requires 2 * m * totalUrls <= 2 * totalClicks + totalUrls < 2 * m * totalUrls + 2 * totalUrls
    ensures m == AverageClicks(totalClicks, totalUrls)
  {
    var r := AverageClicks(totalClicks, totalUrls);
    var n := 2 * totalUrls;
    var t := 2 * totalClicks + totalUrls;
    assert m * n <= t < (m + 1) * n;
    assert r * n <= t < (r + 1) * n;
    if m < r {
      MulMonotone(m + 1, r, n);
    } else if m > r {
      MulMonotone(r + 1, m, n);
    }
  }

  lemma MulMonotone(a: int, b: int, c: nat)
    requires a <= b
    ensures a * c <= b * c
  {
  }

  lemma AverageExamples()
    ensures AverageClicks(0, 0) == 0
    ensures AverageClicks(5, 2) == 3
    ensures AverageClicks(7, 3) == 2
    ensures AverageClicks(8, 3) == 3
  {
  }

  class AnalyticsPage {
    const browser: Browser
    var analytics: seq<AnalyticsData>
    var isLoading: bool

    constructor (browser: Browser)
      ensures this.browser == browser && analytics == [] && isLoading
    {
      this.browser := browser;
      analytics := [];
      isLoading := true;
    }

    /** `fetchAnalytics`: the list as received, or an empty list on any
        failure, which shows no toast; a 401 still signs the browser out
        through the response interceptor. */
    method FetchAnalytics(response: Result<seq<AnalyticsData>, HttpError>)
      modifies this, browser
      ensures browser.requests == old(browser.requests) + [AllAnalyticsCall]
      ensures analytics == if response.Ok? then response.value else []
      ensures browser.toasts == old(browser.toasts)
      ensures response.Err? && response.error.status == Some(401) ==>
        browser.storage == Session.LoggedOut(old(browser.storage)) && browser.location == ApiClient.LoginPath
      ensures !(response.Err? && response.error.status == Some(401)) ==>
        browser.storage == old(browser.storage) && browser.location == old(browser.location)
      ensures !isLoading
      ensures browser.clipboard == old(browser.clipboard)
    {
      isLoading := true;
      browser.Send(AllAnalyticsCall);
      match response {
        case Ok(list) =>
          analytics := list;
        case Err(e) =>
          var _ := ApiClient.HandleResponseError(browser, e);
          analytics := [];
      }
      isLoading := false;
    }

    /** The three summary figures. */
    function Summary(): (s: (nat, nat, nat))
      reads this
      ensures s.0 == TotalClicks(analytics) && s.1 == |analytics|
      ensures s.2 == AverageClicks(TotalClicks(analytics), |analytics|)
    {
      (TotalClicks(analytics), |analytics|, AverageClicks(TotalClicks(analytics), |analytics|))
    }
  }
}
