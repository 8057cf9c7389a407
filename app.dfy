/**
 * The computations that the page script performs inline in `main()`:
 * active-SIP detection, the scheme list shown, the time window and the NAV
 * points inside it, the per-date aggregation of a scheme's transactions, the
 * purchase markers and the summary figures. "Now" is a parameter.
 */
module Dashboard {
  import opened Wrappers
  import opened Seqs
  import opened Time
  import opened NavFetch
  import opened DataProcessing

  /** A scheme counts as an active SIP when it had a purchase within this many days. */
  const ActiveWindowDays: nat := 45

  /** The earliest date that still counts as recent: `now - timedelta(days=45)`. */
  function Cutoff(now: Instant): (c: Instant)
    ensures c < now
    ensures now - c == ActiveWindowDays * Day
  {
    now - ActiveWindowDays * Day
  }

  /** A purchase (amount strictly positive) dated on or after the cutoff. */
  predicate IsRecentPurchase(t: Txn, now: Instant)
    ensures IsRecentPurchase(t, now) <==>
              now - t.date <= ActiveWindowDays * Day && t.amount.Some? && t.amount.value > 0.0
  {
    t.date >= Cutoff(now) && t.amount.Some? && t.amount.value > 0.0
  }

  ghost predicate HasRecentPurchase(ts: seq<Txn>, now: Instant)
  {
    exists i :: 0 <= i < |ts| && IsRecentPurchase(ts[i], now)
  }

  /** The mask `(Date >= cutoff) & (Amount > 0)`. */
  function RecentPurchases(ts: seq<Txn>, now: Instant): (r: seq<Txn>)
    ensures |r| > 0 <==> HasRecentPurchase(ts, now)
  {
    var r := Filter(ts, t => IsRecentPurchase(t, now));
    assert HasRecentPurchase(ts, now) ==> |r| > 0 by {
      if HasRecentPurchase(ts, now) {
        var i :| 0 <= i < |ts| && IsRecentPurchase(ts[i], now);
        assert ts[i] in r;
      }
    }
    assert |r| > 0 ==> HasRecentPurchase(ts, now) by {
      if |r| > 0 {
        assert r[0] in ts;
      }
    }
    r
  }

  /** The schemes among `schemes`, in their order, whose transactions hold a recent purchase. */
  ghost function ActiveAmong(p: DataProcessor, schemes: seq<string>, now: Instant): (r: seq<string>)
    reads p
    ensures |r| <= |schemes|
  {
    if |schemes| == 0 then []
    else
      var last := schemes[|schemes| - 1];
      if HasRecentPurchase(p.TransactionsFor(last), now) then ActiveAmong(p, schemes[..|schemes| - 1], now) + [last]
      else ActiveAmong(p, schemes[..|schemes| - 1], now)
  }

  /** A scheme is listed as active exactly when it is one of `schemes` with a recent purchase. */
  lemma {:induction false} ActiveAmongMembers(p: DataProcessor, schemes: seq<string>, now: Instant)
    ensures forall s :: s in ActiveAmong(p, schemes, now) <==> s in schemes && HasRecentPurchase(p.TransactionsFor(s), now)
  {
    if |schemes| > 0 {
      var init := schemes[..|schemes| - 1];
      assert schemes == init + [schemes[|schemes| - 1]];
      ActiveAmongMembers(p, init, now);
    }
  }

  lemma ActiveAmongStep(p: DataProcessor, schemes: seq<string>, k: nat, now: Instant)
    requires k < |schemes|
    ensures ActiveAmong(p, schemes[..k + 1], now)
         == ActiveAmong(p, schemes[..k], now)
            + if HasRecentPurchase(p.TransactionsFor(schemes[k]), now) then [schemes[k]] else []
  {
    assert schemes[..k + 1][..k] == schemes[..k];
  }

  /**
   * The loop that builds `active_schemes`: every scheme of the statement, in
   * order, whose transactions include a purchase on or after now - 45 days.
   */
  method ActiveSchemes(p: DataProcessor, now: Instant) returns (active: seq<string>)
    requires p.transactions.Some? ==> AllHave(p.transactions.value.rows, AmountOf)
    ensures active == ActiveAmong(p, p.Schemes(), now)
  {
    var schemes := p.Schemes();
    active := [];
    var k := 0;
    while k < |schemes|
      invariant 0 <= k <= |schemes|
      invariant active == ActiveAmong(p, schemes[..k], now)
    {
      var trans := p.TransactionsFor(schemes[k]);
      var recent := RecentPurchases(trans, now);
      ActiveAmongStep(p, schemes, k, now);
      if |recent| > 0 {
        active := active + [schemes[k]];
      }
      k := k + 1;
    }
    assert schemes[..k] == schemes;
  }

  /** The list offered in the scheme selector. */
  function DisplaySchemes(useActiveOnly: bool, active: seq<string>, schemes: seq<string>): (shown: seq<string>)
    ensures useActiveOnly && active != [] ==> shown == active
    ensures !useActiveOnly || active == [] ==> shown == schemes
  {
    if useActiveOnly && |active| > 0 then active else schemes
  }

  /**
   * Whatever the checkbox, the selector offers only schemes of the statement,
   * and it offers some exactly when the statement has some.
   */
  lemma DisplayWithinSchemes(p: DataProcessor, useActiveOnly: bool, now: Instant)
    ensures var shown := DisplaySchemes(useActiveOnly, ActiveAmong(p, p.Schemes(), now), p.Schemes());
            && (forall s :: s in shown ==> s in p.Schemes())
            && (|shown| > 0 <==> |p.Schemes()| > 0)
  {
    var active := ActiveAmong(p, p.Schemes(), now);
    ActiveAmongMembers(p, p.Schemes(), now);
    if |active| > 0 {
      assert active[0] in p.Schemes();
    }
  }

  /** The choices of the time-range selector. */
  datatype TimeRange = SixMonths | OneYear | TwoYears | ThreeYears | AllTime

  /** The range's length in days; None for "All Time". */
  function RangeDays(range: TimeRange): (r: Option<nat>)
    ensures r.None? <==> range.AllTime?
    ensures range.SixMonths? ==> r == Some(180)
    ensures range.OneYear? ==> r == Some(365)
    ensures range.TwoYears? ==> r == Some(730)
    ensures range.ThreeYears? ==> r == Some(1095)
    ensures r.Some? ==> 180 <= r.value <= 3 * 365
  {
    match range
    case SixMonths => Some(180)
    case OneYear => Some(365)
    case TwoYears => Some(2 * 365)
    case ThreeYears => Some(3 * 365)
    case AllTime => None
  }

  /**
   * The start of the shown window. For a finite range it lies that many days
   * before `end`; for "All Time" it is the earliest date among the NAV points
   * and the transactions.
   */
  function WindowStart(range: TimeRange, end: Instant, nav: seq<NavPoint>, ts: seq<Txn>): (start: Instant)
    requires range.AllTime? ==> |nav| > 0
    ensures RangeDays(range).Some? ==> start == end - RangeDays(range).value * Day
    ensures range.AllTime? ==> forall i :: 0 <= i < |nav| ==> start <= nav[i].date
    ensures range.AllTime? ==> forall i :: 0 <= i < |ts| ==> start <= ts[i].date
    ensures range.AllTime? ==>
              (exists i :: 0 <= i < |nav| && nav[i].date == start) || (exists i :: 0 <= i < |ts| && ts[i].date == start)
  {
    match RangeDays(range)
    case Some(days) => end - days * Day
    case None =>
      var navDates := KeysOf(nav, PointDate);
      var first := Min(navDates);
      assert forall i :: 0 <= i < |nav| ==> navDates[i] in navDates;
      if |ts| == 0 then first
      else
        var txnDates := KeysOf(ts, TxnDate);
        assert forall i :: 0 <= i < |ts| ==> txnDates[i] in txnDates;
        var m := Min(txnDates);
        if m < first then m else first
  }

  /** The mask `start <= date <= end` over the NAV points. */
  function FilterNav(nav: seq<NavPoint>, start: Instant, end: Instant): (r: seq<NavPoint>)
    ensures forall p :: p in r <==> p in nav && start <= p.date <= end
    ensures forall p :: multiset(r)[p] == if start <= p.date <= end then multiset(nav)[p] else 0
  {
    Filter(nav, (p: NavPoint) => start <= p.date <= end)
  }

  /**
   * The window keeps the NAV points in their order, so on an ascending series
   * its last point is the latest one in the window.
   */
  lemma FilteredNavLatest(nav: seq<NavPoint>, start: Instant, end: Instant)
    requires SortedBy(nav, PointDate)
    ensures SortedBy(FilterNav(nav, start, end), PointDate)
    ensures var r := FilterNav(nav, start, end);
            |r| > 0 ==> forall p :: p in r ==> p.date <= r[|r| - 1].date
  {
    FilterSorted(nav, (p: NavPoint) => start <= p.date <= end, PointDate);
    var r := FilterNav(nav, start, end);
    if |r| > 0 {
      SortedLast(r, PointDate);
    }
  }

  /** The two quantities that are summed per date. */
  datatype Measure = AmountOf | UnitsOf

  predicate Has(t: Txn, m: Measure)
  {
    match m
    case AmountOf => t.amount.Some?
    case UnitsOf => t.units.Some?
  }

  ghost predicate AllHave(ts: seq<Txn>, m: Measure)
  {
    forall t :: t in ts ==> Has(t, m)
  }

  function Value(t: Txn, m: Measure): real
    requires Has(t, m)
  {
    match m
    case AmountOf => t.amount.value
    case UnitsOf => t.units.value
  }

  /** `ts[column].sum()`. */
  function Total(ts: seq<Txn>, m: Measure): (r: real)
    requires AllHave(ts, m)
    ensures |ts| == 1 ==> r == Value(ts[0], m)
    ensures (forall i :: 0 <= i < |ts| ==> Value(ts[i], m) >= 0.0) ==> r >= 0.0
  {
    if |ts| == 0 then 0.0
    else
      assert ts[|ts| - 1] in ts;
      Total(ts[..|ts| - 1], m) + Value(ts[|ts| - 1], m)
  }

  /** The transactions dated `d`. */
  function OnDate(ts: seq<Txn>, d: Instant): (r: seq<Txn>)
    ensures forall t :: t in r <==> t in ts && t.date == d
    ensures forall t :: multiset(r)[t] == if t.date == d then multiset(ts)[t] else 0
  {
    Filter(ts, (t: Txn) => t.date == d)
  }

  /** One row of `groupby('Date').agg(...)`: a date with its summed Amount and Units. */
  datatype DayTotal = DayTotal(date: Instant, amount: real, units: real)

  /** The distinct transaction dates in ascending order (the group keys). */
  function GroupDates(ts: seq<Txn>): (ds: seq<Instant>)
    ensures StrictlyIncreasing(ds)
    ensures forall d :: d in ds <==> d in KeysOf(ts, TxnDate)
  {
    var dates := KeysOf(ts, TxnDate);
    var sorted := SortBy(dates, Id);
    SameMembers(sorted, dates);
    DedupSorted(sorted)
  }

  lemma SameMembers(a: seq<int>, b: seq<int>)
    requires multiset(a) == multiset(b)
    ensures forall d :: d in a <==> d in b
  {
    forall d ensures d in a <==> d in b {
      assert d in a <==> d in multiset(a);
      assert d in b <==> d in multiset(b);
    }
  }

  /** Every transaction's date is a group key, and every group key is some transaction's date. */
  lemma GroupDatesCover(ts: seq<Txn>)
    ensures forall i :: 0 <= i < |ts| ==> ts[i].date in GroupDates(ts)
    ensures var ds := GroupDates(ts);
            forall k :: 0 <= k < |ds| ==> exists i :: 0 <= i < |ts| && ts[i].date == ds[k]
  {
    var dates := KeysOf(ts, TxnDate);
    var ds := GroupDates(ts);
    forall i | 0 <= i < |ts| ensures ts[i].date in ds {
      assert dates[i] in dates;
    }
    forall k | 0 <= k < |ds| ensures exists i :: 0 <= i < |ts| && ts[i].date == ds[k] {
      assert ds[k] in dates;
      var i :| 0 <= i < |dates| && dates[i] == ds[k];
      assert ts[i].date == ds[k];
    }
  }

  function Aggregate(days: seq<Instant>, ts: seq<Txn>): (r: seq<DayTotal>)
    requires AllHave(ts, AmountOf) && AllHave(ts, UnitsOf)
    ensures |r| == |days|
    ensures forall k :: 0 <= k < |days| ==> r[k].date == days[k]
    ensures forall k :: 0 <= k < |days| ==> AllHave(OnDate(ts, days[k]), AmountOf)
    ensures forall k :: 0 <= k < |days| ==> AllHave(OnDate(ts, days[k]), UnitsOf)
    ensures forall k :: 0 <= k < |days| ==> r[k].amount == Total(OnDate(ts, days[k]), AmountOf)
    ensures forall k :: 0 <= k < |days| ==> r[k].units == Total(OnDate(ts, days[k]), UnitsOf)
  {
    seq(|days|, k requires 0 <= k < |days| =>
          DayTotal(days[k], Total(OnDate(ts, days[k]), AmountOf), Total(OnDate(ts, days[k]), UnitsOf)))
  }

  /**
   * `transactions.groupby('Date').agg({'Amount': 'sum', 'Units': 'sum'})`:
   * one row per distinct date, in ascending date order, each carrying the
   * Amount and Units summed over the transactions of that date.
   */
  function GroupByDate(ts: seq<Txn>): (r: seq<DayTotal>)
    requires AllHave(ts, AmountOf) && AllHave(ts, UnitsOf)
    ensures |r| == |GroupDates(ts)|
    ensures forall k :: 0 <= k < |r| ==> r[k].date == GroupDates(ts)[k]
    ensures forall i, j :: 0 <= i < j < |r| ==> r[i].date < r[j].date
    ensures forall k :: 0 <= k < |r| ==> AllHave(OnDate(ts, r[k].date), AmountOf) && r[k].amount == Total(OnDate(ts, r[k].date), AmountOf)
    ensures forall k :: 0 <= k < |r| ==> AllHave(OnDate(ts, r[k].date), UnitsOf) && r[k].units == Total(OnDate(ts, r[k].date), UnitsOf)
  {
    Aggregate(GroupDates(ts), ts)
  }

  /** The sum of one measure over aggregated rows. */
  function DayTotalsSum(r: seq<DayTotal>, m: Measure): real
  {
    if |r| == 0 then 0.0
    else DayTotalsSum(r[..|r| - 1], m) + match m case AmountOf => r[|r| - 1].amount case UnitsOf => r[|r| - 1].units
  }

  /** The per-date totals of one measure, added up over `days`. */
  function PerDaySum(days: seq<Instant>, ts: seq<Txn>, m: Measure): real
    requires AllHave(ts, m)
  {
    if |days| == 0 then 0.0
    else PerDaySum(days[..|days| - 1], ts, m) + Total(OnDate(ts, days[|days| - 1]), m)
  }

  lemma {:induction false} AggregateSum(days: seq<Instant>, ts: seq<Txn>, m: Measure)
    requires AllHave(ts, AmountOf) && AllHave(ts, UnitsOf)
    ensures DayTotalsSum(Aggregate(days, ts), m) == PerDaySum(days, ts, m)
  {
    if |days| > 0 {
      var init := days[..|days| - 1];
      var r := Aggregate(days, ts);
      assert r[..|r| - 1] == Aggregate(init, ts);
      AggregateSum(init, ts, m);
    }
  }

  /** Adding a transaction adds its value to the date it falls on, if that date is among `days`. */
  lemma {:induction false} PerDaySumSnoc(days: seq<Instant>, ts: seq<Txn>, x: Txn, m: Measure)
    requires AllHave(ts + [x], m) && Distinct(days)
    ensures AllHave(ts, m) && Has(x, m)
    ensures PerDaySum(days, ts + [x], m) == PerDaySum(days, ts, m) + (if x.date in days then Value(x, m) else 0.0)
  {
    assert x in ts + [x];
    assert forall t :: t in ts ==> t in ts + [x];
    if |days| > 0 {
      var init := days[..|days| - 1];
      var d := days[|days| - 1];
      assert days == init + [d];
      PerDaySumSnoc(init, ts, x, m);
      assert (ts + [x])[..|ts|] == ts;
      var on := OnDate(ts, d);
      if x.date == d {
        assert OnDate(ts + [x], d) == on + [x];
        assert (on + [x])[..|on|] == on;
        assert x.date !in init;
      } else {
        assert OnDate(ts + [x], d) == on;
      }
    }
  }

  lemma {:induction false} PerDaySumEmpty(days: seq<Instant>, m: Measure)
    ensures PerDaySum(days, [], m) == 0.0
  {
    if |days| > 0 {
      PerDaySumEmpty(days[..|days| - 1], m);
    }
  }

  /** When `days` lists every transaction date once, the per-date totals add up to the overall total. */
  lemma {:induction false} PerDaySumCovers(days: seq<Instant>, ts: seq<Txn>, m: Measure)
    requires AllHave(ts, m) && Distinct(days)
    requires forall t :: t in ts ==> t.date in days
    ensures PerDaySum(days, ts, m) == Total(ts, m)
  {
    if |ts| == 0 {
      PerDaySumEmpty(days, m);
    } else {
      var init := ts[..|ts| - 1];
      var x := ts[|ts| - 1];
      assert ts == init + [x];
      PerDaySumSnoc(days, init, x, m);
      PerDaySumCovers(days, init, m);
    }
  }

  /** Aggregating by date loses nothing: the per-date rows add up to the overall totals. */
  lemma GroupByDateTotals(ts: seq<Txn>, m: Measure)
    requires AllHave(ts, AmountOf) && AllHave(ts, UnitsOf)
    ensures AllHave(ts, m)
    ensures DayTotalsSum(GroupByDate(ts), m) == Total(ts, m)
  {
    var days := GroupDates(ts);
    AggregateSum(days, ts, m);
    GroupDatesCover(ts);
    forall t | t in ts ensures t.date in days {
      var i :| 0 <= i < |ts| && ts[i] == t;
    }
    assert Distinct(days);
    PerDaySumCovers(days, ts, m);
  }

  /** The purchase markers: the aggregated rows whose summed Amount is strictly positive, in order. */
  function Purchases(agg: seq<DayTotal>): (r: seq<DayTotal>)
    ensures forall a :: a in r <==> a in agg && a.amount > 0.0
    ensures forall a :: multiset(r)[a] == if a.amount > 0.0 then multiset(agg)[a] else 0
    ensures StrictlySortedBy(agg, DayDate) ==> StrictlySortedBy(r, DayDate)
  {
    var keep := (a: DayTotal) => a.amount > 0.0;
    FilterStrictlySorted(agg, keep, DayDate);
    Filter(agg, keep)
  }

  function DayDate(a: DayTotal): Instant { a.date }

  /** The purchase markers of the aggregate come in strictly increasing date order. */
  lemma PurchasesAscending(ts: seq<Txn>)
    requires AllHave(ts, AmountOf) && AllHave(ts, UnitsOf)
    ensures StrictlySortedBy(Purchases(GroupByDate(ts)), DayDate)
  {
    var agg := GroupByDate(ts);
    assert StrictlySortedBy(agg, DayDate);
  }

  /** The three summary figures and the unit total they are computed from. */
  datatype Summary = Summary(invested: real, units: real, currentValue: real, profit: real)

  /**
   * Total invested (every Amount, redemptions included), the current value
   * (all units at the NAV of the last point in the window) and the profit.
   * The window must hold a point: `iloc[-1]` raises otherwise.
   */
  function Summarize(ts: seq<Txn>, filteredNav: seq<NavPoint>): (s: Summary)
    requires AllHave(ts, AmountOf) && AllHave(ts, UnitsOf)
    requires |filteredNav| > 0
    ensures s.invested == Total(ts, AmountOf)
    ensures s.units == Total(ts, UnitsOf)
    ensures s.currentValue == s.units * filteredNav[|filteredNav| - 1].nav
    ensures s.profit + s.invested == s.currentValue
  {
    var invested := Total(ts, AmountOf);
    var units := Total(ts, UnitsOf);
    var current := units * filteredNav[|filteredNav| - 1].nav;
    Summary(invested, units, current, current - invested)
  }

  /**
   * The summary agrees with the chart's aggregation: what is invested and
   * the units held are the sums over the per-date rows.
   */
  lemma SummaryMatchesAggregate(ts: seq<Txn>, filteredNav: seq<NavPoint>)
    requires AllHave(ts, AmountOf) && AllHave(ts, UnitsOf) && |filteredNav| > 0
    ensures Summarize(ts, filteredNav).invested == DayTotalsSum(GroupByDate(ts), AmountOf)
    ensures Summarize(ts, filteredNav).units == DayTotalsSum(GroupByDate(ts), UnitsOf)
  {
    GroupByDateTotals(ts, AmountOf);
    GroupByDateTotals(ts, UnitsOf);
  }
}
