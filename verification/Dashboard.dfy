/** The dashboard's figures over a half-open window of time, and the revenue chart that fills the
    days without orders. Instants are in seconds, days are UTC days, amounts are cents. */
module Dashboard {
  import Orders

  datatype Record = Record(createdAt: int, revenue: int, status: Orders.Status, paymentMethod: Orders.Method)

  datatype Period = Today | Week | Month | Year

  datatype ChartItem = ChartItem(date: int, revenue: int, ordersCount: int)

  const DAY := 86_400

  function DateOf(instant: int): int {
    instant / DAY
  }

  /** The window `[from, to)`; today starts at midnight. */
  function DateRange(period: Period, now: int): (r: (int, int))
    ensures r.0 <= r.1 == now
  {
    match period
    case Today => (DateOf(now) * DAY, now)
    case Week => (now - 7 * DAY, now)
    case Month => (now - 30 * DAY, now)
    case Year => (now - 365 * DAY, now)
  }

  /** How far back each period reaches, in days; today reaches back to midnight. */
  function DaysBack(period: Period): nat {
    match period
    case Today => 0
    case Week => 7
    case Month => 30
    case Year => 365
  }

  /** The window ends now and starts the period's days ago at the same time of day, or today at midnight. */
  lemma RangeMeans(period: Period, now: int)
    ensures var (from, to) := DateRange(period, now);
            && to == now
            && from / 86_400 == now / 86_400 - DaysBack(period)
            && from % 86_400 == if period.Today? then 0 else now % 86_400
  {
  }

  function Window(records: seq<Record>, from: int, to: int): seq<Record> {
    if records == [] then [] else
      var before, last := Window(records[..|records| - 1], from, to), records[|records| - 1];
      if from <= last.createdAt < to then before + [last] else before
  }

  // ---- aggregates ----

  function Revenue(r: Record): int { r.revenue }

  function One(r: Record): int { 1 }

  function DayKey(r: Record): int { DateOf(r.createdAt) }

  function StatusKey(r: Record): Orders.Status { r.status }

  function MethodKey(r: Record): Orders.Method { r.paymentMethod }

  function Total(records: seq<Record>, weight: Record -> int): int {
    if records == [] then 0 else Total(records[..|records| - 1], weight) + weight(records[|records| - 1])
  }

  /** The total of the records in one group. */
  function GroupTotal<K(==)>(records: seq<Record>, key: Record -> K, weight: Record -> int, k: K): int {
    if records == [] then 0 else
      var last := records[|records| - 1];
      GroupTotal(records[..|records| - 1], key, weight, k) + if key(last) == k then weight(last) else 0
  }

  /** GROUP BY: the groups that have records, each with its total. */
  function Grouped<K(==)>(records: seq<Record>, key: Record -> K, weight: Record -> int): map<K, int> {
    map k | k in (set i | 0 <= i < |records| :: key(records[i])) :: GroupTotal(records, key, weight, k)
  }

  function Get<K(==)>(m: map<K, int>, k: K): int {
    if k in m then m[k] else 0
  }

  function SumOver<K(==)>(m: map<K, int>, ks: seq<K>): int {
    if ks == [] then 0 else SumOver(m, ks[..|ks| - 1]) + Get(m, ks[|ks| - 1])
  }

  ghost predicate Distinct<K>(ks: seq<K>) {
    forall i, j :: 0 <= i < j < |ks| ==> ks[i] != ks[j]
  }

  function SumOfGroups<K(==)>(records: seq<Record>, key: Record -> K, weight: Record -> int, ks: seq<K>): int {
    if ks == [] then 0 else
      SumOfGroups(records, key, weight, ks[..|ks| - 1]) + GroupTotal(records, key, weight, ks[|ks| - 1])
  }

  lemma {:induction false} OneRecordMore<K>(records: seq<Record>, key: Record -> K, weight: Record -> int, ks: seq<K>)
    requires records != [] && Distinct(ks)
    ensures var before, last := records[..|records| - 1], records[|records| - 1];
            SumOfGroups(records, key, weight, ks) ==
            SumOfGroups(before, key, weight, ks) + if key(last) in ks then weight(last) else 0
  {
    if ks != [] {
      OneRecordMore(records, key, weight, ks[..|ks| - 1]);
      assert ks == ks[..|ks| - 1] + [ks[|ks| - 1]];
    }
  }

  /** Grouping loses and duplicates nothing: over keys that cover all records, each once, the group
      totals sum to the grand total. */
  lemma {:induction false} GroupsSumToTotal<K>(records: seq<Record>, key: Record -> K, weight: Record -> int, ks: seq<K>)
    requires Distinct(ks) && forall i :: 0 <= i < |records| ==> key(records[i]) in ks
    ensures SumOfGroups(records, key, weight, ks) == Total(records, weight)
  {
    if records == [] {
      NoRecords(key, weight, ks);
    } else {
      GroupsSumToTotal(records[..|records| - 1], key, weight, ks);
      OneRecordMore(records, key, weight, ks);
    }
  }

  lemma {:induction false} NoRecords<K>(key: Record -> K, weight: Record -> int, ks: seq<K>)
    ensures SumOfGroups([], key, weight, ks) == 0
  {
    if ks != [] { NoRecords(key, weight, ks[..|ks| - 1]); }
  }

  lemma {:induction false} AbsentGroup<K>(records: seq<Record>, key: Record -> K, weight: Record -> int, k: K)
    requires k !in Grouped(records, key, weight)
    ensures GroupTotal(records, key, weight, k) == 0
  {
    if records != [] {
      var before := records[..|records| - 1];
      assert forall i :: 0 <= i < |before| ==> key(before[i]) == key(records[i]);
      AbsentGroup(before, key, weight, k);
    }
  }

  lemma {:induction false} GroupedSums<K>(records: seq<Record>, key: Record -> K, weight: Record -> int, ks: seq<K>)
    ensures SumOver(Grouped(records, key, weight), ks) == SumOfGroups(records, key, weight, ks)
  {
    if ks != [] {
      GroupedSums(records, key, weight, ks[..|ks| - 1]);
      if ks[|ks| - 1] !in Grouped(records, key, weight) {
        AbsentGroup(records, key, weight, ks[|ks| - 1]);
      }
    }
  }

  /** The window has the records created from `from` on and before `to`, as often as there are such. */
  lemma {:induction false} WindowIsExact(records: seq<Record>, from: int, to: int, r: Record)
    ensures multiset(Window(records, from, to))[r] == if from <= r.createdAt < to then multiset(records)[r] else 0
  {
    if records != [] {
      var n := |records| - 1;
      WindowIsExact(records[..n], from, to, r);
      assert records == records[..n] + [records[n]];
    }
  }

  lemma {:induction false} WindowIsInside(records: seq<Record>, from: int, to: int)
    ensures forall i :: 0 <= i < |Window(records, from, to)| ==> from <= Window(records, from, to)[i].createdAt < to
  {
    if records != [] { WindowIsInside(records[..|records| - 1], from, to); }
  }

  const STATUSES := [Orders.Pending, Orders.Paid, Orders.AwaitingBooster, Orders.InProgress, Orders.BoosterCompleted,
                     Orders.DeliveredToClient, Orders.Completed, Orders.Cancelled, Orders.Refunded]
  const METHODS := [Orders.PayPal, Orders.UsdtTrc20, Orders.CardEcomTrade24]

  lemma EveryKeyListed(r: Record)
    ensures r.status in STATUSES && r.paymentMethod in METHODS
  {
    match r.status {
      case Pending => assert STATUSES[0] == r.status;
      case Paid => assert STATUSES[1] == r.status;
      case AwaitingBooster => assert STATUSES[2] == r.status;
      case InProgress => assert STATUSES[3] == r.status;
      case BoosterCompleted => assert STATUSES[4] == r.status;
      case DeliveredToClient => assert STATUSES[5] == r.status;
      case Completed => assert STATUSES[6] == r.status;
      case Cancelled => assert STATUSES[7] == r.status;
      case Refunded => assert STATUSES[8] == r.status;
    }
    match r.paymentMethod {
      case PayPal => assert METHODS[0] == r.paymentMethod;
      case UsdtTrc20 => assert METHODS[1] == r.paymentMethod;
      case CardEcomTrade24 => assert METHODS[2] == r.paymentMethod;
    }
  }

  /** The counts by status and by payment method each sum to the number of orders in the window. */
  lemma BreakdownsSumToTotal(records: seq<Record>, from: int, to: int)
    ensures var w := Window(records, from, to);
            && SumOver(Grouped(w, StatusKey, One), STATUSES) == Total(w, One)
            && SumOver(Grouped(w, MethodKey, One), METHODS) == Total(w, One)
  {
    var w := Window(records, from, to);
    forall i | 0 <= i < |w|
      ensures StatusKey(w[i]) in STATUSES && MethodKey(w[i]) in METHODS
    {
      EveryKeyListed(w[i]);
    }
    GroupsSumToTotal(w, StatusKey, One, STATUSES);
    GroupsSumToTotal(w, MethodKey, One, METHODS);
    GroupedSums(w, StatusKey, One, STATUSES);
    GroupedSums(w, MethodKey, One, METHODS);
  }

  // ---- the chart ----

  datatype DayRow = DayRow(date: int, revenue: int, count: int)

  /** The query's rows: one for each day that has orders in the window, in any order. */
  ghost predicate IsDayRows(rows: seq<DayRow>, window: seq<Record>) {
    && (forall i, j :: 0 <= i < j < |rows| ==> rows[i].date != rows[j].date)
    && (forall i :: 0 <= i < |rows| ==>
          && rows[i].date in Grouped(window, DayKey, One)
          && rows[i].revenue == GroupTotal(window, DayKey, Revenue, rows[i].date)
          && rows[i].count == GroupTotal(window, DayKey, One, rows[i].date))
    && (forall d :: d in Grouped(window, DayKey, One) ==> exists i :: 0 <= i < |rows| && rows[i].date == d)
  }

  method RevenuePerDay(rows: seq<DayRow>, ghost window: seq<Record>) returns (perDay: map<int, (int, int)>)
    requires IsDayRows(rows, window)
    ensures perDay.Keys == Grouped(window, DayKey, One).Keys
    ensures forall d :: d in perDay ==>
              perDay[d] == (GroupTotal(window, DayKey, Revenue, d), GroupTotal(window, DayKey, One, d))
  {
    perDay := map[];
    for i := 0 to |rows|
      invariant forall d :: d in perDay <==> exists k :: 0 <= k < i && rows[k].date == d
      invariant forall d :: d in perDay ==>
                  perDay[d] == (GroupTotal(window, DayKey, Revenue, d), GroupTotal(window, DayKey, One, d))
    {
      perDay := perDay[rows[i].date := (rows[i].revenue, rows[i].count)];
    }
    assert forall d :: d in perDay <==> d in Grouped(window, DayKey, One);
  }

  function Days(first: int, count: nat): (days: seq<int>)
    ensures |days| == count && forall k :: 0 <= k < count ==> days[k] == first + k
  {
    seq(count, k => first + k)
  }

  ghost function ChartRevenue(items: seq<ChartItem>): int {
    if items == [] then 0 else ChartRevenue(items[..|items| - 1]) + items[|items| - 1].revenue
  }

  ghost function ChartCount(items: seq<ChartItem>): int {
    if items == [] then 0 else ChartCount(items[..|items| - 1]) + items[|items| - 1].ordersCount
  }

  /** Consecutive days from `first`, each with its own figures, zeros where there are no orders. */
  ghost predicate Filled(items: seq<ChartItem>, first: int, window: seq<Record>) {
    forall k :: 0 <= k < |items| ==>
      && items[k].date == first + k
      && items[k].revenue == GroupTotal(window, DayKey, Revenue, items[k].date)
      && items[k].ordersCount == GroupTotal(window, DayKey, One, items[k].date)
  }

  lemma {:induction false} FilledSums(items: seq<ChartItem>, first: int, window: seq<Record>)
    requires Filled(items, first, window)
    ensures ChartRevenue(items) == SumOfGroups(window, DayKey, Revenue, Days(first, |items|))
    ensures ChartCount(items) == SumOfGroups(window, DayKey, One, Days(first, |items|))
  {
    if items != [] {
      var n := |items| - 1;
      FilledSums(items[..n], first, window);
      assert Days(first, |items|)[..n] == Days(first, n);
    }
  }

  /** A filled chart that reaches from the window's first day to its last has the window's totals. */
  lemma FilledChartIsComplete(items: seq<ChartItem>, records: seq<Record>, from: int, to: int)
    requires from <= to && |items| == DateOf(to) - DateOf(from) + 1
    requires Filled(items, DateOf(from), Window(records, from, to))
    ensures ChartRevenue(items) == Total(Window(records, from, to), Revenue)
    ensures ChartCount(items) == Total(Window(records, from, to), One)
  {
    var w, first := Window(records, from, to), DateOf(from);
    var days := Days(first, |items|);
    FilledSums(items, first, w);
    WindowIsInside(records, from, to);
    forall i | 0 <= i < |w|
      ensures DayKey(w[i]) in days
    {
      var d := DayKey(w[i]);
      assert days[d - first] == d;
    }
    GroupsSumToTotal(w, DayKey, Revenue, days);
    GroupsSumToTotal(w, DayKey, One, days);
  }

  /** Every day from the window's first to its last appears once, in order, with the day's own figures
      or zeros, and the figures add up to the overview's totals of the same window. */
  method RevenueChart(period: Period, now: int, rows: seq<DayRow>, ghost records: seq<Record>) returns (items: seq<ChartItem>)
    requires IsDayRows(rows, Window(records, DateRange(period, now).0, DateRange(period, now).1))
    ensures var (from, to) := DateRange(period, now);
            var w := Window(records, from, to);
            && |items| == DaysBack(period) + 1
            && Filled(items, now / 86_400 - DaysBack(period), w)
            && ChartRevenue(items) == Total(w, Revenue)
            && ChartCount(items) == Total(w, One)
  {
    RangeMeans(period, now);
    var (from, to) := DateRange(period, now);
    ghost var w := Window(records, from, to);
    var perDay := RevenuePerDay(rows, w);
    items := [];
    var cursor, endDay := DateOf(from), DateOf(to);
    while cursor <= endDay
      invariant DateOf(from) <= cursor <= endDay + 1 && |items| == cursor - DateOf(from)
      invariant Filled(items, DateOf(from), w)
    {
      var (revenue, count) := if cursor in perDay then perDay[cursor] else (0, 0);
      if cursor !in perDay {
        AbsentGroup(w, DayKey, Revenue, cursor);
        AbsentGroup(w, DayKey, One, cursor);
      }
      items := items + [ChartItem(cursor, revenue, count)];
      cursor := cursor + 1;
    }
    FilledChartIsComplete(items, records, from, to);
  }
}
