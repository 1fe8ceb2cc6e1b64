/** The back-office dashboard (`AdminDashboard` page): revenue, order count
    and status counts over all orders, and the sales of the last seven days
    bucketed by calendar day. */
module AdminDashboard {
  import opened Lists
  import opened Catalog
  import opened AdminStore
  import opened AdminOrdersPage

  /** `orders.reduce((s, o) => s + (Number(o.total) || 0), 0)`. */
  function Revenue(os: seq<Order>): real
  {
    if os == [] then 0.0 else Revenue(os[..|os| - 1]) + os[|os| - 1].total
  }

  /** Revenue adds up over a split of the order list. */
  lemma {:induction false} RevenueAppend(a: seq<Order>, b: seq<Order>)
    ensures Revenue(a + b) == Revenue(a) + Revenue(b)
    decreases |b|
  {
    if b == [] {
      assert a + b == a;
    } else {
      assert (a + b)[..|a + b| - 1] == a + b[..|b| - 1];
      RevenueAppend(a, b[..|b| - 1]);
    }
  }

  /** With no negative totals, revenue is not negative. */
  lemma {:induction false} RevenueNonNegative(os: seq<Order>)
    requires forall i :: 0 <= i < |os| ==> os[i].total >= 0.0
    ensures Revenue(os) >= 0.0
  {
    if os != [] {
      RevenueNonNegative(os[..|os| - 1]);
    }
  }

  datatype Stats = Stats(totalRevenue: real, totalOrders: int, statusCounts: map<string, int>)

  /** `stats`. */
  function ComputeStats(os: seq<Order>): (st: Stats)
    ensures st.totalOrders == |os|
    ensures st.totalRevenue == Revenue(os)
    ensures Pending in st.statusCounts && Shipped in st.statusCounts && Delivered in st.statusCounts
    ensures forall s :: s in st.statusCounts ==> st.statusCounts[s] == CountOf(os, s)
    ensures (forall i :: 0 <= i < |os| ==> os[i].status in StatusOptions) ==>
              st.statusCounts[Pending] + st.statusCounts[Shipped] + st.statusCounts[Delivered] == st.totalOrders
  {
    StatusCountsCorrect(os);
    if forall i :: 0 <= i < |os| ==> os[i].status in StatusOptions then
      StatusCountsSum(os);
      Stats(Revenue(os), |os|, StatusCounts(os))
    else
      Stats(Revenue(os), |os|, StatusCounts(os))
  }

  /** The sales of day `d`: the totals of the orders created that day. */
  function DaySales(os: seq<Order>, d: int): real
  {
    if os == [] then 0.0
    else DaySales(os[..|os| - 1], d) + (if DayOf(os[|os| - 1].createdAt) == d then os[|os| - 1].total else 0.0)
  }

  /** The totals of the orders created on a day in `[lo, hi)`. */
  function RangeSales(os: seq<Order>, lo: int, hi: int): real
  {
    if os == [] then 0.0
    else
      var last := os[|os| - 1];
      RangeSales(os[..|os| - 1], lo, hi) + (if lo <= DayOf(last.createdAt) < hi then last.total else 0.0)
  }

  /** The daily sales of `n` consecutive days from `first`. */
  function WindowSales(os: seq<Order>, first: int, n: nat): real
  {
    if n == 0 then 0.0 else WindowSales(os, first, n - 1) + DaySales(os, first + n - 1)
  }

  lemma {:induction false} RangeSalesExtend(os: seq<Order>, lo: int, hi: int)
    requires lo <= hi
    ensures RangeSales(os, lo, hi + 1) == RangeSales(os, lo, hi) + DaySales(os, hi)
  {
    if os != [] {
      RangeSalesExtend(os[..|os| - 1], lo, hi);
    }
  }

  /** The day buckets add up to the sales of the whole window: every order is
      counted on exactly one day, and orders outside the window on none. */
  lemma {:induction false} WindowSalesIsRangeSales(os: seq<Order>, first: int, n: nat)
    ensures WindowSales(os, first, n) == RangeSales(os, first, first + n)
  {
    if n == 0 {
      RangeSalesEmpty(os, first);
    } else {
      WindowSalesIsRangeSales(os, first, n - 1);
      RangeSalesExtend(os, first, first + n - 1);
    }
  }

  lemma {:induction false} RangeSalesEmpty(os: seq<Order>, lo: int)
    ensures RangeSales(os, lo, lo) == 0.0
  {
    if os != [] {
      RangeSalesEmpty(os[..|os| - 1], lo);
    }
  }

  /** When every order lies in the window, the window's sales are the revenue. */
  lemma {:induction false} RangeSalesAll(os: seq<Order>, lo: int, hi: int)
    requires forall i :: 0 <= i < |os| ==> lo <= DayOf(os[i].createdAt) < hi
    ensures RangeSales(os, lo, hi) == Revenue(os)
  {
    if os != [] {
      RangeSalesAll(os[..|os| - 1], lo, hi);
    }
  }

  /** One point of the chart; the `Intl` date label is not modelled. */
  datatype ChartPoint = ChartPoint(day: int, sales: real)

  const ChartDays: nat := 7

  /** The bucket keys: the calendar days of `now` shifted back by six, five,
      ..., zero whole days, which are the six days before today and today. */
  function WindowDays(now: int): (days: seq<int>)
    ensures |days| == ChartDays
    ensures forall i :: 0 <= i < ChartDays ==> days[i] == DayOf(now) - 6 + i
  {
    var days := seq(ChartDays, i requires 0 <= i < ChartDays => DayOf(now - (6 - i) * MsPerDay));
    assert forall i :: 0 <= i < ChartDays ==> days[i] == DayOf(now) - 6 + i by {
      forall i | 0 <= i < ChartDays ensures days[i] == DayOf(now) - 6 + i {
        DayOfShift(now, 6 - i);
      }
    }
    days
  }

  /** One more order adds its total to the bucket of its own day only. */
  lemma DaySalesStep(os: seq<Order>, k: nat, d: int)
    requires k < |os|
    ensures DaySales(os[..k + 1], d) ==
              DaySales(os[..k], d) + (if DayOf(os[k].createdAt) == d then os[k].total else 0.0)
  {
    assert os[..k + 1][..k] == os[..k];
  }

  /** The buckets hold the daily sales of the first `k` orders. */
  ghost predicate BucketsHold(buckets: map<int, real>, os: seq<Order>, k: nat)
    requires k <= |os|
  {
    forall d :: d in buckets ==> buckets[d] == DaySales(os[..k], d)
  }

  /** Adding order `k` to its bucket, when the chart has one for its day,
      extends the buckets from the first `k` orders to the first `k + 1`. */
  lemma BucketStep(buckets: map<int, real>, os: seq<Order>, k: nat)
    requires k < |os| && BucketsHold(buckets, os, k)
    ensures var key := DayOf(os[k].createdAt);
            BucketsHold(if key in buckets then buckets[key := buckets[key] + os[k].total] else buckets, os, k + 1)
  {
    var key := DayOf(os[k].createdAt);
    var next := if key in buckets then buckets[key := buckets[key] + os[k].total] else buckets;
    forall d | d in next ensures next[d] == DaySales(os[..k + 1], d) {
      DaySalesStep(os, k, d);
    }
  }

  /** The `forEach` pass of `chartData`: every order adds its total to the
      bucket of its day, when the chart has a bucket for that day. */
  method FillBuckets(orders: seq<Order>, days: seq<int>) returns (buckets: map<int, real>)
    ensures forall d :: d in buckets <==> d in days
    ensures forall d :: d in buckets ==> buckets[d] == DaySales(orders, d)
  {
    buckets := map d | d in days :: 0.0;
    for k := 0 to |orders|
      invariant forall d :: d in buckets <==> d in days
      invariant BucketsHold(buckets, orders, k)
    {
      BucketStep(buckets, orders, k);
      var key := DayOf(orders[k].createdAt);
      if key in buckets {
        buckets := buckets[key := buckets[key] + orders[k].total];
      }
    }
    assert orders[..|orders|] == orders;
  }

  /** `chartData`: a bucket per day from six days ago to today, oldest first,
      filled by one pass over the orders; orders on other days are skipped. */
  method ChartData(orders: seq<Order>, now: int) returns (points: seq<ChartPoint>)
    ensures |points| == ChartDays
    ensures forall j :: 0 <= j < ChartDays ==> points[j].day == DayOf(now) - 6 + j
    ensures forall j :: 0 <= j < ChartDays ==> points[j].sales == Round2(DaySales(orders, points[j].day))
  {
    var days := WindowDays(now);
    var buckets := FillBuckets(orders, days);
    points := seq(ChartDays, j requires 0 <= j < ChartDays => ChartPoint(days[j], Round2(buckets[days[j]])));
  }

  /** Orders are loaded on mount only when none are loaded yet. */
  method LoadOnMount(store: Store, api: Option<seq<Product>>, now: nat, rng: nat -> real)
    requires forall n :: 0.0 <= rng(n) < 1.0
    modifies store
    ensures |old(store.orders)| > 0 ==> unchanged(store)
    ensures |old(store.orders)| == 0 && StoredOrders(old(store.storage)).Some? ==>
              store.orders == StoredOrders(old(store.storage)).value && store.storage == old(store.storage)
    ensures |old(store.orders)| == 0 && StoredOrders(old(store.storage)).None? && SeedPool(old(store.products), api).None? ==>
              store.orders == old(store.orders) && store.storage == old(store.storage)
    ensures |old(store.orders)| == 0 && StoredOrders(old(store.storage)).None? && SeedPool(old(store.products), api).Some? ==>
              && |store.orders| == SeededOrderCount
              && (forall i :: 0 <= i < |store.orders| ==>
                    SeededOrder(store.orders[i], i, SeedPool(old(store.products), api).value, now))
              && store.storage == SaveStorage(old(store.storage), OrdersKey, Orders(store.orders), store.storageRefuses)
    ensures store.products == old(store.products)
    ensures store.loading == old(store.loading) && store.storageRefuses == old(store.storageRefuses)
  {
    if |store.orders| == 0 {
      store.FetchOrders(api, now, rng);
    }
  }
}
