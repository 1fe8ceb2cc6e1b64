/** The back-office order table (`AdminOrders` page): a status filter with
    per-status counts, a sortable and paginated view, and the per-row status
    select. */
module AdminOrdersPage {
  import opened Lists
  import opened Text
  import opened Sorting
  import opened Paging
  import opened Catalog
  import opened AdminStore

  const AllOrders := "all"

  const ByCustomer := "customer"
  const ByTotal := "total"
  const ByDate := "date"

  /** The status of every order, in order. */
  function Statuses(os: seq<Order>): (r: seq<string>)
    ensures |r| == |os| && forall i :: 0 <= i < |os| ==> r[i] == os[i].status
  {
    seq(|os|, i requires 0 <= i < |os| => os[i].status)
  }

  /** How many orders have status `s`. */
  function CountOf(os: seq<Order>, s: string): nat
  {
    multiset(Statuses(os))[s]
  }

  /** `orders.filter((o) => o.status === s)`. */
  function OfStatus(os: seq<Order>, s: string): (r: seq<Order>)
    ensures IsSubsequence(r, os)
    ensures forall o :: o in r <==> o in os && o.status == s
    ensures forall o :: multiset(r)[o] == if o.status == s then multiset(os)[o] else 0
  {
    Filter(os, (o: Order) => o.status == s)
  }

  /** The status filter keeps one row per order of that status. */
  lemma {:induction false} OfStatusLength(os: seq<Order>, s: string)
    ensures |OfStatus(os, s)| == CountOf(os, s)
  {
    if os != [] {
      OfStatusLength(os[1..], s);
      CountOfCons(os[0], os[1..], s);
      assert os == [os[0]] + os[1..];
    }
  }

  /** Putting an order in front adds one to the count of its status only. */
  lemma CountOfCons(o: Order, os: seq<Order>, s: string)
    ensures CountOf([o] + os, s) == CountOf(os, s) + (if o.status == s then 1 else 0)
  {
    assert Statuses([o] + os) == [o.status] + Statuses(os);
  }

  /** `filtered`: every order for `'all'`, otherwise the orders with that
      status in their original order. */
  function FilteredOrders(os: seq<Order>, filter: string): (r: seq<Order>)
    ensures filter == AllOrders ==> r == os
    ensures filter != AllOrders ==> IsSubsequence(r, os)
    ensures filter != AllOrders ==> forall o :: o in r <==> o in os && o.status == filter
    ensures filter != AllOrders ==> |r| == CountOf(os, filter)
  {
    if filter == AllOrders then os
    else
      OfStatusLength(os, filter);
      OfStatus(os, filter)
  }

  /** `counts`: a reduce over the orders into an object whose keys start as
      the three statuses at 0; any other status gets a key of its own. */
  function StatusCounts(os: seq<Order>): (m: map<string, int>)
    ensures Pending in m && Shipped in m && Delivered in m
  {
    if os == [] then map[Pending := 0, Shipped := 0, Delivered := 0]
    else
      var acc := StatusCounts(os[..|os| - 1]);
      var st := os[|os| - 1].status;
      acc[st := (if st in acc then acc[st] else 0) + 1]
  }

  /** The keys of `counts` are the three statuses and every status that
      occurs; the value under a key is the number of orders with it. */
  lemma {:induction false} StatusCountsCorrect(os: seq<Order>)
    ensures var m := StatusCounts(os);
            && (forall s :: s in m <==> s in StatusOptions || s in Statuses(os))
            && (forall s :: s in m ==> m[s] == CountOf(os, s))
  {
    if os != [] {
      var prefix := os[..|os| - 1];
      var last := os[|os| - 1];
      StatusCountsCorrect(prefix);
      assert os == prefix + [last];
      assert Statuses(os) == Statuses(prefix) + [last.status];
      forall s ensures CountOf(os, s) == CountOf(prefix, s) + (if last.status == s then 1 else 0) {
        CountOfSnoc(prefix, last, s);
      }
    }
  }

  /** Appending an order adds one to the count of its status only. */
  lemma CountOfSnoc(os: seq<Order>, o: Order, s: string)
    ensures CountOf(os + [o], s) == CountOf(os, s) + (if o.status == s then 1 else 0)
  {
    assert Statuses(os + [o]) == Statuses(os) + [o.status];
  }

  /** When every order has one of the three statuses, the three counts add up
      to the number of orders. */
  lemma {:induction false} StatusCountsSum(os: seq<Order>)
    requires forall i :: 0 <= i < |os| ==> os[i].status in StatusOptions
    ensures var m := StatusCounts(os);
            m[Pending] + m[Shipped] + m[Delivered] == |os|
  {
    StatusCountsCorrect(os);
    ThreeCountsSum(os);
  }

  lemma {:induction false} ThreeCountsSum(os: seq<Order>)
    requires forall i :: 0 <= i < |os| ==> os[i].status in StatusOptions
    ensures CountOf(os, Pending) + CountOf(os, Shipped) + CountOf(os, Delivered) == |os|
  {
    if os == [] {
      assert Statuses(os) == [];
    } else {
      var prefix := os[..|os| - 1];
      var last := os[|os| - 1];
      assert os == prefix + [last];
      ThreeCountsSum(prefix);
      CountOfSnoc(prefix, last, Pending);
      CountOfSnoc(prefix, last, Shipped);
      CountOfSnoc(prefix, last, Delivered);
    }
  }

  /** The count a filter button shows is the number of rows that filter lists. */
  lemma FilterButtonCount(os: seq<Order>, s: string)
    requires s in StatusOptions
    ensures StatusCounts(os)[s] == |FilteredOrders(os, s)|
  {
    StatusCountsCorrect(os);
  }

  /** The comparator of `sortedFiltered`; an unknown column ties every pair. */
  function OrderOrder(sortBy: string, sortOrder: string, a: Order, b: Order): real
  {
    if sortBy == ByCustomer then
      (if sortOrder == Asc then StrCmp(a.customer.name, b.customer.name) else StrCmp(b.customer.name, a.customer.name)) as real
    else if sortBy == ByTotal then
      (if sortOrder == Asc then a.total - b.total else b.total - a.total)
    else if sortBy == ByDate then
      (if sortOrder == Asc then a.createdAt - b.createdAt else b.createdAt - a.createdAt) as real
    else 0.0
  }

  function OrderComparator(sortBy: string, sortOrder: string): (Order, Order) -> real
  {
    (a: Order, b: Order) => OrderOrder(sortBy, sortOrder, a, b)
  }

  lemma OrderComparatorConsistent(sortBy: string, sortOrder: string)
    ensures Consistent(OrderComparator(sortBy, sortOrder))
  {
    var cmp := OrderComparator(sortBy, sortOrder);
    forall a: Order, b: Order ensures cmp(a, b) <= 0.0 || cmp(b, a) <= 0.0 {
      StrCmpAntisymmetric(a.customer.name, b.customer.name);
    }
    forall a: Order, b: Order, c: Order | cmp(a, b) <= 0.0 && cmp(b, c) <= 0.0
      ensures cmp(a, c) <= 0.0
    {
      if sortBy == ByCustomer {
        if sortOrder == Asc {
          StrCmpTransitive(a.customer.name, b.customer.name, c.customer.name);
        } else {
          StrCmpTransitive(c.customer.name, b.customer.name, a.customer.name);
        }
      }
    }
  }

  /** `sortedFiltered`: a sorted copy of the filtered list. */
  function SortedOrders(os: seq<Order>, sortBy: string, sortOrder: string): (r: seq<Order>)
    ensures |r| == |os| && multiset(r) == multiset(os)
  {
    Sort(os, OrderComparator(sortBy, sortOrder))
  }

  /** The sorted copy follows the chosen column in the chosen direction. */
  lemma SortedOrdersOrder(os: seq<Order>, sortBy: string, sortOrder: string)
    ensures var r := SortedOrders(os, sortBy, sortOrder);
            forall i, j :: 0 <= i < j < |r| ==>
              && (sortBy == ByCustomer && sortOrder == Asc ==> StrCmp(r[i].customer.name, r[j].customer.name) <= 0)
              && (sortBy == ByCustomer && sortOrder != Asc ==> StrCmp(r[j].customer.name, r[i].customer.name) <= 0)
              && (sortBy == ByTotal && sortOrder == Asc ==> r[i].total <= r[j].total)
              && (sortBy == ByTotal && sortOrder != Asc ==> r[i].total >= r[j].total)
              && (sortBy == ByDate && sortOrder == Asc ==> r[i].createdAt <= r[j].createdAt)
              && (sortBy == ByDate && sortOrder != Asc ==> r[i].createdAt >= r[j].createdAt)
  {
    var cmp := OrderComparator(sortBy, sortOrder);
    OrderComparatorConsistent(sortBy, sortOrder);
    SortSorted(os, cmp);
    var r := SortedOrders(os, sortBy, sortOrder);
    forall i, j | 0 <= i < j < |r| ensures cmp(r[i], r[j]) <= 0.0 {
    }
  }

  /** An unknown column leaves the filtered order as it is. */
  lemma SortedOrdersUnknownColumn(os: seq<Order>, sortBy: string, sortOrder: string)
    requires sortBy != ByCustomer && sortBy != ByTotal && sortBy != ByDate
    ensures SortedOrders(os, sortBy, sortOrder) == os
  {
    SortAllTied(os, OrderComparator(sortBy, sortOrder));
  }

  /** The direction a column starts in when it becomes current. */
  function InitialOrder(column: string): (r: string)
    ensures column == ByDate ==> r == Desc
    ensures column != ByDate ==> r == Asc
  {
    if column == ByDate then Desc else Asc
  }

  class AdminOrdersView {
    var filter: string
    var sortBy: string
    var sortOrder: string
    var page: int

    /** The filter is one of the four buttons, the column one of the three
        headers, the direction one of two. */
    ghost predicate Valid()
      reads this
    {
      && (filter == AllOrders || filter in StatusOptions)
      && (sortBy == ByCustomer || sortBy == ByTotal || sortBy == ByDate)
      && (sortOrder == Asc || sortOrder == Desc)
    }

    constructor()
      ensures Valid()
      ensures filter == AllOrders && sortBy == ByDate && sortOrder == Desc && page == 1
    {
      filter := AllOrders;
      sortBy := ByDate;
      sortOrder := Desc;
      page := 1;
    }

    /** The rows of the current page. */
    function Shown(orders: seq<Order>): (r: seq<Order>)
      reads this
      ensures |r| <= PageSize
    {
      PageItemsBound(SortedOrders(FilteredOrders(orders, filter), sortBy, sortOrder), page);
      PageItems(SortedOrders(FilteredOrders(orders, filter), sortBy, sortOrder), page)
    }

    /** `totalPages`, over the filtered list. */
    function TotalPagesFor(orders: seq<Order>): (n: nat)
      reads this
      ensures filter == AllOrders ==> n == TotalPages(|orders|)
      ensures filter != AllOrders ==> n == TotalPages(CountOf(orders, filter))
    {
      TotalPages(|SortedOrders(FilteredOrders(orders, filter), sortBy, sortOrder)|)
    }

    /** A filter button; the page number is kept as it is. */
    method ClickFilter(f: string)
      requires Valid()
      requires f == AllOrders || f in StatusOptions
      modifies this
      ensures Valid()
      ensures filter == f && sortBy == old(sortBy) && sortOrder == old(sortOrder) && page == old(page)
    {
      filter := f;
    }

    /** A header click: the current column flips its direction; another column
        becomes current, in ascending order except the date, which starts
        newest first. */
    method ClickHeader(column: string)
      requires Valid()
      requires column == ByCustomer || column == ByTotal || column == ByDate
      modifies this
      ensures Valid()
      ensures sortBy == column
      ensures old(sortBy) == column ==> sortOrder == Flip(old(sortOrder))
      ensures old(sortBy) != column ==> sortOrder == InitialOrder(column)
      ensures filter == old(filter) && page == old(page)
    {
      if sortBy == column {
        sortOrder := Flip(sortOrder);
      } else {
        sortBy := column;
        sortOrder := InitialOrder(column);
      }
    }

    method ClickPrev(orders: seq<Order>)
      modifies this
      ensures page == PrevPage(old(page))
      ensures 1 <= old(page) <= TotalPagesFor(orders) ==> 1 <= page <= TotalPagesFor(orders)
      ensures filter == old(filter) && sortBy == old(sortBy) && sortOrder == old(sortOrder)
    {
      if 1 <= page <= TotalPagesFor(orders) {
        PrevNextStayInRange(page, TotalPagesFor(orders));
      }
      page := PrevPage(page);
    }

    method ClickNext(orders: seq<Order>)
      modifies this
      ensures page == NextPage(old(page), old(TotalPagesFor(orders)))
      ensures 1 <= old(page) <= TotalPagesFor(orders) ==> 1 <= page <= TotalPagesFor(orders)
      ensures filter == old(filter) && sortBy == old(sortBy) && sortOrder == old(sortOrder)
    {
      var totalPages := TotalPagesFor(orders);
      if 1 <= page <= totalPages {
        PrevNextStayInRange(page, totalPages);
      }
      page := NextPage(page, totalPages);
    }

    /** The status select of a row: its options are the three statuses, so the
        store is only asked for one of them, and orders keep statuses among the
        three when they had them before. */
    method SelectStatus(store: Store, orderId: string, option: nat)
      requires option < |StatusOptions|
      modifies store
      ensures store.orders == WithStatus(old(store.orders), orderId, StatusOptions[option])
      ensures (forall i :: 0 <= i < |old(store.orders)| ==> old(store.orders)[i].status in StatusOptions) ==>
                forall i :: 0 <= i < |store.orders| ==> store.orders[i].status in StatusOptions
      ensures store.storage == SaveStorage(old(store.storage), OrdersKey, Orders(store.orders), store.storageRefuses)
      ensures !store.storageRefuses ==> StoredOrders(store.storage) == Some(store.orders)
      ensures store.products == old(store.products)
      ensures store.loading == old(store.loading) && store.storageRefuses == old(store.storageRefuses)
    {
      store.UpdateOrderStatus(orderId, StatusOptions[option]);
    }
  }
}
