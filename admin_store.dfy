/** The back-office data store (`useAdminStore`): the product list shown in
    the admin pages, the order list, a loading flag, and best-effort
    persistence in the browser's `localStorage`. */
module AdminStore {
  import opened Lists
  import opened Text
  import opened Catalog

  const ProductsKey := "admin_products"
  const OrdersKey := "admin_orders"

  /** The values `JSON.parse` gives back for the store's two keys. */
  datatype Value = Null | Products(products: seq<Product>) | Orders(orders: seq<Order>)

  /** The text `localStorage` holds under a key: text that decodes to a value,
      the empty text, or text that `JSON.parse` rejects. */
  datatype Slot = Json(value: Value) | EmptyText | Undecodable

  type Storage = map<string, Slot>

  /** `loadStorage(key, fallback)`: the decoded value, or the fallback when the
      key is absent, holds the empty text, or does not decode. Never fails. */
  function LoadStorage(storage: Storage, key: string, fallback: Value): Value
  {
    if key in storage && storage[key].Json? then storage[key].value else fallback
  }

  /** `saveStorage(key, value)`: a write the browser refuses (quota exceeded,
      storage disabled) is silently dropped. Never fails. */
  function SaveStorage(storage: Storage, key: string, value: Value, refused: bool): Storage
  {
    if refused then storage else storage[key := Json(value)]
  }

  /** What was saved is what is loaded back. */
  lemma LoadAfterSave(storage: Storage, key: string, value: Value, fallback: Value)
    ensures LoadStorage(SaveStorage(storage, key, value, false), key, fallback) == value
  {
  }

  /** A refused write changes nothing. */
  lemma RefusedSaveKeepsStorage(storage: Storage, key: string, value: Value)
    ensures SaveStorage(storage, key, value, true) == storage
  {
  }

  /** Saving under one key leaves what every other key loads. */
  lemma SaveLeavesOtherKeys(storage: Storage, key: string, other: string, value: Value, refused: bool, fallback: Value)
    requires other != key
    ensures LoadStorage(SaveStorage(storage, key, value, refused), other, fallback)
         == LoadStorage(storage, other, fallback)
  {
  }

  /** An absent key, an empty text and an undecodable text all load the fallback. */
  lemma LoadFallback(storage: Storage, key: string, fallback: Value)
    requires key !in storage || storage[key] == EmptyText || storage[key] == Undecodable
    ensures LoadStorage(storage, key, fallback) == fallback
  {
  }

  /** `loadStorage(STORAGE_KEYS.products, [])`: the persisted local products. */
  function LocalProducts(storage: Storage): seq<Product>
  {
    match LoadStorage(storage, ProductsKey, Products([]))
    case Products(ps) => ps
    case _ => []
  }

  /** `loadStorage(STORAGE_KEYS.orders, null)` when it is truthy. */
  function StoredOrders(storage: Storage): Option<seq<Order>>
  {
    match LoadStorage(storage, OrdersKey, Null)
    case Orders(os) => Some(os)
    case _ => None
  }

  /** What the add form hands to `addProduct`; an absent field is "". */
  datatype ProductPayload = ProductPayload(
    title: string,
    price: NumberInput,
    category: string,
    description: string,
    image: string,
    imageUrl: string)

  /** The fields the edit form overwrites with `{ ...p, ...updates }`. */
  datatype ProductPatch = ProductPatch(title: string, price: real, category: string, description: string, image: string)

  /** `local-${Date.now()}`. */
  function LocalProductId(now: nat): Id
  {
    StrId("local-" + NatToString(now))
  }

  lemma SuffixOfEqual(p: string, x: string, y: string)
    requires p + x == p + y
    ensures x == y
  {
    assert x == (p + x)[|p|..];
    assert y == (p + y)[|p|..];
  }

  /** Local ids differ exactly when the clock readings differ, so two adds in
      the same millisecond get the same id. */
  lemma LocalProductIdInjective(a: nat, b: nat)
    ensures LocalProductId(a) == LocalProductId(b) <==> a == b
  {
    if LocalProductId(a) == LocalProductId(b) {
      SuffixOfEqual("local-", NatToString(a), NatToString(b));
      NatToStringInjective(a, b);
    }
  }

  /** The record `addProduct` builds from a payload. */
  function NewLocalProduct(payload: ProductPayload, now: nat): (p: Product)
    ensures p.id == LocalProductId(now) && p.title == payload.title
    ensures p.price == CoercePrice(payload.price)
    ensures p.category != ""
    ensures payload.category != "" ==> p.category == payload.category
    ensures payload.category == "" ==> p.category == "uncategorized"
    ensures p.description == payload.description
    ensures p.image == (if payload.image != "" then payload.image else payload.imageUrl)
    ensures p.rating.None?
  {
    Product(
      LocalProductId(now),
      payload.title,
      CoercePrice(payload.price),
      if payload.category != "" then payload.category else "uncategorized",
      payload.description,
      if payload.image != "" then payload.image else if payload.imageUrl != "" then payload.imageUrl else "",
      None)
  }

  /** `{ ...p, ...updates }`. */
  function Merge(p: Product, u: ProductPatch): Product
  {
    p.(title := u.title, price := u.price, category := u.category, description := u.description, image := u.image)
  }

  /** `products.map((p) => (p.id === id ? { ...p, ...updates } : p))`. */
  function MergeMatching(ps: seq<Product>, id: Id, u: ProductPatch): (r: seq<Product>)
    ensures |r| == |ps|
    ensures forall i :: 0 <= i < |ps| ==> r[i].id == ps[i].id && r[i].rating == ps[i].rating
    ensures forall i :: 0 <= i < |ps| && ps[i].id != id ==> r[i] == ps[i]
    ensures forall i :: 0 <= i < |ps| && ps[i].id == id ==> r[i] == Merge(ps[i], u)
  {
    seq(|ps|, i requires 0 <= i < |ps| => if ps[i].id == id then Merge(ps[i], u) else ps[i])
  }

  /** `products.findIndex((p) => p.id === id)`, `None` for -1. */
  function FindIndex(ps: seq<Product>, id: Id): (r: Option<nat>)
    ensures r.Some? ==> r.value < |ps| && ps[r.value].id == id
    ensures r.Some? ==> forall j :: 0 <= j < r.value ==> ps[j].id != id
    ensures r.None? ==> forall j :: 0 <= j < |ps| ==> ps[j].id != id
  {
    if ps == [] then None
    else if ps[0].id == id then Some(0)
    else match FindIndex(ps[1..], id)
      case None => None
      case Some(k) => Some(k + 1)
  }

  /** Some entry of `ps` has the id. */
  predicate HoldsId(ps: seq<Product>, id: Id)
  {
    exists i :: 0 <= i < |ps| && ps[i].id == id
  }

  /** `products.filter((p) => p.id !== id)`; what it keeps is stated by
      `WithoutIdKeeps`. */
  function WithoutId(ps: seq<Product>, id: Id): (r: seq<Product>)
    ensures |r| <= |ps|
    ensures |r| < |ps| <==> HoldsId(ps, id)
  {
    if ps == [] then []
    else
      var rest := WithoutId(ps[1..], id);
      assert HoldsId(ps, id) <==> ps[0].id == id || HoldsId(ps[1..], id) by {
        if HoldsId(ps[1..], id) {
          var i :| 0 <= i < |ps[1..]| && ps[1..][i].id == id;
          assert ps[i + 1].id == id;
        }
        if HoldsId(ps, id) && ps[0].id != id {
          var i :| 0 <= i < |ps| && ps[i].id == id;
          assert ps[1..][i - 1].id == id;
        }
      }
      if ps[0].id == id then rest else [ps[0]] + rest
  }

  /** Removing an id is the filter that drops the entries with it. */
  lemma {:induction false} WithoutIdIsFilter(ps: seq<Product>, id: Id)
    ensures WithoutId(ps, id) == Filter(ps, (p: Product) => p.id != id)
  {
    if ps != [] {
      WithoutIdIsFilter(ps[1..], id);
    }
  }

  /** Every copy of each entry without the id remains, in order, and no entry
      with it. */
  lemma WithoutIdKeeps(ps: seq<Product>, id: Id)
    ensures var r := WithoutId(ps, id);
            && (forall p :: p in r <==> p in ps && p.id != id)
            && (forall p :: multiset(r)[p] == if p.id != id then multiset(ps)[p] else 0)
            && IsSubsequence(r, ps)
  {
    WithoutIdIsFilter(ps, id);
  }

  /** `orders.map((o) => (o.id === orderId ? { ...o, status } : o))`. */
  function WithStatus(os: seq<Order>, id: string, status: string): (r: seq<Order>)
    ensures |r| == |os|
    ensures forall i :: 0 <= i < |os| && os[i].id != id ==> r[i] == os[i]
    ensures forall i :: 0 <= i < |os| && os[i].id == id ==> r[i] == os[i].(status := status)
  {
    seq(|os|, i requires 0 <= i < |os| => if os[i].id == id then os[i].(status := status) else os[i])
  }

  /** Setting the same status twice is setting it once. */
  lemma WithStatusIdempotent(os: seq<Order>, id: string, status: string)
    ensures WithStatus(WithStatus(os, id, status), id, status) == WithStatus(os, id, status)
  {
  }

  /** The demo customers the seeder picks from. */
  const SampleCustomers: seq<Customer> := [
    Customer("Alice Johnson", "alice@example.com"),
    Customer("Mark Chen", "mark@example.com"),
    Customer("Sara Khan", "sara@example.com"),
    Customer("John Smith", "john@example.com")
  ]

  const SeededOrderCount: nat := 8

  /** `rand(min, max)` fed with one `Math.random()` reading `r`. */
  function Rand(r: real, min: int, max: int): int
  {
    (r * (max - min + 1) as real).Floor + min
  }

  /** With a reading in `[0, 1)`, `rand(min, max)` lies in `[min, max]`. */
  lemma RandInRange(r: real, min: int, max: int)
    requires 0.0 <= r < 1.0 && min <= max
    ensures min <= Rand(r, min, max) <= max
  {
    var k := (max - min + 1) as real;
    assert 0.0 <= r * k < k by {
      assert r * k <= 1.0 * k - (1.0 - r) * k;
    }
  }

  /** `ord-${Date.now()}-${i}`. */
  function OrderId(now: nat, i: nat): string
  {
    "ord-" + NatToString(now) + "-" + NatToString(i)
  }

  /** The orders of one seeded batch have pairwise different ids. */
  lemma OrderIdInjective(now: nat, i: nat, j: nat)
    ensures OrderId(now, i) == OrderId(now, j) <==> i == j
  {
    if OrderId(now, i) == OrderId(now, j) {
      var p := "ord-" + NatToString(now) + "-";
      assert OrderId(now, i) == p + NatToString(i);
      assert OrderId(now, j) == p + NatToString(j);
      SuffixOfEqual(p, NatToString(i), NatToString(j));
      NatToStringInjective(i, j);
    }
  }

  /** A seeded line item: a copy of some product of the pool, 1 to 3 pieces. */
  ghost predicate SeededItem(it: OrderItem, pool: seq<Product>)
  {
    && 1 <= it.quantity <= 3
    && exists j :: 0 <= j < |pool| && it.id == pool[j].id && it.title == pool[j].title && it.price == pool[j].price
  }

  /** The shape of the `i`-th seeded order. */
  ghost predicate SeededOrder(o: Order, i: nat, pool: seq<Product>, now: nat)
  {
    && o.id == OrderId(now, i)
    && 1 <= |o.items| <= 4
    && (forall k :: 0 <= k < |o.items| ==> SeededItem(o.items[k], pool))
    && o.total == Round2(ItemsTotal(o.items))
    && o.status in StatusOptions
    && o.customer in SampleCustomers
    && now - 14 * MsPerDay <= o.createdAt <= now
    && (now - o.createdAt) % MsPerDay == 0
    && exists n :: 100 <= n <= 999 && o.address == NatToString(n) + " Market St, Cityville"
  }

  /** The pool the seeder draws products from: the loaded products, else the
      remote catalog; `None` when that fetch fails or there is nothing to pick
      from (`pick` then throws and `fetchOrders` gives up). */
  function SeedPool(products: seq<Product>, api: Option<seq<Product>>): (pool: Option<seq<Product>>)
    ensures pool.Some? ==> |pool.value| > 0
    ensures |products| > 0 ==> pool == Some(products)
    ensures |products| == 0 && (api.None? || api.value == []) ==> pool.None?
  {
    if |products| > 0 then Some(products)
    else if api.Some? && |api.value| > 0 then api
    else None
  }

  /** The demo batch of `fetchOrders`, drawing `Math.random()` readings from
      `rng` in the order the source consumes them. */
  method SeedOrders(pool: seq<Product>, now: nat, rng: nat -> real) returns (demo: seq<Order>)
    requires |pool| > 0
    requires forall n :: 0.0 <= rng(n) < 1.0
    ensures |demo| == SeededOrderCount
    ensures forall i :: 0 <= i < |demo| ==> SeededOrder(demo[i], i, pool, now)
  {
    demo := [];
    var next: nat := 0;
    for i := 0 to SeededOrderCount
      invariant |demo| == i
      invariant forall k :: 0 <= k < i ==> SeededOrder(demo[k], k, pool, now)
    {
      RandInRange(rng(next), 1, 4);
      var itemsCount := Rand(rng(next), 1, 4);
      next := next + 1;
      var items: seq<OrderItem> := [];
      while |items| < itemsCount
        invariant |items| <= itemsCount
        invariant forall k :: 0 <= k < |items| ==> SeededItem(items[k], pool)
      {
        RandInRange(rng(next), 0, |pool| - 1);
        var prod := pool[Rand(rng(next), 0, |pool| - 1)];
        RandInRange(rng(next + 1), 1, 3);
        var qty := Rand(rng(next + 1), 1, 3);
        next := next + 2;
        items := items + [OrderItem(prod.id, prod.title, CoercePrice(Some(prod.price)), qty)];
      }
      var total := ItemsTotal(items);
      RandInRange(rng(next), 0, 14);
      var daysAgo := Rand(rng(next), 0, 14);
      RandInRange(rng(next + 1), 0, |SampleCustomers| - 1);
      var customer := SampleCustomers[Rand(rng(next + 1), 0, |SampleCustomers| - 1)];
      RandInRange(rng(next + 2), 0, |StatusOptions| - 1);
      var status := StatusOptions[Rand(rng(next + 2), 0, |StatusOptions| - 1)];
      RandInRange(rng(next + 3), 100, 999);
      var street := Rand(rng(next + 3), 100, 999);
      next := next + 4;
      var order := Order(
        OrderId(now, i), customer, items, Round2(total), status,
        now - daysAgo * MsPerDay, NatToString(street) + " Market St, Cityville");
      assert (now - order.createdAt) % MsPerDay == 0 by {
        assert now - order.createdAt == daysAgo * MsPerDay;
      }
      demo := demo + [order];
    }
  }

  /** The seeded batch is one of orders with pairwise different ids. */
  lemma SeededIdsDistinct(demo: seq<Order>, pool: seq<Product>, now: nat)
    requires forall i :: 0 <= i < |demo| ==> SeededOrder(demo[i], i, pool, now)
    ensures forall i, j :: 0 <= i < j < |demo| ==> demo[i].id != demo[j].id
  {
    forall i, j | 0 <= i < j < |demo| ensures demo[i].id != demo[j].id {
      OrderIdInjective(now, i, j);
    }
  }

  class Store {
    var products: seq<Product>
    var orders: seq<Order>
    var loading: bool
    /** The browser's `localStorage`, as far as the store uses it. */
    var storage: Storage
    /** Whether `localStorage.setItem` currently throws. */
    var storageRefuses: bool

    constructor(storage: Storage, storageRefuses: bool)
      ensures products == [] && orders == [] && !loading
      ensures this.storage == storage && this.storageRefuses == storageRefuses
    {
      products := [];
      orders := [];
      loading := false;
      this.storage := storage;
      this.storageRefuses := storageRefuses;
    }

    /** `fetchProducts`: the remote catalog followed by the local products,
        or the local products alone when the fetch fails. */
    method FetchProducts(api: Option<seq<Product>>)
      modifies this
      ensures api.Some? ==> products == api.value + LocalProducts(storage)
      ensures api.None? ==> products == LocalProducts(storage)
      ensures !loading
      ensures orders == old(orders) && storage == old(storage) && storageRefuses == old(storageRefuses)
    {
      loading := true;
      match api {
        case Some(remote) =>
          var local := LocalProducts(storage);
          products := remote + local;
        case None =>
          products := LocalProducts(storage);
      }
      loading := false;
    }

    /** `addProduct`: the new record goes in front of the persisted local list
        and of the in-memory list, with no check for an existing id. */
    method AddProduct(payload: ProductPayload, now: nat) returns (p: Product)
      modifies this
      ensures p == NewLocalProduct(payload, now)
      ensures products == [p] + old(products)
      ensures storage == SaveStorage(old(storage), ProductsKey, Products([p] + LocalProducts(old(storage))), storageRefuses)
      ensures !storageRefuses ==> LocalProducts(storage) == [p] + LocalProducts(old(storage))
      ensures storageRefuses ==> storage == old(storage)
      ensures orders == old(orders) && loading == old(loading) && storageRefuses == old(storageRefuses)
    {
      p := NewLocalProduct(payload, now);
      var localProducts := LocalProducts(storage);
      var updatedLocal := [p] + localProducts;
      storage := SaveStorage(storage, ProductsKey, Products(updatedLocal), storageRefuses);
      products := [p] + products;
    }

    /** `updateProduct`: the first matching persisted record and every matching
        in-memory record take the patch; edits to remote products stay in
        memory. */
    method UpdateProduct(id: Id, u: ProductPatch)
      modifies this
      ensures products == MergeMatching(old(products), id, u)
      ensures var local := LocalProducts(old(storage));
              match FindIndex(local, id)
              case None => storage == old(storage)
              case Some(i) => storage == SaveStorage(old(storage), ProductsKey, Products(local[i := Merge(local[i], u)]), storageRefuses)
      ensures orders == old(orders) && loading == old(loading) && storageRefuses == old(storageRefuses)
    {
      var localProducts := LocalProducts(storage);
      var localIdx := FindIndex(localProducts, id);
      if localIdx.Some? {
        var i := localIdx.value;
        var merged := Merge(localProducts[i], u);
        var nextLocal := localProducts[i := merged];
        storage := SaveStorage(storage, ProductsKey, Products(nextLocal), storageRefuses);
      }
      products := MergeMatching(products, id, u);
    }

    /** `deleteProduct`: every in-memory record with the id goes; the local
        list is written back only when it held the id. */
    method DeleteProduct(id: Id)
      modifies this
      ensures products == WithoutId(old(products), id)
      ensures var local := LocalProducts(old(storage));
              if HoldsId(local, id)
              then storage == SaveStorage(old(storage), ProductsKey, Products(WithoutId(local, id)), storageRefuses)
              else storage == old(storage)
      ensures orders == old(orders) && loading == old(loading) && storageRefuses == old(storageRefuses)
    {
      var localProducts := LocalProducts(storage);
      var nextLocal := WithoutId(localProducts, id);
      if |nextLocal| != |localProducts| {
        storage := SaveStorage(storage, ProductsKey, Products(nextLocal), storageRefuses);
      }
      products := WithoutId(products, id);
    }

    /** `fetchOrders`: the persisted orders when there are any; otherwise a
        batch of 8 demo orders, saved once. A failed catalog fetch, or nothing
        to pick products from, ends the call with nothing changed. */
    method FetchOrders(api: Option<seq<Product>>, now: nat, rng: nat -> real)
      requires forall n :: 0.0 <= rng(n) < 1.0
      modifies this
      ensures StoredOrders(old(storage)).Some? ==>
                orders == StoredOrders(old(storage)).value && storage == old(storage)
      ensures StoredOrders(old(storage)).None? && SeedPool(old(products), api).None? ==>
                orders == old(orders) && storage == old(storage)
      ensures StoredOrders(old(storage)).None? && SeedPool(old(products), api).Some? ==>
                && |orders| == SeededOrderCount
                && (forall i :: 0 <= i < |orders| ==> SeededOrder(orders[i], i, SeedPool(old(products), api).value, now))
                && storage == SaveStorage(old(storage), OrdersKey, Orders(orders), storageRefuses)
      ensures !storageRefuses && (StoredOrders(old(storage)).Some? || SeedPool(old(products), api).Some?) ==>
                StoredOrders(storage) == Some(orders)
      ensures products == old(products) && loading == old(loading) && storageRefuses == old(storageRefuses)
    {
      var stored := StoredOrders(storage);
      if stored.Some? {
        orders := stored.value;
        return;
      }
      var pool := SeedPool(products, api);
      if pool.None? {
        return;
      }
      var demo := SeedOrders(pool.value, now, rng);
      storage := SaveStorage(storage, OrdersKey, Orders(demo), storageRefuses);
      orders := demo;
    }

    /** `updateOrderStatus`: any status may replace any other; the in-memory
        list and the persisted list are the same afterwards. */
    method UpdateOrderStatus(orderId: string, status: string)
      modifies this
      ensures orders == WithStatus(old(orders), orderId, status)
      ensures storage == SaveStorage(old(storage), OrdersKey, Orders(orders), storageRefuses)
      ensures !storageRefuses ==> StoredOrders(storage) == Some(orders)
      ensures products == old(products) && loading == old(loading) && storageRefuses == old(storageRefuses)
    {
      orders := WithStatus(orders, orderId, status);
      var updated := WithStatus(orders, orderId, status);
      WithStatusIdempotent(old(orders), orderId, status);
      storage := SaveStorage(storage, OrdersKey, Orders(updated), storageRefuses);
    }
  }

  /** Seeding happens once: whatever the first call does (load the stored
      orders, seed and save a batch, or find nothing to pick from), a second
      call with working storage ends with the same orders. */
  method FetchOrdersTwice(store: Store, api: Option<seq<Product>>, now1: nat, now2: nat, rng1: nat -> real, rng2: nat -> real)
    returns (ghost first: seq<Order>)
    requires forall n :: 0.0 <= rng1(n) < 1.0
    requires forall n :: 0.0 <= rng2(n) < 1.0
    requires !store.storageRefuses
    modifies store
    ensures StoredOrders(old(store.storage)).Some? ==> first == StoredOrders(old(store.storage)).value
    ensures StoredOrders(old(store.storage)).None? && SeedPool(old(store.products), api).Some? ==>
              && |first| == SeededOrderCount
              && forall i :: 0 <= i < |first| ==> SeededOrder(first[i], i, SeedPool(old(store.products), api).value, now1)
    ensures StoredOrders(old(store.storage)).None? && SeedPool(old(store.products), api).None? ==>
              first == old(store.orders) && store.storage == old(store.storage)
    ensures store.orders == first
    ensures StoredOrders(old(store.storage)).Some? || SeedPool(old(store.products), api).Some? ==>
              StoredOrders(store.storage) == Some(first)
  {
    store.FetchOrders(api, now1, rng1);
    first := store.orders;
    store.FetchOrders(api, now2, rng2);
  }

  /** A status change survives a reload, whatever the previous status was. */
  method StatusChangeSurvivesReload(store: Store, orderId: string, status: string, rng: nat -> real, now: nat)
    requires forall n :: 0.0 <= rng(n) < 1.0
    requires !store.storageRefuses
    modifies store
    ensures store.orders == WithStatus(old(store.orders), orderId, status)
    ensures StoredOrders(store.storage) == Some(store.orders)
    ensures forall i :: 0 <= i < |store.orders| && store.orders[i].id == orderId ==> store.orders[i].status == status
  {
    store.UpdateOrderStatus(orderId, status);
    ghost var updated := store.orders;
    store.orders := [];
    store.FetchOrders(None, now, rng);
    assert store.orders == updated;
  }
}
