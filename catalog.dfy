/** The records the store and the pages share: catalog products, seeded
    orders and the cart lines the pages read from the cart store. Money is an
    exact `real`, a timestamp is an `int` number of milliseconds. */
module Catalog {
  import opened Lists

  /** An `id` as JavaScript compares it with `===`: the remote catalog uses
      numbers, products added in the back office use strings. */
  datatype Id = NumId(n: int) | StrId(s: string)

  datatype Rating = Rating(rate: real, count: int)

  datatype Product = Product(
    id: Id,
    title: string,
    price: real,
    category: string,
    description: string,
    image: string,
    rating: Option<Rating>)

  /** `product.rating?.rate || 0`: a missing rating counts as 0. */
  function RateOf(p: Product): (r: real)
    ensures p.rating.None? ==> r == 0.0
    ensures p.rating.Some? ==> r == p.rating.value.rate
  {
    match p.rating
    case None => 0.0
    case Some(rating) => rating.rate
  }

  /** The result of JavaScript's `Number(...)` on a form field: a number, or
      `None` for `NaN`. */
  type NumberInput = Option<real>

  /** `Number(x) || 0`: a number stays as it is, `NaN` becomes 0. */
  function CoercePrice(x: NumberInput): (price: real)
    ensures x.Some? ==> price == x.value
    ensures x.None? ==> price == 0.0
  {
    match x
    case None => 0.0
    case Some(v) => v
  }

  /** A cart line as the pages read it from the cart store. */
  datatype CartLine = CartLine(id: Id, title: string, price: real, category: string, image: string, quantity: int)

  datatype Customer = Customer(name: string, email: string)

  datatype OrderItem = OrderItem(id: Id, title: string, price: real, quantity: int)

  datatype Order = Order(
    id: string,
    customer: Customer,
    items: seq<OrderItem>,
    total: real,
    status: string,
    createdAt: int,
    address: string)

  const Pending := "pending"
  const Shipped := "shipped"
  const Delivered := "delivered"

  /** The three statuses the seeder picks from and the status select offers. */
  const StatusOptions: seq<string> := [Pending, Shipped, Delivered]

  const MsPerDay: int := 86400000

  /** The `YYYY-MM-DD` prefix of an ISO timestamp, as a day number (UTC). */
  function DayOf(ms: int): int
  {
    ms / MsPerDay
  }

  /** Stepping a timestamp back by whole days steps its day back by as many. */
  lemma DayOfShift(ms: int, days: int)
    ensures DayOf(ms - days * MsPerDay) == DayOf(ms) - days
  {
  }

  /** `Number(x.toFixed(2))` for a non-negative amount: round half up to cents. */
  function Round2(x: real): real
  {
    ((x * 100.0 + 0.5).Floor as real) / 100.0
  }

  /** Rounding to cents moves an amount by at most half a cent. */
  lemma Round2Close(x: real)
    ensures x - 0.005 < Round2(x) <= x + 0.005
  {
    var f := (x * 100.0 + 0.5).Floor;
    assert f as real <= x * 100.0 + 0.5 < f as real + 1.0;
  }

  /** An amount that is already a whole number of cents is left as it is. */
  lemma Round2Exact(cents: int)
    ensures Round2(cents as real / 100.0) == cents as real / 100.0
  {
    var x := cents as real / 100.0;
    assert x * 100.0 + 0.5 == cents as real + 0.5;
    assert (cents as real + 0.5).Floor == cents;
  }

  /** `items.reduce((s, it) => s + it.price * it.quantity, 0)`. */
  function ItemsTotal(items: seq<OrderItem>): real
  {
    if items == [] then 0.0
    else ItemsTotal(items[..|items| - 1]) + items[|items| - 1].price * items[|items| - 1].quantity as real
  }

  /** The item total adds up over a split of the item list. */
  lemma {:induction false} ItemsTotalAppend(a: seq<OrderItem>, b: seq<OrderItem>)
    ensures ItemsTotal(a + b) == ItemsTotal(a) + ItemsTotal(b)
    decreases |b|
  {
    if b != [] {
      assert (a + b)[..|a + b| - 1] == a + b[..|b| - 1];
      ItemsTotalAppend(a, b[..|b| - 1]);
    } else {
      assert a + b == a;
    }
  }
}
