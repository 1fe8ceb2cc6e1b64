/** The cart page (`Cart`): the order summary computed from the cart store's
    subtotal, the free-shipping hint, and the quantity buttons, which only
    forward requests to the cart store. */
module CartPage {
  import opened Lists
  import opened Catalog

  const FreeShippingOver: real := 50.0
  const ShippingFee: real := 10.0
  const TaxRate: real := 0.08

  /** `getTotalPrice() > 50 ? 0 : 10`: an order of exactly 50 still pays. */
  function Shipping(subtotal: real): (s: real)
    ensures s == 0.0 || s == ShippingFee
    ensures s == 0.0 <==> subtotal > FreeShippingOver
  {
    if subtotal > FreeShippingOver then 0.0 else ShippingFee
  }

  function Tax(subtotal: real): real
  {
    subtotal * TaxRate
  }

  /** The displayed total. */
  function Total(subtotal: real): (t: real)
    ensures t == subtotal * 1.08 + Shipping(subtotal)
  {
    subtotal + Shipping(subtotal) + Tax(subtotal)
  }

  /** The free-shipping hint: `None` once shipping is free, otherwise the
      amount still missing, which is never negative. */
  function FreeShippingGap(subtotal: real): (gap: Option<real>)
    ensures gap.None? <==> subtotal > FreeShippingOver
    ensures gap.Some? ==> gap.value >= 0.0 && subtotal + gap.value == FreeShippingOver
  {
    if subtotal > FreeShippingOver then None else Some(FreeShippingOver - subtotal)
  }

  /** The total as a formula on each side of the threshold: up to and
      including 50 the fee is added, above 50 it is not, so crossing the
      threshold lowers the total for any subtotal within 10 / 1.08 of it. */
  lemma ThresholdStep(s: real, t: real)
    ensures s <= FreeShippingOver ==> Total(s) == s * 1.08 + ShippingFee
    ensures s > FreeShippingOver ==> Total(s) == s * 1.08
    ensures s <= FreeShippingOver < t && (t - s) * 1.08 < ShippingFee ==> Total(t) < Total(s)
  {
  }

  /** Below or at the threshold, topping up by the hinted amount does not yet
      make shipping free; any amount beyond it does. */
  lemma GapIsExact(subtotal: real, extra: real)
    requires subtotal <= FreeShippingOver && extra > 0.0
    ensures Shipping(subtotal + FreeShippingGap(subtotal).value) == ShippingFee
    ensures Shipping(subtotal + FreeShippingGap(subtotal).value + extra) == 0.0
  {
  }

  datatype Summary = Summary(subtotal: real, shipping: real, tax: real, total: real, gap: Option<real>)

  /** What the page renders: the empty state for an empty cart, otherwise the
      lines and the order summary. */
  datatype CartView = EmptyState | Filled(lines: seq<CartLine>, summary: Summary)

  function Render(lines: seq<CartLine>, subtotal: real): (v: CartView)
    ensures v.EmptyState? <==> lines == []
    ensures v.Filled? ==> v.lines == lines
    ensures v.Filled? ==>
              v.summary == Summary(subtotal, Shipping(subtotal), Tax(subtotal), Total(subtotal), FreeShippingGap(subtotal))
    ensures v.Filled? ==> v.summary.total == v.summary.subtotal + v.summary.shipping + v.summary.tax
    ensures v.Filled? ==> (v.summary.shipping == 0.0 <==> v.summary.gap.None?)
  {
    if lines == [] then EmptyState
    else Filled(lines, Summary(subtotal, Shipping(subtotal), Tax(subtotal), Total(subtotal), FreeShippingGap(subtotal)))
  }

  /** A request `updateQuantity(id, quantity)` to the cart store. */
  datatype QuantityRequest = QuantityRequest(id: Id, quantity: int)

  function MinusRequest(line: CartLine): (r: QuantityRequest)
    ensures r.id == line.id && r.quantity == line.quantity - 1
  {
    QuantityRequest(line.id, line.quantity - 1)
  }

  function PlusRequest(line: CartLine): (r: QuantityRequest)
    ensures r.id == line.id && r.quantity == line.quantity + 1
  {
    QuantityRequest(line.id, line.quantity + 1)
  }
}
