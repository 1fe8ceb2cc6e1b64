/** The product page (`ProductDetail`): the related-products strip, "Add to
    Cart", and the quantity picker. */
module ProductDetailPage {
  import opened Lists
  import opened Paging
  import opened Catalog

  const RelatedLimit: nat := 4

  /** `relatedResponse.data.filter((p) => p.id !== product.id).slice(0, 4)`. */
  function Related(sameCategory: seq<Product>, current: Product): (r: seq<Product>)
    ensures |r| <= RelatedLimit
    ensures forall p :: p in r ==> p.id != current.id && p in sameCategory
    ensures var others := Filter(sameCategory, (p: Product) => p.id != current.id);
            r == others[..if |others| < RelatedLimit then |others| else RelatedLimit]
    ensures IsSubsequence(r, sameCategory)
  {
    var others := Filter(sameCategory, (p: Product) => p.id != current.id);
    var r := JsSlice(others, 0, RelatedLimit);
    var k := if |others| < RelatedLimit then |others| else RelatedLimit;
    assert r == others[..k];
    PrefixIsSubsequence(others, k);
    SubsequenceTransitive(r, others, sameCategory);
    r
  }

  /** `handleAddToCart`: `addItem(product)` once per unit of the quantity;
      the calls are returned in the order they are made. */
  method HandleAddToCart(product: Product, quantity: int) returns (calls: seq<Product>)
    ensures |calls| == if quantity > 0 then quantity else 0
    ensures forall k :: 0 <= k < |calls| ==> calls[k] == product
  {
    calls := [];
    var i := 0;
    while i < quantity
      invariant 0 <= i && |calls| == i
      invariant i <= (if quantity > 0 then quantity else 0)
      invariant forall k :: 0 <= k < |calls| ==> calls[k] == product
    {
      calls := calls + [product];
      i := i + 1;
    }
  }

  /** `Math.max(1, parseInt(value) || 1)`; `None` stands for `NaN`. */
  function ParsedQuantity(parsed: Option<int>): (q: int)
    ensures q >= 1
    ensures parsed.Some? && parsed.value >= 1 ==> q == parsed.value
    ensures parsed.None? || parsed.value < 1 ==> q == 1
  {
    var orOne := match parsed case None => 1 case Some(n) => if n == 0 then 1 else n;
    if orOne < 1 then 1 else orOne
  }

  class QuantityPicker {
    var quantity: int

    ghost predicate Valid()
      reads this
    {
      quantity >= 1
    }

    constructor()
      ensures Valid() && quantity == 1
    {
      quantity := 1;
    }

    /** The minus button: `Math.max(1, quantity - 1)`. */
    method Decrement()
      modifies this
      ensures Valid()
      ensures old(quantity) > 1 ==> quantity == old(quantity) - 1
      ensures old(quantity) <= 1 ==> quantity == 1
    {
      quantity := if quantity - 1 < 1 then 1 else quantity - 1;
    }

    /** Typing into the field. */
    method Input(parsed: Option<int>)
      modifies this
      ensures Valid()
      ensures quantity == ParsedQuantity(parsed)
    {
      quantity := ParsedQuantity(parsed);
    }

    /** The plus button. */
    method Increment()
      modifies this
      ensures old(Valid()) ==> Valid()
      ensures quantity == old(quantity) + 1
    {
      quantity := quantity + 1;
    }

    /** Add to Cart with the picked quantity: as many calls as the picker shows,
        and at least one. */
    method AddToCart(product: Product) returns (calls: seq<Product>)
      requires Valid()
      ensures |calls| == quantity && |calls| >= 1
      ensures forall k :: 0 <= k < |calls| ==> calls[k] == product
    {
      calls := HandleAddToCart(product, quantity);
    }
  }
}
