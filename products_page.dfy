/** The storefront product list (`Products` page): a search filter, a
    category filter, a price-range filter, then an optional sort. */
module ProductsPage {
  import opened Lists
  import opened Text
  import opened Sorting
  import opened Catalog

  /** The two price sliders; both ends are inclusive. */
  datatype PriceRange = PriceRange(min: real, max: real)

  const DefaultPriceRange := PriceRange(0.0, 1000.0)

  const PriceLow := "priceLow"
  const PriceHigh := "priceHigh"
  const ByRating := "rating"

  /** The lower-cased title or description contains the lower-cased query. */
  predicate MatchesSearch(p: Product, query: string)
  {
    var q := ToLower(query);
    Includes(ToLower(p.title), q) || Includes(ToLower(p.description), q)
  }

  predicate InPriceRange(p: Product, range: PriceRange)
  {
    range.min <= p.price <= range.max
  }

  /** `selectedCategory || categoryParam`, with an absent parameter as "". */
  function ActiveCategory(selected: string, param: Option<string>): (c: string)
    ensures selected != "" ==> c == selected
    ensures selected == "" && param.Some? ==> c == param.value
    ensures selected == "" && param.None? ==> c == ""
  {
    if selected != "" then selected
    else match param
      case None => ""
      case Some(v) => v
  }

  /** Whether a product survives all three filters: the reference definition
      of the filtered list's contents. A missing or empty query, and an empty
      active category, filter nothing. */
  predicate Kept(p: Product, query: Option<string>, category: string, range: PriceRange)
  {
    && (query.None? || query.value == "" || MatchesSearch(p, query.value))
    && (category == "" || p.category == category)
    && InPriceRange(p, range)
  }

  /** The search step: applied only when the query is present and non-empty. */
  function SearchStep(ps: seq<Product>, query: Option<string>): (r: seq<Product>)
    ensures IsSubsequence(r, ps)
    ensures forall p :: p in r <==> p in ps && (query.None? || query.value == "" || MatchesSearch(p, query.value))
    ensures forall p :: multiset(r)[p] == if (query.None? || query.value == "" || MatchesSearch(p, query.value)) then multiset(ps)[p] else 0
  {
    if query.Some? && query.value != "" then Filter(ps, (p: Product) => MatchesSearch(p, query.value))
    else
      PrefixIsSubsequence(ps, |ps|);
      assert ps[..|ps|] == ps;
      ps
  }

  /** The category step: applied only when the active category is non-empty. */
  function CategoryStep(ps: seq<Product>, category: string): (r: seq<Product>)
    ensures IsSubsequence(r, ps)
    ensures forall p :: p in r <==> p in ps && (category == "" || p.category == category)
    ensures forall p :: multiset(r)[p] == if (category == "" || p.category == category) then multiset(ps)[p] else 0
  {
    if category != "" then Filter(ps, (p: Product) => p.category == category)
    else
      PrefixIsSubsequence(ps, |ps|);
      assert ps[..|ps|] == ps;
      ps
  }

  /** The price step: always applied. */
  function PriceStep(ps: seq<Product>, range: PriceRange): (r: seq<Product>)
    ensures IsSubsequence(r, ps)
    ensures forall p :: p in r <==> p in ps && InPriceRange(p, range)
    ensures forall p :: multiset(r)[p] == if InPriceRange(p, range) then multiset(ps)[p] else 0
  {
    Filter(ps, (p: Product) => InPriceRange(p, range))
  }

  /** The list the three filters leave, before any sorting. */
  function FilteredProducts(ps: seq<Product>, query: Option<string>, category: string, range: PriceRange): seq<Product>
  {
    PriceStep(CategoryStep(SearchStep(ps, query), category), range)
  }

  /** The filters only remove products: what is left is a subsequence of the
      fetched list, in the fetched order. */
  lemma FilteredIsSubsequence(ps: seq<Product>, query: Option<string>, category: string, range: PriceRange)
    ensures IsSubsequence(FilteredProducts(ps, query, category, range), ps)
  {
    var s1 := SearchStep(ps, query);
    var s2 := CategoryStep(s1, category);
    SubsequenceTransitive(s2, s1, ps);
    SubsequenceTransitive(FilteredProducts(ps, query, category, range), s2, ps);
  }

  /** A product is in the filtered list exactly when it was fetched and passes
      every filter. */
  lemma FilteredMembers(ps: seq<Product>, query: Option<string>, category: string, range: PriceRange, p: Product)
    ensures p in FilteredProducts(ps, query, category, range) <==> p in ps && Kept(p, query, category, range)
  {
  }

  /** The default range keeps exactly the products priced from 0 to 1000. */
  lemma DefaultRangeBounds(p: Product)
    ensures InPriceRange(p, DefaultPriceRange) <==> 0.0 <= p.price <= 1000.0
  {
  }

  function PriceLowCmp(a: Product, b: Product): real { a.price - b.price }

  function PriceHighCmp(a: Product, b: Product): real { b.price - a.price }

  function RatingCmp(a: Product, b: Product): real { RateOf(b) - RateOf(a) }

  lemma PriceLowConsistent()
    ensures Consistent(PriceLowCmp)
  {
  }

  lemma PriceHighConsistent()
    ensures Consistent(PriceHighCmp)
  {
  }

  lemma RatingConsistent()
    ensures Consistent(RatingCmp)
  {
  }

  /** Two sequences with the same multiset hold the same elements. */
  lemma SameElements(a: seq<Product>, b: seq<Product>)
    requires multiset(a) == multiset(b)
    ensures forall p :: p in a <==> p in b
  {
    forall p ensures p in a <==> p in b {
      assert p in a <==> p in multiset(a);
      assert p in b <==> p in multiset(b);
    }
  }

  /** Sorting by `a.price - b.price` orders prices from low to high. */
  lemma PriceLowOrder(s: seq<Product>, r: seq<Product>)
    requires r == Sort(s, PriceLowCmp)
    ensures forall i, j :: 0 <= i < j < |r| ==> r[i].price <= r[j].price
  {
    PriceLowConsistent();
    SortSorted(s, PriceLowCmp);
  }

  /** Sorting by `b.price - a.price` orders prices from high to low. */
  lemma PriceHighOrder(s: seq<Product>, r: seq<Product>)
    requires r == Sort(s, PriceHighCmp)
    ensures forall i, j :: 0 <= i < j < |r| ==> r[i].price >= r[j].price
  {
    PriceHighConsistent();
    SortSorted(s, PriceHighCmp);
  }

  /** Sorting by the rating difference puts the best rated first. */
  lemma RatingOrder(s: seq<Product>, r: seq<Product>)
    requires r == Sort(s, RatingCmp)
    ensures forall i, j :: 0 <= i < j < |r| ==> RateOf(r[i]) >= RateOf(r[j])
  {
    RatingConsistent();
    SortSorted(s, RatingCmp);
  }

  /** The `switch (sortBy)` of `filterAndSortProducts`: an in-place sort of
      the filtered copy by the comparator the key names; `featured` and
      unknown keys leave it as it is. */
  method SortByKey(filtered: seq<Product>, sortBy: string) returns (shown: seq<Product>)
    ensures multiset(shown) == multiset(filtered)
    ensures forall p :: p in shown <==> p in filtered
    ensures sortBy != PriceLow && sortBy != PriceHigh && sortBy != ByRating ==> shown == filtered
    ensures sortBy == PriceLow ==> forall i, j :: 0 <= i < j < |shown| ==> shown[i].price <= shown[j].price
    ensures sortBy == PriceHigh ==> forall i, j :: 0 <= i < j < |shown| ==> shown[i].price >= shown[j].price
    ensures sortBy == ByRating ==> forall i, j :: 0 <= i < j < |shown| ==> RateOf(shown[i]) >= RateOf(shown[j])
  {
    if sortBy == PriceLow {
      shown := Sort(filtered, PriceLowCmp);
      PriceLowOrder(filtered, shown);
    } else if sortBy == PriceHigh {
      shown := Sort(filtered, PriceHighCmp);
      PriceHighOrder(filtered, shown);
    } else if sortBy == ByRating {
      shown := Sort(filtered, RatingCmp);
      RatingOrder(filtered, shown);
    } else {
      shown := filtered;
    }
    SameElements(shown, filtered);
  }

  /** `filterAndSortProducts`: the three filters one after the other, then
      the sort the `sortBy` key names; `featured` and unknown keys keep the
      filtered order. */
  method FilterAndSortProducts(
    products: seq<Product>, query: Option<string>, selectedCategory: string,
    categoryParam: Option<string>, range: PriceRange, sortBy: string)
    returns (shown: seq<Product>)
    ensures var filtered := FilteredProducts(products, query, ActiveCategory(selectedCategory, categoryParam), range);
            && multiset(shown) == multiset(filtered)
            && IsSubsequence(filtered, products)
            && (sortBy != PriceLow && sortBy != PriceHigh && sortBy != ByRating ==> shown == filtered)
    ensures forall p :: p in shown <==> p in products && Kept(p, query, ActiveCategory(selectedCategory, categoryParam), range)
    ensures sortBy == PriceLow ==> forall i, j :: 0 <= i < j < |shown| ==> shown[i].price <= shown[j].price
    ensures sortBy == PriceHigh ==> forall i, j :: 0 <= i < j < |shown| ==> shown[i].price >= shown[j].price
    ensures sortBy == ByRating ==> forall i, j :: 0 <= i < j < |shown| ==> RateOf(shown[i]) >= RateOf(shown[j])
  {
    var filtered := products;
    filtered := SearchStep(filtered, query);
    var activeCategory := ActiveCategory(selectedCategory, categoryParam);
    filtered := CategoryStep(filtered, activeCategory);
    filtered := PriceStep(filtered, range);
    FilteredIsSubsequence(products, query, activeCategory, range);
    forall p ensures p in filtered <==> p in products && Kept(p, query, activeCategory, range) {
      FilteredMembers(products, query, activeCategory, range, p);
    }
    shown := SortByKey(filtered, sortBy);
  }
}
