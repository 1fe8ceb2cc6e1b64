/** The back-office product table (`AdminProducts` page): a sortable,
    paginated view of the store's products, the add form and the inline
    edit form. */
module AdminProductsPage {
  import opened Lists
  import opened Text
  import opened Sorting
  import opened Paging
  import opened Catalog
  import opened AdminStore

  const ByTitle := "title"
  const ByCategory := "category"
  const ByPrice := "price"

  /** The comparator of `sortedProducts` for the current column and direction;
      an unknown column compares every two products as equal. */
  function ProductOrder(sortBy: string, sortOrder: string, a: Product, b: Product): real
  {
    if sortBy == ByTitle then
      (if sortOrder == Asc then StrCmp(a.title, b.title) else StrCmp(b.title, a.title)) as real
    else if sortBy == ByCategory then
      (if sortOrder == Asc then StrCmp(a.category, b.category) else StrCmp(b.category, a.category)) as real
    else if sortBy == ByPrice then
      (if sortOrder == Asc then a.price - b.price else b.price - a.price)
    else 0.0
  }

  function ProductComparator(sortBy: string, sortOrder: string): (Product, Product) -> real
  {
    (a: Product, b: Product) => ProductOrder(sortBy, sortOrder, a, b)
  }

  /** Every column and direction gives a comparator the sort can use. */
  lemma ProductComparatorConsistent(sortBy: string, sortOrder: string)
    ensures Consistent(ProductComparator(sortBy, sortOrder))
  {
    var cmp := ProductComparator(sortBy, sortOrder);
    forall a: Product, b: Product ensures cmp(a, b) <= 0.0 || cmp(b, a) <= 0.0 {
      StrCmpAntisymmetric(a.title, b.title);
      StrCmpAntisymmetric(a.category, b.category);
    }
    forall a: Product, b: Product, c: Product | cmp(a, b) <= 0.0 && cmp(b, c) <= 0.0
      ensures cmp(a, c) <= 0.0
    {
      if sortBy == ByTitle {
        if sortOrder == Asc {
          StrCmpTransitive(a.title, b.title, c.title);
        } else {
          StrCmpTransitive(c.title, b.title, a.title);
        }
      } else if sortBy == ByCategory {
        if sortOrder == Asc {
          StrCmpTransitive(a.category, b.category, c.category);
        } else {
          StrCmpTransitive(c.category, b.category, a.category);
        }
      }
    }
  }

  /** `sortedProducts`: a sorted copy; the store's list itself is a value
      and is left as it is. */
  function SortedProducts(ps: seq<Product>, sortBy: string, sortOrder: string): (r: seq<Product>)
    ensures |r| == |ps| && multiset(r) == multiset(ps)
  {
    Sort(ps, ProductComparator(sortBy, sortOrder))
  }

  /** The sorted copy follows the chosen column in the chosen direction. */
  lemma SortedProductsOrder(ps: seq<Product>, sortBy: string, sortOrder: string)
    ensures var r := SortedProducts(ps, sortBy, sortOrder);
            forall i, j :: 0 <= i < j < |r| ==>
              && (sortBy == ByTitle && sortOrder == Asc ==> StrCmp(r[i].title, r[j].title) <= 0)
              && (sortBy == ByTitle && sortOrder != Asc ==> StrCmp(r[j].title, r[i].title) <= 0)
              && (sortBy == ByCategory && sortOrder == Asc ==> StrCmp(r[i].category, r[j].category) <= 0)
              && (sortBy == ByCategory && sortOrder != Asc ==> StrCmp(r[j].category, r[i].category) <= 0)
              && (sortBy == ByPrice && sortOrder == Asc ==> r[i].price <= r[j].price)
              && (sortBy == ByPrice && sortOrder != Asc ==> r[i].price >= r[j].price)
  {
    var cmp := ProductComparator(sortBy, sortOrder);
    ProductComparatorConsistent(sortBy, sortOrder);
    SortSorted(ps, cmp);
    var r := SortedProducts(ps, sortBy, sortOrder);
    forall i, j | 0 <= i < j < |r| ensures cmp(r[i], r[j]) <= 0.0 {
    }
  }

  /** An unknown column leaves the list in the store's order. */
  lemma SortedProductsUnknownColumn(ps: seq<Product>, sortBy: string, sortOrder: string)
    requires sortBy != ByTitle && sortBy != ByCategory && sortBy != ByPrice
    ensures SortedProducts(ps, sortBy, sortOrder) == ps
  {
    SortAllTied(ps, ProductComparator(sortBy, sortOrder));
  }

  /** The add and edit forms. `price` holds what `Number(...)` makes of the
      price field; the image field holds a data URL. */
  datatype ProductForm = ProductForm(title: string, price: NumberInput, category: string, description: string, image: string)

  /** The cleared form; `Number('')` is 0. */
  const EmptyForm := ProductForm("", Some(0.0), "", "", "")

  /** `{ ...form, price: Number(form.price) || 0 }` as `addProduct` receives it. */
  function AddPayload(form: ProductForm): (payload: ProductPayload)
    ensures payload.title == form.title && payload.price == Some(CoercePrice(form.price))
    ensures payload.imageUrl == ""
  {
    ProductPayload(form.title, Some(CoercePrice(form.price)), form.category, form.description, form.image, "")
  }

  /** `{ ...editForm, price: Number(editForm.price) || 0 }` as `updateProduct`
      receives it. */
  function EditPatch(form: ProductForm): (u: ProductPatch)
    ensures u.price == CoercePrice(form.price)
    ensures u.title == form.title && u.category == form.category
    ensures u.description == form.description && u.image == form.image
  {
    ProductPatch(form.title, CoercePrice(form.price), form.category, form.description, form.image)
  }

  /** Coercing the price before `addProduct` coerces it again changes nothing:
      the stored price is the form's number, or 0 when it is not a number. */
  lemma AddedPriceIsCoerced(form: ProductForm, now: nat)
    ensures NewLocalProduct(AddPayload(form), now).price == CoercePrice(form.price)
  {
  }

  class AdminProductsView {
    var sortBy: string
    var sortOrder: string
    var page: int
    var form: ProductForm
    var editingId: Option<Id>
    var editForm: ProductForm

    /** The columns are the three the headers offer, the direction one of two. */
    ghost predicate Valid()
      reads this
    {
      && (sortBy == ByTitle || sortBy == ByCategory || sortBy == ByPrice)
      && (sortOrder == Asc || sortOrder == Desc)
    }

    constructor()
      ensures Valid()
      ensures sortBy == ByTitle && sortOrder == Asc && page == 1
      ensures form == EmptyForm && editingId.None? && editForm == EmptyForm
    {
      sortBy := ByTitle;
      sortOrder := Asc;
      page := 1;
      form := EmptyForm;
      editingId := None;
      editForm := EmptyForm;
    }

    /** `paginatedProducts` over the store's current list. */
    function Shown(products: seq<Product>): (r: seq<Product>)
      reads this
      ensures |r| <= PageSize
    {
      PageItemsBound(SortedProducts(products, sortBy, sortOrder), page);
      PageItems(SortedProducts(products, sortBy, sortOrder), page)
    }

    /** A header click: the current column flips its direction, another
        column becomes current in ascending order. */
    method ClickHeader(column: string)
      requires Valid()
      requires column == ByTitle || column == ByCategory || column == ByPrice
      modifies this
      ensures Valid()
      ensures sortBy == column
      ensures old(sortBy) == column ==> sortOrder == Flip(old(sortOrder))
      ensures old(sortBy) != column ==> sortOrder == Asc
      ensures page == old(page) && form == old(form) && editingId == old(editingId) && editForm == old(editForm)
    {
      if sortBy == column {
        sortOrder := Flip(sortOrder);
      } else {
        sortBy := column;
        sortOrder := Asc;
      }
    }

    /** Prev: one page back, never below 1. */
    method ClickPrev(products: seq<Product>)
      modifies this
      ensures page == PrevPage(old(page))
      ensures 1 <= old(page) <= TotalPages(|products|) ==> 1 <= page <= TotalPages(|products|)
      ensures sortBy == old(sortBy) && sortOrder == old(sortOrder)
      ensures form == old(form) && editingId == old(editingId) && editForm == old(editForm)
    {
      if 1 <= page <= TotalPages(|products|) {
        PrevNextStayInRange(page, TotalPages(|products|));
      }
      page := PrevPage(page);
    }

    /** Next: one page on, never beyond the last page. */
    method ClickNext(products: seq<Product>)
      modifies this
      ensures page == NextPage(old(page), TotalPages(|products|))
      ensures 1 <= old(page) <= TotalPages(|products|) ==> 1 <= page <= TotalPages(|products|)
      ensures sortBy == old(sortBy) && sortOrder == old(sortOrder)
      ensures form == old(form) && editingId == old(editingId) && editForm == old(editForm)
    {
      var totalPages := TotalPages(|SortedProducts(products, sortBy, sortOrder)|);
      if 1 <= page <= totalPages {
        PrevNextStayInRange(page, totalPages);
      }
      page := NextPage(page, totalPages);
    }

    /** `handleAdd`: nothing happens without a title; otherwise the coerced
        form goes to `addProduct` and the form is cleared. */
    method HandleAdd(store: Store, now: nat)
      modifies this, store
      ensures old(form).title == "" ==> form == old(form) && unchanged(store)
      ensures old(form).title != "" ==>
                && store.products == [NewLocalProduct(AddPayload(old(form)), now)] + old(store.products)
                && (!store.storageRefuses ==>
                      LocalProducts(store.storage) == [NewLocalProduct(AddPayload(old(form)), now)] + LocalProducts(old(store.storage)))
                && store.storage == SaveStorage(old(store.storage), ProductsKey,
                     Products([NewLocalProduct(AddPayload(old(form)), now)] + LocalProducts(old(store.storage))), store.storageRefuses)
                && (store.storageRefuses ==> store.storage == old(store.storage))
                && store.orders == old(store.orders)
                && form == EmptyForm
      ensures store.loading == old(store.loading) && store.storageRefuses == old(store.storageRefuses)
      ensures sortBy == old(sortBy) && sortOrder == old(sortOrder) && page == old(page)
      ensures editingId == old(editingId) && editForm == old(editForm)
    {
      if form.title == "" {
        return;
      }
      var _ := store.AddProduct(AddPayload(form), now);
      form := EmptyForm;
    }

    /** `startEdit`: the row's fields are copied into the edit form. */
    method StartEdit(p: Product)
      modifies this
      ensures editingId == Some(p.id)
      ensures editForm == ProductForm(p.title, Some(p.price), p.category, p.description, p.image)
      ensures sortBy == old(sortBy) && sortOrder == old(sortOrder) && page == old(page) && form == old(form)
    {
      editingId := Some(p.id);
      editForm := ProductForm(p.title, Some(p.price), p.category, p.description, p.image);
    }

    /** `saveEdit`, reachable only from the row being edited: the coerced edit
        form goes to `updateProduct` and editing ends. */
    method SaveEdit(store: Store)
      requires editingId.Some?
      modifies this, store
      ensures store.products == MergeMatching(old(store.products), old(editingId).value, EditPatch(old(editForm)))
      ensures var local := LocalProducts(old(store.storage));
              match FindIndex(local, old(editingId).value)
              case None => store.storage == old(store.storage)
              case Some(i) => store.storage == SaveStorage(old(store.storage), ProductsKey,
                                Products(local[i := Merge(local[i], EditPatch(old(editForm)))]), store.storageRefuses)
      ensures store.orders == old(store.orders)
      ensures store.loading == old(store.loading) && store.storageRefuses == old(store.storageRefuses)
      ensures editingId.None?
      ensures sortBy == old(sortBy) && sortOrder == old(sortOrder) && page == old(page)
      ensures form == old(form) && editForm == old(editForm)
    {
      store.UpdateProduct(editingId.value, EditPatch(editForm));
      editingId := None;
    }

    /** The Delete button: `deleteProduct` runs only once the user confirms. */
    method ClickDelete(store: Store, id: Id, confirmed: bool)
      modifies store
      ensures !confirmed ==> unchanged(store)
      ensures confirmed ==> store.products == WithoutId(old(store.products), id) && store.orders == old(store.orders)
      ensures confirmed ==>
                var local := LocalProducts(old(store.storage));
                if HoldsId(local, id)
                then store.storage == SaveStorage(old(store.storage), ProductsKey, Products(WithoutId(local, id)), store.storageRefuses)
                else store.storage == old(store.storage)
      ensures store.loading == old(store.loading) && store.storageRefuses == old(store.storageRefuses)
    {
      if confirmed {
        store.DeleteProduct(id);
      }
    }
  }
}
