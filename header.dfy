/** The storefront header (`Header` component): the cart badge, the admin
    link switched on and off by the `?admin=` query flag, and the search box. */
module HeaderBar {
  import opened Lists
  import opened Text
  import opened Catalog

  const AdminAccessKey := "admin_access"

  /** `items.reduce((acc, item) => acc + item.quantity, 0)`. */
  function CartItemsCount(items: seq<CartLine>): int
  {
    if items == [] then 0 else CartItemsCount(items[..|items| - 1]) + items[|items| - 1].quantity
  }

  /** The badge is rendered only for a positive count. */
  predicate ShowsBadge(items: seq<CartLine>)
  {
    CartItemsCount(items) > 0
  }

  /** The count adds up over a split of the cart. */
  lemma {:induction false} CartItemsCountAppend(a: seq<CartLine>, b: seq<CartLine>)
    ensures CartItemsCount(a + b) == CartItemsCount(a) + CartItemsCount(b)
    decreases |b|
  {
    if b == [] {
      assert a + b == a;
    } else {
      assert (a + b)[..|a + b| - 1] == a + b[..|b| - 1];
      CartItemsCountAppend(a, b[..|b| - 1]);
    }
  }

  /** With no negative quantities, the badge shows exactly when some line has
      a positive quantity. */
  lemma {:induction false} BadgeIff(items: seq<CartLine>)
    requires forall i :: 0 <= i < |items| ==> items[i].quantity >= 0
    ensures CartItemsCount(items) >= 0
    ensures ShowsBadge(items) <==> exists i :: 0 <= i < |items| && items[i].quantity > 0
  {
    if items != [] {
      var prefix := items[..|items| - 1];
      BadgeIff(prefix);
      if exists i :: 0 <= i < |prefix| && prefix[i].quantity > 0 {
        var i :| 0 <= i < |prefix| && prefix[i].quantity > 0;
        assert items[i].quantity > 0;
      }
      if exists i :: 0 <= i < |items| && items[i].quantity > 0 {
        var i :| 0 <= i < |items| && items[i].quantity > 0;
        if i < |prefix| {
          assert prefix[i].quantity > 0;
        }
      }
    }
  }

  /** What the `admin` query flag asks for. */
  datatype FlagAction = Enable | Disable | Keep

  function ParseAdminFlag(flag: Option<string>): (a: FlagAction)
    ensures a == Enable <==> flag == Some("on") || flag == Some("1") || flag == Some("true")
    ensures a == Disable <==> flag == Some("off") || flag == Some("0") || flag == Some("false")
  {
    match flag
    case None => Keep
    case Some(f) =>
      if f == "on" || f == "1" || f == "true" then Enable
      else if f == "off" || f == "0" || f == "false" then Disable
      else Keep
  }

  class HeaderView {
    var searchQuery: string
    var adminEnabled: bool
    /** The `admin_access` entry of `localStorage`. */
    var adminAccess: Option<string>

    constructor(stored: Option<string>)
      ensures adminEnabled <==> stored == Some("true")
      ensures adminAccess == stored && searchQuery == ""
    {
      searchQuery := "";
      adminEnabled := stored == Some("true");
      adminAccess := stored;
    }

    /** The link is shown exactly when the stored entry is `'true'`. */
    ghost predicate Valid()
      reads this
    {
      adminEnabled <==> adminAccess == Some("true")
    }

    /** The effect on `location.search`: `on`/`1`/`true` stores `'true'` and
        shows the link, `off`/`0`/`false` removes the entry and hides it, any
        other or missing value changes nothing. */
    method ApplyAdminFlag(flag: Option<string>)
      modifies this
      ensures old(Valid()) ==> Valid()
      ensures ParseAdminFlag(flag) == Enable ==> adminAccess == Some("true") && adminEnabled
      ensures ParseAdminFlag(flag) == Disable ==> adminAccess.None? && !adminEnabled
      ensures ParseAdminFlag(flag) == Keep ==> adminAccess == old(adminAccess) && adminEnabled == old(adminEnabled)
      ensures searchQuery == old(searchQuery)
    {
      match ParseAdminFlag(flag) {
        case Enable =>
          adminAccess := Some("true");
          adminEnabled := true;
        case Disable =>
          adminAccess := None;
          adminEnabled := false;
        case Keep =>
      }
    }

    /** `handleSearch`: navigates to the product list with the untrimmed query
        only when the query is not blank, and then clears the box. */
    method HandleSearch() returns (navigateTo: Option<string>)
      modifies this
      ensures navigateTo.Some? <==> !AllWhitespace(old(searchQuery))
      ensures navigateTo.Some? ==> navigateTo.value == old(searchQuery) && searchQuery == ""
      ensures navigateTo.None? ==> searchQuery == old(searchQuery)
      ensures adminEnabled == old(adminEnabled) && adminAccess == old(adminAccess)
    {
      TrimEmptyIff(searchQuery);
      if Trim(searchQuery) != "" {
        navigateTo := Some(searchQuery);
        searchQuery := "";
      } else {
        navigateTo := None;
      }
    }
  }
}
