/** The checkout page (`Checkout`): its own order totals, the empty-cart
    guard, the field patterns of the payment and contact form, and the
    submit that clears the cart. */
module CheckoutPage {
  import opened Lists
  import opened Text
  import opened Catalog
  import CartPage

  datatype Totals = Totals(subtotal: real, shipping: real, tax: real, total: real)

  /** `shipping`, `tax` and `total` as the page computes them. */
  function OrderTotals(subtotal: real): (t: Totals)
    ensures t.subtotal == subtotal
    ensures t.shipping == 0.0 || t.shipping == 10.0
    ensures t.shipping == 0.0 <==> subtotal > 50.0
    ensures t.tax == subtotal * 0.08
    ensures t.total == t.subtotal + t.shipping + t.tax
  {
    var shipping := if subtotal > 50.0 then 0.0 else 10.0;
    var tax := subtotal * 0.08;
    Totals(subtotal, shipping, tax, subtotal + shipping + tax)
  }

  /** Checkout charges what the cart page showed. */
  lemma SameTotalsAsCart(subtotal: real)
    ensures OrderTotals(subtotal).shipping == CartPage.Shipping(subtotal)
    ensures OrderTotals(subtotal).tax == CartPage.Tax(subtotal)
    ensures OrderTotals(subtotal).total == CartPage.Total(subtotal)
  {
  }

  /** `/^[0-9]{16}$/`. */
  predicate CardNumberValid(s: string)
  {
    |s| == 16 && AllDigits(s)
  }

  /** `/^(0[1-9]|1[0-2])\/([0-9]{2})$/`. */
  predicate ExpiryValid(s: string)
  {
    && |s| == 5
    && ((s[0] == '0' && '1' <= s[1] <= '9') || (s[0] == '1' && '0' <= s[1] <= '2'))
    && s[2] == '/'
    && IsDigit(s[3]) && IsDigit(s[4])
  }

  function DigitValue(c: char): int
  {
    c as int - '0' as int
  }

  /** The two alternatives of the month group are exactly the two-digit months
      01 to 12. */
  lemma ExpiryMonthRange(s: string)
    ensures ExpiryValid(s) <==>
              && |s| == 5 && IsDigit(s[0]) && IsDigit(s[1])
              && 1 <= 10 * DigitValue(s[0]) + DigitValue(s[1]) <= 12
              && s[2] == '/' && IsDigit(s[3]) && IsDigit(s[4])
  {
  }

  /** `/^[0-9]{3,4}$/`. */
  predicate CvvValid(s: string)
  {
    (|s| == 3 || |s| == 4) && AllDigits(s)
  }

  function Pow10(k: nat): (p: nat)
    ensures p >= 1
  {
    if k == 0 then 1 else 10 * Pow10(k - 1)
  }

  /** A number has at most `k` decimal digits exactly when it is below `10^k`. */
  lemma {:induction false} DecimalLength(n: nat, k: nat)
    requires k >= 1
    ensures |NatToString(n)| <= k <==> n < Pow10(k)
  {
    if k == 1 {
      assert Pow10(1) == 10;
    } else if n >= 10 {
      DecimalLength(n / 10, k - 1);
      assert NatToString(n) == NatToString(n / 10) + [DigitChar(n % 10)];
      assert n / 10 < Pow10(k - 1) <==> n < 10 * Pow10(k - 1);
    } else {
      assert Pow10(k) == 10 * Pow10(k - 1);
    }
  }

  /** The CVV pattern accepts the decimal rendering of a number exactly for
      the numbers from 100 to 9999. */
  lemma CvvOfNumber(n: nat)
    ensures CvvValid(NatToString(n)) <==> 100 <= n <= 9999
  {
    DecimalLength(n, 2);
    DecimalLength(n, 4);
    assert Pow10(2) == 100 && Pow10(4) == 10000;
  }

  /** The card pattern accepts the decimal rendering of a number exactly for
      the sixteen-digit numbers. */
  lemma CardNumberOfNumber(n: nat)
    ensures CardNumberValid(NatToString(n)) <==> Pow10(15) <= n < Pow10(16)
  {
    DecimalLength(n, 15);
    DecimalLength(n, 16);
  }

  /** `[A-Z0-9._%+-]` under the `i` flag. */
  predicate LocalChar(c: char)
  {
    IsLetter(c) || IsDigit(c) || c == '.' || c == '_' || c == '%' || c == '+' || c == '-'
  }

  /** `[A-Z0-9.-]` under the `i` flag. */
  predicate DomainChar(c: char)
  {
    IsLetter(c) || IsDigit(c) || c == '.' || c == '-'
  }

  /** `s` matches `/^[A-Z0-9._%+-]+@[A-Z0-9.-]+\.[A-Z]{2,}$/i` with the `@`
      at `at` and the `\.` at `dot`. */
  ghost predicate EmailMatchAt(s: string, at: int, dot: int)
  {
    && 0 < at && at + 1 < dot && dot + 3 <= |s|
    && s[at] == '@' && s[dot] == '.'
    && (forall k :: 0 <= k < at ==> LocalChar(s[k]))
    && (forall k :: at < k < dot ==> DomainChar(s[k]))
    && (forall k :: dot < k < |s| ==> IsLetter(s[k]))
  }

  /** The email pattern, as a search over every way to split the text. */
  ghost predicate EmailPattern(s: string)
  {
    exists at, dot :: EmailMatchAt(s, at, dot)
  }

  function FirstIndexOf(s: string, c: char): (r: Option<nat>)
    ensures r.Some? ==> r.value < |s| && s[r.value] == c && forall k :: 0 <= k < r.value ==> s[k] != c
    ensures r.None? ==> forall k :: 0 <= k < |s| ==> s[k] != c
  {
    if s == [] then None
    else if s[0] == c then Some(0)
    else match FirstIndexOf(s[1..], c)
      case None => None
      case Some(i) => Some(i + 1)
  }

  function LastIndexOf(s: string, c: char): (r: Option<nat>)
    ensures r.Some? ==> r.value < |s| && s[r.value] == c && forall k :: r.value < k < |s| ==> s[k] != c
    ensures r.None? ==> forall k :: 0 <= k < |s| ==> s[k] != c
  {
    if s == [] then None
    else if s[|s| - 1] == c then Some(|s| - 1)
    else LastIndexOf(s[..|s| - 1], c)
  }

  /** The email check without a search: the local part ends at the first `@`
      (no local or domain character is an `@`), and the top-level domain starts
      after the last `.` (it is all letters). */
  predicate EmailValid(s: string)
  {
    var at := FirstIndexOf(s, '@');
    var dot := LastIndexOf(s, '.');
    && at.Some? && dot.Some?
    && 0 < at.value && at.value + 1 < dot.value && dot.value + 3 <= |s|
    && (forall k :: 0 <= k < at.value ==> LocalChar(s[k]))
    && (forall k :: at.value < k < dot.value ==> DomainChar(s[k]))
    && (forall k :: dot.value < k < |s| ==> IsLetter(s[k]))
  }

  /** The direct check accepts exactly the texts the pattern matches. */
  lemma EmailValidIff(s: string)
    ensures EmailValid(s) <==> EmailPattern(s)
  {
    if EmailValid(s) {
      assert EmailMatchAt(s, FirstIndexOf(s, '@').value, LastIndexOf(s, '.').value);
    }
    if EmailPattern(s) {
      var at, dot :| EmailMatchAt(s, at, dot);
      var a := FirstIndexOf(s, '@');
      var d := LastIndexOf(s, '.');
      assert a == Some(at as nat);
      assert d == Some(dot as nat);
    }
  }

  /** The contact and payment fields; every one is required. */
  datatype CheckoutForm = CheckoutForm(
    firstName: string, lastName: string, email: string, phone: string,
    address: string, city: string, state: string, zipCode: string,
    cardNumber: string, expiry: string, cvv: string)

  /** What `handleSubmit` lets through to `onSubmit`. */
  predicate FormValid(f: CheckoutForm)
  {
    && f.firstName != "" && f.lastName != "" && f.phone != ""
    && f.address != "" && f.city != "" && f.state != "" && f.zipCode != ""
    && f.email != "" && EmailValid(f.email)
    && f.cardNumber != "" && CardNumberValid(f.cardNumber)
    && f.expiry != "" && ExpiryValid(f.expiry)
    && f.cvv != "" && CvvValid(f.cvv)
  }

  /** The patterns already rule out an empty field for the four checked ones. */
  lemma PatternsImplyRequired(f: CheckoutForm)
    ensures EmailValid(f.email) ==> f.email != ""
    ensures CardNumberValid(f.cardNumber) ==> f.cardNumber != ""
    ensures ExpiryValid(f.expiry) ==> f.expiry != ""
    ensures CvvValid(f.cvv) ==> f.cvv != ""
  {
  }

  /** What the page renders. */
  datatype CheckoutView = EmptyCart | FormView(totals: Totals)

  function Render(cart: seq<CartLine>, subtotal: real): (v: CheckoutView)
    ensures v.EmptyCart? <==> cart == []
    ensures v.FormView? ==> v.totals == OrderTotals(subtotal)
  {
    if cart == [] then EmptyCart else FormView(OrderTotals(subtotal))
  }

  class CheckoutPageState {
    var isProcessing: bool
    /** The cart store's lines, as this page sees them. */
    var cart: seq<CartLine>

    constructor(cart: seq<CartLine>)
      ensures !isProcessing && this.cart == cart
    {
      isProcessing := false;
      this.cart := cart;
    }

    /** Submitting: with an empty cart there is no form, and an invalid form
        never reaches `onSubmit`; otherwise processing starts, the cart is
        cleared and the shopper is sent to the success page. */
    method Submit(form: CheckoutForm) returns (toSuccessPage: bool)
      modifies this
      ensures toSuccessPage <==> old(cart) != [] && FormValid(form)
      ensures toSuccessPage ==> isProcessing && cart == []
      ensures !toSuccessPage ==> isProcessing == old(isProcessing) && cart == old(cart)
    {
      if cart == [] || !FormValid(form) {
        return false;
      }
      isProcessing := true;
      cart := [];
      return true;
    }
  }
}
