/**
 * The cart of app/components/ShoppingCart.tsx: all items of all the user's
 * lists, each distinct label once, priced one unit per ASCII letter; the
 * checkout request it sends, and the delete it issues on the success redirect.
 *
 * The cart prices items with `Pricing.Price`, the same function the checkout
 * route charges for (`CartIsChargedItsTotal` connects the two).
 */
module ShoppingCart {
  import opened Wrappers
  import opened Pricing
  import opened Store
  import opened ShoppingListsCache
  import opened FormBody
  import opened CheckoutRoute

  /** `lists.flatMap(list => list.items)` */
  function Flatten(lists: seq<ShoppingList>): (r: seq<string>)
    ensures forall x :: x in r <==> exists i :: 0 <= i < |lists| && x in lists[i].items
  {
    if lists == [] then []
    else
      var r := lists[0].items + Flatten(lists[1..]);
      assert forall i :: 1 <= i < |lists| ==> lists[i] == lists[1..][i - 1];
      r
  }

  /** The position of the first occurrence of `x`. */
  function FirstIndex(xs: seq<string>, x: string): (i: nat)
    requires x in xs
    ensures i < |xs| && xs[i] == x && x !in xs[..i]
  {
    if xs[0] == x then 0
    else
      assert xs[1..][..FirstIndex(xs[1..], x)] == xs[1..1 + FirstIndex(xs[1..], x)];
      1 + FirstIndex(xs[1..], x)
  }

  /** Appending never moves a first occurrence. */
  lemma {:induction false} FirstIndexAppend(xs: seq<string>, y: string, x: string)
    requires x in xs
    ensures FirstIndex(xs + [y], x) == FirstIndex(xs, x)
  {
    if xs[0] != x {
      assert (xs + [y])[1..] == xs[1..] + [y];
      FirstIndexAppend(xs[1..], y, x);
    }
  }

  /**
   * `Array.from(new Set(xs))`: a set iterates in insertion order, and
   * inserting a present element changes nothing. The result holds each
   * element of `xs` exactly once, ordered by first occurrence in `xs`.
   */
  function Unique(xs: seq<string>): (r: seq<string>)
    ensures forall i, j :: 0 <= i < j < |r| ==> r[i] != r[j]
    ensures forall x :: x in r <==> x in xs
    ensures forall i, j :: 0 <= i < j < |r| ==> FirstIndex(xs, r[i]) < FirstIndex(xs, r[j])
  {
    if xs == [] then []
    else
      var init := xs[..|xs| - 1];
      var last := xs[|xs| - 1];
      assert xs == init + [last];
      var u := Unique(init);
      forall x | x in init
        ensures FirstIndex(xs, x) == FirstIndex(init, x)
      {
        FirstIndexAppend(init, last, x);
      }
      if last in u then u
      else
        assert FirstIndex(xs, last) == |init|;
        u + [last]
  }

  /** The cart's items: line 167-168, and again 225-226. */
  function CartItems(lists: seq<ShoppingList>): (r: seq<string>)
    ensures forall x :: x in r <==> exists i :: 0 <= i < |lists| && x in lists[i].items
    ensures forall i, j :: 0 <= i < j < |r| ==> r[i] != r[j]
  {
    Unique(Flatten(lists))
  }

  /** `items.reduce((sum, item) => sum + calculatePrice(item), 0)` (line 281) */
  function Total(items: seq<string>): (t: nat)
    ensures t == 0 <==> forall i :: 0 <= i < |items| ==> Price(items[i]) == 0
  {
    if items == [] then 0
    else
      assert forall i :: 0 <= i < |items| - 1 ==> items[..|items| - 1][i] == items[i];
      Total(items[..|items| - 1]) + Price(items[|items| - 1])
  }

  /** A label already in the cart adds nothing to the total when another list holds it too. */
  lemma CountedOnce(xs: seq<string>, x: string)
    requires x in xs
    ensures Unique(xs + [x]) == Unique(xs)
    ensures Total(Unique(xs + [x])) == Total(Unique(xs))
  {
    assert (xs + [x])[..|xs|] == xs;
  }

  /** What Stripe charges for a list of line items. */
  function AmountDue(lineItems: seq<LineItem>): nat {
    if lineItems == [] then 0
    else AmountDue(lineItems[..|lineItems| - 1]) + lineItems[|lineItems| - 1].unitAmount * lineItems[|lineItems| - 1].quantity
  }

  /** Line items priced at 100 times the displayed price, one each, cost 100 times the total. */
  lemma {:induction false} AmountDueOfPricedItems(lineItems: seq<LineItem>, items: seq<string>)
    requires |lineItems| == |items|
    requires forall i :: 0 <= i < |items| ==> lineItems[i].unitAmount == 100 * Price(items[i]) && lineItems[i].quantity == 1
    ensures AmountDue(lineItems) == 100 * Total(items)
  {
    if items != [] {
      AmountDueOfPricedItems(lineItems[..|lineItems| - 1], items[..|items| - 1]);
    }
  }

  /** The body of the checkout request (lines 188-192). */
  datatype CartRequest = CartRequest(items: seq<string>, currency: string, userId: string)

  /** How `/api/checkout` answers: the fetch throws, a response that is not ok (its `error` member), or an ok one (its `url`). */
  datatype CheckoutReply = Thrown(message: string) | NotOk(error: Option<string>) | Ok(url: Option<string>)

  /** The request sent, the page the browser is sent to, and the text of the destructive toast. */
  datatype CheckoutAttempt = CheckoutAttempt(request: Option<CartRequest>, redirect: Option<string>, toast: Option<string>)

  const SignInToCheckout := "Please sign in to proceed with checkout."
  const EmptyCart := "Your shopping cart is empty."
  const CreateSessionFailed := "Failed to create checkout session"
  const NoCheckoutUrl := "No checkout URL received from server"
  const CheckoutCurrency := "brl"

  /** The body as the route's `request.json()` and destructuring read it. */
  function AsRouteBody(r: CartRequest): Body {
    Parsed(ItemArray(r.items), CurrencyText(r.currency), Some(r.userId))
  }

  /**
   * The cart's request passes the route's item check, and the session the
   * route builds from it charges, per item, 100 times the price the cart
   * shows, in BRL, so the whole session costs 100 times the displayed total.
   */
  lemma CartIsChargedItsTotal(lists: seq<ShoppingList>, userId: string, origin: string)
    requires CartItems(lists) != []
    ensures HasItems(AsRouteBody(CartRequest(CartItems(lists), CheckoutCurrency, userId)).items)
    ensures !AsRouteBody(CartRequest(CartItems(lists), CheckoutCurrency, userId)).currency.CurrencyNotText?
    ensures var d := SessionFor(CartItems(lists), CheckoutCurrency, Some(userId), origin);
      && |d.lineItems| == |CartItems(lists)|
      && (forall i :: 0 <= i < |d.lineItems| ==>
            d.lineItems[i].unitAmount == 100 * Price(CartItems(lists)[i]) && d.lineItems[i].currency == CheckoutCurrency)
      && AmountDue(d.lineItems) == 100 * Total(CartItems(lists))
      && d.metadataUserId == userId
  {
    var items := CartItems(lists);
    var d := SessionFor(items, CheckoutCurrency, Some(userId), origin);
    assert ToLower(CheckoutCurrency) == CheckoutCurrency;
    AmountDueOfPricedItems(d.lineItems, items);
  }

  class CartView {
    /** `isCheckingOut` */
    var isCheckingOut: bool

    constructor ()
      ensures !isCheckingOut
    {
      isCheckingOut := false;
    }

    /**
     * `handleCheckout` (lines 156-217) with the lists currently shown. No
     * request without a user or with an empty cart; otherwise the cart's
     * distinct items in BRL for the user, then a redirect to the session's
     * page, or a toast and the flag lowered again.
     */
    method HandleCheckout(user: Option<string>, lists: seq<ShoppingList>, reply: CheckoutReply)
      returns (a: CheckoutAttempt)
      modifies this
      ensures user.None? ==> a == CheckoutAttempt(None, None, Some(SignInToCheckout)) && isCheckingOut == old(isCheckingOut)
      ensures user.Some? && CartItems(lists) == [] ==>
        a == CheckoutAttempt(None, None, Some(EmptyCart)) && isCheckingOut == old(isCheckingOut)
      ensures user.Some? && CartItems(lists) != [] ==>
        && a.request == Some(CartRequest(CartItems(lists), CheckoutCurrency, user.value))
        && (a.redirect.Some? <==> reply.Ok? && reply.url.Some? && reply.url.value != "")
        && (a.redirect.Some? ==> a.redirect == reply.url && a.toast.None? && isCheckingOut)
        && (a.redirect.None? ==> a.toast.Some? && !isCheckingOut)
        && (reply.NotOk? ==> a.toast == Some(if reply.error.Some? && reply.error.value != "" then reply.error.value else CreateSessionFailed))
        && (reply.Thrown? ==> a.toast == Some(reply.message))
        && (reply.Ok? && a.redirect.None? ==> a.toast == Some(NoCheckoutUrl))
    {
      if user.None? {
        return CheckoutAttempt(None, None, Some(SignInToCheckout));
      }
      var items := CartItems(lists);
      if items == [] {
        return CheckoutAttempt(None, None, Some(EmptyCart));
      }
      isCheckingOut := true;
      var request := CartRequest(items, CheckoutCurrency, user.value);
      var failure: string;
      match reply {
        case Thrown(message) =>
          failure := message;
        case NotOk(error) =>
          failure := if error.Some? && error.value != "" then error.value else CreateSessionFailed;
        case Ok(url) =>
          if url.Some? && url.value != "" {
            return CheckoutAttempt(Some(request), url, None);
          }
          failure := NoCheckoutUrl;
      }
      isCheckingOut := false;
      a := CheckoutAttempt(Some(request), None, Some(failure));
    }
  }

  /**
   * The success redirect (lines 30-49): with a signed-in user and
   * `?success=true`, delete the user's rows through the REST endpoint
   * `shopping_lists?user_id=eq.<id>`. `clientConfigured` is whether both the
   * Supabase URL and the anon key are set (`createSupabaseBrowserClient` throws
   * without either, and the URL is checked again at line 46) and `deleteOk`
   * whether the endpoint answered ok. The request carries only the anon key;
   * the table has no row policies here, so an ok answer is taken to mean the
   * filtered rows are gone.
   */
  method ClearCartAfterPayment(table: Table, user: Option<string>, success: Option<string>,
                               clientConfigured: bool, deleteOk: bool)
    modifies table
    ensures user.Some? && success == Some("true") && clientConfigured && deleteOk ==>
      table.rows == DeleteWhereUser(old(table.rows), user.value)
    ensures !(user.Some? && success == Some("true") && clientConfigured && deleteOk) ==>
      table.rows == old(table.rows)
  {
    if user.None? {
      return;
    }
    if success == Some("true") && clientConfigured && deleteOk {
      table.DeleteByUser(user.value);
    }
  }
}
