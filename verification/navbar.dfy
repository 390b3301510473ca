/** The navigation bar: which link is highlighted, and the cart badge, whose
    number is read back from the serialised cart in browser storage. */
module Navbar {
  import opened Wrappers
  import opened Js
  import CartStore

  /** `isActive`: the home link is active on `/` only, and every other link
      only on exactly its own path (no prefix matching). */
  function IsActive(path: string, pathname: string): (r: bool)
    ensures r <==> path == pathname
  {
    if path == "/" && pathname == "/" then true
    else path != "/" && pathname == path
  }

  /** `.length` of a parsed JSON value: arrays and strings have one, an
      object only through a field of that name, numbers and booleans none
      (`undefined`). Only called on non-nullish values. */
  function Length(v: JsValue): (r: JsValue)
    requires !Nullish(v)
    ensures v.Arr? ==> r == Num(|v.items|)
    ensures v.Str? ==> r == Num(|v.s|)
    ensures v.Num? || v.Bool? ==> r == Undefined
  {
    match v
    case Arr(items) => Num(|items|)
    case Str(s) => Num(|s|)
    case Obj(_) => Get(v, "length")
    case _ => Undefined
  }

  /** `updateCartCount`: an absent or empty stored cart counts 0; a stored
      text that does not parse, or parses to `null` (reading `.length` of it
      throws), is caught and counts 0; otherwise the count is whatever
      `.length` of the parsed value is. */
  function CartCount(stored: Option<string>, parse: string -> Result<JsValue, string>): (r: JsValue)
    ensures !CartStore.Present(stored) ==> r == Num(0)
    ensures CartStore.Present(stored) && parse(stored.value).Failure? ==> r == Num(0)
    ensures CartStore.Present(stored) && parse(stored.value).Success? && parse(stored.value).value.Arr?
            ==> r == Num(|parse(stored.value).value.items|)
    ensures r.Num? && r.n != 0 ==> CartStore.Present(stored) && parse(stored.value).Success?
  {
    if !CartStore.Present(stored) then Num(0)
    else match parse(stored.value)
      case Failure(_) => Num(0)
      case Success(v) => if Nullish(v) then Num(0) else Length(v)
  }

  /** `cartItemCount > 0` for the values the count can take: a number is
      compared, a boolean counts as 0 or 1, `undefined` compares false. */
  function BadgeShown(count: JsValue): (shown: bool)
    ensures shown ==> (count.Num? && count.n > 0) || count == Bool(true)
    ensures count.Num? ==> (shown <==> count.n > 0)
    ensures count.Undefined? || count.Null? ==> !shown
  {
    match count
    case Num(n) => n > 0
    case Bool(b) => b
    case _ => false
  }

  /** The badge mirrors the stored cart: when the stored text parses to an
      array with one element per cart entry, the count is the number of
      entries, and the badge is shown exactly when the cart is not empty. */
  lemma BadgeMatchesStoredCart(c: CartStore.Cart, stored: Option<string>,
                               parse: string -> Result<JsValue, string>,
                               decode: string -> CartStore.StoredCart)
    requires CartStore.Present(stored)
    requires parse(stored.value).Success? && parse(stored.value).value.Arr?
    requires |parse(stored.value).value.items| == |c|
    requires decode(stored.value) == CartStore.Entries(c)
    ensures CartCount(stored, parse) == Num(|CartStore.LoadCart(stored, decode)|)
    ensures BadgeShown(CartCount(stored, parse)) <==> CartStore.LoadCart(stored, decode) != []
  {
  }

  /** After the cart is cleared (the thank-you page, or the cart page's
      "clear"), the badge disappears whatever the parser does. */
  lemma ClearedCartHidesBadge(c: CartStore.Cart, stored: Option<string>,
                              parse: string -> Result<JsValue, string>)
    ensures !BadgeShown(CartCount(CartStore.ClearCart(c, stored).1, parse))
  {
  }

  /** Text that is not JSON never raises out of the handler: it hides the
      badge. */
  lemma UnparsableCartHidesBadge(stored: Option<string>, parse: string -> Result<JsValue, string>)
    requires CartStore.Present(stored) && parse(stored.value).Failure?
    ensures !BadgeShown(CartCount(stored, parse))
  {
  }
}
