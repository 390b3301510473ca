/** The thank-you page the payment provider redirects to after a successful
    payment: it forgets the stored cart and shows placeholder purchase
    details derived from the `session_id` query parameter. */
module ThankYou {
  import opened Wrappers
  import CartStore

  /** The purchase details card. */
  datatype Details = Details(date: string, paymentMethod: string, orderNumber: string)

  const OrderNumberLength: nat := 8

  /** `sessionId.substring(0, 8)`: the first eight characters, or the whole
      id when it is shorter. */
  function OrderNumber(sessionId: string): (r: string)
    ensures |r| <= OrderNumberLength && |r| <= |sessionId|
    ensures r <= sessionId
    ensures |sessionId| >= OrderNumberLength ==> |r| == OrderNumberLength
    ensures |sessionId| < OrderNumberLength ==> r == sessionId
  {
    if |sessionId| <= OrderNumberLength then sessionId else sessionId[..OrderNumberLength]
  }

  /** What mounting the page leaves behind: the storage entry for the cart,
      and the details card if there is one. */
  datatype Mounted = Mounted(stored: Option<string>, details: Option<Details>)

  /** The mount effect. `sessionParam` is `URLSearchParams.get('session_id')`
      (`None` when the parameter is absent); `today` is the locale date
      string of the moment the page is mounted. */
  function Mount(stored: Option<string>, sessionParam: Option<string>, today: string): (r: Mounted)
    ensures !CartStore.Present(r.stored)
    ensures r.details.Some? <==> sessionParam.Some? && sessionParam.value != ""
    ensures r.details.Some? ==>
              && r.details.value.date == today
              && r.details.value.paymentMethod == "Credit Card"
              && r.details.value.orderNumber <= sessionParam.value
              && r.details.value.orderNumber != ""
  {
    var details :=
      if sessionParam.Some? && sessionParam.value != "" then
        Some(Details(today, "Credit Card", OrderNumber(sessionParam.value)))
      else None;
    Mounted(None, details)
  }

  /** Whatever was in the cart before the purchase, the badge and the cart
      page read an empty cart afterwards. */
  lemma MountEmptiesCart(stored: Option<string>, sessionParam: Option<string>, today: string,
                         decode: string -> CartStore.StoredCart)
    ensures CartStore.LoadCart(Mount(stored, sessionParam, today).stored, decode) == []
  {
  }

  /** The order number only distinguishes session ids by their first eight
      characters: two ids that agree there show the same number. */
  lemma OrderNumberOnlySeesPrefix(a: string, b: string)
    requires |a| >= OrderNumberLength && |b| >= OrderNumberLength
    requires a[..OrderNumberLength] == b[..OrderNumberLength]
    ensures OrderNumber(a) == OrderNumber(b)
  {
  }

  /** The order number is the session id cut at eight characters, or the
      whole id when it is shorter. */
  lemma OrderNumberIsPrefix(sessionId: string)
    ensures OrderNumber(sessionId) == sessionId[..if |sessionId| < OrderNumberLength then |sessionId| else OrderNumberLength]
  {
  }

  /** A concrete redirect: the details show the id's first eight characters. */
  lemma ExampleRedirect()
    ensures Mount(Some("[{\"id\":\"x\"}]"), Some("cs_test_a1B2c3"), "1/2/2025").details
            == Some(Details("1/2/2025", "Credit Card", "cs_test_"))
  {
    assert "cs_test_a1B2c3"[..8] == "cs_test_";
  }
}
