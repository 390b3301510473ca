/**
 * The two browser-side checkout builders: `createCheckoutSession` for one
 * catalogue product, and the cart page's `handleCheckout` for every line of the
 * cart. Both post a JSON body to the edge function, turn a non-2xx reply into an
 * error message and otherwise hand the session id to the payment provider's
 * redirect. The network, JSON parsing and the provider's browser library are
 * oracles carried in `ClientEnv`.
 */
module CheckoutClient {
  import opened Wrappers
  import opened Js
  import opened Catalog
  import opened CartStore
  import CheckoutFunction

  /** What `fetch` yields: a rejected promise, or a reply with `response.ok` and its text. */
  datatype Reply = NetworkError(message: string) | Reply(ok: bool, text: string)

  datatype ClientEnv = ClientEnv(
    rt: Runtime,
    post: JsValue -> Reply,
    parse: string -> Result<JsValue, string>,
    stripeLoaded: bool,
    redirect: JsValue -> JsValue)

  /** `new Error(v).message`: the string itself, or its `String(v)` form. */
  function ErrorText(rt: Runtime, v: JsValue): (r: string)
    ensures v.Str? ==> r == v.s
  {
    if v.Str? then v.s else rt.toText(v)
  }

  /** Where the provider sends the buyer after paying: the thank-you page of
      the origin the request came from. */
  function SuccessUrl(origin: string): (r: string)
    ensures |r| == |origin| + 10 && r[..|origin|] == origin && r[|origin|..] == "/thank-you"
  {
    origin + "/thank-you"
  }

  /** Where the provider sends a buyer who cancels: back to the cart. */
  function CancelUrl(origin: string): (r: string)
    ensures |r| == |origin| + 5 && r[..|origin|] == origin && r[|origin|..] == "/cart"
  {
    origin + "/cart"
  }

  /** The two return addresses never coincide, whatever the origins, and each
      one determines the origin it was built from. */
  lemma ReturnUrlsDistinguish(a: string, b: string)
    ensures SuccessUrl(a) != CancelUrl(b)
    ensures SuccessUrl(a) == SuccessUrl(b) ==> a == b
    ensures CancelUrl(a) == CancelUrl(b) ==> a == b
  {
    var s, c := SuccessUrl(a), CancelUrl(b);
    assert s[|s| - 1] == 'u' && c[|c| - 1] == 't';
    if SuccessUrl(a) == SuccessUrl(b) {
      assert a == SuccessUrl(a)[..|a|] == SuccessUrl(b)[..|b|] == b;
    }
    if CancelUrl(a) == CancelUrl(b) {
      assert a == CancelUrl(a)[..|a|] == CancelUrl(b)[..|b|] == b;
    }
  }

  /** The outcome of `createCheckoutSession`: the redirect it returns, or the error it rethrows. */
  datatype Outcome = Redirected(sessionId: JsValue) | Raised(message: string)

  /** The body `createCheckoutSession` posts for one product. */
  function ProductBody(p: Product, origin: string): (r: JsValue)
    ensures r.Obj? && Get(r, "price_id") == Str(p.priceId) && Get(r, "mode") == Str(ModeName(p.mode))
    ensures Get(r, "success_url") == Str(SuccessUrl(origin)) && Get(r, "cancel_url") == Str(CancelUrl(origin))
    ensures Get(r, "line_items") == Undefined && Get(r, "price") == Undefined
  {
    Obj(map[
      "price_id" := Str(p.priceId),
      "mode" := Str(ModeName(p.mode)),
      "success_url" := Str(SuccessUrl(origin)),
      "cancel_url" := Str(CancelUrl(origin))])
  }

  /** `createCheckoutSession(productId)`. */
  function CreateCheckoutSession(productId: string, origin: string, env: ClientEnv): (r: Outcome)
    ensures Find(Products, productId).None? ==> r == Raised("Product not found")
    ensures r.Redirected? ==>
      && Find(Products, productId).Some?
      && env.stripeLoaded
      && var reply := env.post(ProductBody(Find(Products, productId).value, origin));
      && reply.Reply? && reply.ok
      && env.parse(reply.text).Success?
      && !Nullish(env.parse(reply.text).value)
      && r.sessionId == Get(env.parse(reply.text).value, "sessionId")
  {
    match Find(Products, productId)
    case None => Raised("Product not found")
    case Some(product) =>
      match env.post(ProductBody(product, origin))
      case NetworkError(message) => Raised(message)
      case Reply(ok, text) =>
        match env.parse(text)
        case Failure(message) => Raised(message)
        case Success(json) =>
          if !ok then
            if Nullish(json) then Raised(env.rt.nullReadMessage("error"))
            else if Truthy(Get(json, "error")) then Raised(ErrorText(env.rt, Get(json, "error")))
            else Raised("Failed to create checkout session")
          else if Nullish(json) then Raised(env.rt.destructureMessage("sessionId"))
          else if !env.stripeLoaded then Raised("Stripe not initialized")
          else Redirected(Get(json, "sessionId"))
  }

  /** One line item of the cart page's request. */
  function LineItem(p: Product): JsValue {
    Obj(map["price" := Str(p.priceId), "quantity" := Num(1)])
  }

  function NotConfigured(item: CartItem): string {
    "Product configuration not found for: " + item.title
  }

  predicate Configured(catalog: seq<Product>, item: CartItem) {
    Find(catalog, item.id).Some?
  }

  /** `cartItems.map(...)`: the line items of a cart whose every entry is in the
      catalogue; otherwise the error thrown for the first entry that is not. */
  function LineItems(catalog: seq<Product>, cart: Cart): (r: Result<seq<JsValue>, string>)
    ensures r.Success? ==> |r.value| == |cart|
    ensures r.Failure? ==> cart != []
  {
    if cart == [] then Success([])
    else if !Configured(catalog, cart[0]) then Failure(NotConfigured(cart[0]))
    else
      match LineItems(catalog, cart[1..])
      case Failure(e) => Failure(e)
      case Success(rest) => Success([LineItem(Find(catalog, cart[0].id).value)] + rest)
  }

  /** The request succeeds exactly for a fully catalogued cart, and then holds
      one line item per entry, in cart order, each at its product's price. */
  lemma {:induction false} LineItemsSucceed(catalog: seq<Product>, cart: Cart)
    ensures LineItems(catalog, cart).Success? <==> forall i | 0 <= i < |cart| :: Configured(catalog, cart[i])
    ensures LineItems(catalog, cart).Success? ==>
      forall i | 0 <= i < |cart| :: LineItems(catalog, cart).value[i] == LineItem(Find(catalog, cart[i].id).value)
  {
    if cart != [] {
      LineItemsSucceed(catalog, cart[1..]);
      assert forall i | 1 <= i < |cart| :: cart[i] == cart[1..][i - 1];
    }
  }

  /** A cart with an uncatalogued entry fails with the message naming the
      first such entry. */
  lemma {:induction false} LineItemsFirstOffender(catalog: seq<Product>, cart: Cart, k: nat)
    requires k < |cart|
    requires forall i | 0 <= i < k :: Configured(catalog, cart[i])
    requires !Configured(catalog, cart[k])
    ensures LineItems(catalog, cart) == Failure(NotConfigured(cart[k]))
  {
    if k > 0 {
      assert forall i | 0 <= i < k - 1 :: cart[1..][i] == cart[i + 1];
      LineItemsFirstOffender(catalog, cart[1..], k - 1);
    }
  }

  /** The body the cart page posts: every line item, with the first entry's mode. */
  function CartBody(catalog: seq<Product>, cart: Cart, origin: string): (r: Result<JsValue, string>)
    requires cart != []
    ensures r.Success? <==> LineItems(catalog, cart).Success?
    ensures r.Failure? ==> r == Failure(LineItems(catalog, cart).error)
    ensures r.Success? ==>
      && r.value.Obj?
      && Get(r.value, "line_items") == Arr(LineItems(catalog, cart).value)
      && Get(r.value, "mode") == Str(ModeName(Find(catalog, cart[0].id).value.mode))
      && Get(r.value, "success_url") == Str(SuccessUrl(origin))
      && Get(r.value, "cancel_url") == Str(CancelUrl(origin))
  {
    if !Configured(catalog, cart[0]) then Failure(NotConfigured(cart[0]))
    else
      match LineItems(catalog, cart)
      case Failure(e) => Failure(e)
      case Success(items) =>
        Success(Obj(map[
          "line_items" := Arr(items),
          "mode" := Str(ModeName(Find(catalog, cart[0].id).value.mode)),
          "success_url" := Str(SuccessUrl(origin)),
          "cancel_url" := Str(CancelUrl(origin))]))
  }

  /** What `handleCheckout` leads to: nothing for an empty cart, a redirect, or
      the message shown in the error banner. */
  datatype CartOutcome = NotStarted | Redirecting(sessionId: JsValue) | Failed(message: string)

  /** The message of a non-2xx reply: the parsed body's truthy `error`, else a
      fixed fallback, which also covers an empty or unparseable body. */
  predicate CarriesError(text: string, env: ClientEnv) {
    text != "" && env.parse(text).Success? && Truthy(env.parse(text).value)
    && Truthy(Get(env.parse(text).value, "error"))
  }

  function ReplyError(text: string, env: ClientEnv): (r: string)
    ensures CarriesError(text, env) ==> r == ErrorText(env.rt, Get(env.parse(text).value, "error"))
    ensures !CarriesError(text, env) ==> r == "Failed to create checkout session"
  {
    if text == "" then "Failed to create checkout session"
    else
      match env.parse(text)
      case Failure(_) => "Failed to create checkout session"
      case Success(json) =>
        if Truthy(json) && Truthy(Get(json, "error")) then ErrorText(env.rt, Get(json, "error"))
        else "Failed to create checkout session"
  }

  /** `handleCheckout` on the cart page. */
  function CartCheckout(catalog: seq<Product>, cart: Cart, origin: string, env: ClientEnv): (r: CartOutcome)
    ensures r.NotStarted? <==> cart == []
    ensures cart != [] && LineItems(catalog, cart).Failure? ==> r == Failed(LineItems(catalog, cart).error)
    ensures r.Redirecting? ==>
      && CartBody(catalog, cart, origin).Success?
      && env.stripeLoaded
      && env.post(CartBody(catalog, cart, origin).value).Reply?
      && env.post(CartBody(catalog, cart, origin).value).ok
      && !Truthy(env.redirect(r.sessionId))
  {
    if cart == [] then NotStarted
    else
      match CartBody(catalog, cart, origin)
      case Failure(e) => Failed(e)
      case Success(body) =>
        match env.post(body)
        case NetworkError(message) => Failed(message)
        case Reply(ok, text) =>
          if !ok then Failed(ReplyError(text, env))
          else
            match env.parse(text)
            case Failure(message) => Failed(message)
            case Success(json) =>
              if Nullish(json) then Failed(env.rt.destructureMessage("sessionId"))
              else if !env.stripeLoaded then Failed("Stripe failed to initialize")
              else if Truthy(env.redirect(Get(json, "sessionId"))) then Failed("An unknown error occurred")
              else Redirecting(Get(json, "sessionId"))
  }

  /** The page state `handleCheckout` leaves behind: the spinner is always
      cleared in `finally`, and the banner shows exactly the failure message. */
  datatype CheckoutView = CheckoutView(loading: bool, error: Option<string>)

  function ViewAfter(view: CheckoutView, outcome: CartOutcome): (r: CheckoutView)
    ensures outcome.NotStarted? ==> r == view
    ensures !outcome.NotStarted? ==> !r.loading
    ensures !outcome.NotStarted? ==> (r.error.Some? <==> outcome.Failed?)
    ensures outcome.Failed? ==> r.error == Some(outcome.message)
  {
    match outcome
    case NotStarted => view
    case Redirecting(_) => CheckoutView(false, None)
    case Failed(message) => CheckoutView(false, Some(message))
  }

  /** Every catalogue product yields a request the edge function accepts; the
      session it asks for is one item of quantity 1 at the product's price, in
      the product's mode, whatever the Authorization header does. */
  lemma ProductBodyAccepted(p: Product, origin: string, header: Option<string>, env: CheckoutFunction.Env)
    requires p in Products
    ensures var req := CheckoutFunction.Request("POST", header, Success(ProductBody(p, origin)));
      && CheckoutFunction.WellFormed(ProductBody(p, origin))
      && CheckoutFunction.PlanFor(req, env).CallProvider?
      && CheckoutFunction.PlanFor(req, env).options == CheckoutFunction.SessionOptions(
           ["card"], p.mode, Str(SuccessUrl(origin)), Str(CancelUrl(origin)),
           CheckoutFunction.ResolveCustomer(header, env),
           [Obj(map["price" := Str(p.priceId), "quantity" := Num(1)])])
      && CheckoutFunction.Handle(req, env).status in {200, 500}
  {
    CatalogPriceIdsDistinct();
    var body := ProductBody(p, origin);
    assert ModeName(p.mode) == "payment" || ModeName(p.mode) == "subscription";
    assert CheckoutFunction.ModeOf(Get(body, "mode")) == Some(p.mode);
    CheckoutFunction.WellFormedReachesProvider(CheckoutFunction.Request("POST", header, Success(body)), env);
  }

  /** Every line item of a catalogue whose prices are set carries a truthy price. */
  lemma LineItemsPriced(catalog: seq<Product>, cart: Cart)
    requires LineItems(catalog, cart).Success?
    requires forall i | 0 <= i < |catalog| :: catalog[i].priceId != ""
    ensures forall i | 0 <= i < |cart| :: CheckoutFunction.HasPrice(LineItems(catalog, cart).value[i])
  {
    LineItemsSucceed(catalog, cart);
    var items := LineItems(catalog, cart).value;
    forall i | 0 <= i < |cart| ensures CheckoutFunction.HasPrice(items[i]) {
      var q := Find(catalog, cart[i].id).value;
      var k :| 0 <= k < |catalog| && catalog[k] == q;
      assert Get(items[i], "price") == Str(q.priceId);
    }
  }

  /** A cart whose every entry is catalogued yields a request the edge function
      accepts: one line item per entry, in cart order, all in the first entry's
      mode, so the function never answers it with a 400. */
  lemma CartBodyAccepted(catalog: seq<Product>, cart: Cart, origin: string, header: Option<string>, env: CheckoutFunction.Env)
    requires cart != [] && CartBody(catalog, cart, origin).Success?
    requires forall i | 0 <= i < |catalog| :: catalog[i].priceId != ""
    ensures var req := CheckoutFunction.Request("POST", header, Success(CartBody(catalog, cart, origin).value));
      && CheckoutFunction.WellFormed(CartBody(catalog, cart, origin).value)
      && CheckoutFunction.PlanFor(req, env).CallProvider?
      && CheckoutFunction.PlanFor(req, env).options.lineItems == LineItems(catalog, cart).value
      && CheckoutFunction.PlanFor(req, env).options.mode == Find(catalog, cart[0].id).value.mode
      && CheckoutFunction.Handle(req, env).status in {200, 500}
  {
    var body := CartBody(catalog, cart, origin).value;
    var items := LineItems(catalog, cart).value;
    LineItemsPriced(catalog, cart);
    assert Get(body, "line_items") == Arr(items) && |items| == |cart| > 0;
    var m := Find(catalog, cart[0].id).value.mode;
    assert ModeName(m) == "payment" || ModeName(m) == "subscription";
    assert CheckoutFunction.ModeOf(Get(body, "mode")) == Some(m);
    assert Truthy(Get(body, "success_url")) && Truthy(Get(body, "cancel_url"));
    assert CheckoutFunction.WellFormed(body);
    CheckoutFunction.WellFormedReachesProvider(CheckoutFunction.Request("POST", header, Success(body)), env);
  }

  /** The cart page's reading of an answer: a session payload leads to the
      redirect with its id, an error payload puts its message in the banner, or
      the fixed fallback when the message is empty. */
  lemma CartPageReadsAnswer(catalog: seq<Product>, cart: Cart, origin: string, client: ClientEnv,
                            status: int, payload: CheckoutFunction.Payload, text: string)
    requires cart != [] && CartBody(catalog, cart, origin).Success?
    requires client.post(CartBody(catalog, cart, origin).value) == Reply(status == 200, text)
    requires text != "" && client.parse(text) == Success(CheckoutFunction.Json(payload))
    requires status == 200 ==> payload.SessionPayload?
    requires status != 200 ==> payload.ErrorPayload?
    ensures status == 200 && client.stripeLoaded && !Truthy(client.redirect(Str(payload.sessionId))) ==>
              CartCheckout(catalog, cart, origin, client) == Redirecting(Str(payload.sessionId))
    ensures status == 200 && !client.stripeLoaded ==>
              CartCheckout(catalog, cart, origin, client) == Failed("Stripe failed to initialize")
    ensures status != 200 ==>
              CartCheckout(catalog, cart, origin, client) ==
                Failed(if payload.error != "" then payload.error else "Failed to create checkout session")
  {
  }

  /** End to end: whatever the edge function answers to the cart page's request
      is what the page shows. */
  lemma ServerAnswerShownOnCartPage(catalog: seq<Product>, cart: Cart, origin: string, header: Option<string>,
                                    server: CheckoutFunction.Env, client: ClientEnv, text: string)
    requires cart != [] && CartBody(catalog, cart, origin).Success?
    requires var resp := CheckoutFunction.Handle(
               CheckoutFunction.Request("POST", header, Success(CartBody(catalog, cart, origin).value)), server);
      && resp.body.Some?
      && client.post(CartBody(catalog, cart, origin).value) == Reply(resp.status == 200, text)
      && text != ""
      && client.parse(text) == Success(CheckoutFunction.Json(resp.body.value))
    ensures var resp := CheckoutFunction.Handle(
              CheckoutFunction.Request("POST", header, Success(CartBody(catalog, cart, origin).value)), server);
      && (resp.status == 200 && client.stripeLoaded && !Truthy(client.redirect(Str(resp.body.value.sessionId))) ==>
            CartCheckout(catalog, cart, origin, client) == Redirecting(Str(resp.body.value.sessionId)))
      && (resp.status == 200 && !client.stripeLoaded ==>
            CartCheckout(catalog, cart, origin, client) == Failed("Stripe failed to initialize"))
      && (resp.status != 200 ==>
            CartCheckout(catalog, cart, origin, client) ==
              Failed(if resp.body.value.error != "" then resp.body.value.error else "Failed to create checkout session"))
  {
    var req := CheckoutFunction.Request("POST", header, Success(CartBody(catalog, cart, origin).value));
    var resp := CheckoutFunction.Handle(req, server);
    CartPageReadsAnswer(catalog, cart, origin, client, resp.status, resp.body.value, text);
  }

  /** `createCheckoutSession`'s reading of an answer: a session payload becomes
      the redirect, an error payload is rethrown with its message, or the fixed
      fallback when that message is empty. */
  lemma ProductPageReadsAnswer(productId: string, origin: string, client: ClientEnv,
                               status: int, payload: CheckoutFunction.Payload, text: string)
    requires Find(Products, productId).Some?
    requires client.post(ProductBody(Find(Products, productId).value, origin)) == Reply(status == 200, text)
    requires client.parse(text) == Success(CheckoutFunction.Json(payload))
    requires status == 200 ==> payload.SessionPayload?
    requires status != 200 ==> payload.ErrorPayload?
    ensures status == 200 && client.stripeLoaded ==>
              CreateCheckoutSession(productId, origin, client) == Redirected(Str(payload.sessionId))
    ensures status == 200 && !client.stripeLoaded ==>
              CreateCheckoutSession(productId, origin, client) == Raised("Stripe not initialized")
    ensures status != 200 ==>
              CreateCheckoutSession(productId, origin, client) ==
                Raised(if payload.error != "" then payload.error else "Failed to create checkout session")
  {
  }

  /** End to end for `createCheckoutSession`: what the edge function answers is
      what the call returns or throws. */
  lemma ServerAnswerRaisedByCreateCheckoutSession(productId: string, origin: string, header: Option<string>,
                                                  server: CheckoutFunction.Env, client: ClientEnv, text: string)
    requires Find(Products, productId).Some?
    requires var body := ProductBody(Find(Products, productId).value, origin);
      var resp := CheckoutFunction.Handle(CheckoutFunction.Request("POST", header, Success(body)), server);
      && resp.body.Some?
      && client.post(body) == Reply(resp.status == 200, text)
      && client.parse(text) == Success(CheckoutFunction.Json(resp.body.value))
    ensures var body := ProductBody(Find(Products, productId).value, origin);
      var resp := CheckoutFunction.Handle(CheckoutFunction.Request("POST", header, Success(body)), server);
      && (resp.status == 200 && client.stripeLoaded ==>
            CreateCheckoutSession(productId, origin, client) == Redirected(Str(resp.body.value.sessionId)))
      && (resp.status == 200 && !client.stripeLoaded ==>
            CreateCheckoutSession(productId, origin, client) == Raised("Stripe not initialized"))
      && (resp.status != 200 ==>
            CreateCheckoutSession(productId, origin, client) ==
              Raised(if resp.body.value.error != "" then resp.body.value.error else "Failed to create checkout session"))
  {
    var body := ProductBody(Find(Products, productId).value, origin);
    var resp := CheckoutFunction.Handle(CheckoutFunction.Request("POST", header, Success(body)), server);
    ProductPageReadsAnswer(productId, origin, client, resp.status, resp.body.value, text);
  }

}

