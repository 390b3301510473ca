/**
 * The `stripe-checkout` edge function: method routing with CORS, the ordered
 * validation chain over the decoded JSON body, best-effort customer
 * resolution that degrades to guest checkout, and the options handed to the
 * payment provider's session-creation call. The provider, the account store and
 * the JSON runtime are oracles carried in `Env`.
 */
module CheckoutFunction {
  import opened Wrappers
  import opened Js
  import opened Catalog

  datatype Header = Header(name: string, value: string)

  const CorsHeaders: seq<Header> := [
    Header("Access-Control-Allow-Origin", "*"),
    Header("Access-Control-Allow-Methods", "POST, OPTIONS"),
    Header("Access-Control-Allow-Headers", "*")
  ]

  const JsonContentType: Header := Header("Content-Type", "application/json")

  /** The JSON objects the function answers with. */
  datatype Payload = EmptyObject | ErrorPayload(error: string) | SessionPayload(sessionId: string, url: string)

  /** The JSON object a payload is serialised to. */
  function Json(p: Payload): (r: JsValue)
    ensures r.Obj?
    ensures p.ErrorPayload? ==> Get(r, "error") == Str(p.error)
    ensures p.SessionPayload? ==> Get(r, "sessionId") == Str(p.sessionId) && Get(r, "error") == Undefined
  {
    match p
    case EmptyObject => Obj(map[])
    case ErrorPayload(e) => Obj(map["error" := Str(e)])
    case SessionPayload(id, url) => Obj(map["sessionId" := Str(id), "url" := Str(url)])
  }

  /** `body == None` is the null body of a 204 answer. */
  datatype Response = Response(status: int, headers: seq<Header>, body: Option<Payload>)

  /** `corsResponse(body, status)`: every answer carries the three CORS headers;
      a 204 has no body and no Content-Type, every other status a JSON body. */
  function CorsResponse(body: Payload, status: int): (r: Response)
    ensures r.status == status
    ensures |r.headers| >= 3 && r.headers[..3] == CorsHeaders
    ensures r.body.None? <==> status == 204
    ensures JsonContentType in r.headers <==> status != 204
    ensures status != 204 ==> r.body == Some(body)
  {
    if status == 204 then Response(status, CorsHeaders, None)
    else
      assert (CorsHeaders + [JsonContentType])[..3] == CorsHeaders;
      assert JsonContentType !in CorsHeaders;
      Response(status, CorsHeaders + [JsonContentType], Some(body))
  }

  /** A 400 answer with the given message. */
  function BadRequest(message: string): Response {
    CorsResponse(ErrorPayload(message), 400)
  }

  datatype User = User(id: string, email: string)

  /** The stored account-to-customer mapping query. */
  datatype CustomerLookup = LookupThrows | NoMapping | Mapping(customerId: string)

  /** `auth.getUser(token)` followed, for a signed-in user, by the mapping query. */
  datatype AuthOutcome = AuthThrows | NoUser | SignedIn(user: User, lookup: CustomerLookup)

  /** `customers.create` followed by saving the mapping; either step may throw. */
  datatype CustomerCreation = CreateThrows | Created(customerId: string, saveThrows: bool)

  /** The options passed to `checkout.sessions.create`. */
  datatype SessionOptions = SessionOptions(
    paymentMethodTypes: seq<string>,
    mode: Mode,
    successUrl: JsValue,
    cancelUrl: JsValue,
    customer: Option<string>,
    lineItems: seq<JsValue>)

  datatype SessionOutcome = SessionCreated(id: string, url: string) | SessionThrows(message: string)

  /** Everything outside the function: the JSON runtime, the account store and the provider. */
  datatype Env = Env(
    rt: Runtime,
    getUser: string -> AuthOutcome,
    createCustomer: User -> CustomerCreation,
    createSession: SessionOptions -> SessionOutcome)

  /** An incoming request; `body` is the outcome of `req.json()`. */
  datatype Request = Request(verb: string, authorization: Option<string>, body: Result<JsValue, string>)

  /** `mode === 'payment'` / `mode === 'subscription'` (strict equality with a string). */
  function ModeOf(v: JsValue): (r: Option<Mode>)
    ensures r.Some? ==> v == Str(ModeName(r.value)) && Truthy(v)
    ensures r.None? ==> v != Str("payment") && v != Str("subscription")
  {
    if v == Str("payment") then Some(Payment)
    else if v == Str("subscription") then Some(Subscription)
    else None
  }

  /** A rejected request: the status and the message of the `{error}` body. */
  datatype Rejection = Rejection(status: int, message: string)

  /** The two shapes of an accepted request. */
  datatype Items = Multi(items: seq<JsValue>) | Single(price: JsValue)

  datatype Checked =
    | Rejected(rejection: Rejection)
    | Accepted(mode: Mode, items: Items, successUrl: JsValue, cancelUrl: JsValue)

  /** An item that passes the per-item check: `item.price` is truthy. */
  predicate HasPrice(item: JsValue) {
    !Nullish(item) && Truthy(Get(item, "price"))
  }

  /** The rejection for an item without a truthy `price`: reading `price` of
      `null` throws a TypeError (a 500), any other offender is a 400 naming it. */
  function Offender(item: JsValue, rt: Runtime): (r: Rejection)
    ensures Nullish(item) <==> r.status == 500
    ensures !Nullish(item) <==> r.status == 400
  {
    if Nullish(item) then Rejection(500, rt.nullReadMessage("price"))
    else Rejection(400, "Line item missing price property: " + rt.stringify(item))
  }

  /** The `for (const item of line_items)` loop: the first item without a truthy
      `price` rejects the request. */
  function CheckItems(items: seq<JsValue>, rt: Runtime): (r: Option<Rejection>)
    ensures r.None? <==> forall i | 0 <= i < |items| :: HasPrice(items[i])
    ensures r.Some? ==> r.value.status == 400 || r.value.status == 500
  {
    if items == [] then None
    else if !HasPrice(items[0]) then Some(Offender(items[0], rt))
    else
      var r := CheckItems(items[1..], rt);
      assert forall i | 1 <= i < |items| :: items[i] == items[1..][i - 1];
      r
  }

  /** The loop reports the first offender, and only it. */
  lemma {:induction false} CheckItemsFirstOffender(items: seq<JsValue>, rt: Runtime, k: nat)
    requires k < |items|
    requires forall i | 0 <= i < k :: HasPrice(items[i])
    requires !HasPrice(items[k])
    ensures CheckItems(items, rt) == Some(Offender(items[k], rt))
  {
    if k > 0 {
      assert forall i | 0 <= i < k - 1 :: items[1..][i] == items[i + 1];
      CheckItemsFirstOffender(items[1..], rt, k - 1);
    }
  }

  /** The request rules as one conjunction, independent of the order in which the
      function checks them. */
  predicate WellFormed(body: JsValue) {
    && !Nullish(body)
    && (Get(body, "line_items").Arr? ==>
          |Get(body, "line_items").items| > 0
          && forall i | 0 <= i < |Get(body, "line_items").items| :: HasPrice(Get(body, "line_items").items[i]))
    && (!Get(body, "line_items").Arr? ==> Truthy(Or(Get(body, "price"), Get(body, "price_id"))))
    && ModeOf(Get(body, "mode")).Some?
    && Truthy(Get(body, "success_url"))
    && Truthy(Get(body, "cancel_url"))
  }

  /** The URL checks shared by both paths, run after the path's own checks. */
  function CheckUrls(mode: Mode, items: Items, successUrl: JsValue, cancelUrl: JsValue): (r: Checked)
    ensures r.Accepted? <==> Truthy(successUrl) && Truthy(cancelUrl)
    ensures r.Accepted? ==> r == Accepted(mode, items, successUrl, cancelUrl)
  {
    if !Truthy(successUrl) then Rejected(Rejection(400, "Success URL is required"))
    else if !Truthy(cancelUrl) then Rejected(Rejection(400, "Cancel URL is required"))
    else Accepted(mode, items, successUrl, cancelUrl)
  }

  /** The validation chain of the handler, first failure wins. An array
      `line_items` selects the multi-item path; anything else the single-item path. */
  function Validate(body: JsValue, rt: Runtime): (r: Checked)
    requires !Nullish(body)
    ensures r.Accepted? <==> WellFormed(body)
    ensures r.Accepted? ==>
      && r.mode == ModeOf(Get(body, "mode")).value
      && r.successUrl == Get(body, "success_url")
      && r.cancelUrl == Get(body, "cancel_url")
    ensures r.Accepted? && Get(body, "line_items").Arr? ==> r.items == Multi(Get(body, "line_items").items)
    ensures r.Accepted? && !Get(body, "line_items").Arr? ==> r.items == Single(Or(Get(body, "price"), Get(body, "price_id")))
    ensures r.Rejected? ==> r.rejection.status == 400 || r.rejection.status == 500
  {
    var lineItems, mode := Get(body, "line_items"), Get(body, "mode");
    var successUrl, cancelUrl := Get(body, "success_url"), Get(body, "cancel_url");
    if lineItems.Arr? then
      if |lineItems.items| == 0 then Rejected(Rejection(400, "At least one line item is required"))
      else if !Truthy(mode) then Rejected(Rejection(400, "Mode is required for multi-product checkout"))
      else if ModeOf(mode).None? then Rejected(Rejection(400, "Mode must be either \"payment\" or \"subscription\""))
      else if CheckItems(lineItems.items, rt).Some? then Rejected(CheckItems(lineItems.items, rt).value)
      else CheckUrls(ModeOf(mode).value, Multi(lineItems.items), successUrl, cancelUrl)
    else
      var priceId := Or(Get(body, "price"), Get(body, "price_id"));
      if !Truthy(priceId) then Rejected(Rejection(400, "Price ID is required"))
      else if !Truthy(mode) then Rejected(Rejection(400, "Mode is required"))
      else if ModeOf(mode).None? then Rejected(Rejection(400, "Mode must be either \"payment\" or \"subscription\""))
      else CheckUrls(ModeOf(mode).value, Single(priceId), successUrl, cancelUrl)
  }

  predicate StartsWith(s: string, prefix: string) {
    |prefix| <= |s| && s[..|prefix|] == prefix
  }

  /** The token of a truthy `Authorization` header that starts with `Bearer `. */
  function BearerToken(header: Option<string>): (r: Option<string>)
    ensures r.Some? <==> header.Some? && StartsWith(header.value, "Bearer ")
    ensures r.Some? ==> r == Some(header.value[7..]) && header == Some("Bearer " + r.value)
  {
    if header.Some? && header.value != "" && StartsWith(header.value, "Bearer ") then
      assert header.value == "Bearer " + header.value[7..];
      Some(header.value[7..])
    else None
  }

  /** Best-effort customer resolution: use the stored mapping of a signed-in
      user, else try to create a customer and save the mapping. Every failure
      on the way is swallowed; the result is the customer to attach, if any. */
  function ResolveCustomer(header: Option<string>, env: Env): (r: Option<string>)
    ensures r.Some? ==> r.value != ""
    ensures BearerToken(header).None? ==> r.None?
    ensures BearerToken(header).Some? && !env.getUser(BearerToken(header).value).SignedIn? ==> r.None?
    ensures BearerToken(header).Some? && env.getUser(BearerToken(header).value).SignedIn? ==>
      var u := env.getUser(BearerToken(header).value);
      var c := env.createCustomer(u.user);
      && (u.lookup.Mapping? && u.lookup.customerId != "" ==> r == Some(u.lookup.customerId))
      && (!(u.lookup.Mapping? && u.lookup.customerId != "") ==>
            && (r.Some? <==> c.Created? && !c.saveThrows && c.customerId != "")
            && (r.Some? ==> r.value == c.customerId))
  {
    match BearerToken(header)
    case None => None
    case Some(token) =>
      match env.getUser(token)
      case AuthThrows => None
      case NoUser => None
      case SignedIn(user, lookup) =>
        if lookup.Mapping? && lookup.customerId != "" then Some(lookup.customerId)
        else
          match env.createCustomer(user)
          case CreateThrows => None
          case Created(id, saveThrows) => if !saveThrows && id != "" then Some(id) else None
  }

  /** The session options built from an accepted request. */
  function OptionsFor(mode: Mode, items: Items, successUrl: JsValue, cancelUrl: JsValue, customer: Option<string>): (o: SessionOptions)
    ensures o.paymentMethodTypes == ["card"] && o.mode == mode && o.customer == customer
    ensures o.successUrl == successUrl && o.cancelUrl == cancelUrl
    ensures items.Multi? ==> o.lineItems == items.items
    ensures items.Single? ==> o.lineItems == [Obj(map["price" := items.price, "quantity" := Num(1)])]
  {
    SessionOptions(["card"], mode, successUrl, cancelUrl, customer,
      match items
      case Multi(xs) => xs
      case Single(price) => [Obj(map["price" := price, "quantity" := Num(1)])])
  }

  /** What the handler does before the provider call: answer directly, or call
      the provider with these options. */
  datatype Plan = Respond(response: Response) | CallProvider(options: SessionOptions)

  function PlanFor(req: Request, env: Env): (p: Plan)
    ensures p.CallProvider? <==> req.verb == "POST" && req.body.Success? && WellFormed(req.body.value)
    ensures p.Respond? ==> p.response.status != 200
    ensures p.Respond? && p.response.status != 204 ==> p.response.body.Some? && p.response.body.value.ErrorPayload?
  {
    if req.verb == "OPTIONS" then Respond(CorsResponse(EmptyObject, 204))
    else if req.verb != "POST" then Respond(CorsResponse(ErrorPayload("Method not allowed"), 405))
    else
      match req.body
      case Failure(message) => Respond(CorsResponse(ErrorPayload(message), 500))
      case Success(body) =>
        if Nullish(body) then Respond(CorsResponse(ErrorPayload(env.rt.destructureMessage("price")), 500))
        else
          match Validate(body, env.rt)
          case Rejected(rejection) => Respond(CorsResponse(ErrorPayload(rejection.message), rejection.status))
          case Accepted(mode, items, successUrl, cancelUrl) =>
            CallProvider(OptionsFor(mode, items, successUrl, cancelUrl, ResolveCustomer(req.authorization, env)))
  }

  /** The request handler. */
  function Handle(req: Request, env: Env): (r: Response)
    ensures r.status in {200, 204, 400, 405, 500}
    ensures |r.headers| >= 3 && r.headers[..3] == CorsHeaders
    ensures r.status == 204 <==> req.verb == "OPTIONS"
    ensures r.status == 405 <==> req.verb != "OPTIONS" && req.verb != "POST"
    ensures r.status == 200 ==> PlanFor(req, env).CallProvider?
    ensures r.status == 200 ==> r.body.Some? && r.body.value.SessionPayload?
    ensures r.status != 200 && r.status != 204 ==> r.body.Some? && r.body.value.ErrorPayload?
  {
    match PlanFor(req, env)
    case Respond(response) =>
      assert response.status in {204, 405, 400, 500};
      response
    case CallProvider(options) =>
      match env.createSession(options)
      case SessionCreated(id, url) => CorsResponse(SessionPayload(id, url), 200)
      case SessionThrows(message) => CorsResponse(ErrorPayload(message), 500)
  }

  /** A preflight is answered 204 with the CORS headers only, whatever else the request holds. */
  lemma Preflight(req: Request, env: Env)
    requires req.verb == "OPTIONS"
    ensures Handle(req, env) == Response(204, CorsHeaders, None)
  {
  }

  /** Any verb other than OPTIONS and POST is refused before the body is read,
      so even an unreadable body answers 405. */
  lemma OtherVerbsRefused(req: Request, env: Env)
    requires req.verb != "OPTIONS" && req.verb != "POST"
    ensures Handle(req, env) == CorsResponse(ErrorPayload("Method not allowed"), 405)
    ensures Handle(req, env).body == Some(ErrorPayload("Method not allowed"))
  {
  }

  /** A POST whose body is not JSON answers 500 with the parser's message. */
  lemma UnreadableBody(req: Request, env: Env)
    requires req.verb == "POST" && req.body.Failure?
    ensures Handle(req, env) == CorsResponse(ErrorPayload(req.body.error), 500)
    ensures !PlanFor(req, env).CallProvider?
  {
  }

  /** The multi-item path checks, in this order: a non-empty array, a mode, a
      valid mode, a truthy price on every item, then the two URLs. Each rule's
      message is reported exactly when every earlier rule passed and this one
      fails. */
  lemma MultiItemRulesInOrder(req: Request, env: Env)
    requires req.verb == "POST" && req.body.Success? && req.body.value.Obj?
    requires Get(req.body.value, "line_items").Arr?
    ensures var body := req.body.value;
      var items := Get(body, "line_items").items;
      var mode := Get(body, "mode");
      var r := Handle(req, env);
      && (items == [] ==> r == BadRequest("At least one line item is required"))
      && (items != [] && !Truthy(mode) ==> r == BadRequest("Mode is required for multi-product checkout"))
      && (items != [] && Truthy(mode) && ModeOf(mode).None? ==>
            r == BadRequest("Mode must be either \"payment\" or \"subscription\""))
      && (items != [] && ModeOf(mode).Some? && (forall i | 0 <= i < |items| :: HasPrice(items[i])) ==>
            && (!Truthy(Get(body, "success_url")) ==> r == BadRequest("Success URL is required"))
            && (Truthy(Get(body, "success_url")) && !Truthy(Get(body, "cancel_url")) ==> r == BadRequest("Cancel URL is required")))
  {
  }

  /** Past the mode checks, the first item without a truthy price is the one
      reported: a `null` item fails with the runtime's 500 (reading `price` of
      it throws), any other offender with a 400 naming the item. */
  lemma MultiItemFirstOffender(req: Request, env: Env, k: nat)
    requires req.verb == "POST" && req.body.Success? && req.body.value.Obj?
    requires Get(req.body.value, "line_items").Arr?
    requires ModeOf(Get(req.body.value, "mode")).Some?
    requires var items := Get(req.body.value, "line_items").items;
      && k < |items|
      && (forall i | 0 <= i < k :: HasPrice(items[i]))
      && !HasPrice(items[k])
    ensures var items := Get(req.body.value, "line_items").items;
      Handle(req, env) == (if Nullish(items[k]) then CorsResponse(ErrorPayload(env.rt.nullReadMessage("price")), 500)
                           else BadRequest("Line item missing price property: " + env.rt.stringify(items[k])))
  {
    CheckItemsFirstOffender(Get(req.body.value, "line_items").items, env.rt, k);
  }

  /** The single-item path checks, in this order: `price || price_id`, a mode, a
      valid mode, then the two URLs. */
  lemma SingleItemRulesInOrder(req: Request, env: Env)
    requires req.verb == "POST" && req.body.Success? && req.body.value.Obj?
    requires !Get(req.body.value, "line_items").Arr?
    ensures var body := req.body.value;
      var priceId := Or(Get(body, "price"), Get(body, "price_id"));
      var mode := Get(body, "mode");
      var r := Handle(req, env);
      && (!Truthy(priceId) ==> r == BadRequest("Price ID is required"))
      && (Truthy(priceId) && !Truthy(mode) ==> r == BadRequest("Mode is required"))
      && (Truthy(priceId) && Truthy(mode) && ModeOf(mode).None? ==>
            r == BadRequest("Mode must be either \"payment\" or \"subscription\""))
      && (Truthy(priceId) && ModeOf(mode).Some? ==>
            && (!Truthy(Get(body, "success_url")) ==> r == BadRequest("Success URL is required"))
            && (Truthy(Get(body, "success_url")) && !Truthy(Get(body, "cancel_url")) ==> r == BadRequest("Cancel URL is required")))
  {
  }

  /** The Authorization header never decides whether the request is answered
      directly or what that answer is; it only chooses the customer attached to
      the session, and a request without one is a guest checkout. */
  lemma AuthorizationOnlyChoosesCustomer(req: Request, env: Env)
    ensures var guest := req.(authorization := None);
      && (PlanFor(req, env).Respond? <==> PlanFor(guest, env).Respond?)
      && (PlanFor(req, env).Respond? ==> PlanFor(req, env) == PlanFor(guest, env))
      && (PlanFor(guest, env).CallProvider? ==> PlanFor(guest, env).options.customer == None)
      && (PlanFor(req, env).CallProvider? ==>
            PlanFor(req, env).options == PlanFor(guest, env).options.(customer := ResolveCustomer(req.authorization, env)))
  {
  }

  /** Every failure while linking an account (no bearer token, the user lookup
      throws or finds nobody, or, with no non-empty stored mapping, a new
      customer cannot be created and saved with a non-empty id)
      degrades to exactly the answer a request without the header gets. */
  lemma GuestDegrade(req: Request, env: Env)
    requires
      || BearerToken(req.authorization).None?
      || env.getUser(BearerToken(req.authorization).value).AuthThrows?
      || env.getUser(BearerToken(req.authorization).value).NoUser?
      || (var u := env.getUser(BearerToken(req.authorization).value);
          var c := env.createCustomer(u.user);
          && u.SignedIn?
          && !(u.lookup.Mapping? && u.lookup.customerId != "")
          && !(c.Created? && !c.saveThrows && c.customerId != ""))
    ensures Handle(req, env) == Handle(req.(authorization := None), env)
  {
    AuthorizationOnlyChoosesCustomer(req, env);
  }

  /** A well-formed POST reaches the provider with `card` payments, the chosen
      mode and URLs and the request's items (a single price becomes one item of
      quantity 1), and relays the provider's answer: 200 with the session id and
      URL, or 500 with the provider's message. */
  lemma WellFormedReachesProvider(req: Request, env: Env)
    requires req.verb == "POST" && req.body.Success? && WellFormed(req.body.value)
    ensures var body := req.body.value;
      var o := PlanFor(req, env).options;
      && o.paymentMethodTypes == ["card"]
      && Str(ModeName(o.mode)) == Get(body, "mode")
      && o.successUrl == Get(body, "success_url") && o.cancelUrl == Get(body, "cancel_url")
      && (Get(body, "line_items").Arr? ==> o.lineItems == Get(body, "line_items").items)
      && (!Get(body, "line_items").Arr? ==>
            o.lineItems == [Obj(map["price" := Or(Get(body, "price"), Get(body, "price_id")), "quantity" := Num(1)])])
      && o.customer == ResolveCustomer(req.authorization, env)
      && (env.createSession(o).SessionCreated? ==>
            Handle(req, env) == CorsResponse(SessionPayload(env.createSession(o).id, env.createSession(o).url), 200))
      && (env.createSession(o).SessionThrows? ==>
            Handle(req, env) == CorsResponse(ErrorPayload(env.createSession(o).message), 500))
  {
  }

  /** A guest single-price payment request with a provider that creates
      `sess_1` is answered 200 with that session. */
  lemma SinglePriceGuestExample(env: Env)
    requires env.createSession(SessionOptions(["card"], Payment, Str("https://x/ok"), Str("https://x/cancel"), None,
      [Obj(map["price" := Str("price_X"), "quantity" := Num(1)])]))
      == SessionCreated("sess_1", "https://checkout/sess_1")
    ensures Handle(Request("POST", None, Success(Obj(map[
      "price" := Str("price_X"), "mode" := Str("payment"),
      "success_url" := Str("https://x/ok"), "cancel_url" := Str("https://x/cancel")]))), env)
      == Response(200, CorsHeaders + [JsonContentType], Some(SessionPayload("sess_1", "https://checkout/sess_1")))
  {
    var body := Obj(map[
      "price" := Str("price_X"), "mode" := Str("payment"),
      "success_url" := Str("https://x/ok"), "cancel_url" := Str("https://x/cancel")]);
    assert Get(body, "line_items") == Undefined;
    assert Or(Get(body, "price"), Get(body, "price_id")) == Str("price_X");
    assert ModeOf(Get(body, "mode")) == Some(Payment);
    assert WellFormed(body);
    WellFormedReachesProvider(Request("POST", None, Success(body)), env);
  }
}
