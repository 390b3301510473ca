# Fitbymi website core in Dafny

This project models the Fitbymi website in Dafny. It covers the parts of the
site that decide things: the coaching catalogue, the cart and checkout, the
forms, and the carousels.

- **Checkout edge function.** The function takes a checkout request and
  validates it. There are two body shapes: a list of line items, or a single
  price. It resolves the caller's customer account when a bearer token is
  present, then builds the options sent to the payment provider. It answers
  with CORS headers and one of five statuses.
- **Client side of checkout.** Two pages send bodies to the edge function:
  - the product page, through `createCheckoutSession`;
  - the cart page, which turns the cart into line items.

  Each page reads the reply into either a redirect or an error message.
- **Cart kept in browser storage.** The cart is an array with one entry per
  product. "Add to cart" appends an entry, and a product already in the cart
  is not added twice. The cart can remove, clear, total and price-label its
  entries. A separate quantity-based cart drawer has its own rules.
- **Navbar.** The navbar shows a cart badge and highlights the active link.
  The thank-you page empties the cart and shows an order number.
- **Forms.**
  - The contact form: field validation, phone formatting, and messages that
    clear on edit.
  - The e-mail forms: newsletter, subscribe and unsubscribe share one
    validation-then-webhook state machine. The hero section defines a submit
    handler with the same validation that makes no network call and only
    marks itself submitted; its markup never attaches that handler to a form.
  - The two free-guide forms of the services section, keyed by guide.
- **Carousels.**
  - Services and partners: arrow stepping, scroll synchronisation with
    `Math.round`, and page dots.
  - Testimonials: paging with wrap-around.
  - The About page's three-image rotation, which uses JavaScript's `%`.
- **Partners page.** Partners are grouped by category in first-appearance
  order. The category keys are then sorted by a fixed display order using a
  stable sort.

Things the code cannot see are parameters of the model:
- JSON parsing and serialisation;
- the webhook calls;
- the account store;
- the payment provider;
- the locale date;
- the window origin.

JavaScript values are modelled as a small `JsValue` datatype (module `Js`),
including truthiness and reading properties. Reading a property of `null` or
`undefined` throws, and the model treats it as an error case. Destructuring
`null` (`const { sessionId } = …`) also throws, with a differently worded
message. Both messages are parameters of the model. Pixel quantities are whole
numbers.

Files:
- `wrappers.dfy`: `Option` and `Result`.
- `js.dfy`: JavaScript values, `||`, `trim`.
- `email.dfy`: the `\S+@\S+\.\S+` test, as a search method proved equal to its
  declarative definition.
- `phone.dfy`: the phone formatter.
- `catalog.dfy`: products and the service-to-product table.
- `cart_store.dfy`: the stored cart.
- `quantity_cart.dfy`: the quantity drawer.
- `checkout_function.dfy`: the edge function.
- `checkout_client.dfy`: the callers of the edge function.
- `contact.dfy`: the contact form.
- `email_forms.dfy`: the e-mail forms.
- `guide_form.dfy`: the free-guide forms.
- `carousel.dfy`: carousels and paging.
- `partners.dfy`: partner grouping and sorting.
- `navbar.dfy`: the navbar.
- `thank_you.dfy`: the thank-you page.

## Model

| member | source | states |
|---|---|---|
| Js.Get | supabase/functions/stripe-checkout/index.ts:66-75 | Reading a field of a non-nullish value: only objects carry fields, and a missing field is `undefined`. |
| Js.Or | supabase/functions/stripe-checkout/index.ts:103 | `a \|\| b` is the first operand when it is truthy and the second otherwise, so it is truthy exactly when one side is. |
| Js.TrimStart | src/components/ContactForm.tsx:51-62 | The result is a suffix of the input that starts with a non-space character, and the removed prefix is all whitespace. |
| Js.TrimEnd | src/components/ContactForm.tsx:51-62 | The result is a prefix of the input that ends with a non-space character, and the removed suffix is all whitespace. |
| Js.TrimEmptyIff | src/components/ContactForm.tsx:51-62 | `s.trim()` is empty if and only if `s` is entirely whitespace. |
| Email.Search | src/components/ContactForm.tsx:57 | The single-pass scan answers true exactly when some `@` and a later `.` satisfy the declarative `\S+@\S+\.\S+` condition. |
| Email.MatchImpliesNotBlank | src/components/ContactForm.tsx:53-58 | Any address that passes the pattern also survives the blank check. |
| Phone.Format | src/components/ContactForm.tsx:23-30 | The formatted number is empty exactly when the input has no digits. Otherwise it starts with `(` and is at most 14 characters long. |
| Phone.Digits | src/components/ContactForm.tsx:24 | Stripping non-digits leaves only digits and never lengthens the text. |
| Phone.DigitsConcat | src/components/ContactForm.tsx:24 | Stripping non-digits distributes over concatenation. |
| Phone.FormatDigitsShort | src/components/ContactForm.tsx:27 | The `(ddd` form carries exactly the digits typed. |
| Phone.FormatDigitsMedium | src/components/ContactForm.tsx:28 | The `(ddd) ddd` form carries exactly the digits typed. |
| Phone.FormatDigitsLong | src/components/ContactForm.tsx:29 | The `(ddd) ddd-dddd` form carries the first ten digits typed, in order. |
| Phone.FormatDigits | src/pages/ContactPage.tsx:35-42 | Formatting keeps the first ten digits of the input and drops the rest. |
| Phone.FormatIdempotent | src/components/ContactForm.tsx:23-30 | Formatting an already formatted number changes nothing. |
| Catalog.ModeName | src/stripe-config.ts:6 | A checkout mode is spelled `payment` or `subscription` on the wire. |
| Catalog.Find | src/api/checkout.ts:8 | The lookup fails exactly when no product has the id. Otherwise it returns a catalogue product carrying that id, namely the first one. |
| Catalog.CatalogIdsDistinct | src/stripe-config.ts:14-57 | No two catalogue products share an id. |
| Catalog.CatalogPriceIdsDistinct | src/stripe-config.ts:14-57 | No two products share a price id, and no price id is empty. |
| Catalog.FindDistinct | src/api/checkout.ts:8-12 | With distinct ids, a lookup returns exactly the product carrying the id. |
| Catalog.ServiceTableResolves | src/pages/HomePage.tsx:13-20 | Every product named in the service-to-product table exists in the catalogue. |
| Catalog.ProductIdFor | src/pages/HomePage.tsx:13-20 | Exactly the six service ids have a product, and each such product is in the catalogue. |
| CartStore.RemoveId | src/pages/CartPage.tsx:117-121 | After removal no entry carries the id, and the cart did not grow. |
| CartStore.RemoveIdMembers | src/pages/CartPage.tsx:118 | Removal keeps exactly the entries whose id differs, and it keeps them all. |
| CartStore.RemoveIdCount | src/pages/CartPage.tsx:118 | Removal drops as many entries as carried the id. |
| CartStore.RemoveIdUnique | src/pages/CartPage.tsx:117-121 | Removal preserves the one-entry-per-product invariant. |
| CartStore.RemoveConcat | src/pages/CartPage.tsx:118 | Filtering a concatenation filters each part. |
| CartStore.RemoveAbsent | src/pages/CartPage.tsx:118 | Removing an id that is not in the cart leaves the cart unchanged. |
| CartStore.TotalAfterRemove | src/pages/CartPage.tsx:117-130 | The total falls by the price of the removed entries. |
| CartStore.Total | src/pages/CartPage.tsx:128-130 | The empty cart totals 0, and non-negative prices give a non-negative total. |
| CartStore.TotalConcat | src/pages/CartPage.tsx:128-130 | The cart total is additive over concatenation. |
| CartStore.CountUnique | src/pages/HomePage.tsx:46-59 | Under the invariant, an id occurs once or not at all. |
| CartStore.NewEntry | src/pages/HomePage.tsx:31-55 | A service yields a cart entry exactly when it maps to a catalogue product. The entry is that product id with the service's title and price. |
| CartStore.AddService | src/pages/HomePage.tsx:25-60 | Adding keeps the old entries as a prefix and preserves uniqueness. It appends the service's entry exactly when that entry is new. |
| CartStore.AddServiceIdempotent | src/pages/HomePage.tsx:46-59 | Adding the same service twice is the same as adding it once. |
| CartStore.AddServiceCountAndTotal | src/pages/HomePage.tsx:46-59 | After adding, the product occurs exactly once. The total grows by the price only when the product was new. |
| CartStore.AddToDecoded | src/pages/HomePage.tsx:46-59 | On a decoded cart, storage is written exactly when the product is new, with the product's entry appended. |
| CartStore.AddToStoredCart | src/pages/HomePage.tsx:25-60 | Stored text that is not JSON throws. A parsed value that is not an array throws only for a service with a catalogue product; otherwise the click returns quietly. Storage is written only with the stored entries plus the new entry, and is left alone when the product is unknown or already present. |
| CartStore.LoadCart | src/pages/CartPage.tsx:104-115 | An absent or empty entry, text that is not JSON, and JSON that is not an array load as the empty cart. Otherwise the cart is the stored entries. |
| CartStore.AddThenLoad | src/pages/ServicesPage.tsx:160-193 | When the click does not throw, writing and reloading the cart agrees with adding the service to the loaded cart. |
| CartStore.ClearCart | src/pages/CartPage.tsx:123-126 | After clearing, the cart is empty and nothing is stored, so every later load is empty. |
| CartStore.PriceLabel | src/pages/CartPage.tsx:132-144 | The label is empty exactly when the cart is empty or holds two different products. Otherwise it is one of the three fixed suffixes. |
| CartStore.PriceLabelSingleEntry | src/pages/CartPage.tsx:132-144 | For a cart with unique ids, a label is shown exactly when the cart holds a single entry. |
| CartStore.HandleAddToCart | src/components/Services.tsx:408-432 | The click is forwarded exactly when the service maps to a catalogue product, and it carries that product's id. |
| CartStore.ForwardedAddAppends | src/components/Services.tsx:408-432 | A forwarded click on a new product appends that product's entry to the cart. |
| QuantityCart.DecreasedQuantity | src/components/Cart.tsx:151 | The minus button requests one less, but never less than 1. |
| QuantityCart.IncreasedQuantity | src/components/Cart.tsx:159 | The plus button requests exactly one more. |
| QuantityCart.DecreaseUndoesIncrease | src/components/Cart.tsx:151-159 | Minus after plus restores any quantity of at least 1. |
| QuantityCart.Total | src/components/Cart.tsx:44-46 | The empty drawer totals 0, and non-negative prices and quantities give a non-negative total. |
| QuantityCart.TotalConcat | src/components/Cart.tsx:44-46 | The drawer total is additive over concatenation. |
| QuantityCart.BadgeFollowsContents | src/components/Cart.tsx:77-81 | Fed the drawer's article count, with every quantity at least 1, the badge shows exactly when the drawer has an entry, and the count is at least the number of entries. |
| QuantityCart.Plain | src/components/Cart.tsx:5-10 | The drawer's items, read as cart-page entries, keep id, title and price position by position. |
| QuantityCart.TotalAgreesWithCartPage | src/components/Cart.tsx:44-46 | The drawer total is at least the cart-page total. The two agree when every quantity is 1. |
| CheckoutFunction.Json | supabase/functions/stripe-checkout/index.ts:44 | The serialised reply carries `error` for errors, and `sessionId` without `error` for sessions. |
| CheckoutFunction.CorsResponse | supabase/functions/stripe-checkout/index.ts:32-51 | A reply starts with the three CORS headers. A 204 has no body and no JSON content type, and every other status has both. |
| CheckoutFunction.ModeOf | supabase/functions/stripe-checkout/index.ts:88 | A mode is accepted only when it is strictly equal to one of the two mode strings. |
| CheckoutFunction.Offender | supabase/functions/stripe-checkout/index.ts:93-98 | An item without a price is a 500 when it is `null` or `undefined`, because reading it throws. Any other such item is a 400. |
| CheckoutFunction.CheckItems | supabase/functions/stripe-checkout/index.ts:92-99 | The item loop passes exactly when every item has a truthy price. A failure is a 400 or a 500. |
| CheckoutFunction.CheckItemsFirstOffender | supabase/functions/stripe-checkout/index.ts:93-99 | The loop reports the first item without a price. |
| CheckoutFunction.CheckUrls | supabase/functions/stripe-checkout/index.ts:118-125 | The URL checks pass exactly when both URLs are truthy, and they then carry the checked values forward. |
| CheckoutFunction.Validate | supabase/functions/stripe-checkout/index.ts:77-125 | A body is accepted exactly when it is well formed. The accepted mode, URLs and items are those of the body, and a rejection is a 400 or a 500. |
| CheckoutFunction.BearerToken | supabase/functions/stripe-checkout/index.ts:131-133 | A token is taken exactly from a header that starts with `Bearer `, and it is the rest of the header after that prefix. |
| CheckoutFunction.ResolveCustomer | supabase/functions/stripe-checkout/index.ts:127-178 | No token, or an auth lookup that throws or finds nobody, attaches no customer. A signed-in user's non-empty stored mapping is attached. Otherwise the newly created customer is attached exactly when creating and saving it succeed with a non-empty id. |
| CheckoutFunction.OptionsFor | supabase/functions/stripe-checkout/index.ts:180-203 | The provider receives card payment, the validated mode and URLs, the resolved customer, and the items. A single price becomes one item of quantity 1. |
| CheckoutFunction.PlanFor | supabase/functions/stripe-checkout/index.ts:53-203 | The provider is called exactly for a POST with a readable, well-formed body. Every other reply is an error payload or the preflight. |
| CheckoutFunction.Handle | supabase/functions/stripe-checkout/index.ts:53-219 | The status is one of 200, 204, 400, 405 or 500, and CORS headers are always present. A 204 answers exactly OPTIONS and a 405 exactly the other non-POST verbs. A 200 carries a session and only follows a provider call. Every other status carries an error. |
| CheckoutFunction.Preflight | supabase/functions/stripe-checkout/index.ts:56-58 | OPTIONS is answered 204 with the CORS headers and no body. |
| CheckoutFunction.OtherVerbsRefused | supabase/functions/stripe-checkout/index.ts:60-62 | Any verb other than POST and OPTIONS gets a 405 "Method not allowed". |
| CheckoutFunction.UnreadableBody | supabase/functions/stripe-checkout/index.ts:215-218 | A body that fails to parse becomes a 500 carrying the parse error, and the provider is not called. |
| CheckoutFunction.MultiItemRulesInOrder | supabase/functions/stripe-checkout/index.ts:78-125 | The multi-item checks run in source order: empty list, missing mode, invalid mode, success URL, cancel URL. Each gives its own message. |
| CheckoutFunction.MultiItemFirstOffender | supabase/functions/stripe-checkout/index.ts:92-99 | For a valid mode, the first item without a price decides the reply. A nullish item gives a 500; any other gives a 400 naming the item. |
| CheckoutFunction.SingleItemRulesInOrder | supabase/functions/stripe-checkout/index.ts:100-125 | The single-price checks run in source order: price, missing mode, invalid mode, success URL, cancel URL. |
| CheckoutFunction.AuthorizationOnlyChoosesCustomer | supabase/functions/stripe-checkout/index.ts:127-191 | The authorization header never changes whether or how a request is rejected. It changes only the customer attached to the session. |
| CheckoutFunction.GuestDegrade | supabase/functions/stripe-checkout/index.ts:131-178 | Each of these outcomes gives exactly the reply of an anonymous request: no token, an auth failure, no user, or a signed-in user without a non-empty stored mapping whose new customer is not created and saved with a non-empty id. |
| CheckoutFunction.WellFormedReachesProvider | supabase/functions/stripe-checkout/index.ts:180-214 | A well-formed POST reaches the provider with the body's own mode, URLs and items. The provider's session becomes a 200, and its error a 500. |
| CheckoutFunction.SinglePriceGuestExample | supabase/functions/stripe-checkout/index.ts:100-214 | A concrete anonymous single-price request is answered 200 with the provider's session id and URL. |
| CheckoutClient.ErrorText | src/api/checkout.ts:33 | A string error is shown as it is. |
| CheckoutClient.SuccessUrl | src/api/checkout.ts:26 | The success address is the origin followed by `/thank-you`. |
| CheckoutClient.CancelUrl | src/api/checkout.ts:27 | The cancel address is the origin followed by `/cart`. |
| CheckoutClient.ReturnUrlsDistinguish | src/api/checkout.ts:26-27 | The success and cancel addresses never coincide, and each determines its origin. |
| CheckoutClient.ProductBody | src/api/checkout.ts:23-28 | The product page sends the product's price id and mode, and the thank-you and cart URLs. It sends no line items. |
| CheckoutClient.CreateCheckoutSession | src/api/checkout.ts:6-48 | An unknown product raises "Product not found". A redirect requires a found product, a 2xx reply, parseable text and a loaded payment library, and it uses the reply's `sessionId`. |
| CheckoutClient.LineItems | src/pages/CartPage.tsx:40-51 | Success gives one line item per cart entry. Failure needs a non-empty cart. |
| CheckoutClient.LineItemsSucceed | src/pages/CartPage.tsx:40-51 | The mapping succeeds exactly when every entry is in the catalogue. Each item is then that product's price with quantity 1. |
| CheckoutClient.LineItemsFirstOffender | src/pages/CartPage.tsx:40-51 | The error names the first entry that has no catalogue product. |
| CheckoutClient.CartBody | src/pages/CartPage.tsx:30-69 | The cart body carries the line items, the first entry's mode and the two URLs. It fails with the mapping's error. |
| CheckoutClient.ReplyError | src/pages/CartPage.tsx:71-84 | An error reply whose body parses to a value with a truthy `error` shows that error's text. Every other error reply, including an empty or unparseable one, shows the generic message. |
| CheckoutClient.CartCheckout | src/pages/CartPage.tsx:23-102 | An empty cart starts nothing, and an unconfigured entry fails with its message. A redirect needs a body, a loaded library and an ok reply, and follows a redirect that returned no error. |
| CheckoutClient.ViewAfter | src/pages/CartPage.tsx:23-102 | A started checkout always ends without the spinner, and shows an error exactly when it failed. |
| CheckoutClient.ProductBodyAccepted | src/api/checkout.ts:23-28 | Every catalogue product's body passes all server checks. The provider then gets that product's price, mode and URLs. |
| CheckoutClient.LineItemsPriced | src/pages/CartPage.tsx:47-50 | Every line item built from the catalogue has a truthy price. |
| CheckoutClient.CartBodyAccepted | src/pages/CartPage.tsx:64-69 | Every cart body that can be built passes all server checks, and the provider gets its items and mode. |
| CheckoutClient.CartPageReadsAnswer | src/pages/CartPage.tsx:71-97 | The cart page turns a session reply into a redirect. It turns an error reply into the server's message, or the generic one. |
| CheckoutClient.ServerAnswerShownOnCartPage | src/pages/CartPage.tsx:57-97 | Composed with the edge function's reply, the cart page redirects on a 200 and shows the function's error otherwise. |
| CheckoutClient.ProductPageReadsAnswer | src/api/checkout.ts:31-43 | The product page turns a session reply into a redirect. It raises an error reply's message, or the generic one. |
| CheckoutClient.ServerAnswerRaisedByCreateCheckoutSession | src/api/checkout.ts:17-43 | Composed with the edge function's reply, the product page redirects on a 200 and raises the function's error otherwise. |
| Contact.With | src/components/ContactForm.tsx:32-37 | Writing one field changes that field only. |
| Contact.Validate | src/components/ContactForm.tsx:48-67 | Messages are present exactly for a blank name, a blank message, and a blank or ill-formed address, each with its text. The phone is never checked. |
| Contact.ValidIff | src/pages/ContactPage.tsx:72-91 | The form passes exactly when the name and message are non-blank and the address matches the pattern. |
| Contact.Change | src/components/ContactForm.tsx:32-46 | Typing stores the value and clears only that field's message. |
| Contact.PhoneDisplay | src/components/ContactForm.tsx:192 | The phone field shows the first (at most ten) typed digits in order, in a form the formatter keeps as it is. |
| Contact.PhoneDisplayStable | src/components/ContactForm.tsx:192 | Feeding the displayed phone number back as input leaves the display unchanged. |
| Contact.Submit | src/components/ContactForm.tsx:69-105 | The webhook gets the fields as typed exactly when validation passes. Success resets the form, and failure alerts and keeps the data. |
| Contact.EditAfterRejectedSubmit | src/pages/ContactPage.tsx:56-70 | After a rejected submit, editing a field clears that field's message only. |
| EmailForms.EmailProblem | src/components/Newsletter.tsx:22-30 | An address passes exactly when it is non-empty and matches the pattern. Otherwise it gets the empty-address or invalid-address message. |
| EmailForms.Submit | src/components/Newsletter.tsx:19-49 | The webhook is called exactly when the address passes. The form is done only after an accepted call, and each failure shows its own message. |
| EmailForms.SubscribeSubmit | src/pages/SubscribePage.tsx:21-51 | The subscribe webhook is called exactly when the address passes the local checks; otherwise only the check's message is set. The form is done exactly when it was, or the call accepted. A decline shows the subscribe message and a throw the generic one. |
| EmailForms.UnsubscribeSubmit | src/pages/UnsubscribePage.tsx:14-44 | The unsubscribe webhook is called exactly when the address passes the local checks; otherwise only the check's message is set. The form is done exactly when it was, or the call accepted. A decline shows the unsubscribe message and a throw the generic one. |
| EmailForms.HeroSubmit | src/components/Hero.tsx:18-36 | The hero's handler marks the box submitted exactly when the address passes the local checks. |
| EmailForms.EditEmailClearing | src/pages/SubscribePage.tsx:111-114 | Typing on the subscribe and unsubscribe pages clears the message. |
| EmailForms.EditEmailKeeping | src/components/Newsletter.tsx:96 | Typing in the newsletter section keeps the message. |
| EmailForms.WebhookSeesNonBlankAddress | src/pages/ContactPage.tsx:130-146 | Every address sent to a webhook matches the pattern and is not blank. |
| EmailForms.Replay | src/components/Newsletter.tsx:19-49 | After repeated submits, the form is done exactly when the address passes and some call was accepted. |
| EmailForms.HeroIsAnAlwaysAcceptingForm | src/components/Hero.tsx:18-36 | The hero box behaves as a form whose webhook always accepts. |
| EmailForms.EditAfterFailedSubmit | src/pages/SubscribePage.tsx:111-114 | A failed submit leaves a message. Clearing pages drop it on typing, and keeping pages keep it. |
| EmailForms.ConcreteAddresses | src/components/Newsletter.tsx:22-30 | `""` is empty, `a@b` and ` @b.c` are invalid, and `a@b.c` passes. |
| GuideForm.FindGuide | src/components/Services.tsx:249 | A guide is found exactly when one carries the id, and it carries that id. |
| GuideForm.Slot | src/components/Services.tsx:152-172 | A guide's slot is its stored state, or empty fields when there is none. |
| GuideForm.Submit | src/components/Services.tsx:220-285 | Submitting runs the shared e-mail rule on that guide's slot, using the guide's type. An unknown guide throws, and other slots are untouched. |
| GuideForm.EditEmail | src/components/Services.tsx:198-211 | Typing an address updates and clears that guide's message only. |
| GuideForm.EditName | src/components/Services.tsx:213-218 | Typing a name changes only that guide's name. |
| GuideForm.GuidesResolve | src/components/Services.tsx:135-150 | Every listed guide resolves to itself. |
| GuideForm.GuideSubmitOutcome | src/components/Services.tsx:220-285 | A guide's form is done exactly when it was done before, or when the address passes and the webhook accepts that guide's type. A decline shows the guide message. |
| GuideForm.GuidesIndependent | src/components/Services.tsx:220-285 | Submitting one guide leaves the other guide's state unchanged. |
| GuideForm.EmptySubmitAsksForAddress | src/components/Services.tsx:226-232 | An empty submit asks for an address and is not marked done. |
| Carousel.StepLeft | src/pages/ServicesPage.tsx:195-207 | The left arrow moves back one card exactly when the row is mounted and not at the start. |
| Carousel.StepRight | src/pages/ServicesPage.tsx:209-221 | The right arrow moves on one card exactly when the row is mounted and not at the last card. |
| Carousel.StepsStayInRange | src/pages/ServicesPage.tsx:195-221 | The arrows keep the active index on a card. |
| Carousel.HomeRowsStayInRange | src/components/Services.tsx:307-363 | The service row and the guide row of the services section keep their indices on a card under both arrows. |
| Carousel.StepsUndo | src/pages/ServicesPage.tsx:195-221 | Away from the ends, left undoes right and right undoes left. |
| Carousel.RightPresses | src/pages/ServicesPage.tsx:209-221 | Right presses never move back, and keep an index that is on a card on a card. |
| Carousel.RightPressesReach | src/pages/ServicesPage.tsx:209-221 | `k` right presses from card `a` reach card `min(a + k, count - 1)`. |
| Carousel.Round | src/pages/ServicesPage.tsx:230 | `Math.round(a / b)` is the integer nearest to `a / b`, rounding half up. |
| Carousel.ScrollSync | src/pages/ServicesPage.tsx:224-242 | The scroll listener selects the card nearest the offset when that card exists, and otherwise keeps the active index. |
| Carousel.ScrollToCardSelectsIt | src/pages/ServicesPage.tsx:224-242 | Scrolling to a card's exact offset makes that card active. |
| Carousel.CeilDiv | src/pages/PartnersPage.tsx:210 | `Math.ceil(a / b)` is the least multiple count that covers `a`. |
| Carousel.PartnerPages | src/pages/PartnersPage.tsx:209-210 | With one partner per page, a category carousel has as many pages as the category has partners. |
| Carousel.PartnerArrowsStayInRange | src/pages/PartnersPage.tsx:213-225 | A category carousel's arrows keep the index on a page. Left does nothing on the first page, and right does nothing on the last. |
| Carousel.PartnerScrollRoundTrip | src/pages/PartnersPage.tsx:227-258 | Scrolling to a page's offset and reading the scroll position back gives that page. |
| Carousel.ShowPartnerNavigation | src/pages/PartnersPage.tsx:209-211 | The arrows test `partners.length > 1` and the dots test `totalPages > 1`, and the two tests agree. |
| Carousel.PerPage | src/pages/TestimonialsPage.tsx:183 | One testimonial per page exactly on narrow screens, and two otherwise. |
| Carousel.LastPageStart | src/pages/TestimonialsPage.tsx:142 | The last page's start is a page start whose page reaches the end. |
| Carousel.Next | src/pages/TestimonialsPage.tsx:148-156 | Next advances one page, and wraps to 0 exactly when that passes the end. |
| Carousel.Prev | src/pages/TestimonialsPage.tsx:138-146 | Previous goes back one page, to the last page from the first, and to 0 rather than below it. |
| Carousel.ArrowsKeepAlignment | src/pages/TestimonialsPage.tsx:138-156 | The arrows map page starts to page starts. |
| Carousel.ArrowsInverse | src/pages/TestimonialsPage.tsx:138-156 | On page starts, previous and next undo each other. |
| Carousel.TotalPages | src/pages/TestimonialsPage.tsx:184 | The page count is the least that covers all testimonials. |
| Carousel.CurrentPage | src/pages/TestimonialsPage.tsx:185 | The current page is the page containing the active card. |
| Carousel.PageIndicatorConsistent | src/pages/TestimonialsPage.tsx:183-185 | The highlighted dot always exists. Arrows and dots are shown exactly when the testimonials do not fit on one page. |
| Carousel.Visible | src/pages/TestimonialsPage.tsx:176-181 | The visible cards are the page's cards, in order, cut at the end. |
| Carousel.SelectPage | src/pages/TestimonialsPage.tsx:280 | A dot moves to a multiple of the page size on which the page indicator reads the dot's own page. |
| Carousel.DotsLandOnPageStarts | src/pages/TestimonialsPage.tsx:272-284 | Every dot lands on a page start and highlights itself. |
| Carousel.NextPressesFromStart | src/pages/TestimonialsPage.tsx:148-156 | From the first page, `k` next presses reach page `k`. |
| Carousel.NextPressesShift | src/pages/TestimonialsPage.tsx:148-156 | Pressing `k + 1` times is pressing `k` times and then once more. |
| Carousel.NextCyclesThroughPages | src/pages/TestimonialsPage.tsx:148-156 | A press per page returns to the first page. |
| Carousel.JsRem | src/pages/AboutPage.tsx:31 | JavaScript's `%` has the sign of the dividend and is the identity below the divisor. |
| Carousel.NextImage | src/pages/AboutPage.tsx:30-32 | The next image is one on, and the first after the last. |
| Carousel.PrevImage | src/pages/AboutPage.tsx:35-37 | The previous image is one back, and the last from the first. |
| Carousel.ImageArrowsCycle | src/pages/AboutPage.tsx:30-46 | The image arrows are inverses and always move. Three steps, also the auto-rotation's, return to the start. |
| Partners.Filter | src/pages/PartnersPage.tsx:112-118 | A category's group holds only partners of that category. |
| Partners.Group | src/pages/PartnersPage.tsx:112-118 | Each category that occurs is a key exactly once, and holds exactly its partners in listing order. |
| Partners.FilterEmpty | src/pages/PartnersPage.tsx:112-118 | A category that does not occur has no partners. |
| Partners.GroupsPartition | src/pages/PartnersPage.tsx:112-118 | The groups together hold every partner exactly once. |
| Partners.GroupKeysInFirstAppearanceOrder | src/pages/PartnersPage.tsx:112-118 | The keys are listed in the order in which categories first appear. |
| Partners.FirstAppearance | src/pages/PartnersPage.tsx:112-118 | First-appearance order lists each occurring category once. |
| Partners.Rank | src/pages/PartnersPage.tsx:121-130 | `categoryOrder.indexOf(c)` is the first position of `c`, or -1 for an unlisted category. |
| Partners.IndexOf | src/pages/PartnersPage.tsx:130 | `indexOf` returns the first position, or -1 exactly when the element is absent. |
| Partners.Insert | src/pages/PartnersPage.tsx:129-131 | Inserting adds exactly one key. |
| Partners.InsertPermutes | src/pages/PartnersPage.tsx:129-131 | Inserting adds exactly the new key and keeps all others. |
| Partners.InsertOfRank | src/pages/PartnersPage.tsx:129-131 | Inserting keeps the order among keys of equal rank and puts the new key after them. |
| Partners.InsertKeepsSorted | src/pages/PartnersPage.tsx:129-131 | Inserting into a sorted list keeps it sorted. |
| Partners.SortByRank | src/pages/PartnersPage.tsx:129-131 | The sort orders keys by display rank without changing their number. |
| Partners.SortByRankStable | src/pages/PartnersPage.tsx:129-131 | The sort is a permutation, and it keeps equal-rank keys in their input order. |
| Partners.SortedCategories | src/pages/PartnersPage.tsx:112-131 | The displayed categories are the group keys, ordered by display rank. |
| Partners.UnknownCategoriesFirst | src/pages/PartnersPage.tsx:121-131 | An unlisted category sorts before every listed one. |
| Partners.ListingKeys | src/pages/PartnersPage.tsx:44-118 | The partner listing's categories first appear in the order supplements, competition wear, nutrition, fitness. |
| Partners.SortListingKeys | src/pages/PartnersPage.tsx:121-131 | Sorting those keys gives the display order. |
| Partners.ListingCategories | src/pages/PartnersPage.tsx:44-131 | The page shows its categories in the display order. |
| Partners.CategoryIcon | src/pages/PartnersPage.tsx:29-42 | Each listed category has its own icon, and unlisted ones get the link icon. |
| Navbar.IsActive | src/components/Navbar.tsx:111-119 | A link is active exactly on its own path. |
| Navbar.Length | src/components/Navbar.tsx:45 | `.length` is the element count of an array or string, and `undefined` for numbers and booleans. |
| Navbar.BadgeShown | src/components/Navbar.tsx:129 | The badge shows only for a positive number (or `true`), for a number exactly when it is positive, and never for `undefined` or `null`. |
| Navbar.CartCount | src/components/Navbar.tsx:40-52 | An absent, empty or unparsable cart counts 0, and a stored array counts its elements. A non-zero count only comes from parsed text. |
| Navbar.BadgeMatchesStoredCart | src/components/Navbar.tsx:40-52 | The badge shows the number of cart entries, and is shown exactly when the cart is not empty. |
| Navbar.ClearedCartHidesBadge | src/components/Navbar.tsx:129 | After the cart is cleared the badge is hidden. |
| Navbar.UnparsableCartHidesBadge | src/components/Navbar.tsx:40-52 | Stored text that is not JSON hides the badge without raising. |
| ThankYou.OrderNumber | src/pages/ThankYouPage.tsx:25 | The order number is the session id's prefix of at most eight characters, and is exactly eight characters when the id is long enough. |
| ThankYou.Mount | src/pages/ThankYouPage.tsx:10-27 | Mounting removes the stored cart. Details are shown exactly for a non-empty session id, with today's date, "Credit Card" and a non-empty prefix of the id. |
| ThankYou.MountEmptiesCart | src/pages/ThankYouPage.tsx:11 | After the page mounts, the cart loads empty. |
| ThankYou.OrderNumberOnlySeesPrefix | src/pages/ThankYouPage.tsx:25 | Two ids that agree in their first eight characters get the same order number. |
| ThankYou.OrderNumberIsPrefix | src/pages/ThankYouPage.tsx:25 | The order number is the id cut at eight characters, or the whole id when it is shorter. |
| ThankYou.ExampleRedirect | src/pages/ThankYouPage.tsx:17-26 | A concrete redirect shows `cs_test_` as the order number. |

## Left out

- Rendering, images, animations and the marketing texts (descriptions,
  testimonials' words) are not modelled. Only the data the logic reads is kept.
- Pixel quantities (`scrollLeft`, card widths) are whole numbers. Fractional
  scroll offsets and floating-point division are not modelled, beyond
  `Math.round` and `Math.ceil` of a quotient of integers.
- JSON parsing and serialisation are parameters (`parse`, `stringify`,
  `decode`, `encode`). The key order of `Object.keys` for integer-like keys
  is not modelled, because no category name is integer-like.
- Timers and events are not modelled:
  - the About page's five-second auto-rotation interval (only its step);
  - the navbar's one-second polling and `storage` listener (only what one
    update computes);
  - the cart drawer's simulated checkout timeout and alert.
- Window resizing (`isMobile`) is not modelled. In particular, the
  testimonials' active index is not re-aligned when the page size changes;
  page size is a parameter.
- The module-level environment checks of the edge function and of the
  catalogue (missing secrets) are not modelled. They run before any request.
- The locale date string and the window origin are parameters.
- The webhook helpers (`subscribeToNewsletter`, `unsubscribeFromNewsletter`,
  `requestGuide`, the contact webhook) are oracles. Their network handling is
  not modelled, only how their result settles.
- Loading the payment library and its redirect are oracles. A redirect
  failure with a non-`Error` value is modelled as the generic message.
- The stale-closure interleavings of React state updates, such as two guide
  submits in flight at once, are not modelled. Each handler is one atomic
  step.
- The quantity drawer's `updateQuantity` and `removeFromCart` callbacks belong
  to its parent, which is not part of this model. Only the requested
  quantities and the drawer's total and badge are modelled.
- CartStore.AddToStoredCart: reads a stored JSON array as a list of cart
  entries. An array with a `null` element (on which `find` can throw) or
  with elements that are not entries is outside the model.
- CartStore.LoadCart: loads stored JSON that is not an array as the empty
  cart. The page puts such a value into its state as it is, and its later
  rendering fails; that failure is not modelled.
- Navbar.BadgeShown: treats a string or object value of `.length` as hiding
  the badge. JavaScript would coerce it with `> 0`; only an array's or a
  string's length, a number, reaches this comparison from a stored cart.
- Lengths of strings count Unicode scalar values. JavaScript counts UTF-16
  code units, which differ only outside the Basic Multilingual Plane.
- The dot clicks of the partners, testimonials and About pages set the index
  to the dot's own page. Only the testimonials' dots have a member
  (`Carousel.SelectPage`), because the others are a plain assignment.
- Console logging is not modelled.
