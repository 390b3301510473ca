/**
 * The client cart: an ordered list of `{id, title, price}` entries persisted in
 * browser storage under the key `cart`. Adding goes through the service table
 * and the catalog and is deduplicated by product id; removing filters by id.
 */
module CartStore {
  import opened Wrappers
  import opened Catalog

  datatype CartItem = CartItem(id: string, title: string, price: int)

  type Cart = seq<CartItem>

  /** A service card as the add-to-cart handlers receive it (only the fields they read). */
  datatype Service = Service(id: string, title: string, price: int)

  predicate HasId(c: Cart, id: string) {
    exists i | 0 <= i < |c| :: c[i].id == id
  }

  /** The cart invariant: at most one entry per product id. */
  predicate UniqueIds(c: Cart) {
    forall i, j | 0 <= i < j < |c| :: c[i].id != c[j].id
  }

  /** Number of entries carrying `id`. */
  function Count(c: Cart, id: string): nat {
    if c == [] then 0 else (if c[0].id == id then 1 else 0) + Count(c[1..], id)
  }

  /** Sum of the prices of the entries carrying `id`. */
  function PriceOf(c: Cart, id: string): int {
    if c == [] then 0 else (if c[0].id == id then c[0].price else 0) + PriceOf(c[1..], id)
  }

  /** `calculateTotal`: the sum of the entry prices, 0 for the empty cart. */
  function Total(c: Cart): (r: int)
    ensures c == [] ==> r == 0
    ensures (forall i | 0 <= i < |c| :: c[i].price >= 0) ==> r >= 0
  {
    if c == [] then 0 else c[0].price + Total(c[1..])
  }

  lemma {:induction false} UniqueCons(x: CartItem, c: Cart)
    ensures UniqueIds([x] + c) <==> !HasId(c, x.id) && UniqueIds(c)
  {
    var xc := [x] + c;
    assert xc[1..] == c;
    if UniqueIds(xc) {
      forall i | 0 <= i < |c| ensures c[i].id != x.id {
        assert xc[0] == x && xc[i + 1] == c[i];
      }
      forall i, j | 0 <= i < j < |c| ensures c[i].id != c[j].id {
        assert xc[i + 1] == c[i] && xc[j + 1] == c[j];
      }
    }
  }

  /** `cartItems.filter(item => item.id !== id)`. */
  function RemoveId(c: Cart, id: string): (r: Cart)
    ensures |r| <= |c|
    ensures forall i | 0 <= i < |r| :: r[i].id != id
  {
    if c == [] then []
    else if c[0].id == id then RemoveId(c[1..], id)
    else [c[0]] + RemoveId(c[1..], id)
  }

  /** The entries left are exactly the entries of other products. */
  lemma {:induction false} RemoveIdMembers(c: Cart, id: string)
    ensures forall x :: x in RemoveId(c, id) <==> x in c && x.id != id
  {
    if c != [] {
      RemoveIdMembers(c[1..], id);
      assert c == [c[0]] + c[1..];
    }
  }

  /** Exactly the entries carrying `id` disappear. */
  lemma {:induction false} RemoveIdCount(c: Cart, id: string)
    ensures |RemoveId(c, id)| + Count(c, id) == |c|
  {
    if c != [] {
      RemoveIdCount(c[1..], id);
    }
  }

  /** Removal keeps the one-entry-per-product invariant. */
  lemma {:induction false} RemoveIdUnique(c: Cart, id: string)
    requires UniqueIds(c)
    ensures UniqueIds(RemoveId(c, id))
  {
    if c != [] {
      assert c == [c[0]] + c[1..];
      UniqueCons(c[0], c[1..]);
      RemoveIdUnique(c[1..], id);
      if c[0].id != id {
        RemoveIdMembers(c[1..], id);
        var rest := RemoveId(c[1..], id);
        assert !HasId(rest, c[0].id) by {
          forall i | 0 <= i < |rest| ensures rest[i].id != c[0].id {
            assert rest[i] in rest;
          }
        }
        UniqueCons(c[0], rest);
      }
    }
  }

  /** Removal keeps the remaining entries in their original order: filtering a
      concatenation is the concatenation of the filtered parts. */
  lemma {:induction false} RemoveConcat(a: Cart, b: Cart, id: string)
    ensures RemoveId(a + b, id) == RemoveId(a, id) + RemoveId(b, id)
  {
    if a == [] {
      assert a + b == b;
    } else {
      assert (a + b)[0] == a[0] && (a + b)[1..] == a[1..] + b;
      RemoveConcat(a[1..], b, id);
    }
  }

  /** Removing an id that is not in the cart changes nothing. */
  lemma {:induction false} RemoveAbsent(c: Cart, id: string)
    requires !HasId(c, id)
    ensures RemoveId(c, id) == c
  {
    if c != [] {
      assert c[0].id != id;
      assert !HasId(c[1..], id) by {
        forall i | 0 <= i < |c[1..]| ensures c[1..][i].id != id {
          assert c[1..][i] == c[i + 1];
        }
      }
      RemoveAbsent(c[1..], id);
    }
  }

  /** Removal lowers the total by exactly the prices of the removed entries. */
  lemma {:induction false} TotalAfterRemove(c: Cart, id: string)
    ensures Total(RemoveId(c, id)) == Total(c) - PriceOf(c, id)
  {
    if c != [] {
      TotalAfterRemove(c[1..], id);
      if c[0].id != id {
        assert Total([c[0]] + RemoveId(c[1..], id)) == c[0].price + Total(RemoveId(c[1..], id)) by {
          assert ([c[0]] + RemoveId(c[1..], id))[1..] == RemoveId(c[1..], id);
        }
      }
    }
  }

  lemma {:induction false} TotalConcat(a: Cart, b: Cart)
    ensures Total(a + b) == Total(a) + Total(b)
  {
    if a == [] {
      assert a + b == b;
    } else {
      assert (a + b)[0] == a[0] && (a + b)[1..] == a[1..] + b;
      TotalConcat(a[1..], b);
    }
  }

  /** In a cart with unique ids, an id occurs once or not at all. */
  lemma {:induction false} CountUnique(c: Cart, id: string)
    requires UniqueIds(c)
    ensures Count(c, id) == if HasId(c, id) then 1 else 0
  {
    if c != [] {
      assert c == [c[0]] + c[1..];
      UniqueCons(c[0], c[1..]);
      CountUnique(c[1..], id);
      if c[0].id == id {
        assert !HasId(c[1..], id);
      } else if HasId(c, id) {
        var i :| 0 <= i < |c| && c[i].id == id;
        assert c[1..][i - 1].id == id;
      } else {
        assert !HasId(c[1..], id) by {
          forall i | 0 <= i < |c[1..]| ensures c[1..][i].id != id {
            assert c[1..][i] == c[i + 1];
          }
        }
      }
    }
  }

  /** The entry `addToCart` would append for `s`: its service id must map to a
      product id, and that id must be in the catalog. */
  function NewEntry(s: Service): (r: Option<CartItem>)
    ensures r.Some? <==> s.id in ServiceToProduct && Find(Products, ServiceToProduct[s.id]).Some?
    ensures r.Some? ==> r.value == CartItem(ServiceToProduct[s.id], s.title, s.price)
  {
    match ProductIdFor(s.id)
    case None => None
    case Some(pid) => if Find(Products, pid).None? then None else Some(CartItem(pid, s.title, s.price))
  }

  /** `addToCart` on a decoded cart: append the service's product unless an entry
      with that product id is already there. */
  function AddService(c: Cart, s: Service): (r: Cart)
    ensures |c| <= |r| <= |c| + 1 && r[..|c|] == c
    ensures UniqueIds(c) ==> UniqueIds(r)
    ensures NewEntry(s).None? ==> r == c
    ensures NewEntry(s).Some? ==> HasId(r, NewEntry(s).value.id)
    ensures |r| == |c| + 1 <==> NewEntry(s).Some? && !HasId(c, NewEntry(s).value.id)
    ensures |r| == |c| + 1 ==> r[|c|] == NewEntry(s).value
  {
    match NewEntry(s)
    case None => c
    case Some(e) =>
      if HasId(c, e.id) then c
      else
        assert UniqueIds(c) ==> UniqueIds(c + [e]) by {
          var ce := c + [e];
          assert forall i | 0 <= i < |c| :: ce[i] == c[i];
        }
        assert (c + [e])[|c|] == e;
        c + [e]
  }

  /** Adding the same service twice has the effect of adding it once, so the
      cart never holds two entries for one product. */
  lemma AddServiceIdempotent(c: Cart, s: Service)
    ensures AddService(AddService(c, s), s) == AddService(c, s)
  {
    var r := AddService(c, s);
    if NewEntry(s).Some? {
      assert HasId(r, NewEntry(s).value.id);
    }
  }

  /** After adding a catalogued service to a well-formed cart, its product
      occurs exactly once and the total rises by the service price iff it was new. */
  lemma AddServiceCountAndTotal(c: Cart, s: Service)
    requires UniqueIds(c)
    requires NewEntry(s).Some?
    ensures Count(AddService(c, s), NewEntry(s).value.id) == 1
    ensures Total(AddService(c, s)) == Total(c) + (if HasId(c, NewEntry(s).value.id) then 0 else s.price)
  {
    var r := AddService(c, s);
    CountUnique(r, NewEntry(s).value.id);
    if !HasId(c, NewEntry(s).value.id) {
      assert r == c + [NewEntry(s).value];
      TotalConcat(c, [NewEntry(s).value]);
    }
  }

  /** A stored string counts only when it is truthy: an absent key and `""`
      both read as "no cart". */
  predicate Present(stored: Option<string>) {
    stored.Some? && stored.value != ""
  }

  /** What an add-to-cart click does to browser storage. */
  datatype StoreEffect = Threw | Unchanged | Stored(cart: Cart)

  /** How a stored cart text reads back: `JSON.parse` throws on it, it parses to
      a value that is not an array (so it has no `find`), or it parses to an
      array of cart entries. */
  datatype StoredCart = NotJson | NotList | Entries(cart: Cart)

  /** Append the service's product to a decoded cart; storage is written only
      when an entry was appended. */
  function AddToDecoded(c: Cart, s: Service): (r: StoreEffect)
    ensures r != Threw
    ensures r.Stored? <==> NewEntry(s).Some? && !HasId(c, NewEntry(s).value.id)
    ensures r.Stored? ==> r.cart == c + [NewEntry(s).value]
  {
    var added := AddService(c, s);
    if |added| == |c| then Unchanged
    else
      assert added == added[..|c|] + [added[|c|]];
      Stored(added)
  }

  /** `addToCart` of the home and services pages. The stored text is parsed
      first (an absent cart is `[]`), so text that is not JSON throws before
      anything else is looked at. A service without a catalogue product then
      returns quietly; otherwise `cart.find` runs, which throws on a parsed
      value that is not an array. */
  function AddToStoredCart(stored: Option<string>, decode: string -> StoredCart, s: Service): (r: StoreEffect)
    ensures r == Threw <==>
      Present(stored) && (decode(stored.value).NotJson? || (decode(stored.value).NotList? && NewEntry(s).Some?))
    ensures r.Stored? ==> NewEntry(s).Some? && !HasId(LoadCart(stored, decode), NewEntry(s).value.id)
    ensures r.Stored? && Present(stored) ==>
      decode(stored.value).Entries? && r.cart == decode(stored.value).cart + [NewEntry(s).value]
    ensures r.Stored? && !Present(stored) ==> r.cart == [NewEntry(s).value]
    ensures r == Unchanged <==>
      && !(Present(stored) && decode(stored.value).NotJson?)
      && (NewEntry(s).None? || (!(Present(stored) && decode(stored.value).NotList?)
                                && HasId(LoadCart(stored, decode), NewEntry(s).value.id)))
  {
    if !Present(stored) then AddToDecoded([], s)
    else
      match decode(stored.value)
      case NotJson => Threw
      case NotList => if NewEntry(s).None? then Unchanged else Threw
      case Entries(c) => AddToDecoded(c, s)
  }

  /** The cart page's initial load: a missing cart, or text that is not JSON
      (the parse error is caught), reads as `[]`. */
  function LoadCart(stored: Option<string>, decode: string -> StoredCart): (r: Cart)
    ensures !Present(stored) ==> r == []
    ensures Present(stored) && decode(stored.value).Entries? ==> r == decode(stored.value).cart
    ensures Present(stored) && !decode(stored.value).Entries? ==> r == []
  {
    if !Present(stored) then []
    else
      match decode(stored.value)
      case Entries(c) => c
      case _ => []
  }

  /** When storage round-trips carts, the cart page loads exactly what the add
      handler computed: the add handler and the cart page agree. */
  lemma AddThenLoad(stored: Option<string>, decode: string -> StoredCart, encode: Cart -> string, s: Service)
    requires forall c :: decode(encode(c)) == Entries(c) && encode(c) != ""
    requires AddToStoredCart(stored, decode, s) != Threw
    ensures var e := AddToStoredCart(stored, decode, s);
      var after := if e.Stored? then Some(encode(e.cart)) else stored;
      LoadCart(after, decode) == AddService(LoadCart(stored, decode), s)
  {
  }

  /** `clearCart`: the page's list becomes empty and the storage key is removed. */
  function ClearCart(c: Cart, stored: Option<string>): (r: (Cart, Option<string>))
    ensures r.0 == [] && !Present(r.1)
    ensures forall decode: string -> StoredCart :: LoadCart(r.1, decode) == []
  {
    ([], None)
  }

  /** `getPriceLabel`: a label only when the cart is non-empty and every entry
      carries the first entry's id; which label depends on that id. */
  function PriceLabel(c: Cart): (r: string)
    ensures r == "" <==> |c| == 0 || exists i | 0 <= i < |c| :: c[i].id != c[0].id
    ensures r in {"", "/ 3 sessions", "/ 8 weeks", "/ month"}
  {
    if |c| == 0 then ""
    else if forall i | 0 <= i < |c| :: c[i].id == c[0].id then
      if c[0].id == "prod_SG1UWIK3PV3QxM" then "/ 3 sessions"
      else if c[0].id == "prod_SG1QPx5FPi86Rj" || c[0].id == "prod_SG1Sk7PleXRgvG" then "/ 8 weeks"
      else "/ month"
    else ""
  }

  /** Because carts keep one entry per id, a label is shown exactly for
      single-entry carts. */
  lemma PriceLabelSingleEntry(c: Cart)
    requires UniqueIds(c)
    ensures PriceLabel(c) != "" <==> |c| == 1
  {
    if |c| > 1 {
      assert c[1].id != c[0].id;
    }
  }

  /** The object `Services.handleAddToCart` forwards: the service with the product id added. */
  datatype ForwardedService = ForwardedService(service: Service, stripeProductId: string)

  /** `handleAddToCart`: forward only services whose product is mapped and catalogued. */
  function HandleAddToCart(s: Service): (r: Option<ForwardedService>)
    ensures r.None? <==> NewEntry(s).None?
    ensures r.Some? ==> r.value.service == s && r.value.stripeProductId == NewEntry(s).value.id
  {
    match ProductIdFor(s.id)
    case None => None
    case Some(pid) => if Find(Products, pid).None? then None else Some(ForwardedService(s, pid))
  }

  /** The home page's `addToCart` ignores the forwarded product id and maps the
      service id again; both routes name the same product, so a forwarded
      service that is not yet in the cart is appended under the forwarded id. */
  lemma ForwardedAddAppends(c: Cart, s: Service)
    requires HandleAddToCart(s).Some?
    requires !HasId(c, HandleAddToCart(s).value.stripeProductId)
    ensures AddService(c, HandleAddToCart(s).value.service)
      == c + [CartItem(HandleAddToCart(s).value.stripeProductId, s.title, s.price)]
  {
  }
}
