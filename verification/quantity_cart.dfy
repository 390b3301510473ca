/**
 * The quantity-carrying cart drawer (src/components/Cart.tsx): entries have a
 * quantity, the total weighs prices by quantity, and the -/+ buttons request
 * a new quantity from the owner of the cart.
 */
module QuantityCart {
  import CartStore

  datatype QuantityItem = QuantityItem(id: string, title: string, price: int, quantity: int)

  /** `calculateTotal`: the sum of `price * quantity`, 0 for an empty list. */
  function Total(items: seq<QuantityItem>): (r: int)
    ensures items == [] ==> r == 0
    ensures (forall i | 0 <= i < |items| :: items[i].price >= 0 && items[i].quantity >= 0) ==> r >= 0
  {
    if items == [] then 0 else items[0].price * items[0].quantity + Total(items[1..])
  }

  /** The total is additive: the total of two lists laid end to end is the sum
      of their totals, so the order of the entries does not matter to it. */
  lemma {:induction false} TotalConcat(a: seq<QuantityItem>, b: seq<QuantityItem>)
    ensures Total(a + b) == Total(a) + Total(b)
  {
    if a == [] {
      assert a + b == b;
    } else {
      assert (a + b)[1..] == a[1..] + b;
      TotalConcat(a[1..], b);
    }
  }

  /** The quantity the minus button requests: one less, but never below 1. */
  function DecreasedQuantity(q: int): (r: int)
    ensures r >= 1
    ensures r <= q || q < 1
    ensures q > 1 ==> r == q - 1
  {
    if q - 1 > 1 then q - 1 else 1
  }

  /** The quantity the plus button requests. */
  function IncreasedQuantity(q: int): (r: int)
    ensures r == q + 1
  {
    q + 1
  }

  /** From any valid quantity, plus then minus returns to where it started. */
  lemma DecreaseUndoesIncrease(q: int)
    requires q >= 1
    ensures DecreasedQuantity(IncreasedQuantity(q)) == q
  {
  }

  /** The item-count badge is shown only for a positive count. */
  predicate BadgeShown(totalItems: int) {
    totalItems > 0
  }

  /** The number of articles in the drawer: the sum of the quantities. */
  function ItemCount(items: seq<QuantityItem>): (r: int)
    ensures items == [] ==> r == 0
  {
    if items == [] then 0 else items[0].quantity + ItemCount(items[1..])
  }

  /** When the badge is fed the drawer's article count, and every quantity is at
      least 1 (which the minus button keeps), the badge is shown exactly when the
      drawer has an entry, and the count is at least the number of entries. */
  lemma {:induction false} BadgeFollowsContents(items: seq<QuantityItem>)
    requires forall i | 0 <= i < |items| :: items[i].quantity >= 1
    ensures ItemCount(items) >= |items|
    ensures BadgeShown(ItemCount(items)) <==> items != []
  {
    if items != [] {
      BadgeFollowsContents(items[1..]);
    }
  }

  /** The drawer's entries without their quantities. */
  function Plain(items: seq<QuantityItem>): (r: CartStore.Cart)
    ensures |r| == |items|
    ensures forall i | 0 <= i < |items| :: r[i] == CartStore.CartItem(items[i].id, items[i].title, items[i].price)
  {
    if items == [] then [] else [CartStore.CartItem(items[0].id, items[0].title, items[0].price)] + Plain(items[1..])
  }

  /** With every quantity at 1 the drawer's total agrees with the cart page's
      unweighted total, and it grows with every quantity raised above 1. */
  lemma {:induction false} TotalAgreesWithCartPage(items: seq<QuantityItem>)
    requires forall i | 0 <= i < |items| :: items[i].quantity >= 1 && items[i].price >= 0
    ensures Total(items) >= CartStore.Total(Plain(items))
    ensures (forall i | 0 <= i < |items| :: items[i].quantity == 1) ==> Total(items) == CartStore.Total(Plain(items))
  {
    if items != [] {
      TotalAgreesWithCartPage(items[1..]);
      assert Plain(items)[1..] == Plain(items[1..]);
      var x := items[0];
      assert x.price * x.quantity >= x.price by {
        assert x.price * (x.quantity - 1) >= 0;
      }
    }
  }
}
