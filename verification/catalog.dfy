/**
 * The product catalog every checkout lookup goes through (`products` in
 * src/stripe-config.ts) and the service-to-product table the add-to-cart
 * handlers share.
 */
module Catalog {
  import opened Wrappers

  /** Checkout modes: one-time `payment` or recurring `subscription`. */
  datatype Mode = Payment | Subscription

  /** The wire spelling of a mode. */
  function ModeName(m: Mode): (r: string)
    ensures r == "payment" || r == "subscription"
  {
    match m
    case Payment => "payment"
    case Subscription => "subscription"
  }

  /** A catalog entry; the marketing `description` text is not part of the model. */
  datatype Product = Product(id: string, priceId: string, name: string, mode: Mode)

  /** The catalogue in listing order. The last price id is written as two
      adjoining literals; its value is the one id. */
  const Products: seq<Product> := [
    Product("prod_SG1UWIK3PV3QxM", "price_1RLVRsCL7GDM85rzmXQjnwn4", "1:1 posing", Payment),
    Product("prod_SG1Sk7PleXRgvG", "price_1RLVQ2CL7GDM85rzZ8Kugc6v", "Six-pack abdominal program", Payment),
    Product("prod_SG1QPx5FPi86Rj", "price_1RLVNgCL7GDM85rzWgGMJCK7", "Booty-building program", Payment),
    Product("prod_SG1N3NdD4esDMH", "price_1RLVL4CL7GDM85rzBv108TTx", "Combo Package: Workout + Nutrition", Subscription),
    Product("prod_SG1LOOOFt4jZec", "price_1RLVJCCL7GDM85rztQjBApQW", "Nutrition only", Subscription),
    Product("prod_SG1JjNgIywzd5S", "price_1RLVG" + "XCL7GDM85rz8IfXyVdZ", "Workout only", Subscription)
  ]

  /** `serviceToStripeProductMap`, identical in every file that declares it. */
  const ServiceToProduct: map<string, string> := map[
    "workout" := "prod_SG1JjNgIywzd5S",
    "nutrition" := "prod_SG1LOOOFt4jZec",
    "combo" := "prod_SG1N3NdD4esDMH",
    "booty" := "prod_SG1QPx5FPi86Rj",
    "sixpack" := "prod_SG1Sk7PleXRgvG",
    "posing" := "prod_SG1UWIK3PV3QxM"
  ]

  /** `serviceToStripeProductMap[serviceId]`, with an absent key as `None`: the
      six service cards have a product, and each one is in the catalog. */
  function ProductIdFor(serviceId: string): (r: Option<string>)
    ensures r.Some? <==> serviceId in {"workout", "nutrition", "combo", "booty", "sixpack", "posing"}
    ensures r.Some? ==> Find(Products, r.value).Some?
  {
    if serviceId in ServiceToProduct then
      ServiceTableResolves(serviceId);
      Some(ServiceToProduct[serviceId])
    else None
  }

  /** `catalog.find(p => p.id === id)`: the first product carrying `id`. */
  function Find(catalog: seq<Product>, id: string): (r: Option<Product>)
    ensures r.None? <==> forall i | 0 <= i < |catalog| :: catalog[i].id != id
    ensures r.Some? ==> r.value in catalog && r.value.id == id
    ensures r.Some? ==> exists i | 0 <= i < |catalog| ::
      catalog[i] == r.value && forall j | 0 <= j < i :: catalog[j].id != id
  {
    if catalog == [] then None
    else if catalog[0].id == id then Some(catalog[0])
    else
      var r := Find(catalog[1..], id);
      if r.Some? then
        var k :| 0 <= k < |catalog[1..]| && catalog[1..][k] == r.value
          && forall j | 0 <= j < k :: catalog[1..][j].id != id;
        assert catalog[k + 1] == r.value;
        assert forall j | 0 <= j < k + 1 :: catalog[j].id != id by {
          forall j | 0 <= j < k + 1 ensures catalog[j].id != id {
            if j > 0 { assert catalog[j] == catalog[1..][j - 1]; }
          }
        }
        r
      else r
  }

  predicate DistinctIds(catalog: seq<Product>) {
    forall i, j | 0 <= i < j < |catalog| :: catalog[i].id != catalog[j].id
  }

  predicate DistinctPriceIds(catalog: seq<Product>) {
    forall i, j | 0 <= i < j < |catalog| :: catalog[i].priceId != catalog[j].priceId
  }

  /** Product ids in the catalog are pairwise distinct, so a lookup by id is
      unambiguous; they first differ at their ninth character. */
  lemma CatalogIdsDistinct()
    ensures DistinctIds(Products)
  {
    var ps := Products;
    assert ps[0].id[8] == 'U' && ps[1].id[8] == 'S' && ps[2].id[8] == 'Q';
    assert ps[3].id[8] == 'N' && ps[4].id[8] == 'L' && ps[5].id[8] == 'J';
  }

  /** Price ids are pairwise distinct and non-empty, so every product has its own
      usable price reference; they first differ at their eleventh character. */
  lemma CatalogPriceIdsDistinct()
    ensures DistinctPriceIds(Products)
    ensures forall i | 0 <= i < |Products| :: Products[i].priceId != ""
  {
    var ps := Products;
    assert ps[0].priceId[10] == 'R' && ps[1].priceId[10] == 'Q' && ps[2].priceId[10] == 'N';
    assert ps[3].priceId[10] == 'L' && ps[4].priceId[10] == 'J' && ps[5].priceId[10] == 'G';
  }

  /** With distinct ids, `Find` returns exactly the product that carries the id. */
  lemma FindDistinct(catalog: seq<Product>, p: Product)
    requires DistinctIds(catalog)
    requires p in catalog
    ensures Find(catalog, p.id) == Some(p)
  {
    if catalog[0] != p {
      var k :| 0 <= k < |catalog| && catalog[k] == p;
      assert catalog[1..][k - 1] == p;
      FindDistinct(catalog[1..], p);
    }
  }

  /** Every product id the service table names resolves to a catalog entry. */
  lemma ServiceTableResolves(serviceId: string)
    requires serviceId in ServiceToProduct
    ensures Find(Products, ServiceToProduct[serviceId]).Some?
  {
    var pid := ServiceToProduct[serviceId];
    var k := if serviceId == "posing" then 0 else if serviceId == "sixpack" then 1
      else if serviceId == "booty" then 2 else if serviceId == "combo" then 3
      else if serviceId == "nutrition" then 4 else 5;
    assert Products[k].id == pid;
  }
}
