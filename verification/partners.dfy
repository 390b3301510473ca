/**
 * The partners page's data shaping: partners grouped by category with the
 * categories in order of first appearance, the categories then sorted by their
 * place in a fixed display order (categories missing from that order rank at
 * -1 and so come first), and one icon per category.
 */
module Partners {

  /** A partner; the description, link, discount code and image are only displayed. */
  datatype Partner = Partner(name: string, category: string)

  const Listing: seq<Partner> := [
    Partner("SteelFit", "Supplements & Nutrition"),
    Partner("Angel Competition Bikinis", "Competition Wear"),
    Partner("The Shoe Fairy", "Competition Wear"),
    Partner("Zilla Meals", "Nutrition"),
    Partner("Team Fit Life", "Fitness"),
    Partner("Nuethix Formulations", "Supplements & Nutrition"),
    Partner("Prozis Nutrition", "Supplements & Nutrition"),
    Partner("Buckedup", "Supplements & Nutrition")
  ]

  const CategoryOrder: seq<string> := ["Supplements & Nutrition", "Competition Wear", "Fitness", "Nutrition"]

  // ---- Grouping ----

  /** The partners of one category, in listing order: the reference the
      grouping is checked against. */
  function Filter(ps: seq<Partner>, c: string): (r: seq<Partner>)
    ensures |r| <= |ps|
    ensures forall i | 0 <= i < |r| :: r[i].category == c && r[i] in ps
  {
    if ps == [] then []
    else Filter(ps[..|ps| - 1], c) + (if ps[|ps| - 1].category == c then [ps[|ps| - 1]] else [])
  }

  predicate HasCategory(ps: seq<Partner>, c: string) {
    exists i | 0 <= i < |ps| :: ps[i].category == c
  }

  predicate Distinct(keys: seq<string>) {
    forall i, j | 0 <= i < j < |keys| :: keys[i] != keys[j]
  }

  /** The accumulated record: its keys in insertion order, and the arrays. */
  datatype Grouping = Grouping(keys: seq<string>, groups: map<string, seq<Partner>>)

  /** One step of the `reduce`: create the category's array if missing, then push. */
  function AddPartner(g: Grouping, p: Partner): Grouping {
    if p.category in g.groups then Grouping(g.keys, g.groups[p.category := g.groups[p.category] + [p]])
    else Grouping(g.keys + [p.category], g.groups[p.category := [p]])
  }

  /** `partners.reduce(...)`: every category that occurs becomes one key, listed
      once, and holds exactly its partners in listing order. */
  function Group(ps: seq<Partner>): (g: Grouping)
    ensures Distinct(g.keys)
    ensures forall c :: c in g.keys <==> c in g.groups
    ensures forall c :: c in g.groups <==> HasCategory(ps, c)
    ensures forall c | c in g.groups :: g.groups[c] == Filter(ps, c)
  {
    if ps == [] then Grouping([], map[])
    else
      var init, p := ps[..|ps| - 1], ps[|ps| - 1];
      var g := Group(init);
      HasCategorySnoc(ps);
      if p.category in g.groups then AddPartner(g, p)
      else
        FilterEmpty(init, p.category);
        AddPartner(g, p)
  }

  lemma HasCategorySnoc(ps: seq<Partner>)
    requires ps != []
    ensures forall c :: HasCategory(ps, c) <==> HasCategory(ps[..|ps| - 1], c) || ps[|ps| - 1].category == c
  {
    var init := ps[..|ps| - 1];
    forall c ensures HasCategory(ps, c) <==> HasCategory(init, c) || ps[|ps| - 1].category == c {
      if HasCategory(ps, c) && ps[|ps| - 1].category != c {
        var i :| 0 <= i < |ps| && ps[i].category == c;
        assert init[i].category == c;
      }
      if HasCategory(init, c) {
        var i :| 0 <= i < |init| && init[i].category == c;
        assert ps[i].category == c;
      }
    }
  }

  lemma {:induction false} FilterEmpty(ps: seq<Partner>, c: string)
    requires !HasCategory(ps, c)
    ensures Filter(ps, c) == []
  {
    if ps != [] {
      var init := ps[..|ps| - 1];
      forall i | 0 <= i < |init| ensures init[i].category != c {
        assert init[i] == ps[i];
      }
      FilterEmpty(init, c);
    }
  }

  /** The groups split the listing: their sizes add up to the number of partners. */
  function Sizes(keys: seq<string>, groups: map<string, seq<Partner>>): nat
    requires forall k | k in keys :: k in groups
  {
    if keys == [] then 0 else Sizes(keys[..|keys| - 1], groups) + |groups[keys[|keys| - 1]]|
  }

  lemma {:induction false} SizesIgnore(keys: seq<string>, groups: map<string, seq<Partner>>, c: string, v: seq<Partner>)
    requires forall k | k in keys :: k in groups
    requires c !in keys
    ensures Sizes(keys, groups[c := v]) == Sizes(keys, groups)
  {
    if keys != [] {
      SizesIgnore(keys[..|keys| - 1], groups, c, v);
    }
  }

  lemma {:induction false} SizesUpdate(keys: seq<string>, groups: map<string, seq<Partner>>, c: string, v: seq<Partner>)
    requires forall k | k in keys :: k in groups
    requires Distinct(keys) && c in keys
    ensures Sizes(keys, groups[c := v]) == Sizes(keys, groups) - |groups[c]| + |v|
  {
    var init, last := keys[..|keys| - 1], keys[|keys| - 1];
    assert Distinct(init);
    if last == c {
      assert c !in init;
      SizesIgnore(init, groups, c, v);
    } else {
      assert c in init;
      SizesUpdate(init, groups, c, v);
    }
  }

  /** Nothing is lost or duplicated: the group sizes add up to the number of partners. */
  lemma {:induction false} GroupsPartition(ps: seq<Partner>)
    ensures Sizes(Group(ps).keys, Group(ps).groups) == |ps|
  {
    if ps != [] {
      var init, p := ps[..|ps| - 1], ps[|ps| - 1];
      var g := Group(init);
      GroupsPartition(init);
      if p.category in g.groups {
        SizesUpdate(g.keys, g.groups, p.category, g.groups[p.category] + [p]);
      } else {
        SizesIgnore(g.keys, g.groups, p.category, [p]);
        var keys := g.keys + [p.category];
        assert keys[..|keys| - 1] == g.keys;
      }
    }
  }

  // ---- Ordering ----

  /** `categoryOrder.indexOf(c)`: the position, or -1 when absent. */
  function Rank(c: string): (r: int)
    ensures -1 <= r < |CategoryOrder|
    ensures r >= 0 ==> CategoryOrder[r] == c
    ensures r == -1 <==> c !in CategoryOrder
    ensures r >= 0 ==> forall i | 0 <= i < r :: CategoryOrder[i] != c
  {
    IndexOf(CategoryOrder, c)
  }

  function IndexOf(xs: seq<string>, c: string): (r: int)
    ensures -1 <= r < |xs|
    ensures r >= 0 ==> xs[r] == c && forall i | 0 <= i < r :: xs[i] != c
    ensures r == -1 <==> c !in xs
  {
    if xs == [] then -1
    else if xs[0] == c then 0
    else
      var r := IndexOf(xs[1..], c);
      if r == -1 then
        assert forall i | 1 <= i < |xs| :: xs[i] == xs[1..][i - 1];
        -1
      else
        assert forall i | 1 <= i < r + 1 :: xs[i] == xs[1..][i - 1];
        r + 1
  }

  predicate SortedByRank(s: seq<string>, rank: string -> int) {
    forall i, j | 0 <= i < j < |s| :: rank(s[i]) <= rank(s[j])
  }

  /** The entries of one rank, in order: what a stable sort keeps. */
  function OfRank(s: seq<string>, k: int, rank: string -> int): (r: seq<string>)
    ensures forall i | 0 <= i < |r| :: rank(r[i]) == k
  {
    if s == [] then []
    else OfRank(s[..|s| - 1], k, rank) + (if rank(s[|s| - 1]) == k then [s[|s| - 1]] else [])
  }

  /** Insert `x` after every entry that does not rank above it. */
  function Insert(s: seq<string>, x: string, rank: string -> int): (r: seq<string>)
    ensures |r| == |s| + 1
  {
    if s == [] || rank(s[|s| - 1]) <= rank(x) then s + [x]
    else
      var init := s[..|s| - 1];
      assert s == init + [s[|s| - 1]];
      Insert(init, x, rank) + [s[|s| - 1]]
  }

  /** Insertion adds `x` and loses nothing. */
  lemma {:induction false} InsertPermutes(s: seq<string>, x: string, rank: string -> int)
    ensures multiset(Insert(s, x, rank)) == multiset(s) + multiset{x}
    ensures forall y :: y in Insert(s, x, rank) <==> y in s || y == x
  {
    if s != [] && rank(s[|s| - 1]) > rank(x) {
      var init := s[..|s| - 1];
      assert s == init + [s[|s| - 1]];
      InsertPermutes(init, x, rank);
    }
  }

  /** Insertion keeps the entries of every rank in order, `x` last among its own. */
  lemma {:induction false} InsertOfRank(s: seq<string>, x: string, k: int, rank: string -> int)
    ensures OfRank(Insert(s, x, rank), k, rank) == OfRank(s, k, rank) + (if rank(x) == k then [x] else [])
  {
    if s == [] || rank(s[|s| - 1]) <= rank(x) {
      assert (s + [x])[..|s + [x]| - 1] == s;
    } else {
      var init, last := s[..|s| - 1], s[|s| - 1];
      var r := Insert(init, x, rank) + [last];
      assert r[..|r| - 1] == Insert(init, x, rank);
      InsertOfRank(init, x, k, rank);
    }
  }

  /** In a sorted sequence nothing ranks above the last entry. */
  lemma LastRanksHighest(s: seq<string>, y: string, rank: string -> int)
    requires SortedByRank(s, rank) && s != [] && y in s
    ensures rank(y) <= rank(s[|s| - 1])
  {
    var t :| 0 <= t < |s| && s[t] == y;
  }

  /** Inserting into a sorted sequence keeps it sorted. */
  lemma {:induction false} InsertKeepsSorted(s: seq<string>, x: string, rank: string -> int)
    requires SortedByRank(s, rank)
    ensures SortedByRank(Insert(s, x, rank), rank)
  {
    if s != [] && rank(s[|s| - 1]) > rank(x) {
      var init, last := s[..|s| - 1], s[|s| - 1];
      var m := Insert(init, x, rank);
      InsertPermutes(init, x, rank);
      assert SortedByRank(init, rank);
      InsertKeepsSorted(init, x, rank);
      forall i | 0 <= i < |m| ensures rank(m[i]) <= rank(last) {
        assert m[i] in m;
        if m[i] != x {
          assert m[i] in s;
          LastRanksHighest(s, m[i], rank);
        }
      }
      assert Insert(s, x, rank) == m + [last];
    }
  }

  /** `Object.keys(...).sort((a, b) => rank(a) - rank(b))` with the stable sort
      of the language: ordered by rank, a permutation of its input, and entries
      of equal rank in their original order. */
  function SortByRank(s: seq<string>, rank: string -> int): (r: seq<string>)
    ensures SortedByRank(r, rank)
    ensures |r| == |s|
  {
    if s == [] then []
    else
      var sorted := SortByRank(s[..|s| - 1], rank);
      InsertKeepsSorted(sorted, s[|s| - 1], rank);
      Insert(sorted, s[|s| - 1], rank)
  }

  /** The sort is a permutation that keeps entries of equal rank in their
      original order. */
  lemma {:induction false} SortByRankStable(s: seq<string>, rank: string -> int)
    ensures multiset(SortByRank(s, rank)) == multiset(s)
    ensures forall k :: OfRank(SortByRank(s, rank), k, rank) == OfRank(s, k, rank)
  {
    if s != [] {
      var init, last := s[..|s| - 1], s[|s| - 1];
      var sorted := SortByRank(init, rank);
      assert s == init + [last];
      SortByRankStable(init, rank);
      InsertPermutes(sorted, last, rank);
      forall k ensures OfRank(Insert(sorted, last, rank), k, rank) == OfRank(s, k, rank) {
        InsertOfRank(sorted, last, k, rank);
      }
    }
  }

  /** The categories in display order. */
  function SortedCategories(ps: seq<Partner>): (r: seq<string>)
    ensures SortedByRank(r, Rank)
    ensures multiset(r) == multiset(Group(ps).keys)
  {
    SortByRankStable(Group(ps).keys, Rank);
    SortByRank(Group(ps).keys, Rank)
  }

  /** Categories outside the display order come before all known ones. */
  lemma UnknownCategoriesFirst(ps: seq<Partner>, i: int, j: int)
    requires 0 <= i < |SortedCategories(ps)| && 0 <= j < |SortedCategories(ps)|
    requires SortedCategories(ps)[j] !in CategoryOrder && SortedCategories(ps)[i] in CategoryOrder
    ensures j < i
  {
    var r := SortedCategories(ps);
    assert Rank(r[j]) == -1 && Rank(r[i]) >= 0;
    LowerRankFirst(r, Rank, i, j);
  }

  /** In a sorted sequence an entry of lower rank comes first. */
  lemma LowerRankFirst(s: seq<string>, rank: string -> int, i: int, j: int)
    requires SortedByRank(s, rank)
    requires 0 <= i < |s| && 0 <= j < |s| && rank(s[j]) < rank(s[i])
    ensures j < i
  {
  }

  /** The categories in order of first appearance, which is the order in
      which the `reduce` creates the record's keys. */
  function FirstAppearance(ps: seq<Partner>): (r: seq<string>)
    ensures Distinct(r)
    ensures forall c :: c in r <==> HasCategory(ps, c)
  {
    if ps == [] then []
    else
      var init, p := ps[..|ps| - 1], ps[|ps| - 1];
      var k := FirstAppearance(init);
      HasCategorySnoc(ps);
      if p.category in k then k else k + [p.category]
  }

  lemma {:induction false} GroupKeysInFirstAppearanceOrder(ps: seq<Partner>)
    ensures Group(ps).keys == FirstAppearance(ps)
  {
    if ps != [] {
      GroupKeysInFirstAppearanceOrder(ps[..|ps| - 1]);
    }
  }

  /** The listing's categories in order of first appearance. */
  lemma ListingKeys()
    ensures FirstAppearance(Listing) == ["Supplements & Nutrition", "Competition Wear", "Nutrition", "Fitness"]
  {
    var a, b, c, d, e, f, g, h := Listing[0], Listing[1], Listing[2], Listing[3], Listing[4], Listing[5], Listing[6], Listing[7];
    assert [a, b, c, d, e, f, g, h][..7] == [a, b, c, d, e, f, g];
    assert [a, b, c, d, e, f, g][..6] == [a, b, c, d, e, f];
    assert [a, b, c, d, e, f][..5] == [a, b, c, d, e];
    assert [a, b, c, d, e][..4] == [a, b, c, d];
    assert [a, b, c, d][..3] == [a, b, c];
    assert [a, b, c][..2] == [a, b];
    assert [a, b][..1] == [a];
    assert [a][..0] == [];
    var sn, cw, nu, fi := "Supplements & Nutrition", "Competition Wear", "Nutrition", "Fitness";
    assert FirstAppearance([a]) == [sn];
    assert FirstAppearance([a, b]) == [sn, cw];
    assert FirstAppearance([a, b, c]) == [sn, cw];
    assert FirstAppearance([a, b, c, d]) == [sn, cw, nu];
    assert FirstAppearance([a, b, c, d, e]) == [sn, cw, nu, fi];
    assert FirstAppearance([a, b, c, d, e, f]) == [sn, cw, nu, fi];
    assert FirstAppearance([a, b, c, d, e, f, g]) == [sn, cw, nu, fi];
    assert Listing == [a, b, c, d, e, f, g, h];
  }

  lemma DisplayRanks()
    ensures Rank("Supplements & Nutrition") == 0 && Rank("Competition Wear") == 1
    ensures Rank("Fitness") == 2 && Rank("Nutrition") == 3
  {
  }

  /** Three entries already in rank order sort to themselves. */
  lemma SortOrderedTriple(a: string, b: string, c: string, rank: string -> int)
    requires rank(a) <= rank(b) <= rank(c)
    ensures SortByRank([a, b, c], rank) == [a, b, c]
  {
    var s1, s2, s3 := [a], [a, b], [a, b, c];
    assert s1[..0] == [] && s1[0] == a;
    assert SortByRank(s1, rank) == Insert([], a, rank) == [a];
    assert s2[..1] == s1 && s2[1] == b;
    assert SortByRank(s2, rank) == Insert(s1, b, rank) == s1 + [b] == s2;
    assert s3[..2] == s2 && s3[2] == c;
    assert SortByRank(s3, rank) == Insert(s2, c, rank) == s2 + [c] == s3;
  }

  /** An entry ranking between the second and third of a sorted triple is
      inserted ahead of the third. */
  lemma InsertBeforeLast(a: string, b: string, c: string, x: string, rank: string -> int)
    requires rank(b) <= rank(x) < rank(c)
    ensures Insert([a, b, c], x, rank) == [a, b, x, c]
  {
    var s2, s3 := [a, b], [a, b, c];
    assert s3[..2] == s2 && s3[2] == c && s2[1] == b;
    assert Insert(s2, x, rank) == s2 + [x];
    assert Insert(s3, x, rank) == Insert(s2, x, rank) + [c];
  }

  /** Sorting four entries is inserting the fourth into the sorted first three. */
  lemma SortFour(a: string, b: string, c: string, d: string, rank: string -> int)
    ensures SortByRank([a, b, c, d], rank) == Insert(SortByRank([a, b, c], rank), d, rank)
  {
    assert [a, b, c, d][..3] == [a, b, c];
  }

  /** Sorting the listing's categories moves "Fitness" ahead of "Nutrition". */
  lemma SortListingKeys()
    ensures SortByRank(["Supplements & Nutrition", "Competition Wear", "Nutrition", "Fitness"], Rank) == CategoryOrder
  {
    DisplayRanks();
    var sn, cw, nu, fi := "Supplements & Nutrition", "Competition Wear", "Nutrition", "Fitness";
    SortFour(sn, cw, nu, fi, Rank);
    SortOrderedTriple(sn, cw, nu, Rank);
    InsertBeforeLast(sn, cw, nu, fi, Rank);
  }

  /** On the site's own listing the page shows the four categories in the
      display order. */
  lemma ListingCategories()
    ensures SortedCategories(Listing) == CategoryOrder
  {
    ListingKeys();
    GroupKeysInFirstAppearanceOrder(Listing);
    SortListingKeys();
  }

  // ---- Icons ----

  datatype Icon = Utensils | ShoppingBag | Dumbbell | Coffee | ExternalLink

  /** `getCategoryIcon`: one icon per known category, a link icon otherwise. */
  function CategoryIcon(c: string): (r: Icon)
    ensures r == ExternalLink <==> Rank(c) == -1
    ensures Rank(c) >= 0 ==> r == [Utensils, ShoppingBag, Dumbbell, Coffee][Rank(c)]
  {
    match c
    case "Supplements & Nutrition" => Utensils
    case "Competition Wear" => ShoppingBag
    case "Fitness" => Dumbbell
    case "Nutrition" => Coffee
    case _ => ExternalLink
  }
}
