/**
 * The three orderings the dashboard derives from its cached lists
 * (`sortedMachines`, `sortedGlobalResults`, `filteredProducts`). Each copies
 * its list into a fresh array and sorts that array in place, as
 * `[...list].sort(cmp)` and `list.filter(f).sort(cmp)` do.
 */
module Rankings {
  import opened Wrappers
  import opened Js
  import opened Catalog
  import ArraySort
  import Filtering

  function ProximityOrder(haversine: Haversine, loc: Location): (Machine, Machine) -> int {
    (a, b) => ProximityCompare(haversine, loc, a, b)
  }

  function SearchOrder(haversine: Haversine, loc: Option<Location>): (Product, Product) -> int {
    (a, b) => SearchCompare(haversine, loc, a, b)
  }

  function StockOrder(): (Product, Product) -> int {
    (a, b) => StockCompare(a, b)
  }

  /** A fresh array holding `s`. */
  method ToArray<T>(s: seq<T>) returns (a: array<T>)
    ensures fresh(a) && a[..] == s
  {
    a := new T[|s|](i requires 0 <= i < |s| => s[i]);
  }

  // ---------------------------------------------------------------- machines by proximity

  /** Distance order is a key order, so it is a total preorder. */
  lemma ProximityIsTotalPreorder(haversine: Haversine, loc: Location)
    ensures ArraySort.TotalPreorder(ProximityOrder(haversine, loc))
  {
    var cmp := ProximityOrder(haversine, loc);
    forall a, b, c | cmp(a, b) <= 0 && cmp(b, c) <= 0 ensures cmp(a, c) <= 0 {
      var ka, kb, kc := MachineKey(haversine, loc, a), MachineKey(haversine, loc, b), MachineKey(haversine, loc, c);
      assert KeyAtMost(ka, kb) && KeyAtMost(kb, kc);
    }
  }

  /** The proximity sort of the machines: a permutation, in non-decreasing key order,
      stable among equal keys. */
  lemma ProximitySorted(haversine: Haversine, loc: Location, machines: seq<Machine>)
    ensures var r := ArraySort.Sort(machines, ProximityOrder(haversine, loc));
      && multiset(r) == multiset(machines)
      && (forall i, j :: 0 <= i < j < |r| ==> KeyAtMost(MachineKey(haversine, loc, r[i]), MachineKey(haversine, loc, r[j])))
      && (forall y :: ArraySort.Tied(r, y, ProximityOrder(haversine, loc)) == ArraySort.Tied(machines, y, ProximityOrder(haversine, loc)))
  {
    var cmp := ProximityOrder(haversine, loc);
    ArraySort.SortPermutes(machines, cmp);
    ProximityIsTotalPreorder(haversine, loc);
    ArraySort.SortOrdered(machines, cmp);
    ArraySort.SortStableAll(machines, cmp);
    var r := ArraySort.Sort(machines, cmp);
    forall i, j | 0 <= i < j < |r|
      ensures KeyAtMost(MachineKey(haversine, loc, r[i]), MachineKey(haversine, loc, r[j]))
    {
      assert cmp(r[i], r[j]) <= 0;
    }
  }

  /** `sortedMachines`: with a location, the machines in non-decreasing distance key,
      unresolved (null or zero) distances last and equal keys in their original order;
      without one, the list as fetched. */
  method SortMachines(haversine: Haversine, machines: seq<Machine>, userLocation: Option<Location>)
    returns (r: seq<Machine>)
    ensures userLocation.None? ==> r == machines
    ensures multiset(r) == multiset(machines)
    ensures userLocation.Some? ==>
      && r == ArraySort.Sort(machines, ProximityOrder(haversine, userLocation.value))
      && (forall i, j :: 0 <= i < j < |r| ==>
            KeyAtMost(MachineKey(haversine, userLocation.value, r[i]), MachineKey(haversine, userLocation.value, r[j])))
      && (forall y :: ArraySort.Tied(r, y, ProximityOrder(haversine, userLocation.value))
                   == ArraySort.Tied(machines, y, ProximityOrder(haversine, userLocation.value)))
  {
    var a := ToArray(machines);
    if userLocation.Some? {
      ArraySort.SortInPlace(a, ProximityOrder(haversine, userLocation.value));
      ProximitySorted(haversine, userLocation.value, machines);
    }
    r := a[..];
  }

  // ---------------------------------------------------------------- global search ranking

  /** Swapping two search results flips the comparator's sign; two unresolved results tie. */
  lemma SearchOrderIsSignAntisymmetric(haversine: Haversine, loc: Option<Location>)
    ensures ArraySort.SignAntisymmetric(SearchOrder(haversine, loc))
  {
  }

  /** 10 m with stock 2 against 40 m with stock 5: the stock-5 result ranks first;
      10 m against 100 m: the 10 m result ranks first whatever the stocks. */
  lemma SearchRankingExamples(haversine: Haversine, loc: Location, a: Product, b: Product, c: Product)
    requires ProductKey(haversine, loc, a) == Metres(10) && a.stock == 2
    requires ProductKey(haversine, loc, b) == Metres(40) && b.stock == 5
    requires ProductKey(haversine, loc, c) == Metres(100)
    ensures ArraySort.Sort([a, b], SearchOrder(haversine, Some(loc))) == [b, a]
    ensures ArraySort.Sort([a, c], SearchOrder(haversine, Some(loc))) == [a, c]
    ensures ArraySort.Sort([c, a], SearchOrder(haversine, Some(loc))) == [a, c]
  {
    var cmp := SearchOrder(haversine, Some(loc));
    assert [a, b][..1] == [a] && [a, c][..1] == [a] && [c, a][..1] == [c];
    assert [a][..0] == [] && [c][..0] == [];
  }

  /** The 50 m window makes the comparator intransitive: 10 m/stock 1, 40 m/stock 2 and
      70 m/stock 3 form a cycle, so no order agrees with every pair. */
  lemma SearchCompareNotTransitive(haversine: Haversine, loc: Location, a: Product, b: Product, c: Product)
    requires ProductKey(haversine, loc, a) == Metres(10) && a.stock == 1
    requires ProductKey(haversine, loc, b) == Metres(40) && b.stock == 2
    requires ProductKey(haversine, loc, c) == Metres(70) && c.stock == 3
    ensures SearchCompare(haversine, Some(loc), b, a) < 0
    ensures SearchCompare(haversine, Some(loc), c, b) < 0
    ensures SearchCompare(haversine, Some(loc), a, c) < 0
    ensures !ArraySort.TotalPreorder(SearchOrder(haversine, Some(loc)))
  {
    var cmp := SearchOrder(haversine, Some(loc));
    assert cmp(b, a) < 0 && cmp(c, b) < 0 && cmp(a, c) < 0;
  }

  /** The search ranking of the results: neighbours are in comparator order. */
  lemma SearchAdjacentOrdered(haversine: Haversine, results: seq<Product>, loc: Option<Location>)
    ensures var r := ArraySort.Sort(results, SearchOrder(haversine, loc));
      forall i :: 0 <= i < |r| - 1 ==> SearchCompare(haversine, loc, r[i], r[i + 1]) <= 0
  {
    var cmp := SearchOrder(haversine, loc);
    SearchOrderIsSignAntisymmetric(haversine, loc);
    ArraySort.SortAdjacentOrdered(results, cmp);
    var r := ArraySort.Sort(results, cmp);
    forall i | 0 <= i < |r| - 1 ensures SearchCompare(haversine, loc, r[i], r[i + 1]) <= 0 {
      assert cmp(r[i], r[i + 1]) <= 0;
    }
  }

  /** Stock descending is a total preorder, so any list sorted by it has non-increasing stock. */
  lemma StockSorted(s: seq<Product>)
    ensures var r := ArraySort.Sort(s, StockOrder());
      forall i, j :: 0 <= i < j < |r| ==> r[i].stock >= r[j].stock
  {
    StockOrderIsTotalPreorder();
    ArraySort.SortOrdered(s, StockOrder());
    var r := ArraySort.Sort(s, StockOrder());
    forall i, j | 0 <= i < j < |r| ensures r[i].stock >= r[j].stock {
      assert StockOrder()(r[i], r[j]) <= 0;
    }
  }

  /** Without a location the search ranking is by non-increasing stock throughout. */
  lemma SearchSortedWithoutLocation(haversine: Haversine, results: seq<Product>)
    ensures var r := ArraySort.Sort(results, SearchOrder(haversine, None));
      forall i, j :: 0 <= i < j < |r| ==> r[i].stock >= r[j].stock
  {
    var cmp := SearchOrder(haversine, None);
    assert ArraySort.TotalPreorder(cmp);
    ArraySort.SortOrdered(results, cmp);
    var r := ArraySort.Sort(results, cmp);
    forall i, j | 0 <= i < j < |r| ensures r[i].stock >= r[j].stock {
      assert cmp(r[i], r[j]) <= 0;
    }
  }

  /** `sortedGlobalResults`: a permutation of the results in which every neighbouring pair
      is in comparator order; without a location, stock is non-increasing throughout. */
  method SortSearchResults(haversine: Haversine, results: seq<Product>, userLocation: Option<Location>)
    returns (r: seq<Product>)
    ensures r == ArraySort.Sort(results, SearchOrder(haversine, userLocation))
    ensures multiset(r) == multiset(results)
    ensures forall i :: 0 <= i < |r| - 1 ==> SearchCompare(haversine, userLocation, r[i], r[i + 1]) <= 0
    ensures userLocation.None? ==> forall i, j :: 0 <= i < j < |r| ==> r[i].stock >= r[j].stock
  {
    var a := ToArray(results);
    ArraySort.SortInPlace(a, SearchOrder(haversine, userLocation));
    ArraySort.SortPermutes(results, SearchOrder(haversine, userLocation));
    SearchAdjacentOrdered(haversine, results, userLocation);
    if userLocation.None? {
      SearchSortedWithoutLocation(haversine, results);
    }
    r := a[..];
  }

  // ---------------------------------------------------------------- inventory view

  lemma StockOrderIsTotalPreorder()
    ensures ArraySort.TotalPreorder(StockOrder())
  {
  }

  function MatchingProducts(products: seq<Product>, search: string): seq<Product> {
    Filtering.Filter(products, p => Matches(p, search))
  }

  /** The inventory view holds exactly the matching products, each as often as fetched. */
  lemma InventoryContents(products: seq<Product>, search: string)
    ensures var r := ArraySort.Sort(MatchingProducts(products, search), StockOrder());
      forall p :: multiset(r)[p] == if Matches(p, search) then multiset(products)[p] else 0
  {
    var matching := MatchingProducts(products, search);
    ArraySort.SortPermutes(matching, StockOrder());
  }

  /** `filteredProducts`: exactly the products whose lower-cased name contains the lower-cased
      search text, as a permutation, in non-increasing stock, equal stocks in list order. */
  method FilteredProducts(products: seq<Product>, search: string) returns (r: seq<Product>)
    ensures r == ArraySort.Sort(MatchingProducts(products, search), StockOrder())
    ensures forall p :: multiset(r)[p] == if Matches(p, search) then multiset(products)[p] else 0
    ensures forall i, j :: 0 <= i < j < |r| ==> r[i].stock >= r[j].stock
    ensures forall y :: ArraySort.Tied(r, y, StockOrder()) == ArraySort.Tied(MatchingProducts(products, search), y, StockOrder())
  {
    var matching := MatchingProducts(products, search);
    var a := ToArray(matching);
    ArraySort.SortInPlace(a, StockOrder());
    InventoryContents(products, search);
    StockSorted(matching);
    StockOrderIsTotalPreorder();
    ArraySort.SortStableAll(matching, StockOrder());
    r := a[..];
  }

  /** An empty search text keeps every product. */
  lemma EmptySearchKeepsAll(products: seq<Product>)
    ensures MatchingProducts(products, "") == products
  {
    forall i | 0 <= i < |products| ensures Matches(products[i], "") {
      IncludesEmpty(Lower(products[i].name));
    }
    Filtering.FilterAll(products, p => Matches(p, ""));
  }
}
