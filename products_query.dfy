/** The product list page (Controllers/ProductsController.cs, `Index`): four
    optional filters combined with AND, one of eight sort keys with a
    reported effective sort, a count, and the category drop-down list.

    The hard-coded product list of the controller is an input here. */
module ProductsQuery {
  import opened Wrappers
  import opened Text
  import opened Linq

  /** A row of the list (Models/Product.cs); `Price` is a `decimal`. */
  datatype Product = Product(
    id: int,
    name: string,
    category: Option<string>,
    price: real,
    stock: int,
    stockStatus: Option<string>,
    imageUrl: Option<string>)

  /** The query-string arguments of `Index`. */
  datatype ProductQuery = ProductQuery(
    sortBy: Option<string>,
    category: Option<string>,
    minPrice: Option<real>,
    maxPrice: Option<real>,
    stockStatus: Option<string>)

  /** Models/ProductViewModel.cs as filled in by `Index`. */
  datatype ProductList = ProductList(
    products: seq<Product>,
    totalProducts: nat,
    sortBy: string,
    category: Option<string>,
    minPrice: Option<real>,
    maxPrice: Option<real>,
    stockStatus: Option<string>,
    availableCategories: seq<string>)

  const DefaultSortOrder: string := "NameAsc"

  // ------------------------------------------------------------ filters

  /** A text filter is switched on by a value that is neither null, empty,
      nor "all" in any letter case. */
  predicate FilterActive(value: Option<string>) {
    !IsNullOrEmpty(value) && ToLower(value.value) != "all"
  }

  predicate InCategory(p: Product, category: string) {
    p.category.Some? && EqualsIgnoreCase(p.category.value, category)
  }

  predicate HasStockStatus(p: Product, status: string) {
    p.stockStatus.Some? && EqualsIgnoreCase(p.stockStatus.value, status)
  }

  // Each filter as a test that passes every product while it is switched off.

  function CategoryStage(q: ProductQuery): Product -> bool {
    p => FilterActive(q.category) ==> InCategory(p, q.category.value)
  }

  function MinPriceStage(q: ProductQuery): Product -> bool {
    (p: Product) => q.minPrice.Some? ==> q.minPrice.value <= p.price
  }

  function MaxPriceStage(q: ProductQuery): Product -> bool {
    (p: Product) => q.maxPrice.Some? ==> p.price <= q.maxPrice.value
  }

  function StockStage(q: ProductQuery): Product -> bool {
    p => FilterActive(q.stockStatus) ==> HasStockStatus(p, q.stockStatus.value)
  }

  /** `p` passes every filter of `q` that is switched on. */
  predicate Matches(q: ProductQuery, p: Product) {
    && (FilterActive(q.category) ==> InCategory(p, q.category.value))
    && (q.minPrice.Some? ==> q.minPrice.value <= p.price)
    && (q.maxPrice.Some? ==> p.price <= q.maxPrice.value)
    && (FilterActive(q.stockStatus) ==> HasStockStatus(p, q.stockStatus.value))
  }

  function Keep(q: ProductQuery): Product -> bool {
    p => Matches(q, p)
  }

  /** The chain of `Where` calls, each applied only when its argument is given. */
  function Filtered(source: seq<Product>, q: ProductQuery): seq<Product> {
    var byCategory := if FilterActive(q.category) then Where(source, CategoryStage(q)) else source;
    var byMin := if q.minPrice.Some? then Where(byCategory, MinPriceStage(q)) else byCategory;
    var byMax := if q.maxPrice.Some? then Where(byMin, MaxPriceStage(q)) else byMin;
    if FilterActive(q.stockStatus) then Where(byMax, StockStage(q)) else byMax
  }

  /** Applying the filters one after the other is one `Where` with their
      conjunction. */
  lemma FilteredIsWhere(source: seq<Product>, q: ProductQuery)
    ensures Filtered(source, q) == Where(source, Keep(q))
  {
    var cat, lo, hi, st := CategoryStage(q), MinPriceStage(q), MaxPriceStage(q), StockStage(q);
    var catLo: Product -> bool := p => cat(p) && lo(p);
    var catLoHi: Product -> bool := p => catLo(p) && hi(p);
    var s1 := Where(source, cat);
    if !FilterActive(q.category) { WhereAll(source, cat); }
    var s2 := Where(s1, lo);
    if q.minPrice.None? { WhereAll(s1, lo); }
    WhereWhere(source, cat, lo, catLo);
    var s3 := Where(s2, hi);
    if q.maxPrice.None? { WhereAll(s2, hi); }
    WhereWhere(source, catLo, hi, catLoHi);
    if !FilterActive(q.stockStatus) { WhereAll(s3, st); }
    WhereWhere(source, catLoHi, st, Keep(q));
  }

  // ------------------------------------------------------------ sorting

  datatype SortOrder =
    NameAsc | NameDesc | PriceAsc | PriceDesc | CategoryAsc | CategoryDesc | StockAsc | StockDesc

  /** The `switch` on `sortBy?.ToLowerInvariant()`: the sort applied and the
      `sortBy` value reported back. */
  function ChooseSort(sortBy: Option<string>): (SortOrder, string) {
    var key := if sortBy.Some? then ToLower(sortBy.value) else "";
    if sortBy.Some? && key == "namedesc" then (NameDesc, sortBy.value)
    else if sortBy.Some? && key == "priceasc" then (PriceAsc, sortBy.value)
    else if sortBy.Some? && key == "pricedesc" then (PriceDesc, sortBy.value)
    else if sortBy.Some? && key == "categoryasc" then (CategoryAsc, sortBy.value)
    else if sortBy.Some? && key == "categorydesc" then (CategoryDesc, sortBy.value)
    else if sortBy.Some? && key == "stockasc" then (StockAsc, sortBy.value)
    else if sortBy.Some? && key == "stockdesc" then (StockDesc, sortBy.value)
    else (NameAsc, DefaultSortOrder)
  }

  /** The lower-case key of each sort other than the default. */
  function KeyName(order: SortOrder): string {
    match order
    case NameAsc => "nameasc"
    case NameDesc => "namedesc"
    case PriceAsc => "priceasc"
    case PriceDesc => "pricedesc"
    case CategoryAsc => "categoryasc"
    case CategoryDesc => "categorydesc"
    case StockAsc => "stockasc"
    case StockDesc => "stockdesc"
  }

  /** A recognised key, in any letter case, selects its sort and is reported
      as given; a missing or unrecognised key (and "nameasc") selects the
      name order and is reported as "NameAsc". */
  lemma ChooseSortReports(sortBy: Option<string>)
    ensures var (order, reported) := ChooseSort(sortBy);
      && (order != NameAsc ==>
            sortBy.Some? && reported == sortBy.value && ToLower(reported) == KeyName(order))
      && (order == NameAsc ==> reported == DefaultSortOrder)
      && (order == NameAsc <==>
            (sortBy.None? || forall o :: o != NameAsc ==> ToLower(sortBy.value) != KeyName(o)))
  {
  }

  /** The comparison of each sort key; `CategoryAsc` and `CategoryDesc` both
      break ties by name ascending (`ThenBy`). */
  function CompareBy(order: SortOrder, p: Product, q: Product): Ordering {
    match order
    case NameAsc => CompareStrings(p.name, q.name)
    case NameDesc => CompareStrings(q.name, p.name)
    case PriceAsc => CompareReals(p.price, q.price)
    case PriceDesc => CompareReals(q.price, p.price)
    case CategoryAsc => Then(CompareOptStrings(p.category, q.category), CompareStrings(p.name, q.name))
    case CategoryDesc => Then(CompareOptStrings(q.category, p.category), CompareStrings(p.name, q.name))
    case StockAsc => CompareInts(p.stock, q.stock)
    case StockDesc => CompareInts(q.stock, p.stock)
  }

  lemma CompareByFlip(order: SortOrder, p: Product, q: Product)
    ensures CompareBy(order, q, p) == CompareBy(order, p, q).Flip()
  {
    CompareStringsFlip(p.name, q.name);
    CompareOptStringsFlip(p.category, q.category);
  }

  lemma CompareByTrans(order: SortOrder, p: Product, q: Product, r: Product)
    requires CompareBy(order, p, q) != Greater && CompareBy(order, q, r) != Greater
    ensures CompareBy(order, p, r) != Greater
  {
    match order
    case NameAsc => CompareStringsTrans(p.name, q.name, r.name);
    case NameDesc => CompareStringsTrans(r.name, q.name, p.name);
    case CategoryAsc =>
      CompareOptStringsEqual(p.category, q.category);
      CompareOptStringsEqual(q.category, r.category);
      CompareOptStringsEqual(p.category, r.category);
      CompareOptStringsTrans(p.category, q.category, r.category);
      CompareOptStringsFlip(p.category, q.category);
      CompareOptStringsFlip(q.category, r.category);
      if p.category == q.category == r.category {
        CompareStringsTrans(p.name, q.name, r.name);
      }
    case CategoryDesc =>
      CompareOptStringsEqual(q.category, p.category);
      CompareOptStringsEqual(r.category, q.category);
      CompareOptStringsEqual(r.category, p.category);
      CompareOptStringsTrans(r.category, q.category, p.category);
      CompareOptStringsFlip(p.category, q.category);
      CompareOptStringsFlip(q.category, r.category);
      if p.category == q.category == r.category {
        CompareStringsTrans(p.name, q.name, r.name);
      }
    case _ =>
  }

  /** A product together with its position in the filtered sequence; LINQ's
      `OrderBy` breaks ties by this position, which makes it stable. */
  datatype Ranked = Ranked(position: nat, product: Product)

  function CompareRanked(order: SortOrder, a: Ranked, b: Ranked): Ordering {
    Then(CompareBy(order, a.product, b.product), CompareInts(a.position, b.position))
  }

  function RankedCmp(order: SortOrder): (Ranked, Ranked) -> Ordering {
    (a, b) => CompareRanked(order, a, b)
  }

  lemma RankedCmpIsTotalPreorder(order: SortOrder)
    ensures IsTotalPreorder(RankedCmp(order))
  {
    var cmp := RankedCmp(order);
    forall a, b ensures cmp(b, a) == cmp(a, b).Flip() {
      CompareByFlip(order, a.product, b.product);
    }
    forall a, b, c | cmp(a, b) != Greater && cmp(b, c) != Greater ensures cmp(a, c) != Greater {
      CompareByTrans(order, a.product, b.product, c.product);
      CompareByFlip(order, a.product, b.product);
      CompareByFlip(order, b.product, c.product);
      CompareByFlip(order, a.product, c.product);
      if CompareBy(order, a.product, c.product) == Equal {
        CompareByTrans(order, c.product, a.product, b.product);
        CompareByTrans(order, b.product, c.product, a.product);
      }
    }
  }

  function Enumerate(s: seq<Product>): (r: seq<Ranked>)
    ensures |r| == |s|
    ensures forall i :: 0 <= i < |s| ==> r[i] == Ranked(i, s[i])
  {
    seq(|s|, i requires 0 <= i < |s| => Ranked(i, s[i]))
  }

  /** The ranked products in the order of `order`. */
  function Arrange(order: SortOrder, s: seq<Product>): seq<Ranked> {
    Sort(Enumerate(s), RankedCmp(order))
  }

  function ProductOf(r: Ranked): Product {
    r.product
  }

  /** `OrderBy` / `OrderByDescending` (with `ThenBy`) on the filtered list. */
  function OrderProducts(order: SortOrder, s: seq<Product>): seq<Product> {
    MapSeq(Arrange(order, s), ProductOf)
  }

  // ------------------------------------------------------------ categories

  /** `Select(p => p.Category).Where(c => !string.IsNullOrEmpty(c))` */
  function CategoryNames(source: seq<Product>): (r: seq<string>)
    ensures forall c :: c in r <==> c != [] && exists p :: p in source && p.category == Some(c)
  {
    if source == [] then []
    else
      var p := source[0];
      assert source == [p] + source[1..];
      (if p.category.Some? && p.category.value != [] then [p.category.value] else [])
        + CategoryNames(source[1..])
  }

  /** The drop-down list of categories, drawn from the whole source. */
  function AvailableCategories(source: seq<Product>): seq<string> {
    Sort(Distinct(CategoryNames(source)), StringCmp())
  }

  // ------------------------------------------------------------ Index

  function Index(source: seq<Product>, q: ProductQuery): (v: ProductList)
    ensures v.totalProducts == |v.products| == |Filtered(source, q)|
    ensures v.category == q.category && v.minPrice == q.minPrice
    ensures v.maxPrice == q.maxPrice && v.stockStatus == q.stockStatus
    ensures v.sortBy == ChooseSort(q.sortBy).1
  {
    var filtered := Filtered(source, q);
    var (order, reported) := ChooseSort(q.sortBy);
    var products := OrderProducts(order, filtered);
    ProductList(products, |products|, reported, q.category, q.minPrice, q.maxPrice, q.stockStatus,
                AvailableCategories(source))
  }

  /** The list holds exactly the source products that pass every active
      filter, each as often as in the source. */
  lemma {:induction false} IndexSelectsMatching(source: seq<Product>, q: ProductQuery)
    ensures forall p :: multiset(Index(source, q).products)[p] ==
                          if Matches(q, p) then multiset(source)[p] else 0
    ensures forall p :: p in Index(source, q).products <==> p in source && Matches(q, p)
  {
    var filtered := Filtered(source, q);
    var order := ChooseSort(q.sortBy).0;
    FilteredIsWhere(source, q);
    WhereCount(source, Keep(q));
    SortPermutesImages(Enumerate(filtered), RankedCmp(order), ProductOf);
    assert MapSeq(Enumerate(filtered), ProductOf) == filtered;
    forall p ensures p in Index(source, q).products <==> p in source && Matches(q, p) {
      assert p in Index(source, q).products <==> multiset(Index(source, q).products)[p] > 0;
      assert p in source <==> multiset(source)[p] > 0;
    }
  }

  /** The list is in the order of the sort that was applied. */
  lemma IndexSorted(source: seq<Product>, q: ProductQuery)
    ensures var v := Index(source, q);
      forall i, j :: 0 <= i < j < |v.products| ==>
        CompareBy(ChooseSort(q.sortBy).0, v.products[i], v.products[j]) != Greater
  {
    var order := ChooseSort(q.sortBy).0;
    var arranged := Arrange(order, Filtered(source, q));
    var products := Index(source, q).products;
    RankedCmpIsTotalPreorder(order);
    SortSorted(Enumerate(Filtered(source, q)), RankedCmp(order));
    assert products == MapSeq(arranged, ProductOf);
    forall i, j | 0 <= i < j < |products|
      ensures CompareBy(order, products[i], products[j]) != Greater
    {
      assert RankedCmp(order)(arranged[i], arranged[j]) != Greater;
      assert products[i] == arranged[i].product && products[j] == arranged[j].product;
    }
  }

  /** Ties keep their order: every entry of the sorted list is the product at
      its recorded position of the filtered list, and entries whose keys
      compare equal appear in increasing position. */
  lemma IndexStable(source: seq<Product>, q: ProductQuery)
    ensures var order := ChooseSort(q.sortBy).0;
      var filtered := Filtered(source, q);
      var arranged := Arrange(order, filtered);
      && MapSeq(arranged, ProductOf) == Index(source, q).products
      && (forall k :: 0 <= k < |arranged| ==>
            arranged[k].position < |filtered| && filtered[arranged[k].position] == arranged[k].product)
      && (forall i, j ::
            (0 <= i < j < |arranged| && CompareBy(order, arranged[i].product, arranged[j].product) == Equal)
            ==> arranged[i].position < arranged[j].position)
  {
    var order := ChooseSort(q.sortBy).0;
    var filtered := Filtered(source, q);
    var ranked := Enumerate(filtered);
    var arranged := Arrange(order, filtered);
    RankedCmpIsTotalPreorder(order);
    SortSorted(ranked, RankedCmp(order));
    forall k | 0 <= k < |arranged|
      ensures arranged[k].position < |filtered| && filtered[arranged[k].position] == arranged[k].product
    {
      assert arranged[k] in multiset(arranged);
      assert arranged[k] in ranked;
    }
    assert NoDuplicates(ranked);
    DistinctPermutation(arranged, ranked);
    forall i, j | 0 <= i < j < |arranged| &&
        CompareBy(order, arranged[i].product, arranged[j].product) == Equal
      ensures arranged[i].position < arranged[j].position
    {
      assert RankedCmp(order)(arranged[i], arranged[j]) != Greater;
    }
  }

  /** The categories are the distinct non-empty categories of the whole
      source in strictly ascending order, whatever the filters and sort. */
  lemma AvailableCategoriesSpec(source: seq<Product>, q: ProductQuery)
    ensures var cs := Index(source, q).availableCategories;
      && (forall c :: c in cs <==> c != [] && exists p :: p in source && p.category == Some(c))
      && (forall i, j :: 0 <= i < j < |cs| ==> CompareStrings(cs[i], cs[j]) == Less)
  {
    var names := Distinct(CategoryNames(source));
    var cs := Sort(names, StringCmp());
    assert cs == Index(source, q).availableCategories;
    forall c ensures c in cs <==> c in names {
      assert c in cs <==> multiset(cs)[c] > 0;
      assert c in names <==> multiset(names)[c] > 0;
    }
    StringCmpIsTotalPreorder();
    SortSorted(names, StringCmp());
    DistinctPermutation(cs, names);
    forall i, j | 0 <= i < j < |cs| ensures CompareStrings(cs[i], cs[j]) == Less {
      assert StringCmp()(cs[i], cs[j]) != Greater;
      CompareStringsEqual(cs[i], cs[j]);
    }
  }

  /** The value "all", in any letter case, is the same as no category filter;
      likewise for the stock-status filter. */
  lemma AllMeansNoFilter(source: seq<Product>, q: ProductQuery, c: string, s: string)
    requires ToLower(c) == "all" && ToLower(s) == "all"
    ensures Index(source, q.(category := Some(c))).products == Index(source, q.(category := None)).products
    ensures Index(source, q.(stockStatus := Some(s))).products == Index(source, q.(stockStatus := None)).products
  {
  }
}
