/** The catalog page: filtering the full catalog by category, text search,
    supplier and price range, then sorting by name, price or stock; and the
    event handlers that change one criterion and refilter. */
module ProductList {
  import opened Options
  import opened Catalog
  import Seqs
  import Sorting

  /** The locale services the page relies on but does not define: Unicode
      canonical decomposition (`normalize("NFD")`), `toLowerCase` and
      `localeCompare`. */
  datatype Collation = Collation(
    decompose: string -> string,
    lowerCase: string -> string,
    compare: (string, string) -> int)

  /** `compare` is a consistent comparator, as `localeCompare` is: of any two
      strings one does not sort after the other, and "does not sort after"
      is transitive. The sort order of names is only defined for such. */
  ghost predicate ConsistentComparator(compare: (string, string) -> int) {
    && (forall a, b :: compare(a, b) <= 0 || compare(b, a) <= 0)
    && (forall a, b, c :: compare(a, b) <= 0 && compare(b, c) <= 0 ==> compare(a, c) <= 0)
  }

  /** The Unicode block U+0300..U+036F of combining diacritical marks. */
  predicate IsCombiningMark(c: char) {
    '\U{0300}' <= c <= '\U{036F}'
  }

  predicate IsNotCombiningMark(c: char) {
    !IsCombiningMark(c)
  }

  /** `replace(/[\u0300-\u036f]/g, "")`. */
  function StripMarks(s: string): (r: string)
    ensures forall i | 0 <= i < |r| :: !IsCombiningMark(r[i])
    ensures forall i | 0 <= i < |s| && !IsCombiningMark(s[i]) :: s[i] in r
  {
    Seqs.Filter(s, IsNotCombiningMark)
  }

  /** Removing the marks character by character: nothing from nothing, a
      mark is dropped, any other character is kept, and the result for a
      concatenation is the concatenation of the results. So every other
      character survives, in order and with its repeats. */
  lemma StripMarksContent(a: string, c: char, b: string)
    ensures StripMarks([]) == []
    ensures StripMarks([c]) == if IsCombiningMark(c) then [] else [c]
    ensures StripMarks(a + b) == StripMarks(a) + StripMarks(b)
  {
    Seqs.FilterBase(c, IsNotCombiningMark);
    Seqs.FilterConcat(a, b, IsNotCombiningMark);
  }

  /** The accent- and case-insensitive form both the query and the product
      fields are compared in. */
  function SearchKey(s: string, coll: Collation): string {
    coll.lowerCase(StripMarks(coll.decompose(s)))
  }

  /** The normalised query occurs in the normalised name or SKU. */
  predicate SearchHit(p: Product, search: string, coll: Collation) {
    || Seqs.Includes(SearchKey(p.name, coll), SearchKey(search, coll))
    || Seqs.Includes(SearchKey(p.sku, coll), SearchKey(search, coll))
  }

  /** Both bounds are inclusive and an absent bound does not constrain. */
  datatype PriceRange = PriceRange(min: Option<int>, max: Option<int>)

  const NoRange := PriceRange(None, None)

  predicate WithinRange(price: int, range: PriceRange) {
    && (range.min.Some? ==> price >= range.min.value)
    && (range.max.Some? ==> price <= range.max.value)
  }

  /** The five arguments of one filtering request. */
  datatype Criteria = Criteria(
    category: string,
    search: string,
    sort: string,
    supplier: Option<string>,
    range: PriceRange)

  /** A supplier selection constrains only when present and non-empty:
      the empty string is falsy in JavaScript. */
  predicate SupplierActive(supplier: Option<string>) {
    supplier.Some? && supplier.value != ""
  }

  // ---------------------------------------------------------------------
  // Reference definition: one conjunction of the four criteria.

  predicate CategoryMatches(p: Product, category: string) {
    category == "all" || p.category == category
  }

  predicate SearchMatches(p: Product, search: string, coll: Collation) {
    search == "" || SearchHit(p, search, coll)
  }

  predicate SupplierMatches(p: Product, supplier: Option<string>) {
    !SupplierActive(supplier) || p.supplier == supplier.value
  }

  predicate Matches(p: Product, crit: Criteria, coll: Collation) {
    && CategoryMatches(p, crit.category)
    && SearchMatches(p, crit.search, coll)
    && SupplierMatches(p, crit.supplier)
    && WithinRange(p.basePrice, crit.range)
  }

  /** The products of the catalog meeting every criterion, in catalog order. */
  function Selected(catalog: seq<Product>, crit: Criteria, coll: Collation): seq<Product> {
    Seqs.Filter(catalog, (p: Product) => Matches(p, crit, coll))
  }

  // ---------------------------------------------------------------------
  // The page's filter: four guarded passes, then the sort switch.

  /** One pass per criterion, each skipped when its criterion is inactive. */
  function ByCategory(s: seq<Product>, category: string): seq<Product> {
    if category != "all" then Seqs.Filter(s, (p: Product) => p.category == category) else s
  }

  function BySearch(s: seq<Product>, search: string, coll: Collation): seq<Product> {
    if search != "" then Seqs.Filter(s, (p: Product) => SearchHit(p, search, coll)) else s
  }

  function BySupplier(s: seq<Product>, supplier: Option<string>): seq<Product> {
    if SupplierActive(supplier) then Seqs.Filter(s, (p: Product) => p.supplier == supplier.value) else s
  }

  function ByPrice(s: seq<Product>, range: PriceRange): seq<Product> {
    if range.min.Some? || range.max.Some? then
      Seqs.Filter(s, (p: Product) => WithinRange(p.basePrice, range))
    else s
  }

  /** The four passes in the page's order. */
  function Filtered(catalog: seq<Product>, crit: Criteria, coll: Collation): seq<Product> {
    ByPrice(BySupplier(BySearch(ByCategory(catalog, crit.category), crit.search, coll), crit.supplier), crit.range)
  }

  /** The comparators of the sort switch, read as "may come first":
      `a.name.localeCompare(b.name)`, `a.basePrice - b.basePrice` and
      `b.stock - a.stock` not positive. */
  function NameOrder(compare: (string, string) -> int): (Product, Product) -> bool {
    (a: Product, b: Product) => compare(a.name, b.name) <= 0
  }

  function PriceOrder(): (Product, Product) -> bool {
    (a: Product, b: Product) => a.basePrice - b.basePrice <= 0
  }

  function StockOrder(): (Product, Product) -> bool {
    (a: Product, b: Product) => b.stock - a.stock <= 0
  }

  /** The order a sort key selects; any other key selects none. */
  function OrderFor(sort: string, compare: (string, string) -> int): Option<(Product, Product) -> bool> {
    if sort == "name" then Some(NameOrder(compare))
    else if sort == "price" then Some(PriceOrder())
    else if sort == "stock" then Some(StockOrder())
    else None
  }

  /** What each selected order says of two products. */
  lemma OrderApplied(sort: string, compare: (string, string) -> int, a: Product, b: Product)
    requires OrderFor(sort, compare).Some?
    ensures sort == "name" ==> OrderFor(sort, compare).value(a, b) == (compare(a.name, b.name) <= 0)
    ensures sort == "price" ==> OrderFor(sort, compare).value(a, b) == (a.basePrice <= b.basePrice)
    ensures sort == "stock" ==> OrderFor(sort, compare).value(a, b) == (a.stock >= b.stock)
  {
  }

  /** Every order the switch selects ranks any two products consistently. */
  lemma OrderIsPreorder(sort: string, compare: (string, string) -> int)
    requires sort == "name" ==> ConsistentComparator(compare)
    requires OrderFor(sort, compare).Some?
    ensures Sorting.TotalPreorder(OrderFor(sort, compare).value)
  {
    var le := OrderFor(sort, compare).value;
    forall a: Product, b: Product ensures le(a, b) || le(b, a) {
      OrderApplied(sort, compare, a, b);
      OrderApplied(sort, compare, b, a);
    }
    forall a: Product, b: Product, c: Product | le(a, b) && le(b, c) ensures le(a, c) {
      OrderApplied(sort, compare, a, b);
      OrderApplied(sort, compare, b, c);
      OrderApplied(sort, compare, a, c);
    }
  }

  /** The sort switch: a stable sort by the selected order, or no change. */
  function SortProducts(s: seq<Product>, sort: string, compare: (string, string) -> int): (r: seq<Product>)
    requires sort == "name" ==> ConsistentComparator(compare)
    ensures multiset(r) == multiset(s)
    ensures sort == "name" ==> forall i, j | 0 <= i < j < |r| :: compare(r[i].name, r[j].name) <= 0
    ensures sort == "price" ==> forall i, j | 0 <= i < j < |r| :: r[i].basePrice <= r[j].basePrice
    ensures sort == "stock" ==> forall i, j | 0 <= i < j < |r| :: r[i].stock >= r[j].stock
    ensures OrderFor(sort, compare).None? ==> r == s
  {
    match OrderFor(sort, compare)
    case None => s
    case Some(le) =>
      OrderIsPreorder(sort, compare);
      Sorting.InsertionSortSorted(s, le);
      Sorting.InsertionSort(s, le)
  }

  /** `filterProducts`: always starts from the full catalog. */
  function FilterProducts(catalog: seq<Product>, crit: Criteria, coll: Collation): (r: seq<Product>)
    requires crit.sort == "name" ==> ConsistentComparator(coll.compare)
    ensures multiset(r) == multiset(Selected(catalog, crit, coll))
    ensures crit.sort == "name" ==> forall i, j | 0 <= i < j < |r| :: coll.compare(r[i].name, r[j].name) <= 0
    ensures crit.sort == "price" ==> forall i, j | 0 <= i < j < |r| :: r[i].basePrice <= r[j].basePrice
    ensures crit.sort == "stock" ==> forall i, j | 0 <= i < j < |r| :: r[i].stock >= r[j].stock
    ensures OrderFor(crit.sort, coll.compare).None? ==> r == Selected(catalog, crit, coll)
  {
    FilteredIsSelected(catalog, crit, coll);
    SortProducts(Filtered(catalog, crit, coll), crit.sort, coll.compare)
  }

  // ---------------------------------------------------------------------
  // Properties of the filter.

  lemma CategoryPass(s: seq<Product>, category: string)
    ensures ByCategory(s, category) == Seqs.Filter(s, (p: Product) => CategoryMatches(p, category))
  {
    if category != "all" {
      Seqs.FilterExt(s, (p: Product) => p.category == category, (p: Product) => CategoryMatches(p, category));
    } else {
      Seqs.FilterKeepsAll(s, (p: Product) => CategoryMatches(p, category));
    }
  }

  lemma SearchPass(s: seq<Product>, search: string, coll: Collation)
    ensures BySearch(s, search, coll) == Seqs.Filter(s, (p: Product) => SearchMatches(p, search, coll))
  {
    if search != "" {
      Seqs.FilterExt(s, (p: Product) => SearchHit(p, search, coll), (p: Product) => SearchMatches(p, search, coll));
    } else {
      Seqs.FilterKeepsAll(s, (p: Product) => SearchMatches(p, search, coll));
    }
  }

  lemma SupplierPass(s: seq<Product>, supplier: Option<string>)
    ensures BySupplier(s, supplier) == Seqs.Filter(s, (p: Product) => SupplierMatches(p, supplier))
  {
    if SupplierActive(supplier) {
      Seqs.FilterExt(s, (p: Product) => p.supplier == supplier.value, (p: Product) => SupplierMatches(p, supplier));
    } else {
      Seqs.FilterKeepsAll(s, (p: Product) => SupplierMatches(p, supplier));
    }
  }

  lemma PricePass(s: seq<Product>, range: PriceRange)
    ensures ByPrice(s, range) == Seqs.Filter(s, (p: Product) => WithinRange(p.basePrice, range))
  {
    if !(range.min.Some? || range.max.Some?) {
      Seqs.FilterKeepsAll(s, (p: Product) => WithinRange(p.basePrice, range));
    }
  }

  /** Each pass is a filter by its criterion's reference predicate. */
  lemma PassesFilterByCriterion(s: seq<Product>, crit: Criteria, coll: Collation)
    ensures ByCategory(s, crit.category) == Seqs.Filter(s, (p: Product) => CategoryMatches(p, crit.category))
    ensures BySearch(s, crit.search, coll) == Seqs.Filter(s, (p: Product) => SearchMatches(p, crit.search, coll))
    ensures BySupplier(s, crit.supplier) == Seqs.Filter(s, (p: Product) => SupplierMatches(p, crit.supplier))
    ensures ByPrice(s, crit.range) == Seqs.Filter(s, (p: Product) => WithinRange(p.basePrice, crit.range))
  {
    CategoryPass(s, crit.category);
    SearchPass(s, crit.search, coll);
    SupplierPass(s, crit.supplier);
    PricePass(s, crit.range);
  }

  /** The guarded passes select exactly what the conjunction selects. */
  lemma FilteredIsSelected(catalog: seq<Product>, crit: Criteria, coll: Collation)
    ensures Filtered(catalog, crit, coll) == Selected(catalog, crit, coll)
  {
    var c1 := (p: Product) => CategoryMatches(p, crit.category);
    var c2 := (p: Product) => CategoryMatches(p, crit.category) && SearchMatches(p, crit.search, coll);
    var c3 := (p: Product) => CategoryMatches(p, crit.category) && SearchMatches(p, crit.search, coll)
                              && SupplierMatches(p, crit.supplier);
    var s1 := ByCategory(catalog, crit.category);
    var s2 := BySearch(s1, crit.search, coll);
    var s3 := BySupplier(s2, crit.supplier);
    PassesFilterByCriterion(catalog, crit, coll);
    PassesFilterByCriterion(s1, crit, coll);
    PassesFilterByCriterion(s2, crit, coll);
    PassesFilterByCriterion(s3, crit, coll);
    Seqs.FilterFilter(catalog, c1, (p: Product) => SearchMatches(p, crit.search, coll), c2);
    Seqs.FilterFilter(catalog, c2, (p: Product) => SupplierMatches(p, crit.supplier), c3);
    Seqs.FilterFilter(catalog, c3, (p: Product) => WithinRange(p.basePrice, crit.range),
                      (p: Product) => Matches(p, crit, coll));
  }

  /** The reference selection keeps exactly the matching catalog products. */
  lemma SelectedMembers(catalog: seq<Product>, crit: Criteria, coll: Collation, p: Product)
    ensures p in Selected(catalog, crit, coll) <==> p in catalog && Matches(p, crit, coll)
  {
    if p in catalog && Matches(p, crit, coll) {
      var i :| 0 <= i < |catalog| && catalog[i] == p;
      assert catalog[i] in Selected(catalog, crit, coll);
    }
  }

  /** A product is shown exactly when it is in the catalog and matches. */
  lemma ShownIffMatches(catalog: seq<Product>, crit: Criteria, coll: Collation, p: Product)
    requires crit.sort == "name" ==> ConsistentComparator(coll.compare)
    ensures p in FilterProducts(catalog, crit, coll) <==> p in catalog && Matches(p, crit, coll)
  {
    var r := FilterProducts(catalog, crit, coll);
    var sel := Selected(catalog, crit, coll);
    assert p in r <==> p in multiset(r);
    assert p in sel <==> p in multiset(sel);
    SelectedMembers(catalog, crit, coll, p);
  }

  /** The same, criterion by criterion: an inactive criterion ("all", an
      empty query, no or an empty supplier, an absent bound) constrains
      nothing, an active one keeps exactly the products meeting it. */
  lemma FilterProductsMembers(catalog: seq<Product>, crit: Criteria, coll: Collation, p: Product)
    requires crit.sort == "name" ==> ConsistentComparator(coll.compare)
    ensures p in FilterProducts(catalog, crit, coll) <==>
      && p in catalog
      && (crit.category == "all" || p.category == crit.category)
      && (crit.search == "" || SearchHit(p, crit.search, coll))
      && (crit.supplier.None? || crit.supplier.value == "" || p.supplier == crit.supplier.value)
      && (crit.range.min.None? || crit.range.min.value <= p.basePrice)
      && (crit.range.max.None? || p.basePrice <= crit.range.max.value)
  {
    ShownIffMatches(catalog, crit, coll, p);
    MatchesByCriterion(p, crit, coll);
  }

  lemma MatchesByCriterion(p: Product, crit: Criteria, coll: Collation)
    ensures Matches(p, crit, coll) <==>
      && (crit.category == "all" || p.category == crit.category)
      && (crit.search == "" || SearchHit(p, crit.search, coll))
      && (crit.supplier.None? || crit.supplier.value == "" || p.supplier == crit.supplier.value)
      && (crit.range.min.None? || crit.range.min.value <= p.basePrice)
      && (crit.range.max.None? || p.basePrice <= crit.range.max.value)
  {
  }

  /** Sorting keeps products its order ranks equal in catalog order. */
  lemma FilterProductsStable(catalog: seq<Product>, crit: Criteria, coll: Collation,
                             le: (Product, Product) -> bool, k: Product)
    requires crit.sort == "name" ==> ConsistentComparator(coll.compare)
    requires OrderFor(crit.sort, coll.compare) == Some(le)
    ensures Sorting.Ties(FilterProducts(catalog, crit, coll), k, le)
         == Sorting.Ties(Selected(catalog, crit, coll), k, le)
  {
    FilteredIsSelected(catalog, crit, coll);
    OrderIsPreorder(crit.sort, coll.compare);
    Sorting.InsertionSortStable(Selected(catalog, crit, coll), k, le);
  }

  /** Queries with the same normalised form select the same products:
      the search ignores case and diacritics as far as the locale
      services do. */
  lemma SearchIsNormalised(catalog: seq<Product>, crit: Criteria, coll: Collation, other: string)
    requires crit.sort == "name" ==> ConsistentComparator(coll.compare)
    requires crit.search != "" && other != ""
    requires SearchKey(other, coll) == SearchKey(crit.search, coll)
    ensures FilterProducts(catalog, crit.(search := other), coll) == FilterProducts(catalog, crit, coll)
  {
    var crit' := crit.(search := other);
    forall i | 0 <= i < |catalog|
      ensures Matches(catalog[i], crit', coll) == Matches(catalog[i], crit, coll)
    {
      assert SearchHit(catalog[i], other, coll) == SearchHit(catalog[i], crit.search, coll);
    }
    Seqs.FilterExt(catalog, (p: Product) => Matches(p, crit', coll), (p: Product) => Matches(p, crit, coll));
    assert Selected(catalog, crit', coll) == Selected(catalog, crit, coll);
    FilteredIsSelected(catalog, crit, coll);
    FilteredIsSelected(catalog, crit', coll);
  }

  // ---------------------------------------------------------------------
  // The page state and its event handlers.

  /** The criteria held by the page and the list it shows. */
  datatype ListState = ListState(
    category: string,
    search: string,
    sort: string,
    supplier: Option<string>,
    range: PriceRange,
    shown: seq<Product>)

  function CriteriaOf(st: ListState): Criteria {
    Criteria(st.category, st.search, st.sort, st.supplier, st.range)
  }

  /** The shown list is what the held criteria select from the catalog. */
  predicate InSync(st: ListState, catalog: seq<Product>, coll: Collation)
    requires ConsistentComparator(coll.compare)
  {
    st.shown == FilterProducts(catalog, CriteriaOf(st), coll)
  }

  function HandleCategoryChange(st: ListState, category: string, catalog: seq<Product>, coll: Collation): ListState
    requires ConsistentComparator(coll.compare)
  {
    st.(category := category,
        shown := FilterProducts(catalog, Criteria(category, st.search, st.sort, st.supplier, st.range), coll))
  }

  function HandleSearchChange(st: ListState, search: string, catalog: seq<Product>, coll: Collation): ListState
    requires ConsistentComparator(coll.compare)
  {
    st.(search := search,
        shown := FilterProducts(catalog, Criteria(st.category, search, st.sort, st.supplier, st.range), coll))
  }

  function HandleSortChange(st: ListState, sort: string, catalog: seq<Product>, coll: Collation): ListState
    requires ConsistentComparator(coll.compare)
  {
    st.(sort := sort,
        shown := FilterProducts(catalog, Criteria(st.category, st.search, sort, st.supplier, st.range), coll))
  }

  /** The supplier selection after choosing `supplierId`: choosing the
      selected supplier again, or none, clears it. */
  function NextSupplier(current: Option<string>, supplierId: Option<string>): (r: Option<string>)
    ensures supplierId == current ==> r == None
    ensures supplierId != current ==> r == supplierId
  {
    if supplierId == current then None
    else if supplierId == None then None
    else supplierId
  }

  /** `handleSupplierChange` as written: the selection follows
      `NextSupplier`, but the list is refiltered with `supplierId` itself. */
  function HandleSupplierChange(st: ListState, supplierId: Option<string>, catalog: seq<Product>, coll: Collation): ListState
    requires ConsistentComparator(coll.compare)
  {
    st.(supplier := NextSupplier(st.supplier, supplierId),
        shown := FilterProducts(catalog, Criteria(st.category, st.search, st.sort, supplierId, st.range), coll))
  }

  /** `handleSupplierChange` refiltering with the selection it stores. */
  function HandleSupplierChangeFixed(st: ListState, supplierId: Option<string>, catalog: seq<Product>, coll: Collation): (r: ListState)
    requires ConsistentComparator(coll.compare)
    ensures r.supplier == NextSupplier(st.supplier, supplierId)
    ensures InSync(r, catalog, coll)
  {
    var next := NextSupplier(st.supplier, supplierId);
    st.(supplier := next,
        shown := FilterProducts(catalog, Criteria(st.category, st.search, st.sort, next, st.range), coll))
  }

  /** Choosing the selected price band again clears both bounds. */
  function HandlePriceRangeChange(st: ListState, min: Option<int>, max: Option<int>, catalog: seq<Product>, coll: Collation): ListState
    requires ConsistentComparator(coll.compare)
  {
    if min == st.range.min && max == st.range.max then
      st.(range := NoRange,
          shown := FilterProducts(catalog, Criteria(st.category, st.search, st.sort, st.supplier, NoRange), coll))
    else
      st.(range := PriceRange(min, max),
          shown := FilterProducts(catalog, Criteria(st.category, st.search, st.sort, st.supplier, PriceRange(min, max)), coll))
  }

  /** Each handler but the supplier one leaves the page in sync, whatever
      list it showed before: the list is recomputed from the full catalog,
      never from the previous result. */
  lemma HandlersRefilterFromCatalog(st: ListState, catalog: seq<Product>, coll: Collation,
                                    category: string, search: string, sort: string,
                                    supplierId: Option<string>, min: Option<int>, max: Option<int>, previous: seq<Product>)
    requires ConsistentComparator(coll.compare)
    ensures InSync(HandleCategoryChange(st, category, catalog, coll), catalog, coll)
    ensures InSync(HandleSearchChange(st, search, catalog, coll), catalog, coll)
    ensures InSync(HandleSortChange(st, sort, catalog, coll), catalog, coll)
    ensures InSync(HandlePriceRangeChange(st, min, max, catalog, coll), catalog, coll)
    ensures HandleSupplierChange(st, supplierId, catalog, coll).shown
         == HandleSupplierChange(st.(shown := previous), supplierId, catalog, coll).shown
  {
  }

  /** Choosing the selected supplier, or the selected price band, again
      clears that selection. */
  lemma TogglesClear(st: ListState, catalog: seq<Product>, coll: Collation)
    requires ConsistentComparator(coll.compare)
    ensures HandleSupplierChange(st, st.supplier, catalog, coll).supplier == None
    ensures HandlePriceRangeChange(st, st.range.min, st.range.max, catalog, coll).range == NoRange
    ensures InSync(HandlePriceRangeChange(st, st.range.min, st.range.max, catalog, coll), catalog, coll)
  {
  }

  /** Deselecting the active supplier clears the selection but keeps the
      list filtered by that supplier: a product of another supplier that
      meets every other criterion stays hidden, although the cleared
      selection admits it. */
  lemma SupplierToggleKeepsStaleFilter(st: ListState, catalog: seq<Product>, coll: Collation, p: Product)
    requires ConsistentComparator(coll.compare)
    requires SupplierActive(st.supplier)
    requires p in catalog && p.supplier != st.supplier.value
    requires Matches(p, CriteriaOf(st).(supplier := None), coll)
    ensures HandleSupplierChange(st, st.supplier, catalog, coll).supplier == None
    ensures p !in HandleSupplierChange(st, st.supplier, catalog, coll).shown
    ensures p in FilterProducts(catalog, CriteriaOf(st).(supplier := None), coll)
    ensures !InSync(HandleSupplierChange(st, st.supplier, catalog, coll), catalog, coll)
  {
    var next := HandleSupplierChange(st, st.supplier, catalog, coll);
    FilterProductsMembers(catalog, CriteriaOf(st), coll, p);
    FilterProductsMembers(catalog, CriteriaOf(st).(supplier := None), coll, p);
    assert CriteriaOf(next) == CriteriaOf(st).(supplier := None);
  }
}
