/**
 * The local paths of the product service in `lib/api/products.ts`: the
 * six-step filter, offset-based pagination with `hasNext`/`hasPrev`, lookup
 * by id and the by-type shortcut. The product table is a parameter.
 */
module ProductApi {
  import opened Wrappers
  import opened Strings
  import opened Collections
  import opened Arith
  import opened JsObject

  /** The fields of a product the service reads; `kind` is the `type` string, `category` may be `null`. */
  datatype Product = Product(id: string, title: string, description: string, kind: string,
                             price: int, discount: int, isFeatured: bool, category: Option<string>)

  /** The keys `ProductFilters` declares, read from a filter object. */
  datatype ProductFilters = ProductFilters(kind: JsValue, category: JsValue, isFeatured: JsValue,
                                           minPrice: JsValue, maxPrice: JsValue, limit: JsValue,
                                           offset: JsValue, search: JsValue)

  function View(f: Entries): ProductFilters {
    ProductFilters(Get(f, "type"), Get(f, "category"), Get(f, "isFeatured"), Get(f, "minPrice"),
                   Get(f, "maxPrice"), Get(f, "limit"), Get(f, "offset"), Get(f, "search"))
  }

  predicate WellTyped(v: ProductFilters) {
    HasKind(v.kind, StrKind) && HasKind(v.category, StrKind) && HasKind(v.isFeatured, BoolKind) &&
    HasKind(v.minPrice, NumKind) && HasKind(v.maxPrice, NumKind) && HasKind(v.limit, NumKind) &&
    HasKind(v.offset, NumKind) && HasKind(v.search, StrKind)
  }

  /** The price a buyer pays: the discount is an amount taken off the price. */
  function EffectivePrice(p: Product): int { p.price - p.discount }

  /** The category as a JavaScript value, `null` when the product has none. */
  function CategoryValue(p: Product): JsValue {
    if p.category.Some? then Str(p.category.value) else Null
  }

  // ---------------------------------------------------------------------------
  // Filters
  // ---------------------------------------------------------------------------

  /** The filter steps, in the order they are applied. */
  datatype Stage = KindStage | CategoryStage | FeaturedStage | MinPriceStage | MaxPriceStage | SearchStage

  /** `isFeatured` runs whenever it is not `undefined`; the other steps when their value is truthy. */
  predicate Active(f: ProductFilters, st: Stage) {
    match st
    case KindStage => Truthy(f.kind)
    case CategoryStage => Truthy(f.category)
    case FeaturedStage => f.isFeatured != Undefined
    case MinPriceStage => Truthy(f.minPrice)
    case MaxPriceStage => Truthy(f.maxPrice)
    case SearchStage => Truthy(f.search)
  }

  /** The test of each step: strict equality for type, category and `isFeatured`; the effective price for the bounds. */
  predicate Passes(f: ProductFilters, st: Stage, p: Product) {
    match st
    case KindStage => Str(p.kind) == f.kind
    case CategoryStage => CategoryValue(p) == f.category
    case FeaturedStage => Bool(p.isFeatured) == f.isFeatured
    case MinPriceStage => EffectivePrice(p) >= NumOr(f.minPrice, 0)
    case MaxPriceStage => EffectivePrice(p) <= NumOr(f.maxPrice, 0)
    case SearchStage =>
      var term := ToLower(StrOf(f.search));
      Includes(ToLower(p.title), term) || Includes(ToLower(p.description), term)
  }

  function PassesFn(f: ProductFilters, st: Stage): Product -> bool {
    p => Passes(f, st, p)
  }

  predicate Keeps(f: ProductFilters, st: Stage, p: Product) {
    !Active(f, st) || Passes(f, st, p)
  }

  /** A product survives the filter when it survives every step. */
  predicate Matches(f: ProductFilters, p: Product) {
    Keeps(f, KindStage, p) && Keeps(f, CategoryStage, p) && Keeps(f, FeaturedStage, p) &&
    Keeps(f, MinPriceStage, p) && Keeps(f, MaxPriceStage, p) && Keeps(f, SearchStage, p)
  }

  function MatchesFn(f: ProductFilters): Product -> bool {
    p => Matches(f, p)
  }

  function Run(s: seq<Product>, f: ProductFilters, st: Stage): seq<Product> {
    if Active(f, st) then Filter(s, PassesFn(f, st)) else s
  }

  /** Running step `st` on what survived the earlier steps `q` leaves what survives `q` and `st`. */
  lemma RunStep(ps: seq<Product>, f: ProductFilters, st: Stage, q: Product -> bool, q': Product -> bool)
    requires forall x :: q'(x) == (q(x) && Keeps(f, st, x))
    ensures Run(Filter(ps, q), f, st) == Filter(ps, q')
  {
    if Active(f, st) {
      FilterCompose(ps, q, PassesFn(f, st), q');
    } else {
      FilterExt(ps, q, q');
    }
  }

  function Keeps1(f: ProductFilters): Product -> bool {
    x => Keeps(f, KindStage, x)
  }

  function Keeps2(f: ProductFilters): Product -> bool {
    x => Keeps(f, KindStage, x) && Keeps(f, CategoryStage, x)
  }

  function Keeps3(f: ProductFilters): Product -> bool {
    x => Keeps(f, KindStage, x) && Keeps(f, CategoryStage, x) && Keeps(f, FeaturedStage, x)
  }

  function Keeps4(f: ProductFilters): Product -> bool {
    x => Keeps(f, KindStage, x) && Keeps(f, CategoryStage, x) && Keeps(f, FeaturedStage, x) &&
         Keeps(f, MinPriceStage, x)
  }

  function Keeps5(f: ProductFilters): Product -> bool {
    x => Keeps(f, KindStage, x) && Keeps(f, CategoryStage, x) && Keeps(f, FeaturedStage, x) &&
         Keeps(f, MinPriceStage, x) && Keeps(f, MaxPriceStage, x)
  }

  /** The six steps in their order select exactly the products that match. */
  lemma RunAll(ps: seq<Product>, f: ProductFilters)
    ensures Run(Run(Run(Run(Run(Run(ps, f, KindStage), f, CategoryStage), f, FeaturedStage),
                        f, MinPriceStage), f, MaxPriceStage), f, SearchStage)
            == Filter(ps, MatchesFn(f))
  {
    var all := (x: Product) => true;
    FilterAllPass(ps, all);
    RunStep(ps, f, KindStage, all, Keeps1(f));
    RunStep(ps, f, CategoryStage, Keeps1(f), Keeps2(f));
    RunStep(ps, f, FeaturedStage, Keeps2(f), Keeps3(f));
    RunStep(ps, f, MinPriceStage, Keeps3(f), Keeps4(f));
    RunStep(ps, f, MaxPriceStage, Keeps4(f), Keeps5(f));
    RunStep(ps, f, SearchStage, Keeps5(f), MatchesFn(f));
  }

  /** `applyFilters`: each running step narrows `filtered` in turn. */
  method ApplyFilters(products: seq<Product>, filters: Entries) returns (filtered: seq<Product>)
    requires WellTyped(View(filters))
    ensures filtered == Filter(products, MatchesFn(View(filters)))
  {
    var v := View(filters);
    filtered := products;
    if Truthy(v.kind) {
      filtered := Filter(filtered, PassesFn(v, KindStage));
    }
    assert filtered == Run(products, v, KindStage);
    ghost var before := filtered;
    if Truthy(v.category) {
      filtered := Filter(filtered, PassesFn(v, CategoryStage));
    }
    assert filtered == Run(before, v, CategoryStage);
    before := filtered;
    if v.isFeatured != Undefined {
      filtered := Filter(filtered, PassesFn(v, FeaturedStage));
    }
    assert filtered == Run(before, v, FeaturedStage);
    before := filtered;
    if Truthy(v.minPrice) {
      filtered := Filter(filtered, PassesFn(v, MinPriceStage));
    }
    assert filtered == Run(before, v, MinPriceStage);
    before := filtered;
    if Truthy(v.maxPrice) {
      filtered := Filter(filtered, PassesFn(v, MaxPriceStage));
    }
    assert filtered == Run(before, v, MaxPriceStage);
    before := filtered;
    if Truthy(v.search) {
      filtered := Filter(filtered, PassesFn(v, SearchStage));
    }
    assert filtered == Run(before, v, SearchStage);
    RunAll(products, v);
  }

  /** The filtered list is an order-preserving subsequence holding exactly the matching products. */
  lemma FilterSpec(ps: seq<Product>, f: ProductFilters, x: Product)
    ensures IsSubsequence(Filter(ps, MatchesFn(f)), ps)
    ensures x in Filter(ps, MatchesFn(f)) <==> x in ps && Matches(f, x)
  {
    FilterIsSubsequence(ps, MatchesFn(f));
    FilterMembers(ps, MatchesFn(f), x);
  }

  /** With no step running the filter returns its input unchanged. */
  lemma NoActiveFilterIsIdentity(ps: seq<Product>, f: ProductFilters)
    requires !Truthy(f.kind) && !Truthy(f.category) && f.isFeatured == Undefined
    requires !Truthy(f.minPrice) && !Truthy(f.maxPrice) && !Truthy(f.search)
    ensures Filter(ps, MatchesFn(f)) == ps
  {
    FilterAllPass(ps, MatchesFn(f));
  }

  /**
   * The price bounds are inclusive and apply to the price after the discount
   * is subtracted, not to the listed price.
   */
  lemma PriceBoundsOnEffectivePrice(f: ProductFilters, p: Product)
    requires WellTyped(f) && Truthy(f.minPrice) && Truthy(f.maxPrice)
    ensures Keeps(f, MinPriceStage, p) && Keeps(f, MaxPriceStage, p) <==>
            f.minPrice.n <= p.price - p.discount <= f.maxPrice.n
  {
  }

  /** A product without a category never passes a category filter, and the text search ignores the category. */
  lemma CategoryIsExact(f: ProductFilters, p: Product)
    requires WellTyped(f) && Truthy(f.category)
    ensures Keeps(f, CategoryStage, p) <==> p.category == Some(f.category.s)
  {
  }

  // ---------------------------------------------------------------------------
  // Offset-based pagination (the mock branch of getFilteredProducts)
  // ---------------------------------------------------------------------------

  datatype OffsetPage<T> = OffsetPage(items: seq<T>, total: nat, page: int, limit: int, hasNext: bool, hasPrev: bool)

  /** `limit` items from `offset`: the page number `floor(offset / limit) + 1` and the two flags. */
  function PageAt<T>(filtered: seq<T>, limit: int, offset: int): (r: OffsetPage<T>)
    requires limit != 0
    ensures r.total == |filtered| && r.limit == limit
    ensures r.hasNext <==> offset + limit < |filtered|
    ensures r.hasPrev <==> offset > 0
    ensures limit > 0 ==> (r.page - 1) * limit <= offset < r.page * limit
  {
    var page := FloorDiv(offset, limit) + 1;
    OffsetPage(JsSlice(filtered, offset, offset + limit), |filtered|, page, limit,
               offset + limit < |filtered|, offset > 0)
  }

  /** `limit || 10` and `offset || 0`, then the page at that offset. */
  function Paginate<T>(filtered: seq<T>, filters: ProductFilters): (r: OffsetPage<T>)
    ensures r.total == |filtered| && r.limit != 0
    ensures !Truthy(filters.limit) ==> r.limit == 10
    ensures Truthy(filters.limit) && filters.limit.Num? ==> r.limit == filters.limit.n
  {
    PageAt(filtered, NumOr(filters.limit, 10), NumOr(filters.offset, 0))
  }

  /** From a non-negative offset the page is the window of `limit` items there. */
  lemma PageWindow<T>(filtered: seq<T>, limit: int, offset: int)
    requires limit > 0 && offset >= 0
    ensures PageAt(filtered, limit, offset).items ==
      if offset >= |filtered| then [] else filtered[offset..Min(offset + limit, |filtered|)]
  {
  }

  /** `hasNext` says exactly that items remain after this page. */
  lemma HasNextMeansMore<T>(filtered: seq<T>, limit: int, offset: int)
    requires limit > 0 && offset >= 0
    ensures var r := PageAt(filtered, limit, offset);
      r.hasNext <==> offset + |r.items| < r.total
  {
    PageWindow(filtered, limit, offset);
  }

  /** Offsets that are multiples of `limit` are numbered page 1, 2, 3, ... */
  lemma PageNumberOfAlignedOffset<T>(filtered: seq<T>, limit: int, k: nat)
    requires limit > 0
    ensures PageAt(filtered, limit, k * limit).page == k + 1
  {
    var r := PageAt(filtered, limit, k * limit);
    if r.page - 1 < k {
      MulMonotone(r.page, k, limit);
    } else if r.page - 1 > k {
      MulMonotone(k + 1, r.page - 1, limit);
    }
  }

  /** The mock branch of `getFilteredProducts`: filter, then take the page at the offset. */
  method GetFilteredProducts(products: seq<Product>, filters: Entries) returns (r: OffsetPage<Product>)
    requires WellTyped(View(filters))
    ensures r == Paginate(Filter(products, MatchesFn(View(filters))), View(filters))
  {
    var filtered := ApplyFilters(products, filters);
    r := Paginate(filtered, View(filters));
  }

  // ---------------------------------------------------------------------------
  // Lookup and shortcut
  // ---------------------------------------------------------------------------

  predicate HasId(id: string, p: Product) { p.id == id }

  /** Mock `getProductById`: the first product with the id, or the not-found error. */
  function GetProductById(products: seq<Product>, id: string): (r: Result<Product>)
    ensures r.Err? <==> forall i :: 0 <= i < |products| ==> products[i].id != id
    ensures r.Err? ==> r.message == "Product with ID " + id + " not found"
    ensures r.Ok? ==> exists k :: 0 <= k < |products| && products[k].id == id && r.value == products[k] &&
                                  forall j :: 0 <= j < k ==> products[j].id != id
  {
    var found := Find(products, p => HasId(id, p));
    if found.None? then Err("Product with ID " + id + " not found") else Ok(found.value)
  }

  /** `getProductsByType(type, limit?)` asks for `{type, limit}`; a missing limit is a key holding `undefined`. */
  function ByTypeFilters(kind: string, limit: Option<int>): Entries {
    [("type", Str(kind)), ("limit", if limit.Some? then Num(limit.value) else Undefined)]
  }

  /** Without a limit the `limit` key is present but sends nothing. */
  lemma ByTypeQueryWithoutLimit(kind: string)
    ensures QueryPairsOf(ByTypeFilters(kind, None)) == [("type", kind)]
  {
    var f := ByTypeFilters(kind, None);
    assert f[1..][1..] == [];
    assert Filter(f[1..], Defined) == [];
    assert Filter(f, Defined) == [f[0]];
  }

  lemma ByTypeView(kind: string, limit: Option<int>)
    ensures View(ByTypeFilters(kind, limit)) ==
      ProductFilters(Str(kind), Undefined, Undefined, Undefined, Undefined,
                     if limit.Some? then Num(limit.value) else Undefined, Undefined, Undefined)
  {
    var f := ByTypeFilters(kind, limit);
    assert f[1..][1..] == [];
    assert Get(f, "type") == Str(kind);
    assert Get(f, "category") == Undefined;
    assert Get(f, "isFeatured") == Undefined;
    assert Get(f, "minPrice") == Undefined;
    assert Get(f, "maxPrice") == Undefined;
    assert Get(f, "offset") == Undefined;
    assert Get(f, "search") == Undefined;
    assert Get(f, "limit") == if limit.Some? then Num(limit.value) else Undefined;
  }

  /** The products of one type, first page: the first `limit || 10` products with that `type`. */
  method GetProductsByType(products: seq<Product>, kind: string, limit: Option<int>) returns (items: seq<Product>)
    requires kind != ""
    ensures items == JsSlice(Filter(products, (p: Product) => p.kind == kind), 0, NumOr(if limit.Some? then Num(limit.value) else Undefined, 10))
  {
    var f := ByTypeFilters(kind, limit);
    ByTypeView(kind, limit);
    var r := GetFilteredProducts(products, f);
    items := r.items;
    FilterExt(products, MatchesFn(View(f)), (p: Product) => p.kind == kind);
  }
}
