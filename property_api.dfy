/**
 * The local paths of the property service in `lib/api/properties.ts`: the
 * five-step filter, page-based pagination of the filtered list, the query
 * pairs sent to the server, lookup by id, and the two shortcuts that forward
 * fixed filter objects. The property table is a parameter.
 */
module PropertyApi {
  import opened Wrappers
  import opened Strings
  import opened Collections
  import opened Arith
  import opened JsObject
  import opened PropertyTypes

  // ---------------------------------------------------------------------------
  // Filters
  // ---------------------------------------------------------------------------

  /** The keys `PropertyFilters` declares, read from a filter object; an absent key reads as `undefined`. */
  datatype PropertyFilters = PropertyFilters(page: JsValue, limit: JsValue, search: JsValue, isFeatured: JsValue,
                                             minPrice: JsValue, maxPrice: JsValue, city: JsValue, propertyType: JsValue)

  function View(f: Entries): PropertyFilters {
    PropertyFilters(Get(f, "page"), Get(f, "limit"), Get(f, "search"), Get(f, "isFeatured"),
                    Get(f, "minPrice"), Get(f, "maxPrice"), Get(f, "city"), Get(f, "propertyType"))
  }

  /** Every declared key holds a value of its declared type; other keys may be present. */
  predicate WellTyped(v: PropertyFilters) {
    HasKind(v.page, NumKind) && HasKind(v.limit, NumKind) && HasKind(v.search, StrKind) &&
    HasKind(v.isFeatured, BoolKind) && HasKind(v.minPrice, NumKind) && HasKind(v.maxPrice, NumKind) &&
    HasKind(v.city, StrKind) && HasKind(v.propertyType, StrKind)
  }

  /** The service's properties always carry an address and a price with a monthly amount. */
  predicate Complete(p: Property) {
    p.address.Some? && p.price.Some? && p.price.value.monthlyPrice.Some?
  }

  predicate AllComplete(ps: seq<Property>) {
    forall i :: 0 <= i < |ps| ==> Complete(ps[i])
  }

  function City(p: Property): string {
    if p.address.Some? then p.address.value.city else ""
  }

  function Monthly(p: Property): int {
    if Complete(p) then p.price.value.monthlyPrice.value else 0
  }

  /** The filter steps, in the order they are applied. */
  datatype Stage = FeaturedStage | CityStage | MinPriceStage | MaxPriceStage | SearchStage

  /** Whether a step runs: `isFeatured` whenever it is not `undefined`, the others when truthy. */
  predicate Active(f: PropertyFilters, st: Stage) {
    match st
    case FeaturedStage => f.isFeatured != Undefined
    case CityStage => Truthy(f.city)
    case MinPriceStage => Truthy(f.minPrice)
    case MaxPriceStage => Truthy(f.maxPrice)
    case SearchStage => Truthy(f.search)
  }

  /** The test a running step applies to one property. */
  predicate Passes(f: PropertyFilters, st: Stage, p: Property) {
    match st
    case FeaturedStage => Bool(p.isFeatured) == f.isFeatured
    case CityStage => Includes(ToLower(City(p)), ToLower(StrOf(f.city)))
    case MinPriceStage => Monthly(p) >= NumOr(f.minPrice, 0)
    case MaxPriceStage => Monthly(p) <= NumOr(f.maxPrice, 0)
    case SearchStage =>
      var term := ToLower(StrOf(f.search));
      Includes(ToLower(p.title), term) || Includes(ToLower(p.description), term) ||
      Includes(ToLower(City(p)), term)
  }

  function PassesFn(f: PropertyFilters, st: Stage): Property -> bool {
    p => Passes(f, st, p)
  }

  /** A property survives a step when the step does not run or its test holds. */
  predicate Keeps(f: PropertyFilters, st: Stage, p: Property) {
    !Active(f, st) || Passes(f, st, p)
  }

  /** A property survives the filter when it survives every step: the steps combine by AND. */
  predicate Matches(f: PropertyFilters, p: Property) {
    Keeps(f, FeaturedStage, p) && Keeps(f, CityStage, p) && Keeps(f, MinPriceStage, p) &&
    Keeps(f, MaxPriceStage, p) && Keeps(f, SearchStage, p)
  }

  function MatchesFn(f: PropertyFilters): Property -> bool {
    p => Matches(f, p)
  }

  /** Step `st` applied to `s`: the filter when the step runs, `s` itself otherwise. */
  function Run(s: seq<Property>, f: PropertyFilters, st: Stage): seq<Property> {
    if Active(f, st) then Filter(s, PassesFn(f, st)) else s
  }

  /** Running step `st` on what survived some earlier steps `q` leaves what survives `q` and `st`. */
  lemma RunStep(ps: seq<Property>, f: PropertyFilters, st: Stage, q: Property -> bool, q': Property -> bool)
    requires forall x :: q'(x) == (q(x) && Keeps(f, st, x))
    ensures Run(Filter(ps, q), f, st) == Filter(ps, q')
  {
    if Active(f, st) {
      FilterCompose(ps, q, PassesFn(f, st), q');
    } else {
      FilterExt(ps, q, q');
    }
  }

  function Keeps1(f: PropertyFilters): Property -> bool {
    x => Keeps(f, FeaturedStage, x)
  }

  function Keeps2(f: PropertyFilters): Property -> bool {
    x => Keeps(f, FeaturedStage, x) && Keeps(f, CityStage, x)
  }

  function Keeps3(f: PropertyFilters): Property -> bool {
    x => Keeps(f, FeaturedStage, x) && Keeps(f, CityStage, x) && Keeps(f, MinPriceStage, x)
  }

  function Keeps4(f: PropertyFilters): Property -> bool {
    x => Keeps(f, FeaturedStage, x) && Keeps(f, CityStage, x) && Keeps(f, MinPriceStage, x) &&
         Keeps(f, MaxPriceStage, x)
  }

  /** The five steps in their order select exactly the properties that match. */
  lemma RunAll(ps: seq<Property>, f: PropertyFilters)
    ensures Run(Run(Run(Run(Run(ps, f, FeaturedStage), f, CityStage), f, MinPriceStage), f, MaxPriceStage), f, SearchStage)
            == Filter(ps, MatchesFn(f))
  {
    var all := (x: Property) => true;
    FilterAllPass(ps, all);
    RunStep(ps, f, FeaturedStage, all, Keeps1(f));
    RunStep(ps, f, CityStage, Keeps1(f), Keeps2(f));
    RunStep(ps, f, MinPriceStage, Keeps2(f), Keeps3(f));
    RunStep(ps, f, MaxPriceStage, Keeps3(f), Keeps4(f));
    RunStep(ps, f, SearchStage, Keeps4(f), MatchesFn(f));
  }

  /** `applyFilters`: each running step narrows `filtered` in turn. */
  method ApplyFilters(properties: seq<Property>, filters: Entries) returns (filtered: seq<Property>)
    requires AllComplete(properties) && WellTyped(View(filters))
    ensures filtered == Filter(properties, MatchesFn(View(filters)))
  {
    var v := View(filters);
    filtered := properties;
    if v.isFeatured != Undefined {
      filtered := Filter(filtered, PassesFn(v, FeaturedStage));
    }
    assert filtered == Run(properties, v, FeaturedStage);
    ghost var before := filtered;
    if Truthy(v.city) {
      filtered := Filter(filtered, PassesFn(v, CityStage));
    }
    assert filtered == Run(before, v, CityStage);
    before := filtered;
    if Truthy(v.minPrice) {
      filtered := Filter(filtered, PassesFn(v, MinPriceStage));
    }
    assert filtered == Run(before, v, MinPriceStage);
    before := filtered;
    if Truthy(v.maxPrice) {
      filtered := Filter(filtered, PassesFn(v, MaxPriceStage));
    }
    assert filtered == Run(before, v, MaxPriceStage);
    before := filtered;
    if Truthy(v.search) {
      filtered := Filter(filtered, PassesFn(v, SearchStage));
    }
    assert filtered == Run(before, v, SearchStage);
    RunAll(properties, v);
  }

  /**
   * The filtered list is an order-preserving subsequence of the input, and a
   * property is in it exactly when it is in the input and passes every running step.
   */
  lemma FilterSpec(ps: seq<Property>, f: PropertyFilters, x: Property)
    ensures IsSubsequence(Filter(ps, MatchesFn(f)), ps)
    ensures x in Filter(ps, MatchesFn(f)) <==> x in ps && Matches(f, x)
  {
    FilterIsSubsequence(ps, MatchesFn(f));
    FilterMembers(ps, MatchesFn(f), x);
  }

  /** With no step running the filter returns its input unchanged. */
  lemma NoActiveFilterIsIdentity(ps: seq<Property>, f: PropertyFilters)
    requires f.isFeatured == Undefined && !Truthy(f.city) && !Truthy(f.search)
    requires !Truthy(f.minPrice) && !Truthy(f.maxPrice)
    ensures Filter(ps, MatchesFn(f)) == ps
  {
    FilterAllPass(ps, MatchesFn(f));
  }

  /** A `city`, `search`, `minPrice` or `maxPrice` of `""` or `0` filters exactly as if it were absent. */
  lemma FalsyValueIsAbsent(f: PropertyFilters, v: JsValue, p: Property)
    requires !Truthy(v)
    ensures Matches(f.(city := v), p) == Matches(f.(city := Undefined), p)
    ensures Matches(f.(search := v), p) == Matches(f.(search := Undefined), p)
    ensures Matches(f.(minPrice := v), p) == Matches(f.(minPrice := Undefined), p)
    ensures Matches(f.(maxPrice := v), p) == Matches(f.(maxPrice := Undefined), p)
  {
  }

  /** `isFeatured: false` is a running step: it keeps only the properties that are not featured. */
  lemma FeaturedFalseFilters(f: PropertyFilters, p: Property)
    requires f.isFeatured == Bool(false)
    ensures Matches(f, p) ==> !p.isFeatured
  {
  }

  /** The price bounds are inclusive: a property priced exactly at a non-zero bound passes that bound. */
  lemma PriceBoundsInclusive(f: PropertyFilters, p: Property)
    requires Complete(p) && WellTyped(f)
    ensures f.minPrice == Num(Monthly(p)) ==> Keeps(f, MinPriceStage, p)
    ensures f.maxPrice == Num(Monthly(p)) ==> Keeps(f, MaxPriceStage, p)
    ensures Truthy(f.minPrice) && Keeps(f, MinPriceStage, p) ==> Monthly(p) >= f.minPrice.n
    ensures Truthy(f.maxPrice) && Keeps(f, MaxPriceStage, p) ==> Monthly(p) <= f.maxPrice.n
  {
  }

  // ---------------------------------------------------------------------------
  // Page-based pagination (the mock branch of getFilteredProperties)
  // ---------------------------------------------------------------------------

  datatype PageResult<T> = PageResult(items: seq<T>, total: nat, page: int, take: int, totalPages: int)

  /** Page `page` of `limit` items: the slice at `(page - 1) * limit` and the page count `ceil(total / limit)`. */
  function PageOf<T>(filtered: seq<T>, limit: int, page: int): (r: PageResult<T>)
    requires limit != 0
    ensures r.total == |filtered| && r.take == limit && r.page == page
    ensures limit > 0 ==> (r.totalPages - 1) * limit < r.total <= r.totalPages * limit
  {
    var offset := (page - 1) * limit;
    PageResult(JsSlice(filtered, offset, offset + limit), |filtered|, page, limit, CeilDiv(|filtered|, limit))
  }

  /**
   * `limit || 10` and `page || 1`, then that page. Only an absent or zero page
   * becomes 1: a negative page is kept, and `slice` then counts from the end.
   */
  function Paginate<T>(filtered: seq<T>, filters: PropertyFilters): (r: PageResult<T>)
    ensures r.total == |filtered| && r.take != 0 && r.page != 0
    ensures !Truthy(filters.limit) ==> r.take == 10
    ensures !Truthy(filters.page) ==> r.page == 1
    ensures Truthy(filters.limit) && filters.limit.Num? ==> r.take == filters.limit.n
    ensures Truthy(filters.page) && filters.page.Num? ==> r.page == filters.page.n
  {
    PageOf(filtered, NumOr(filters.limit, 10), NumOr(filters.page, 1))
  }

  /** A page inside the list is the window of `limit` items starting at `(page - 1) * limit`. */
  lemma PageWindow<T>(filtered: seq<T>, limit: int, page: int)
    requires limit > 0 && page >= 1
    ensures var offset := (page - 1) * limit;
      PageOf(filtered, limit, page).items ==
        if offset >= |filtered| then [] else filtered[offset..Min(offset + limit, |filtered|)]
  {
    var offset := (page - 1) * limit;
    assert offset >= 0 by {
      MulNonNegative(page - 1, limit);
    }
  }

  /** A page past the last one is empty. */
  lemma PagePastEnd<T>(filtered: seq<T>, limit: int, page: int)
    requires limit > 0 && page > PageOf(filtered, limit, page).totalPages
    ensures PageOf(filtered, limit, page).items == []
  {
    var r := PageOf(filtered, limit, page);
    MulMonotone(r.totalPages, page - 1, limit);
  }

  /** An empty list has no pages. */
  lemma NoItemsNoPages<T>(filtered: seq<T>, limit: int, page: int)
    requires |filtered| == 0 && limit > 0
    ensures PageOf(filtered, limit, page).totalPages == 0
  {
    var r := PageOf(filtered, limit, page);
    if r.totalPages > 0 {
      MulMonotone(1, r.totalPages, limit);
    } else if r.totalPages < 0 {
      MulMonotone(r.totalPages, -1, limit);
    }
  }

  /** Pages `1..n` put end to end. */
  function PagesUpTo<T>(filtered: seq<T>, limit: int, n: nat): seq<T>
    requires limit != 0
  {
    if n == 0 then [] else PagesUpTo(filtered, limit, n - 1) + PageOf(filtered, limit, n).items
  }

  /** The first `n` pages are the first `n * limit` items. */
  lemma {:induction false} PagesUpToPrefix<T>(filtered: seq<T>, limit: int, n: nat)
    requires limit > 0
    ensures PagesUpTo(filtered, limit, n) == filtered[..Min(n * limit, |filtered|)]
  {
    if n > 0 {
      var offset := (n - 1) * limit;
      var end := n * limit;
      MulSucc(n - 1, limit);
      MulNonNegative(n - 1, limit);
      assert end == offset + limit && offset >= 0;
      var before := PagesUpTo(filtered, limit, n - 1);
      var items := PageOf(filtered, limit, n).items;
      PagesUpToPrefix(filtered, limit, n - 1);
      assert before == filtered[..Min(offset, |filtered|)];
      PageWindow(filtered, limit, n);
      assert PagesUpTo(filtered, limit, n) == before + items;
      if offset < |filtered| {
        var stop := Min(end, |filtered|);
        assert items == filtered[offset..stop];
        assert filtered[..stop] == filtered[..offset] + filtered[offset..stop];
      } else {
        assert items == [];
        assert Min(end, |filtered|) == |filtered| == Min(offset, |filtered|);
      }
    }
  }

  /** Reading every page in turn yields the whole filtered list, each item once. */
  lemma PagesCoverList<T>(filtered: seq<T>, limit: int)
    requires limit > 0
    ensures PageOf(filtered, limit, 1).totalPages >= 0
    ensures PagesUpTo(filtered, limit, PageOf(filtered, limit, 1).totalPages) == filtered
  {
    var r := PageOf(filtered, limit, 1);
    if r.totalPages < 0 {
      MulMonotone(r.totalPages, -1, limit);
    }
    PagesUpToPrefix(filtered, limit, r.totalPages);
  }

  /** Page `-1` of 30 items at 10 per page is not page 1: the slice `(-20, -10)` gives items 10 to 19. */
  lemma NegativePageCountsFromEnd<T>(filtered: seq<T>)
    requires |filtered| == 30
    ensures Paginate(filtered, View([("page", Num(-1))])).page == -1
    ensures Paginate(filtered, View([("page", Num(-1))])).items == filtered[10..20]
  {
  }

  /** The mock branch of `getFilteredProperties`: filter, then paginate. */
  method GetFilteredProperties(properties: seq<Property>, filters: Entries) returns (r: PageResult<Property>)
    requires AllComplete(properties) && WellTyped(View(filters))
    ensures r == Paginate(Filter(properties, MatchesFn(View(filters))), View(filters))
  {
    var filtered := ApplyFilters(properties, filters);
    r := Paginate(filtered, View(filters));
  }

  /** The server branch: the filtered endpoint and the query pairs of the filter object. */
  method FilteredRequest(filters: Entries) returns (path: string, query: seq<(string, string)>)
    ensures path == "/property/filter"
    ensures forall k, text :: (k, text) in query <==>
      exists i :: 0 <= i < |filters| && filters[i].0 == k && filters[i].1 != Undefined && text == ToJsString(filters[i].1)
  {
    path := "/property/filter";
    query := QueryPairs(filters);
    forall k, text ensures (k, text) in query <==>
      exists i :: 0 <= i < |filters| && filters[i].0 == k && filters[i].1 != Undefined && text == ToJsString(filters[i].1)
    {
      QueryPairsMembers(filters, k, text);
    }
  }

  // ---------------------------------------------------------------------------
  // Lookup by id
  // ---------------------------------------------------------------------------

  predicate HasId(id: string, p: Property) { p.id == id }

  /** `k` is the first position of a property with this id. */
  ghost predicate IsFirstWithId(ps: seq<Property>, id: string, k: int) {
    0 <= k < |ps| && ps[k].id == id && forall j :: 0 <= j < k ==> ps[j].id != id
  }

  /** Mock `getPropertyById`: the first property with the id, or the not-found error. */
  function GetPropertyById(properties: seq<Property>, id: string): (r: Result<Property>)
    ensures r.Err? <==> forall i :: 0 <= i < |properties| ==> properties[i].id != id
    ensures r.Err? ==> r.message == "Property with ID " + id + " not found"
    ensures r.Ok? ==> exists k :: IsFirstWithId(properties, id, k) && r.value == properties[k]
  {
    var found := Find(properties, p => HasId(id, p));
    if found.None? then Err("Property with ID " + id + " not found") else Ok(found.value)
  }

  /** The ids of the mock table, in order; the second id repeats. */
  const MockPropertyIds: seq<string> := [
    "6b66b77c-d864-4139-b3ba-8bba650435a0", "7e822ab0-1e64-4780-8412-2cfcac4fb3ef",
    "7e822ab0-1e64-4780-8412-2cfcac4fb3ef", "7e822ab0-1e64-4780-8412-2cfcac4fb3ef",
    "7e822ab0-1e64-4780-8412-2cfcac4fb3ef", "7e822ab0-1e64-4780-8412-2cfcac4fb3ef",
    "7e822ab0-1e64-4780-8412-2cfcac4fb3ef"]

  function Id(p: Property): string { p.id }

  /** Over the mock table, the repeated id always resolves to the second property; the later copies are unreachable. */
  lemma RepeatedIdResolvesToFirst(properties: seq<Property>)
    requires MapSeq(properties, Id) == MockPropertyIds
    ensures GetPropertyById(properties, MockPropertyIds[1]) == Ok(properties[1])
  {
    assert properties[0].id == Id(properties[0]) == MockPropertyIds[0];
    assert properties[1].id == Id(properties[1]);
    assert MockPropertyIds[0] != MockPropertyIds[1];
  }

  // ---------------------------------------------------------------------------
  // Shortcuts
  // ---------------------------------------------------------------------------

  predicate IsFeatured(p: Property) { p.isFeatured }

  /** `getFeaturedProperties(limit = 6)` asks for `{isFeatured: true, limit}`. */
  function FeaturedFilters(limit: Option<int>): Entries {
    [("isFeatured", Bool(true)), ("limit", Num(limit.GetOr(6)))]
  }

  /** The filter object `getFeaturedProperties` builds, read by key. */
  lemma FeaturedView(limit: Option<int>)
    ensures View(FeaturedFilters(limit)) ==
      PropertyFilters(Undefined, Num(limit.GetOr(6)), Undefined, Bool(true), Undefined, Undefined, Undefined, Undefined)
  {
    var f := FeaturedFilters(limit);
    assert f[1..] == [("limit", Num(limit.GetOr(6)))];
    assert f[1..][1..] == [];
    assert Get(f, "page") == Undefined;
    assert Get(f, "limit") == Num(limit.GetOr(6));
    assert Get(f, "search") == Undefined;
    assert Get(f, "isFeatured") == Bool(true);
    assert Get(f, "minPrice") == Undefined;
    assert Get(f, "maxPrice") == Undefined;
    assert Get(f, "city") == Undefined;
    assert Get(f, "propertyType") == Undefined;
  }

  /** The items of one page of the featured properties. */
  method GetFeaturedProperties(properties: seq<Property>, limit: Option<int>) returns (items: seq<Property>)
    requires AllComplete(properties)
    ensures items == JsSlice(Filter(properties, IsFeatured), 0, NumOr(Num(limit.GetOr(6)), 10))
  {
    var f := FeaturedFilters(limit);
    FeaturedView(limit);
    var r := GetFilteredProperties(properties, f);
    items := r.items;
    FilterExt(properties, MatchesFn(View(f)), IsFeatured);
  }

  /** A featured page holds the first `n` featured properties, and `limit: 0` falls back to 10. */
  lemma FeaturedPage(properties: seq<Property>, n: nat)
    ensures var featured := Filter(properties, IsFeatured);
      JsSlice(featured, 0, NumOr(Num(n), 10)) == featured[..Min(if n == 0 then 10 else n, |featured|)]
  {
  }

  /** `searchProperties(query, limit = 20)` asks for `{search: query, limit}`. */
  function SearchFilters(query: string, limit: Option<int>): Entries {
    [("search", Str(query)), ("limit", Num(limit.GetOr(20)))]
  }

  /** The text search on its own: case-insensitive on title, description or city; `""` keeps all. */
  predicate MatchesSearch(query: string, p: Property) {
    query == "" ||
    var term := ToLower(query);
    Includes(ToLower(p.title), term) || Includes(ToLower(p.description), term) ||
    Includes(ToLower(City(p)), term)
  }

  /** The filter object `searchProperties` builds, read by key. */
  lemma SearchView(query: string, limit: Option<int>)
    ensures View(SearchFilters(query, limit)) ==
      PropertyFilters(Undefined, Num(limit.GetOr(20)), Str(query), Undefined, Undefined, Undefined, Undefined, Undefined)
  {
    var f := SearchFilters(query, limit);
    assert f[1..] == [("limit", Num(limit.GetOr(20)))];
    assert f[1..][1..] == [];
    assert Get(f, "page") == Undefined;
    assert Get(f, "limit") == Num(limit.GetOr(20));
    assert Get(f, "search") == Str(query);
    assert Get(f, "isFeatured") == Undefined;
    assert Get(f, "minPrice") == Undefined;
    assert Get(f, "maxPrice") == Undefined;
    assert Get(f, "city") == Undefined;
    assert Get(f, "propertyType") == Undefined;
  }

  method SearchProperties(properties: seq<Property>, query: string, limit: Option<int>) returns (items: seq<Property>)
    requires AllComplete(properties)
    ensures items == JsSlice(Filter(properties, p => MatchesSearch(query, p)), 0, NumOr(Num(limit.GetOr(20)), 10))
  {
    var f := SearchFilters(query, limit);
    SearchView(query, limit);
    var r := GetFilteredProperties(properties, f);
    items := r.items;
    FilterExt(properties, MatchesFn(View(f)), p => MatchesSearch(query, p));
  }
}
