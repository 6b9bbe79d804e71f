/**
 * The service client of `lib/api/services.ts`. Every request either yields the
 * server's answer or fails; on failure the client falls back to a module-level
 * array of services. That array is the one mutable object here: the featured
 * list sorts it in place, so every later fallback sees it sorted.
 * The outcome of a request is a parameter (`None` for a failed request).
 */
module ServiceApi {
  import opened Wrappers
  import opened Strings
  import opened Collections
  import opened Arith
  import opened Sorting
  import opened ServiceTypes

  /** `ServiceFilters`; each field is read by truthiness. */
  datatype ServiceFilters = ServiceFilters(search: Option<string>, minPrice: Option<int>, maxPrice: Option<int>)

  predicate HasSearch(f: ServiceFilters) { f.search.Some? && f.search.value != "" }
  predicate HasMin(f: ServiceFilters) { f.minPrice.Some? && f.minPrice.value != 0 }
  predicate HasMax(f: ServiceFilters) { f.maxPrice.Some? && f.maxPrice.value != 0 }

  // ---------------------------------------------------------------------------
  // Query string
  // ---------------------------------------------------------------------------

  /** A pair the query carries for `f`: one per truthy filter, holding its text. */
  predicate IsSent(f: ServiceFilters, k: string, v: string) {
    (k == "search" && HasSearch(f) && v == f.search.value) ||
    (k == "minPrice" && HasMin(f) && v == IntToString(f.minPrice.value)) ||
    (k == "maxPrice" && HasMax(f) && v == IntToString(f.maxPrice.value))
  }

  /** The position of a key in the order the source appends them. */
  function KeyRank(k: string): nat {
    if k == "search" then 0 else if k == "minPrice" then 1 else 2
  }

  /** Keys in strictly increasing rank: search, then minPrice, then maxPrice, none twice. */
  predicate RankOrdered(pairs: seq<(string, string)>) {
    forall i, j :: 0 <= i < j < |pairs| ==> KeyRank(pairs[i].0) < KeyRank(pairs[j].0)
  }

  /** `pairs` holds exactly the pairs sent for `f`, in the source's order. */
  ghost predicate SendsExactly(f: ServiceFilters, pairs: seq<(string, string)>) {
    (forall k, v :: (k, v) in pairs <==> IsSent(f, k, v)) && RankOrdered(pairs)
  }

  /** The pairs appended to the query: only the truthy filters, in the order search, minPrice, maxPrice. */
  method QueryPairs(f: ServiceFilters) returns (pairs: seq<(string, string)>)
    ensures pairs == [] <==> !HasSearch(f) && !HasMin(f) && !HasMax(f)
    ensures SendsExactly(f, pairs)
  {
    pairs := [];
    if HasSearch(f) {
      pairs := pairs + [("search", f.search.value)];
    }
    if HasMin(f) {
      pairs := pairs + [("minPrice", IntToString(f.minPrice.value))];
    }
    if HasMax(f) {
      pairs := pairs + [("maxPrice", IntToString(f.maxPrice.value))];
    }
    assert pairs == Optional(HasSearch(f), ("search", f.search.GetOr(""))) +
                    Optional(HasMin(f), ("minPrice", IntToString(f.minPrice.GetOr(0)))) +
                    Optional(HasMax(f), ("maxPrice", IntToString(f.maxPrice.GetOr(0))));
    AppendedPairsSent(f);
  }

  /** `[x]` when `b` holds, else nothing. */
  function Optional(b: bool, x: (string, string)): seq<(string, string)> {
    if b then [x] else []
  }

  /** The three conditional appends send exactly the truthy filters, in rank order. */
  lemma AppendedPairsSent(f: ServiceFilters)
    ensures SendsExactly(f,
      Optional(HasSearch(f), ("search", f.search.GetOr(""))) +
      Optional(HasMin(f), ("minPrice", IntToString(f.minPrice.GetOr(0)))) +
      Optional(HasMax(f), ("maxPrice", IntToString(f.maxPrice.GetOr(0)))))
  {
    var s := Optional(HasSearch(f), ("search", f.search.GetOr("")));
    var m := Optional(HasMin(f), ("minPrice", IntToString(f.minPrice.GetOr(0))));
    var x := Optional(HasMax(f), ("maxPrice", IntToString(f.maxPrice.GetOr(0))));
    var pairs := s + m + x;
    forall k, v ensures (k, v) in pairs <==> IsSent(f, k, v) {
      assert (k, v) in pairs <==> (k, v) in s || (k, v) in m || (k, v) in x;
    }
    forall i, j | 0 <= i < j < |pairs| ensures KeyRank(pairs[i].0) < KeyRank(pairs[j].0) {
      assert pairs[i] in s || pairs[i] in m;
      assert pairs[j] in m || pairs[j] in x;
    }
  }

  /** Two rank-ordered lists holding the same pairs start with the same pair. */
  lemma HeadsAgree(p: seq<(string, string)>, q: seq<(string, string)>)
    requires forall x :: x in p <==> x in q
    requires RankOrdered(p) && RankOrdered(q)
    requires p != []
    ensures q != [] && p[0] == q[0]
  {
    assert p[0] in q;
    var a :| 0 <= a < |q| && q[a] == p[0];
    assert q[0] in p;
    var b :| 0 <= b < |p| && p[b] == q[0];
    assert KeyRank(p[0].0) <= KeyRank(p[b].0);
    assert KeyRank(q[0].0) <= KeyRank(q[a].0);
  }

  /** Past equal heads, the tails hold the same pairs. */
  lemma TailsAgree(p: seq<(string, string)>, q: seq<(string, string)>)
    requires forall x :: x in p <==> x in q
    requires RankOrdered(p) && RankOrdered(q)
    requires p != [] && q != [] && p[0] == q[0]
    ensures forall x :: x in p[1..] <==> x in q[1..]
    ensures RankOrdered(p[1..]) && RankOrdered(q[1..])
  {
    forall x ensures x in p[1..] ==> x in q[1..] {
      if x in p[1..] {
        var i :| 0 <= i < |p| - 1 && p[1..][i] == x;
        assert x == p[i + 1] && x in q && x != q[0];
      }
    }
    forall x ensures x in q[1..] ==> x in p[1..] {
      if x in q[1..] {
        var i :| 0 <= i < |q| - 1 && q[1..][i] == x;
        assert x == q[i + 1] && x in p && x != p[0];
      }
    }
  }

  /** Two rank-ordered lists holding the same pairs are the same list. */
  lemma {:induction false} RankOrderedDetermined(p: seq<(string, string)>, q: seq<(string, string)>)
    requires forall x :: x in p <==> x in q
    requires RankOrdered(p) && RankOrdered(q)
    ensures p == q
    decreases |p|
  {
    assert |q| == 0 || q[0] in q;
    if p != [] {
      HeadsAgree(p, q);
      TailsAgree(p, q);
      RankOrderedDetermined(p[1..], q[1..]);
      assert p == [p[0]] + p[1..] && q == [q[0]] + q[1..];
    }
  }

  /** So the pairs sent for a set of filters are fully determined. */
  lemma SentPairsDetermined(f: ServiceFilters, p: seq<(string, string)>, q: seq<(string, string)>)
    requires SendsExactly(f, p) && SendsExactly(f, q)
    ensures p == q
  {
    forall x | x in p ensures x in q {
      assert IsSent(f, x.0, x.1);
    }
    forall x | x in q ensures x in p {
      assert IsSent(f, x.0, x.1);
    }
    RankOrderedDetermined(p, q);
  }

  function Param(p: (string, string)): string { p.0 + "=" + p.1 }

  /** `searchParams.toString()`, without the percent-encoding of reserved characters. */
  function QueryString(pairs: seq<(string, string)>): (r: string)
    ensures pairs == [] <==> r == ""
  {
    var r := Join(MapSeq(pairs, Param), "&");
    if pairs != [] then
      JoinIncludesParts(MapSeq(pairs, Param), "&", 0);
      assert Includes(r, Param(pairs[0]));
      r
    else r
  }

  /** A reference reader of query text: `&`-separated pieces, each split at its first `=`. */
  function ParseQuery(q: string): seq<(string, string)> {
    if q == "" then [] else MapSeq(Split(q, '&'), ParseParam)
  }

  function ParseParam(s: string): (string, string) {
    if '=' in s then (s[..IndexOf(s, '=')], s[IndexOf(s, '=') + 1..]) else (s, "")
  }

  /** Keys without `=` or `&` and values without `&`: the text reads back unambiguously. */
  predicate Unambiguous(pairs: seq<(string, string)>) {
    forall i :: 0 <= i < |pairs| ==> '=' !in pairs[i].0 && '&' !in pairs[i].0 && '&' !in pairs[i].1
  }

  /** The query text reads back as the pairs it was made of. */
  lemma QueryStringRoundTrip(pairs: seq<(string, string)>)
    requires Unambiguous(pairs)
    ensures ParseQuery(QueryString(pairs)) == pairs
  {
    if pairs != [] {
      var parts := MapSeq(pairs, Param);
      forall k | 0 <= k < |parts| ensures '&' !in parts[k] {
        assert parts[k] == pairs[k].0 + ['='] + pairs[k].1;
      }
      JoinSplit(parts, '&');
      assert Split(QueryString(pairs), '&') == parts;
      forall k | 0 <= k < |parts| ensures ParseParam(parts[k]) == pairs[k] {
        var key, value := pairs[k].0, pairs[k].1;
        IndexOfAfter(key, '=', value);
        assert parts[k] == key + ['='] + value;
        assert parts[k][..|key|] == key && parts[k][|key| + 1..] == value;
      }
    }
  }

  /** The text of an integer has no `&`: it is digits and possibly a minus sign. */
  lemma IntTextHasNoAmpersand(n: int)
    ensures '&' !in IntToString(n)
  {
    var d := NatToString(if n >= 0 then n else -n);
    assert forall i :: 0 <= i < |d| ==> IsDigit(d[i]);
    if n < 0 {
      assert IntToString(n) == "-" + d;
      assert forall i :: 1 <= i < |"-" + d| ==> ("-" + d)[i] == d[i - 1];
    }
  }

  /** The sent pairs read back unambiguously when the search text has no `&`. */
  lemma SentPairsUnambiguous(f: ServiceFilters, pairs: seq<(string, string)>)
    requires SendsExactly(f, pairs)
    requires !HasSearch(f) || '&' !in f.search.value
    ensures Unambiguous(pairs)
  {
    forall i | 0 <= i < |pairs|
      ensures '=' !in pairs[i].0 && '&' !in pairs[i].0 && '&' !in pairs[i].1
    {
      assert pairs[i] in pairs;
      assert IsSent(f, pairs[i].0, pairs[i].1);
      if f.minPrice.Some? { IntTextHasNoAmpersand(f.minPrice.value); }
      if f.maxPrice.Some? { IntTextHasNoAmpersand(f.maxPrice.value); }
    }
  }

  const ServicesPath: string := "/accompaniements"

  /**
   * The endpoint of `getFilteredServices`: a `?` and the query only when some
   * filter is set; the text after `?` reads back as the pairs sent.
   */
  method FilteredEndpoint(f: ServiceFilters) returns (endpoint: string, pairs: seq<(string, string)>)
    ensures SendsExactly(f, pairs)
    ensures endpoint == ServicesPath <==> !HasSearch(f) && !HasMin(f) && !HasMax(f)
    ensures endpoint != ServicesPath ==>
      |endpoint| > |ServicesPath| && endpoint[..|ServicesPath| + 1] == ServicesPath + "?" &&
      endpoint[|ServicesPath| + 1..] == QueryString(pairs)
    ensures endpoint != ServicesPath && (!HasSearch(f) || '&' !in f.search.value) ==>
      ParseQuery(endpoint[|ServicesPath| + 1..]) == pairs
  {
    pairs := QueryPairs(f);
    var query := QueryString(pairs);
    endpoint := ServicesPath + (if query != "" then "?" + query else "");
    if query != "" {
      assert endpoint[..|ServicesPath| + 1] == ServicesPath + "?";
      assert endpoint[|ServicesPath| + 1..] == query;
      if !HasSearch(f) || '&' !in f.search.value {
        SentPairsUnambiguous(f, pairs);
        QueryStringRoundTrip(pairs);
      }
    }
  }

  // ---------------------------------------------------------------------------
  // The fallback filter
  // ---------------------------------------------------------------------------

  /** The text search: case-insensitive on title, description or short description. */
  predicate SearchMatches(f: ServiceFilters, s: Service) {
    var term := ToLower(f.search.GetOr(""));
    Includes(ToLower(s.title), term) || Includes(ToLower(s.description), term) ||
    Includes(ToLower(s.shortDescription), term)
  }

  /** Inclusive price bounds; a bound of 0 or an absent bound does not constrain. */
  predicate PriceMatches(f: ServiceFilters, s: Service) {
    (!HasMin(f) || s.price >= f.minPrice.value) && (!HasMax(f) || s.price <= f.maxPrice.value)
  }

  predicate ServiceMatches(f: ServiceFilters, s: Service) {
    (!HasSearch(f) || SearchMatches(f, s)) && PriceMatches(f, s)
  }

  function ServiceMatchesFn(f: ServiceFilters): Service -> bool {
    s => ServiceMatches(f, s)
  }

  /** The catch branch of `getFilteredServices`: the search step, then the price step. */
  method FilterFallback(items: seq<Service>, f: ServiceFilters) returns (filtered: seq<Service>)
    ensures filtered == Filter(items, ServiceMatchesFn(f))
  {
    filtered := items;
    if HasSearch(f) {
      filtered := Filter(filtered, s => SearchMatches(f, s));
    }
    if HasMin(f) || HasMax(f) {
      filtered := Filter(filtered, s => PriceMatches(f, s));
    }
    if HasSearch(f) {
      FilterCompose(items, s => SearchMatches(f, s), s => PriceMatches(f, s), ServiceMatchesFn(f));
      if !(HasMin(f) || HasMax(f)) {
        FilterExt(items, s => SearchMatches(f, s), ServiceMatchesFn(f));
      }
    } else {
      FilterAllPass(items, s => true);
      FilterCompose(items, s => true, s => PriceMatches(f, s), ServiceMatchesFn(f));
      if !(HasMin(f) || HasMax(f)) {
        FilterExt(items, s => true, ServiceMatchesFn(f));
      }
    }
  }

  /** The fallback filter keeps, in order, exactly the services that match; zero bounds are no bounds. */
  lemma FallbackFilterSpec(items: seq<Service>, f: ServiceFilters, x: Service)
    ensures IsSubsequence(Filter(items, ServiceMatchesFn(f)), items)
    ensures x in Filter(items, ServiceMatchesFn(f)) <==> x in items && ServiceMatches(f, x)
    ensures ServiceMatches(f.(minPrice := Some(0), maxPrice := Some(0)), x) ==
            ServiceMatches(f.(minPrice := None, maxPrice := None), x)
  {
    FilterIsSubsequence(items, ServiceMatchesFn(f));
    FilterMembers(items, ServiceMatchesFn(f), x);
  }

  predicate HasId(id: string, s: Service) { s.id == id }

  /** `Number.parseInt(a.order) - Number.parseInt(b.order)` as a sort key. */
  function OrderKey(s: Service): int { ServiceOrderKey(s) }

  // ---------------------------------------------------------------------------
  // The client
  // ---------------------------------------------------------------------------

  class ServiceClient {
    /** `FALLBACK_SERVICES`: one array, shared by every fallback path. */
    var fallback: array<Service>

    constructor(initial: seq<Service>)
      ensures fresh(fallback) && fallback[..] == initial
    {
      fallback := new Service[|initial|](i requires 0 <= i < |initial| => initial[i]);
    }

    /** `getAllServices`: the server's array, or the fallback array itself (not a copy) when the request fails. */
    method GetAllServices(fetched: Option<array<Service>>) returns (services: array<Service>)
      ensures fetched.Some? ==> services == fetched.value
      ensures fetched.None? ==> services == fallback
    {
      if fetched.Some? {
        services := fetched.value;
      } else {
        services := fallback;
      }
    }

    /** `getFilteredServices`: the server's answer, or the fallback filtered locally. */
    method GetFilteredServices(f: ServiceFilters, fetched: Option<seq<Service>>) returns (r: seq<Service>)
      ensures fetched.Some? ==> r == fetched.value
      ensures fetched.None? ==> r == Filter(fallback[..], ServiceMatchesFn(f))
    {
      if fetched.Some? {
        r := fetched.value;
      } else {
        r := FilterFallback(fallback[..], f);
      }
    }

    /** `getServiceById`: the server's answer, or the first fallback service with the id, or `"Service not found"`. */
    method GetServiceById(id: string, fetched: Option<Service>) returns (r: Result<Service>)
      ensures fetched.Some? ==> r == Ok(fetched.value)
      ensures fetched.None? ==> (r.Err? <==> forall i :: 0 <= i < fallback.Length ==> fallback[i].id != id)
      ensures fetched.None? && r.Err? ==> r.message == "Service not found"
      ensures fetched.None? && r.Ok? ==>
        exists k :: 0 <= k < fallback.Length && fallback[k].id == id && r.value == fallback[k] &&
                    forall j :: 0 <= j < k ==> fallback[j].id != id
    {
      if fetched.Some? {
        r := Ok(fetched.value);
      } else {
        var found := Find(fallback[..], s => HasId(id, s));
        if found.None? {
          r := Err("Service not found");
        } else {
          r := Ok(found.value);
        }
      }
    }

    /**
     * `getFeaturedServices(limit = 3)`: sorts the array `getAllServices` returned
     * in place, then slices the first `limit`. When the request failed, that array
     * is the fallback, which stays sorted afterwards.
     */
    method GetFeaturedServices(limit: Option<int>, fetched: Option<array<Service>>) returns (r: seq<Service>)
      modifies if fetched.Some? then {fetched.value} else {fallback}
      ensures var src := if fetched.Some? then fetched.value else fallback;
        src[..] == SortByKey(old(src[..]), OrderKey) &&
        r == JsSlice(src[..], 0, limit.GetOr(3))
      ensures fetched.Some? && fetched.value != fallback ==> fallback[..] == old(fallback[..])
    {
      var services := GetAllServices(fetched);
      SortInPlace(services, OrderKey);
      r := JsSlice(services[..], 0, limit.GetOr(3));
    }
  }

  /** The featured list is at most `limit` services: a prefix of the sorted list, in non-decreasing order. */
  lemma FeaturedSpec(s: seq<Service>, limit: nat)
    ensures var sorted := SortByKey(s, OrderKey);
      var r := JsSlice(sorted, 0, limit);
      |r| == Min(limit, |s|) && r == sorted[..|r|] && SortedBy(r, OrderKey)
  {
    var sorted := SortByKey(s, OrderKey);
    var r := JsSlice(sorted, 0, limit);
    SortByKeySorted(s, OrderKey);
    assert forall i :: 0 <= i < |r| ==> r[i] == sorted[i];
  }

  /** Every featured service is one of the input's, each at most as often. */
  lemma FeaturedFromInput(s: seq<Service>, limit: nat)
    ensures multiset(JsSlice(SortByKey(s, OrderKey), 0, limit)) <= multiset(s)
  {
    var sorted := SortByKey(s, OrderKey);
    var r := JsSlice(sorted, 0, limit);
    SortByKeyPermutation(s, OrderKey);
    assert sorted == r + sorted[|r|..];
    assert multiset(sorted) == multiset(r) + multiset(sorted[|r|..]);
  }

  /** A second featured request on the fallback leaves it as the first one left it. */
  lemma SecondSortChangesNothing(s: seq<Service>)
    ensures SortByKey(SortByKey(s, OrderKey), OrderKey) == SortByKey(s, OrderKey)
  {
    SortIdempotent(s, OrderKey);
  }

  lemma FallbackOrdersParse()
    ensures ParseInt("0") == Some(0) && ParseInt("2") == Some(2) && ParseInt("111") == Some(111)
  {
    assert LeadingDigits("111") == "111";
    assert "111"[..2] == "11" && "11"[..1] == "1" && "1"[..0] == "";
    assert DigitsValue("1") == 1;
    assert DigitsValue("11") == 11;
    assert DigitsValue("111") == 111;
  }

  /** The fallback table's orders are `"0"`, `"2"` and `"111"`: it is already sorted, so the first sort keeps it. */
  lemma FallbackAlreadySorted(s: seq<Service>)
    requires |s| == 3 && s[0].order == "0" && s[1].order == "2" && s[2].order == "111"
    ensures SortByKey(s, OrderKey) == s
  {
    FallbackOrdersParse();
    assert OrderKey(s[0]) == 0 && OrderKey(s[1]) == 2 && OrderKey(s[2]) == 111;
    SortSortedIsIdentity(s, OrderKey);
  }
}
