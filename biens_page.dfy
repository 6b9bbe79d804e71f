/**
 * The catalogue page `app/biens/page.tsx`: the filter object it keeps in state
 * and edits through `updateFilters`, the price-range select that encodes two
 * bounds as one option value and decodes it back, the description truncation,
 * and the pager's arithmetic and window of page buttons.
 */
module BiensPage {
  import opened Wrappers
  import opened Strings
  import opened Collections
  import opened Arith
  import opened JsObject

  // ---------------------------------------------------------------------------
  // The filter state
  // ---------------------------------------------------------------------------

  /** `{ page: 1, limit: 12 }`. */
  const InitialFilters: Entries := [("page", Num(1)), ("limit", Num(12))]

  /** An entry `getActiveFiltersCount` counts: not `page`/`limit`, and not `undefined`, `""` or `null`. */
  predicate Counted(e: (string, JsValue)) {
    e.0 != "page" && e.0 != "limit" && e.1 != Undefined && e.1 != Str("") && e.1 != Null
  }

  /** `getActiveFiltersCount`. */
  function ActiveFiltersCount(filters: Entries): (r: nat)
    ensures r <= |filters|
    ensures r == 0 <==> forall i :: 0 <= i < |filters| ==> !Counted(filters[i])
  {
    var kept := Filter(filters, Counted);
    if kept != [] then
      FilterMembers(filters, Counted, kept[0]);
      |kept|
    else
      forall i | 0 <= i < |filters| ensures !Counted(filters[i]) {
        FilterMembers(filters, Counted, filters[i]);
      }
      |kept|
  }

  /** Adding a new key adds one to the count exactly when its entry counts; `false` and `0` do. */
  lemma CountAfterNewKey(filters: Entries, k: string, v: JsValue)
    requires !HasKey(filters, k)
    ensures ActiveFiltersCount(Set(filters, k, v)) ==
            ActiveFiltersCount(filters) + (if Counted((k, v)) then 1 else 0)
  {
    SetAppends(filters, k, v);
    FilterSnoc(filters, (k, v), Counted);
  }

  class FilterState {
    var filters: Entries

    constructor()
      ensures filters == InitialFilters
    {
      filters := InitialFilters;
    }

    /**
     * `updateFilters(patch)`: `{ ...prev, ...patch, page: 1 }`. The patch's keys
     * read as in the patch, `page` reads 1, every other key as before.
     */
    method UpdateFilters(patch: Entries)
      requires DistinctKeys(patch)
      modifies this
      ensures filters == Set(Spread(old(filters), patch), "page", Num(1))
      ensures forall k :: Get(filters, k) ==
                          if k == "page" then Num(1) else if HasKey(patch, k) then Get(patch, k) else Get(old(filters), k)
    {
      ghost var prev := filters;
      filters := Set(Spread(filters, patch), "page", Num(1));
      forall k ensures Get(filters, k) ==
        if k == "page" then Num(1) else if HasKey(patch, k) then Get(patch, k) else Get(prev, k)
      {
        GetSet(Spread(prev, patch), "page", Num(1), k);
        GetSpread(prev, patch, k);
      }
    }

    /** `resetFilters`. */
    method ResetFilters()
      modifies this
      ensures filters == InitialFilters && ActiveFiltersCount(filters) == 0
    {
      filters := InitialFilters;
    }

    /** The pager's `onChange(page)`: `{ ...prev, page }`, nothing else changes. */
    method GoToPage(page: int)
      modifies this
      ensures filters == Set(old(filters), "page", Num(page))
      ensures forall k :: Get(filters, k) == if k == "page" then Num(page) else Get(old(filters), k)
    {
      ghost var prev := filters;
      filters := Set(filters, "page", Num(page));
      forall k ensures Get(filters, k) == if k == "page" then Num(page) else Get(prev, k) {
        GetSet(prev, "page", Num(page), k);
      }
    }
  }

  // ---------------------------------------------------------------------------
  // The price-range select
  // ---------------------------------------------------------------------------

  /** `Number(x) || undefined` for a piece of the split option value; a missing piece is `undefined`. */
  function BoundOf(pieces: seq<string>, i: nat): (r: JsValue)
    ensures r.Undefined? || (r.Num? && r.n > 0)
  {
    if i < |pieces| then
      var n := NumberOf(pieces[i]);
      if n.Some? && n.value != 0 then Num(n.value) else Undefined
    else Undefined
  }

  /**
   * The select's `onChange`: the patch `{ minPrice, maxPrice }`. An empty value
   * clears both; otherwise `value.split("-").map(Number)`, each `|| undefined`.
   */
  function DecodePriceRange(value: string): (patch: Entries)
    ensures |patch| == 2 && patch[0].0 == "minPrice" && patch[1].0 == "maxPrice"
    ensures value == "" ==> patch[0].1 == Undefined && patch[1].1 == Undefined
  {
    if value == "" then [("minPrice", Undefined), ("maxPrice", Undefined)]
    else
      var pieces := Split(value, '-');
      [("minPrice", BoundOf(pieces, 0)), ("maxPrice", BoundOf(pieces, 1))]
  }

  /** The select's `value`: `min-max` when both bounds are truthy, `min+` when only the minimum is, else `""`. */
  function EncodePriceRange(minPrice: JsValue, maxPrice: JsValue): (r: string)
    ensures r == "" <==> !Truthy(minPrice)
  {
    if Truthy(minPrice) && Truthy(maxPrice) then ToJsString(minPrice) + "-" + ToJsString(maxPrice)
    else if Truthy(minPrice) then ToJsString(minPrice) + "+"
    else ""
  }

  /** The option shown for a decoded value. */
  function Reencode(value: string): string {
    var patch := DecodePriceRange(value);
    EncodePriceRange(patch[0].1, patch[1].1)
  }

  lemma SplitAtSeparator(a: string, b: string, sep: char)
    requires sep !in a && sep !in b
    ensures Split(a + [sep] + b, sep) == [a, b]
  {
    var s := a + [sep] + b;
    assert s[|a|] == sep;
    assert forall j :: 0 <= j < |a| ==> s[j] == a[j];
    var i := IndexOf(s, sep);
    assert s[..i] == a;
    assert s[i + 1..] == b;
  }

  lemma DigitsHaveNoDash(s: string)
    requires AllDigits(s)
    ensures '-' !in s
  {
    forall i | 0 <= i < |s| ensures s[i] != '-' {
      assert IsDigit(s[i]);
    }
  }

  /** Two positive bounds survive encode-then-decode, so their option value re-encodes to itself. */
  lemma RangeRoundTrip(lo: nat, hi: nat)
    requires lo > 0 && hi > 0
    ensures DecodePriceRange(EncodePriceRange(Num(lo), Num(hi))) == [("minPrice", Num(lo)), ("maxPrice", Num(hi))]
    ensures Reencode(NatToString(lo) + "-" + NatToString(hi)) == NatToString(lo) + "-" + NatToString(hi)
  {
    var a, b := NatToString(lo), NatToString(hi);
    assert ToJsString(Num(lo)) == a && ToJsString(Num(hi)) == b;
    DigitsHaveNoDash(a);
    DigitsHaveNoDash(b);
    SplitAtSeparator(a, b, '-');
    assert a + "-" + b == a + ['-'] + b;
    NatToStringParses(lo);
    NatToStringParses(hi);
  }

  /** The options `700-900`, `900-1200` and `1200-1500` round-trip. */
  lemma ListedRangesRoundTrip()
    ensures Reencode("700-900") == "700-900"
    ensures Reencode("900-1200") == "900-1200"
    ensures Reencode("1200-1500") == "1200-1500"
  {
    NumeralsOfRanges();
    assert "700" + "-" + "900" == "700-900";
    assert "900" + "-" + "1200" == "900-1200";
    assert "1200" + "-" + "1500" == "1200-1500";
    ListedRangeRoundTrip(700, 900, "700", "900", "700-900");
    ListedRangeRoundTrip(900, 1200, "900", "1200", "900-1200");
    ListedRangeRoundTrip(1200, 1500, "1200", "1500", "1200-1500");
  }

  lemma ListedRangeRoundTrip(lo: nat, hi: nat, a: string, b: string, value: string)
    requires lo > 0 && hi > 0 && a == NatToString(lo) && b == NatToString(hi) && value == a + "-" + b
    ensures Reencode(value) == value
  {
    RangeRoundTrip(lo, hi);
  }

  lemma NumeralsOfRanges()
    ensures NatToString(0) == "0"
    ensures NatToString(700) == "700" && NatToString(900) == "900"
    ensures NatToString(1200) == "1200" && NatToString(1500) == "1500"
  {
    assert NatToString(7) == "7" && NatToString(70) == "70";
    assert NatToString(9) == "9" && NatToString(90) == "90";
    assert NatToString(1) == "1" && NatToString(12) == "12" && NatToString(120) == "120";
    assert NatToString(15) == "15" && NatToString(150) == "150";
  }

  /** `0-700` decodes to a maximum only, so the select falls back to "Tous les prix". */
  lemma ZeroMinimumIsDropped()
    ensures DecodePriceRange("0-700") == [("minPrice", Undefined), ("maxPrice", Num(700))]
    ensures Reencode("0-700") == ""
  {
    NumeralsOfRanges();
    DigitsHaveNoDash("0");
    DigitsHaveNoDash("700");
    SplitAtSeparator("0", "700", '-');
    assert "0-700" == "0" + ['-'] + "700";
    NatToStringParses(0);
    NatToStringParses(700);
  }

  /** `1500+` is not a number, so it sets no bound at all: the select shows "Tous les prix". */
  lemma OpenRangeSetsNoBound()
    ensures DecodePriceRange("1500+") == [("minPrice", Undefined), ("maxPrice", Undefined)]
    ensures Reencode("1500+") == ""
  {
    assert '-' !in "1500+";
    assert !AllDigits("1500+") by { assert !IsDigit("1500+"[4]); }
  }

  /** A minimum alone encodes as `min+`, which decodes to no bound: it does not survive the round trip. */
  lemma MinimumAloneIsLost(lo: nat)
    requires lo > 0
    ensures DecodePriceRange(EncodePriceRange(Num(lo), Undefined)) == [("minPrice", Undefined), ("maxPrice", Undefined)]
  {
    var s := NatToString(lo) + "+";
    DigitsHaveNoDash(NatToString(lo));
    assert '-' !in s;
    assert !AllDigits(s) by { assert !IsDigit(s[|s| - 1]); }
  }

  // ---------------------------------------------------------------------------
  // Text truncation
  // ---------------------------------------------------------------------------

  /**
   * `truncateText(text, maxLength = 100)`: the text when it fits, otherwise its
   * first `maxLength` characters, trimmed, and an ellipsis.
   */
  function TruncateText(text: string, maxLength: int): (r: string)
    ensures |text| <= maxLength ==> r == text
    ensures |text| > maxLength ==>
      r != [] && r[|r| - 1] == '…' && |r| <= Max(maxLength, 0) + 1 &&
      r[..|r| - 1] == Trim(text[..Max(maxLength, 0)]) &&
      IsTrimOf(text[..Max(maxLength, 0)], r[..|r| - 1])
  {
    if |text| <= maxLength then text
    else
      var cut := text[..Max(maxLength, 0)];
      TrimShape(cut);
      var r := Trim(cut) + "…";
      assert r[..|r| - 1] == Trim(cut);
      r
  }

  // ---------------------------------------------------------------------------
  // The pager
  // ---------------------------------------------------------------------------

  datatype Pager = Pager(totalPages: int, startItem: int, endItem: int, prevDisabled: bool, nextDisabled: bool)

  /** `EnhancedPagination`'s numbers and button states. */
  function PagerOf(page: int, total: int, take: int): (r: Pager)
    requires take > 0
    ensures (r.totalPages - 1) * take < total <= r.totalPages * take
    ensures r.prevDisabled <==> page <= 1
    ensures r.nextDisabled <==> page >= r.totalPages
  {
    var totalPages := CeilDiv(total, take);
    Pager(totalPages, (page - 1) * take + 1, Min(page * take, total), page <= 1, page >= totalPages)
  }

  /** The pager is shown only when `total > take`. */
  predicate PagerShown(total: int, take: int) { total > take }

  /** On a page of the range, the item numbers shown satisfy `1 <= startItem <= endItem <= total`. */
  lemma PagerItemsInRange(page: int, total: int, take: int)
    requires take > 0
    requires 1 <= page <= PagerOf(page, total, take).totalPages
    ensures var p := PagerOf(page, total, take);
      1 <= p.startItem <= p.endItem <= total
  {
    var p := PagerOf(page, total, take);
    MulNonNegative(page - 1, take);
    MulMonotone(page - 1, p.totalPages - 1, take);
    assert (page - 1) * take + take == page * take;
  }

  /** A shown pager has at least two pages, so "Suivant" is enabled on the first. */
  lemma ShownPagerHasNext(total: int, take: int)
    requires take > 0 && PagerShown(total, take)
    ensures PagerOf(1, total, take).totalPages >= 2
    ensures !PagerOf(1, total, take).nextDisabled
  {
    var tp := PagerOf(1, total, take).totalPages;
    if tp <= 1 {
      MulMonotone(tp, 1, take);
    }
  }

  // ---------------------------------------------------------------------------
  // The window of page buttons
  // ---------------------------------------------------------------------------

  datatype PageItem = PageNum(n: int) | Dots

  /** The page numbers `lo..hi` as buttons, empty when `hi < lo`. */
  function Run(lo: int, hi: int): (r: seq<PageItem>)
    ensures |r| == if hi < lo then 0 else hi - lo + 1
    ensures forall k :: 0 <= k < |r| ==> r[k] == PageNum(lo + k)
    decreases hi - lo
  {
    if hi < lo then [] else Run(lo, hi - 1) + [PageNum(hi)]
  }

  /** Page 1, and `...` when the window starts after page 3. */
  function Head(page: int): seq<PageItem> {
    if page - 2 > 2 then [PageNum(1), Dots] else [PageNum(1)]
  }

  /** `...` and the last page when the window ends before the last but one, else the last page (if not 1). */
  function Tail(page: int, totalPages: int): seq<PageItem> {
    if page + 2 < totalPages - 1 then [Dots, PageNum(totalPages)]
    else if totalPages > 1 then [PageNum(totalPages)]
    else []
  }

  /** `getVisiblePages`, as a value: the head, the pages within 2 of `page` strictly inside, the tail. */
  function VisiblePages(page: int, totalPages: int): seq<PageItem> {
    Head(page) + Run(Max(2, page - 2), Min(totalPages - 1, page + 2)) + Tail(page, totalPages)
  }

  /** `getVisiblePages`: the `for` loop builds `range`, then the ends and dots are pushed around it. */
  method GetVisiblePages(page: int, totalPages: int) returns (items: seq<PageItem>)
    ensures items == VisiblePages(page, totalPages)
  {
    var lo := Max(2, page - 2);
    var hi := Min(totalPages - 1, page + 2);
    var range: seq<PageItem> := [];
    var i := lo;
    while i <= hi
      invariant lo <= i && (i <= hi + 1 || i == lo)
      invariant range == Run(lo, i - 1)
      decreases hi - i
    {
      range := range + [PageNum(i)];
      i := i + 1;
    }
    assert range == Run(lo, hi);
    if page - 2 > 2 {
      items := [PageNum(1), Dots];
    } else {
      items := [PageNum(1)];
    }
    items := items + range;
    if page + 2 < totalPages - 1 {
      items := items + [Dots, PageNum(totalPages)];
    } else if totalPages > 1 {
      items := items + [PageNum(totalPages)];
    }
  }

  /** Between two consecutive entries: page numbers step by one, and `...` stands for at least one page. */
  ghost predicate Spaced(r: seq<PageItem>) {
    (forall i :: 0 <= i < |r| - 1 && r[i].PageNum? && r[i + 1].PageNum? ==> r[i + 1].n == r[i].n + 1) &&
    (forall i :: 0 <= i < |r| && r[i].Dots? ==>
      0 < i < |r| - 1 && r[i - 1].PageNum? && r[i + 1].PageNum? && r[i + 1].n > r[i - 1].n + 1)
  }

  /** The window starts at 1, ends at the last page, has at most 9 entries and shows the current page. */
  lemma VisiblePagesEnds(page: int, totalPages: int)
    requires 1 <= page <= totalPages
    ensures var r := VisiblePages(page, totalPages);
      r != [] && r[0] == PageNum(1) && |r| <= 9 && PageNum(page) in r &&
      (totalPages > 1 ==> r[|r| - 1] == PageNum(totalPages)) &&
      (totalPages == 1 ==> r == [PageNum(1)])
  {
    var h, m, t := Head(page), Run(Max(2, page - 2), Min(totalPages - 1, page + 2)), Tail(page, totalPages);
    var r := h + m + t;
    assert r[0] == h[0];
    if page == 1 {
      assert r[0] == PageNum(page);
    } else if page == totalPages {
      assert r[|r| - 1] == t[|t| - 1];
    } else {
      var k := page - Max(2, page - 2);
      assert m[k] == PageNum(page);
      assert r[|h| + k] == m[k];
    }
    if totalPages > 1 {
      assert r[|r| - 1] == t[|t| - 1];
    }
  }

  /** Every number in the window is a page, and the numbers strictly increase. */
  lemma VisiblePagesIncrease(page: int, totalPages: int)
    requires 1 <= page <= totalPages
    ensures var r := VisiblePages(page, totalPages);
      (forall i :: 0 <= i < |r| && r[i].PageNum? ==> 1 <= r[i].n <= totalPages) &&
      (forall i, j :: 0 <= i < j < |r| && r[i].PageNum? && r[j].PageNum? ==> r[i].n < r[j].n)
  {
    var h, m, t := Head(page), Run(Max(2, page - 2), Min(totalPages - 1, page + 2)), Tail(page, totalPages);
    var r := h + m + t;
    forall i | 0 <= i < |r| ensures r[i].PageNum? ==>
      (1 <= r[i].n <= totalPages && (i > 0 ==> r[i].n >= 2) && (i < |r| - 1 ==> r[i].n < totalPages))
    {
      if i < |h| {
        assert r[i] == h[i];
      } else if i < |h| + |m| {
        assert r[i] == m[i - |h|];
      } else {
        assert r[i] == t[i - |h| - |m|];
      }
    }
    forall i, j | 0 <= i < j < |r| && r[i].PageNum? && r[j].PageNum? ensures r[i].n < r[j].n {
      if |h| <= i && j < |h| + |m| {
        assert r[i] == m[i - |h|] && r[j] == m[j - |h|];
      }
    }
  }

  /** Consecutive numbers differ by one, and every `...` hides at least one page. */
  lemma VisiblePagesSpaced(page: int, totalPages: int)
    requires 1 <= page <= totalPages
    ensures Spaced(VisiblePages(page, totalPages))
  {
    var lo, hi := Max(2, page - 2), Min(totalPages - 1, page + 2);
    var h, m, t := Head(page), Run(lo, hi), Tail(page, totalPages);
    var r := h + m + t;
    assert forall k :: 0 <= k < |h| ==> r[k] == h[k];
    assert forall k :: |h| <= k < |h| + |m| ==> r[k] == m[k - |h|];
    assert forall k :: |h| + |m| <= k < |r| ==> r[k] == t[k - |h| - |m|];
    forall i | 0 <= i < |r| - 1 && r[i].PageNum? && r[i + 1].PageNum? ensures r[i + 1].n == r[i].n + 1 {
      if i < |h| && |m| == 0 {
        assert r[i + 1] == t[0];
      }
    }
    forall i | 0 <= i < |r| && r[i].Dots? ensures
      0 < i < |r| - 1 && r[i - 1].PageNum? && r[i + 1].PageNum? && r[i + 1].n > r[i - 1].n + 1
    {
      if i < |h| {
        assert r[2] == m[0];
      } else {
        assert r[i - 1] == m[|m| - 1];
      }
    }
  }
}
