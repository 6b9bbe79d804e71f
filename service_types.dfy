/**
 * The helpers of `lib/types/service.ts`: the price label, the image helpers
 * (shared with products, in module `Media`), the feature list and the sort of
 * services by their `order` field. Every helper works on a copy; values here
 * cannot be changed in place, so "the input is left unchanged" holds by construction.
 */
module ServiceTypes {
  import opened Wrappers
  import opened Strings
  import opened Sorting
  import opened Media

  datatype Service = Service(id: string, title: string, description: string, shortDescription: string,
                             order: string, price: int, characteristics: seq<string>, images: seq<Media>)

  const PerMonthSuffix: string := "\U{20AC}/mois"

  /** `${price}€/mois`: the amount, then the suffix; a non-negative amount reads back with `parseInt`. */
  function FormatServicePrice(price: int): (r: string)
    ensures |r| > |PerMonthSuffix| && r[|r| - |PerMonthSuffix|..] == PerMonthSuffix
    ensures r[..|r| - |PerMonthSuffix|] == IntToString(price)
    ensures price >= 0 ==> ParseInt(r) == Some(price)
  {
    NumberTextReadsBack(if price >= 0 then price else 0, PerMonthSuffix);
    IntToString(price) + PerMonthSuffix
  }

  /** `characteristics || []`. */
  function GetServiceFeatures(characteristics: Option<seq<string>>): (r: seq<string>)
    ensures characteristics.None? ==> r == []
    ensures characteristics.Some? ==> r == characteristics.value
  {
    if characteristics.Some? then characteristics.value else []
  }

  function ServiceOrderKey(s: Service): int { ParseInt(s.order).GetOr(0) }

  /** `[...services].sort(byOrder)`. */
  function SortServicesByOrder(services: seq<Service>): seq<Service> {
    SortByKey(services, ServiceOrderKey)
  }

  /** The sorted services are the same services, in non-decreasing order, ties in their original order. */
  lemma SortServicesSpec(services: seq<Service>, k: int)
    ensures multiset(SortServicesByOrder(services)) == multiset(services)
    ensures SortedBy(SortServicesByOrder(services), ServiceOrderKey)
    ensures IsFirstMinimum(services, ServiceOrderKey, k) ==> SortServicesByOrder(services)[0] == services[k]
  {
    SortByKeyPermutation(services, ServiceOrderKey);
    SortByKeySorted(services, ServiceOrderKey);
    if IsFirstMinimum(services, ServiceOrderKey, k) {
      SortHeadIsFirstMinimum(services, ServiceOrderKey, k);
    }
  }
}
