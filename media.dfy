/**
 * The `Media` records services and products carry, and the two image helpers
 * `lib/types/service.ts` and `lib/types/product.ts` both define the same way:
 * sort a copy by `Number.parseInt(order)` and take the first URL, or all URLs.
 */
module Media {
  import opened Wrappers
  import opened Strings
  import opened Collections
  import opened Sorting

  datatype Media = Media(fullUrl: string, order: string)

  /** The placeholder both helpers return for an empty list. */
  const NoImage: string := "/placeholder.svg?height=240&width=360&text=No+Image"

  /** `Number.parseInt(m.order)`; an order that does not start with a digit reads as 0 here. */
  function OrderKey(m: Media): int { ParseInt(m.order).GetOr(0) }

  function Url(m: Media): string { m.fullUrl }

  /** `[...images].sort(byOrder)`. */
  function ByOrder(images: seq<Media>): seq<Media> {
    SortByKey(images, OrderKey)
  }

  /**
   * The placeholder for an empty list; otherwise the URL of the first image
   * whose order is least (the sort is stable).
   */
  function MainImage(images: seq<Media>): (r: string)
    ensures images == [] ==> r == NoImage
    ensures images != [] ==> exists k :: IsFirstMinimum(images, OrderKey, k) && r == images[k].fullUrl
  {
    if |images| == 0 then NoImage
    else
      HeadIsFirstMinimum(images);
      ByOrder(images)[0].fullUrl
  }

  lemma HeadIsFirstMinimum(images: seq<Media>)
    requires images != []
    ensures exists k :: IsFirstMinimum(images, OrderKey, k) && ByOrder(images)[0] == images[k]
  {
    var k := FirstMinimumExists(images, OrderKey);
    SortHeadIsFirstMinimum(images, OrderKey, k);
  }

  /** Every URL, sorted by order; nothing is dropped. */
  function AllImageUrls(images: seq<Media>): (r: seq<string>)
    ensures |r| == |images|
  {
    MapSeq(ByOrder(images), Url)
  }

  /**
   * The URLs are those of the input (as a multiset), listed along a sorted
   * permutation of the images, and the first is the main image.
   */
  lemma AllImageUrlsSpec(images: seq<Media>)
    ensures multiset(AllImageUrls(images)) == multiset(MapSeq(images, Url))
    ensures multiset(ByOrder(images)) == multiset(images) && SortedBy(ByOrder(images), OrderKey)
    ensures AllImageUrls(images) == MapSeq(ByOrder(images), Url)
    ensures images != [] ==> AllImageUrls(images)[0] == MainImage(images)
  {
    SortByKeyPermutation(images, OrderKey);
    SortByKeySorted(images, OrderKey);
    MapPermutation(ByOrder(images), images, Url);
  }
}
