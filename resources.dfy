/**
 * The resource catalogue of `lib/resources.ts`: a constant table of four books
 * and products, and the lookups the resource pages use. Only the fields the
 * lookups read are kept, plus the title and price shown in lists.
 */
module Resources {
  import opened Wrappers
  import opened Collections
  import opened Arith

  datatype ResourceType = Book | ProductType

  datatype Resource = Resource(id: int, slug: string, kind: ResourceType, title: string, price: string)

  /** The `resources` table. */
  const Catalogue: seq<Resource> := [
    Resource(1, "guide-investissement-immobilier-2024", Book,
             "Guide de l'investissement immobilier 2024", "24.99€"),
    Resource(2, "strategies-location-rentable", Book,
             "Stratégies de location rentable", "19.99€"),
    Resource(3, "suite-analyse-immobiliere-pro", ProductType,
             "Suite d'analyse immobilière Pro", "49.99€"),
    Resource(4, "formation-video-masterclass", ProductType,
             "Formation vidéo masterclass", "199.99€")
  ]

  predicate HasSlug(slug: string, r: Resource) { r.slug == slug }
  predicate HasId(id: int, r: Resource) { r.id == id }
  predicate HasType(kind: ResourceType, r: Resource) { r.kind == kind }

  /** `getResourceBySlug`: the first resource with the slug, or nothing. */
  function GetResourceBySlug(slug: string): (r: Option<Resource>)
    ensures r.None? <==> forall i :: 0 <= i < |Catalogue| ==> Catalogue[i].slug != slug
    ensures r.Some? ==> exists k :: 0 <= k < |Catalogue| && Catalogue[k] == r.value && r.value.slug == slug &&
                                    forall j :: 0 <= j < k ==> Catalogue[j].slug != slug
  {
    Find(Catalogue, r => HasSlug(slug, r))
  }

  /** `getResourceById`: the first resource with the id, or nothing. */
  function GetResourceById(id: int): (r: Option<Resource>)
    ensures r.None? <==> forall i :: 0 <= i < |Catalogue| ==> Catalogue[i].id != id
    ensures r.Some? ==> exists k :: 0 <= k < |Catalogue| && Catalogue[k] == r.value && r.value.id == id &&
                                    forall j :: 0 <= j < k ==> Catalogue[j].id != id
  {
    Find(Catalogue, r => HasId(id, r))
  }

  /** `getAllResources`: the table itself, four entries. */
  function GetAllResources(): (r: seq<Resource>)
    ensures |r| == 4 && forall i :: 0 <= i < |r| ==> r[i].id == i + 1
  {
    Catalogue
  }

  /** `getResourcesByType`: the resources of that type, in table order. */
  function GetResourcesByType(kind: ResourceType): (r: seq<Resource>)
    ensures forall i :: 0 <= i < |r| ==> r[i].kind == kind
  {
    Filter(Catalogue, r => HasType(kind, r))
  }

  /**
   * `getFeaturedResources(limit = 4)`: `slice(0, limit)`. A non-negative limit keeps
   * the first `min(limit, 4)` entries; a negative one drops that many from the end.
   */
  function GetFeaturedResources(limit: Option<int>): (r: seq<Resource>)
    ensures limit.None? ==> r == Catalogue
    ensures limit.Some? && limit.value >= 0 ==> r == Catalogue[..Min(limit.value, |Catalogue|)]
    ensures limit.Some? && -|Catalogue| <= limit.value < 0 ==> r == Catalogue[..|Catalogue| + limit.value]
  {
    JsSlice(Catalogue, 0, limit.GetOr(4))
  }

  /** Ids and slugs are pairwise distinct. */
  lemma CatalogueKeysDistinct()
    ensures forall i, j :: 0 <= i < j < |Catalogue| ==> Catalogue[i].id != Catalogue[j].id
    ensures forall i, j :: 0 <= i < j < |Catalogue| ==> Catalogue[i].slug != Catalogue[j].slug
  {
  }

  /** Because the keys are distinct, each resource is found by its own slug and by its own id. */
  lemma LookupsFindEachResource(k: nat)
    requires k < |Catalogue|
    ensures GetResourceBySlug(Catalogue[k].slug) == Some(Catalogue[k])
    ensures GetResourceById(Catalogue[k].id) == Some(Catalogue[k])
  {
    CatalogueKeysDistinct();
    FindUnique(Catalogue, r => HasSlug(Catalogue[k].slug, r), k);
    FindUnique(Catalogue, r => HasId(Catalogue[k].id, r), k);
  }

  /** The books and the products together are the whole table, each keeping table order. */
  lemma TypesPartitionCatalogue()
    ensures multiset(GetResourcesByType(Book)) + multiset(GetResourcesByType(ProductType)) == multiset(Catalogue)
    ensures IsSubsequence(GetResourcesByType(Book), Catalogue)
    ensures IsSubsequence(GetResourcesByType(ProductType), Catalogue)
  {
    FilterComplement(Catalogue, r => HasType(Book, r), r => HasType(ProductType, r));
    FilterIsSubsequence(Catalogue, r => HasType(Book, r));
    FilterIsSubsequence(Catalogue, r => HasType(ProductType, r));
  }

  /** A resource is listed under its type and only there. */
  lemma ByTypeMembers(kind: ResourceType, x: Resource)
    ensures x in GetResourcesByType(kind) <==> x in Catalogue && x.kind == kind
  {
    FilterMembers(Catalogue, r => HasType(kind, r), x);
  }
}
