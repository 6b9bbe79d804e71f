# LAG Immobiliers: a verified model of the site's logic

LAG Immobiliers is a real-estate marketing site. It has a property catalogue
(`/biens`), support services ("accompagnements"), products and books, and
contact and interest forms. Under the React pages sits a layer of small,
synchronous logic. This project models that layer in Dafny and proves
properties about it:

- **Property view helpers** (`lib/types/property.ts`):
  - typed facts pulled from the free-form characteristic list by
    case-insensitive alias lookup: beds, baths, area, rooms, type, amenities
    and feature badges;
  - price and address labels with their fallbacks;
  - main-image choice and image ordering;
  - URL slugs.
- **The three API services** (`lib/api/properties.ts`, `lib/api/products.ts`,
  `lib/api/services.ts`):
  - the local filter pipelines;
  - page-based and offset-based pagination;
  - the query pairs sent to the server and lookup by id;
  - the fallback rules of the service client, including the one in-place sort
    of the shared fallback array.
- **Sorting and lookup helpers** for services, products and the fixed
  resources table.
- **Stateful components**, each modelled as a class whose methods update its
  fields:
  - the favourites, search and fetch hooks;
  - the filter state of the `/biens` page;
  - the two carousels;
  - the interest dialog;
  - the interest, order and contact forms.
- **The footer's phone formatting** and its contact fallbacks.

Conventions of the model:

- A JavaScript object that is iterated with `Object.entries` (filter objects,
  the page's filter state) is an ordered list of key/value entries. This keeps
  the insertion order and keys that hold `undefined`.
- `undefined` and `null` inputs are `None`.
- Truthiness, `||`, `slice` with negative positions, `parseInt` and `Number`
  are written out in `JsObject`, `Collections` and `Strings`.
- `Array.prototype.sort` is stable. It is modelled by a functional stable
  insertion sort `Sorting.SortByKey`. The one sort that works in place,
  `getFeaturedServices`, is an array insertion sort proved equal to it.
- Regular expressions are hand-written scanners. The two email patterns are
  proved equal to an existential description of what the pattern matches.

The product helpers read `discount` as a percentage (`lib/types/product.ts:61`).
The product filter and the order form subtract it as an amount
(`lib/api/products.ts:248`, `components/forms/OrderForm.tsx:54`). The model
keeps both readings, and `ProductTypes.PercentageAndAmountDisagree` exhibits a
product on which they differ.

## Model

| member | source | states |
|---|---|---|
| PropertyTypes.FormatAmount | lib/types/property.ts:9-38 | The fallback text for a missing amount; otherwise a text from which `parseInt` reads back the amount exactly when it is non-negative |
| PropertyTypes.FormatPrice | lib/types/property.ts:9-14 | `Prix non disponible` without a monthly price; otherwise the amount's digits followed by `€/mois`, and the amount reads back |
| PropertyTypes.FormatCharges | lib/types/property.ts:17-22 | `Charges non disponibles` without charges; otherwise the amount followed by `€/mois`, and the amount reads back |
| PropertyTypes.FormatDeposit | lib/types/property.ts:25-30 | `Dépôt non disponible` without a first deposit; otherwise the amount followed by `€`, and the amount reads back |
| PropertyTypes.FormatApplicationFees | lib/types/property.ts:33-38 | `Frais non disponibles` without dossier fees; otherwise the amount followed by `€`, and the amount reads back |
| PropertyTypes.AvailabilityFollowsDeletion | lib/types/property.ts:222-224 | `isPropertyAvailable` depends on the deletion mark alone: a missing or soft-deleted property is unavailable, any property without the mark is available |
| PropertyTypes.TotalMonthlyCost | lib/types/property.ts:196-199 | 0 without a property or price object; otherwise rent plus charges, a missing amount counting as 0 |
| PropertyTypes.FormatTotalMonthlyCost | lib/types/property.ts:201-204 | The fallback text exactly when the total is 0; a positive total reads back from the text |
| PropertyTypes.PushIfPresent | lib/types/property.ts:43-46 | Appends the field to the parts exactly when it is non-empty |
| PropertyTypes.GetFullAddress | lib/types/property.ts:40-49 | `Adresse non disponible` without an address; otherwise the non-empty fields among addressLine1, city, postalCode and country joined by `", "`, or `Adresse incomplète` when none is non-empty; `addressLine2` is never read |
| PropertyTypes.GetShortAddress | lib/types/property.ts:51-58 | The same over city and postalCode, with the `Localisation …` fallbacks |
| PropertyTypes.AddressLabelShape | lib/types/property.ts:40-58 | An address label names every non-empty field it was built from, and is the "incomplete" text when every field is empty |
| PropertyTypes.GetMainImage | lib/types/property.ts:60-73 | The placeholder when no image has a URL; otherwise the URL of the first URL-bearing image with the least order, an empty order reading as 0 |
| PropertyTypes.MainImageIsFirstMinimum | lib/types/property.ts:65-68 | The head of the sorted URL-bearing images is the first one with the least order, because the sort is stable |
| PropertyTypes.GetAllImages | lib/types/property.ts:75-86 | One URL per URL-bearing image |
| PropertyTypes.AllImagesSpec | lib/types/property.ts:75-86 | The URLs are a permutation of the URL-bearing images' URLs, none empty, listed in non-decreasing order, and the first one is `getMainImage` |
| PropertyTypes.FindCharacteristic | lib/types/property.ts:88-102 | A found value is never empty |
| PropertyTypes.FindCharacteristicSpec | lib/types/property.ts:88-102 | The lookup succeeds iff the first characteristic whose name equals the alias case-insensitively has a non-empty value, and then returns that value |
| PropertyTypes.FirstOfSpec | lib/types/property.ts:105-108 | Chained lookups give the value of the first alias that yields a non-empty value, and nothing only when no alias yields one |
| PropertyTypes.GetPropertyBeds | lib/types/property.ts:104-110 | Never empty; `N/A` when no bed alias yields a value, else the first yielded value |
| PropertyTypes.GetPropertyBaths | lib/types/property.ts:112-122 | Never empty; `N/A` without a value; `oui`/`yes` in any case give `1`; any other value is returned as it is |
| PropertyTypes.GetPropertyArea | lib/types/property.ts:124-132 | Never empty; `N/A` without a value; the value unchanged when it has no digit; otherwise the first maximal run of digits in it |
| PropertyTypes.GetPropertyRooms | lib/types/property.ts:134-140 | Never empty; `N/A` when no room alias yields a value, else the first yielded value |
| PropertyTypes.HasAmenity | lib/types/property.ts:176-184 | True iff the amenity's lookup yields a value that is not `non`, `no` or `false` in any case |
| PropertyTypes.PropertyTypePrecedence | lib/types/property.ts:206-220 | A room count that parses decides (1 is `Studio`, n is `T{n}`); otherwise a bed count that parses (0 is `Studio`, n is `T{n+1}`); otherwise `Appartement` |
| PropertyTypes.TypeLabelsReadBack | lib/types/property.ts:213-217 | The digits after `T` read back as the room count, or as the bed count plus one |
| PropertyTypes.FeaturesSpec | lib/types/property.ts:142-174 | The badges are an order-preserving subsequence of the characteristic names; none is an excluded bed, surface or room name; each belongs to a characteristic whose value is non-empty and not `non/no/false/0/0m²/0 m²`; conversely every such characteristic gives a badge, and there are exactly as many badges as such characteristics |
| PropertyTypes.FeaturesKeepBathrooms | lib/types/property.ts:152-173 | A bathroom-named characteristic with a shown value becomes a badge, because no bathroom name is excluded |
| PropertyTypes.GetCharacteristicsMap | lib/types/property.ts:186-194 | The loop's dictionary equals the dictionary built entry by entry, a later entry overwriting an earlier one |
| PropertyTypes.MapAfterSpec | lib/types/property.ts:186-194 | A name is a key iff some characteristic with a non-empty name and value records it; its value comes from the last such characteristic |
| PropertyTypes.SlugSpec | lib/types/property.ts:226-238 | `property-details` without a title; otherwise only `[a-z0-9-]`, no dash at either end, no two dashes in a row; a non-empty slug used as the title slugs to itself |
| PropertyTypes.SlugifyIsSlug | lib/types/property.ts:228-237 | The replace chain always produces a slug-shaped string |
| PropertyTypes.SlugFixedPoint | lib/types/property.ts:228-237 | A slug-shaped string passes through the chain unchanged |
| PropertyTypes.SlugCanBeEmpty | lib/types/property.ts:227-237 | A title with no letter or digit gives the empty slug, not the default |
| Media.MainImage | lib/types/service.ts:37-43 | The placeholder for an empty list; otherwise the URL of the first image with the least order |
| Media.AllImageUrlsSpec | lib/types/service.ts:45-48 | The URLs are a permutation of all image URLs with none dropped, ordered by `parseInt(order)`, and the first one is the main image |
| Media.HeadIsFirstMinimum | lib/types/product.ts:74-80 | The sorted copy's head is the first image with the least order |
| ServiceTypes.FormatServicePrice | lib/types/service.ts:33-35 | The text is the amount's digits followed by `€/mois`; a non-negative amount reads back with `parseInt` |
| ServiceTypes.GetServiceFeatures | lib/types/service.ts:50-52 | The list itself, or the empty list when it is missing |
| ServiceTypes.SortServicesSpec | lib/types/service.ts:54-56 | The sorted copy is a permutation, non-decreasing by order, headed by the first service with the least order |
| ProductTypes.DiscountedPrice | lib/types/product.ts:59-65 | Before rounding: the price when the discount is not positive, else `price × (100 − discount) / 100`; a discount within 0..100 keeps it within `[0, price]` |
| ProductTypes.PercentageAndAmountDisagree | lib/types/product.ts:61 | A price of 2499 with discount 500 formats as −9996 as a percentage, which is not the 1999 the product filter uses |
| ProductTypes.OnSaleMeansReduced | lib/types/product.ts:59-93 | `isProductOnSale` holds iff the original price is shown, and, for a non-zero price, iff the discounted price differs from the price; on sale, a positive price is lowered |
| ProductTypes.GetOriginalPrice | lib/types/product.ts:67-72 | Present iff the product is on sale (discount > 0); then the price reads back from it |
| ProductTypes.GetProductTypeLabel | lib/types/product.ts:99-108 | `Livre` exactly for `BOOK`; every other value, declared or not, gives `Produit` |
| Resources.GetResourceBySlug | lib/resources.ts:189-191 | Nothing iff no resource has the slug; otherwise the first resource with it |
| Resources.GetResourceById | lib/resources.ts:193-195 | Nothing iff no resource has the id; otherwise the first resource with it |
| Resources.GetAllResources | lib/resources.ts:197-199 | The table: four resources with ids 1 to 4 |
| Resources.GetResourcesByType | lib/resources.ts:201-203 | Every listed resource has the requested type |
| Resources.ByTypeMembers | lib/resources.ts:201-203 | A resource is listed under a type iff it is in the table with that type |
| Resources.TypesPartitionCatalogue | lib/resources.ts:201-203 | The books and the products are order-preserving subsequences that together hold the whole table |
| Resources.GetFeaturedResources | lib/resources.ts:205-207 | The first `min(limit, 4)` resources (the whole table by default); a negative limit drops entries from the end |
| Resources.CatalogueKeysDistinct | lib/resources.ts:26-187 | Ids and slugs are pairwise distinct |
| Resources.LookupsFindEachResource | lib/resources.ts:189-195 | Each resource is found by its own slug and by its own id |
| JsObject.QueryPairs | lib/api/properties.ts:772-775 | The loop's pairs equal the defined entries rendered with `String(value)`, in key order |
| JsObject.QueryPairsMembers | lib/api/properties.ts:773-774 | A pair is sent iff some entry has that key, a value other than `undefined`, and that value's text; `""` and `false` are sent |
| JsObject.QueryPairsConcat | lib/api/products.ts:295-297 | The query of two concatenated objects is the concatenation of their queries, so key order is kept |
| JsObject.NumOr | lib/api/properties.ts:758-759 | `v \|\| d` for a number: the value when truthy, the default for `undefined` or 0 |
| JsObject.GetSpread | app/biens/page.tsx:133-134 | After `{...o, ...patch}`, a patch key reads as in the patch and any other key as before |
| PropertyApi.ApplyFilters | lib/api/properties.ts:864-890 | The step-by-step narrowing equals one filter by the conjunction of the active steps |
| PropertyApi.RunAll | lib/api/properties.ts:864-890 | The five steps, in order, select exactly the properties that match them all |
| PropertyApi.FilterSpec | lib/api/properties.ts:864-890 | The result is an order-preserving subsequence of the input, and a property is in it iff it is in the input and passes every active step |
| PropertyApi.NoActiveFilterIsIdentity | lib/api/properties.ts:864-890 | With no active step the input is returned unchanged |
| PropertyApi.FalsyValueIsAbsent | lib/api/properties.ts:869-880 | A `city`, `search`, `minPrice` or `maxPrice` of `""` or 0 filters exactly as if it were absent |
| PropertyApi.FeaturedFalseFilters | lib/api/properties.ts:866-868 | `isFeatured: false` is an active step that keeps only properties that are not featured |
| PropertyApi.PriceBoundsInclusive | lib/api/properties.ts:874-879 | The bounds are inclusive on the monthly price |
| PropertyApi.PageOf | lib/api/properties.ts:760-769 | `total` is the filtered count, `take` the limit, and `totalPages` is `ceil(total / limit)` |
| PropertyApi.Paginate | lib/api/properties.ts:758-759 | The limit defaults to 10 and the page to 1, and only for `undefined` or 0; a negative page is kept |
| PropertyApi.PageWindow | lib/api/properties.ts:760-761 | A page is the window of `limit` items starting at `(page − 1) × limit`, empty past the end |
| PropertyApi.PagePastEnd | lib/api/properties.ts:761-762 | A page beyond `totalPages` has no items |
| PropertyApi.NoItemsNoPages | lib/api/properties.ts:762 | An empty list has 0 pages |
| PropertyApi.PagesCoverList | lib/api/properties.ts:760-762 | Pages 1 to `totalPages`, end to end, are the whole filtered list |
| PropertyApi.NegativePageCountsFromEnd | lib/api/properties.ts:759-761 | Page −1 of 30 items is not clamped: it yields items 10 to 19 |
| PropertyApi.GetFilteredProperties | lib/api/properties.ts:756-770 | The mock branch filters, then paginates the filtered list |
| PropertyApi.FilteredRequest | lib/api/properties.ts:772-777 | The path `/property/filter`, and a pair for exactly each entry whose value is not `undefined` |
| PropertyApi.GetPropertyById | lib/api/properties.ts:786-791 | Fails with `Property with ID … not found` iff no property has the id; otherwise the first match |
| PropertyApi.RepeatedIdResolvesToFirst | lib/api/properties.ts:786-791 | On the fixture table's ids, the repeated id always resolves to its first property |
| PropertyApi.FeaturedView | lib/api/properties.ts:798-802 | `getFeaturedProperties` sends exactly `{isFeatured: true, limit}`, with limit 6 by default |
| PropertyApi.GetFeaturedProperties | lib/api/properties.ts:798-804 | The first `limit` featured properties, in table order |
| PropertyApi.SearchView | lib/api/properties.ts:828-832 | `searchProperties` sends exactly `{search: query, limit}`, with limit 20 by default |
| PropertyApi.SearchProperties | lib/api/properties.ts:828-834 | The first `limit` properties whose title, description or city contains the query case-insensitively |
| ProductApi.ApplyFilters | lib/api/products.ts:236-262 | The step-by-step narrowing equals one filter by the conjunction of the six active steps |
| ProductApi.FilterSpec | lib/api/products.ts:236-262 | The result is an order-preserving subsequence holding exactly the matching products |
| ProductApi.NoActiveFilterIsIdentity | lib/api/products.ts:236-262 | With no active step the input is returned unchanged |
| ProductApi.PriceBoundsOnEffectivePrice | lib/api/products.ts:247-252 | With both bounds set, a product passes them iff `min ≤ price − discount ≤ max` |
| ProductApi.CategoryIsExact | lib/api/products.ts:241-243 | The category step is exact equality; a product without a category never passes it |
| ProductApi.PageAt | lib/api/products.ts:280-291 | `page = floor(offset / limit) + 1`; `hasNext` iff `offset + limit < total`; `hasPrev` iff `offset > 0`; `total` counts every filtered item |
| ProductApi.Paginate | lib/api/products.ts:280-281 | The limit defaults to 10 for `undefined` or 0 |
| ProductApi.PageWindow | lib/api/products.ts:283 | From a non-negative offset the items are the window of `limit` items there |
| ProductApi.HasNextMeansMore | lib/api/products.ts:290 | `hasNext` says exactly that items remain after this page |
| ProductApi.PageNumberOfAlignedOffset | lib/api/products.ts:282 | The offset `k × limit` is page `k + 1` |
| ProductApi.GetFilteredProducts | lib/api/products.ts:278-292 | The mock branch filters, then takes the page at the offset |
| ProductApi.GetProductById | lib/api/products.ts:307-312 | Fails with `Product with ID … not found` iff no product has the id; otherwise the first match |
| ProductApi.ByTypeView | lib/api/products.ts:328-332 | `getProductsByType` sends exactly `{type, limit}` |
| ProductApi.ByTypeQueryWithoutLimit | lib/api/products.ts:294-297 | Without a limit the `limit` key holds `undefined` and is not sent |
| ProductApi.GetProductsByType | lib/api/products.ts:328-334 | The first `limit \|\| 10` products of that type, in table order |
| ServiceApi.QueryPairs | lib/api/services.ts:153-157 | A pair is appended iff its filter (`search`, `minPrice`, `maxPrice`) is truthy, holding the value's text; the keys come in that order, none twice; no pairs when all are falsy |
| ServiceApi.SentPairsDetermined | lib/api/services.ts:153-157 | The membership and order stated for the pairs leave exactly one possible list |
| ServiceApi.QueryString | lib/api/services.ts:159 | The query text is empty iff there are no pairs |
| ServiceApi.QueryStringRoundTrip | lib/api/services.ts:159 | Read back as `&`-separated `key=value` pieces, the query text gives exactly the pairs it was made of (keys without `=` or `&`, values without `&`) |
| ServiceApi.FilteredEndpoint | lib/api/services.ts:153-160 | The bare path `/accompaniements` iff no filter is truthy; otherwise the path, `?` and the query text of the sent pairs, which reads back as exactly those pairs when the search text has no `&` |
| ServiceApi.FilterFallback | lib/api/services.ts:165-186 | The two steps equal one filter by the search test and the price test |
| ServiceApi.FallbackFilterSpec | lib/api/services.ts:167-184 | Order-preserving; a service is kept iff it passes both tests; bounds of 0 constrain nothing |
| ServiceApi.ServiceClient.constructor | lib/api/services.ts:4 | The client holds one fallback array with the table's services |
| ServiceApi.ServiceClient.GetAllServices | lib/api/services.ts:141-149 | The fetched array, or the fallback array itself (not a copy) when the request fails |
| ServiceApi.ServiceClient.GetFilteredServices | lib/api/services.ts:151-187 | The server's list, or the fallback's current contents filtered locally |
| ServiceApi.ServiceClient.GetServiceById | lib/api/services.ts:190-201 | The server's service; on failure the first fallback service with the id, or `Service not found` iff none has it |
| ServiceApi.ServiceClient.GetFeaturedServices | lib/api/services.ts:204-211 | Sorts the fetched or fallback array in place (its new contents are the stable sort of the old) and returns its first `limit` entries (3 by default); the fallback changes only on the fallback path |
| ServiceApi.FeaturedSpec | lib/api/services.ts:207-210 | At most `limit` services, a prefix of the sorted list, non-decreasing by `parseInt(order)` |
| ServiceApi.FeaturedFromInput | lib/api/services.ts:207-210 | Every featured service comes from the input, each at most as often |
| ServiceApi.SecondSortChangesNothing | lib/api/services.ts:210 | Sorting the already sorted fallback again leaves it as it is |
| ServiceApi.FallbackAlreadySorted | lib/api/services.ts:4-147 | A table whose orders are `0`, `2`, `111` is already sorted |
| Sorting.SortInPlace | lib/api/services.ts:207 | The array after the in-place sort holds the stable sort of its old contents |
| Sorting.InsertStep | lib/api/services.ts:207 | One insertion step puts `a[i]` into the sorted prefix and leaves the rest unchanged |
| Sorting.InsertLands | lib/api/services.ts:207 | When every key from position `j` on exceeds `key(x)` and the one before `j` does not, insertion places `x` exactly at `j` |
| Sorting.SortByKeyPermutation | lib/types/service.ts:55 | The sort is a permutation of its input |
| Sorting.SortByKeySorted | lib/types/service.ts:55 | The sort's result is non-decreasing by key |
| Sorting.SortHeadIsFirstMinimum | lib/types/service.ts:41-42 | The stable sort's head is the first element with the least key |
| Sorting.SortIdempotent | lib/types/service.ts:55 | Sorting twice is sorting once |
| Collections.JsSlice | lib/api/properties.ts:761 | `slice` never fails; with bounds inside the list it is the plain sub-sequence; from past the end it is empty |
| Collections.Find | lib/api/properties.ts:787 | `find`: nothing iff no element passes; otherwise the first element that passes |
| Strings.ParseInt | lib/types/property.ts:212 | `parseInt` yields a number iff the text starts with a digit |
| Strings.NumberTextReadsBack | lib/types/property.ts:212 | A number's text followed by a non-digit reads back as that number |
| Strings.FirstDigitRun | lib/types/property.ts:130 | `match(/\d+/)`: nothing iff no digit; otherwise a non-empty digit run that is the first maximal one |
| Strings.TrimOfUnique | app/biens/page.tsx:570 | `Trim(s)` cuts only whitespace from the ends and leaves none there, and it is the only string that does |
| Strings.JoinSplit | lib/api/services.ts:159 | Joining parts free of the separator and splitting again gives back the parts |
| Strings.TrimShape | components/sections/ContactSection.tsx:51 | `trim` removes exactly the leading and trailing whitespace, and nothing inside |
| Strings.BlankIffTrimEmpty | lib/hooks/useProperties.ts:182 | `!s.trim()` holds exactly for whitespace-only strings |
| Strings.IncludesShift | lib/api/properties.ts:871 | `includes` is decided position by position |
| PropertyHooks.Toggled | lib/hooks/useProperties.ts:255-259 | The id is in the result iff it was not in the list; every other id keeps its membership |
| PropertyHooks.ToggleKeepsOthersInOrder | lib/hooks/useProperties.ts:257-259 | The other ids keep their relative order |
| PropertyHooks.ToggleKeepsDistinct | lib/hooks/useProperties.ts:257-259 | A duplicate-free list stays duplicate-free |
| PropertyHooks.ToggleTwice | lib/hooks/useProperties.ts:256-259 | Toggling an absent id twice restores the list; a present id comes back once, at the end |
| PropertyHooks.Interactions.constructor | lib/hooks/useProperties.ts:242-253 | Favourites start as the saved list, or empty |
| PropertyHooks.Interactions.ToggleFavorite | lib/hooks/useProperties.ts:255-268 | The list becomes its toggle, and `isFavorite` flips |
| PropertyHooks.Interactions.ExpressInterest | lib/hooks/useProperties.ts:273-288 | Adds the id when absent, never removes one, answers true and ends not loading |
| PropertyHooks.Search.constructor | lib/hooks/useProperties.ts:176-179 | Empty results and query, not loading, no error |
| PropertyHooks.Search.Run | lib/hooks/useProperties.ts:181-200 | A blank query clears results and query and sends nothing; otherwise it records the query, then the results or the error, and ends not loading |
| PropertyHooks.Search.Clear | lib/hooks/useProperties.ts:202-206 | Results, query and error are emptied |
| PropertyHooks.Fetch.constructor | lib/hooks/useProperties.ts:49-51 | A fetch hook starts loading, without an error |
| PropertyHooks.Fetch.Complete | lib/hooks/useProperties.ts:55-65 | Success stores the data and clears the error; failure sets the error and keeps the earlier data; loading ends either way |
| PropertyHooks.Fetch.LoadById | lib/hooks/useProperties.ts:93-110 | An empty id ends loading and fetches nothing; otherwise as `Complete` |
| PropertyHooks.StaleDataAfterFailure | lib/hooks/useProperties.ts:60-65 | A failed refetch after a success still shows the first data, with the error message |
| BiensPage.ActiveFiltersCount | app/biens/page.tsx:138-143 | 0 iff no entry other than `page`/`limit` holds a value other than `undefined`, `""` or `null` |
| BiensPage.CountAfterNewKey | app/biens/page.tsx:138-143 | A new key adds one exactly when its entry counts; `false` and 0 count |
| BiensPage.FilterState.constructor | app/biens/page.tsx:123 | The state starts as `{page: 1, limit: 12}` |
| BiensPage.FilterState.UpdateFilters | app/biens/page.tsx:133-134 | Patch keys take the patch's values, other keys keep theirs, and `page` becomes 1 |
| BiensPage.FilterState.ResetFilters | app/biens/page.tsx:145 | Back to `{page: 1, limit: 12}`, with no active filter |
| BiensPage.FilterState.GoToPage | app/biens/page.tsx:405 | Only `page` changes |
| BiensPage.BoundOf | app/biens/page.tsx:241-242 | A bound is `undefined` or a positive number |
| BiensPage.DecodePriceRange | app/biens/page.tsx:238-243 | The patch sets `minPrice` then `maxPrice`; `""` clears both |
| BiensPage.EncodePriceRange | app/biens/page.tsx:231-237 | The value is `""` iff the minimum is falsy |
| BiensPage.RangeRoundTrip | app/biens/page.tsx:231-243 | Two positive bounds survive encode-then-decode, and their option re-encodes to itself |
| BiensPage.ListedRangesRoundTrip | app/biens/page.tsx:231-243 | `700-900`, `900-1200` and `1200-1500` re-encode to themselves |
| BiensPage.ZeroMinimumIsDropped | app/biens/page.tsx:241-242 | `0-700` keeps only a maximum and re-encodes as `""` |
| BiensPage.OpenRangeSetsNoBound | app/biens/page.tsx:241-242 | `1500+` is not a number and sets no bound |
| BiensPage.MinimumAloneIsLost | app/biens/page.tsx:234-242 | A minimum alone encodes as `min+`, which decodes to no bound |
| BiensPage.TruncateText | app/biens/page.tsx:569-570 | Text that fits is unchanged; otherwise the first `maxLength` characters with the whitespace at both ends cut until none is left there (`Trim`, characterised by `TrimOfUnique`), then `…` |
| BiensPage.PagerOf | app/biens/page.tsx:745-747 | `totalPages = ceil(total / take)`; Prev is disabled iff `page ≤ 1`, Next iff `page ≥ totalPages` |
| BiensPage.PagerItemsInRange | app/biens/page.tsx:746-747 | On a page in range, `1 ≤ startItem ≤ endItem ≤ total` |
| BiensPage.ShownPagerHasNext | app/biens/page.tsx:400 | A shown pager (`total > take`) has two or more pages, so Next is enabled on page 1 |
| BiensPage.Run | app/biens/page.tsx:754-756 | The loop's range is the pages `lo..hi`, or empty when `hi < lo` |
| BiensPage.GetVisiblePages | app/biens/page.tsx:749-773 | The loop and pushes build the window: page 1, the pages within 2 of the current one strictly inside, the last page, with `...` where pages are skipped |
| BiensPage.VisiblePagesEnds | app/biens/page.tsx:749-773 | Starts with 1, ends with `totalPages` when there are two or more pages, has at most 9 entries and shows the current page |
| BiensPage.VisiblePagesIncrease | app/biens/page.tsx:754-770 | Every number is a page in range, and the numbers strictly increase |
| BiensPage.VisiblePagesSpaced | app/biens/page.tsx:758-770 | Adjacent numbers differ by one; every `...` stands for at least one skipped page |
| Carousel.NextIndex | components/sections/PropertiesSection.tsx:345 | `(i + 1) % n` stays in `[0, n)`: the next slide, wrapping after the last |
| Carousel.PrevIndex | components/sections/PropertiesSection.tsx:337 | `(i − 1 + n) % n` stays in `[0, n)`: the previous slide, wrapping before the first |
| Carousel.PrevUndoesNext | components/sections/PropertiesSection.tsx:337-345 | Back undoes forward and forward undoes back |
| Carousel.AdvanceWraps | components/sections/PropertiesSection.tsx:237-241 | Up to `n` ticks move the index by that many, wrapping once |
| Carousel.FullCycle | components/sections/TestimonialsSection.tsx:35-40 | `n` ticks return to the starting index |
| PropertiesSection.GetPropertyDetails | components/sections/PropertiesSection.tsx:45-58 | Beds and baths are shown iff numerically positive, as the extracted text; area as `{n} m²`; the type is the extracted one; `hasBasicInfo` always holds |
| PropertiesSection.TypeLabelNonEmpty | components/sections/PropertiesSection.tsx:57 | The extracted type is never empty, so the fallback label is never used |
| PropertiesSection.MissingBedsAreHidden | components/sections/PropertiesSection.tsx:54 | Without a bed value (`N/A`) no bed count is shown |
| PropertiesSection.Section.constructor | components/sections/PropertiesSection.tsx:225-231 | Index 0, nothing selected, no error and no configuration |
| PropertiesSection.Section.Loaded | components/sections/PropertiesSection.tsx:237-241 | The slide count follows the loaded list; the index and dialog fields are kept |
| PropertiesSection.Section.Next | components/sections/PropertiesSection.tsx:345 | The index steps forward modulo the count and stays valid; the dialog fields are untouched |
| PropertiesSection.Section.Prev | components/sections/PropertiesSection.tsx:337 | The index steps back modulo the count and stays valid; the dialog fields are untouched |
| PropertiesSection.Section.GoTo | components/sections/PropertiesSection.tsx:356 | A dot click sets the index exactly |
| PropertiesSection.Section.HandlePropertyInterest | components/sections/PropertiesSection.tsx:263-269 | Selects the property, clears the error, sets a property-request configuration with its id; the dialog opens |
| PropertiesSection.Section.HandleFormError | components/sections/PropertiesSection.tsx:254-256 | Records the error and changes nothing else |
| PropertiesSection.Section.HandleFormSuccess | components/sections/PropertiesSection.tsx:258-261 | Clears the error and the selection but keeps the configuration; the dialog closes |
| PropertiesSection.Section.Close | components/sections/PropertiesSection.tsx:383-389 | Clears selection, error and configuration |
| Testimonials.Section.constructor | components/sections/TestimonialsSection.tsx:33 | Starts at index 0 with a defined current testimonial |
| Testimonials.Section.CurrentTestimonial | components/sections/TestimonialsSection.tsx:42 | The current testimonial is always one of the table's |
| Testimonials.Section.GoToNext | components/sections/TestimonialsSection.tsx:48-50 | The next index, wrapping, kept within the table |
| Testimonials.Section.GoToPrevious | components/sections/TestimonialsSection.tsx:44-46 | The previous index, wrapping, kept within the table |
| Testimonials.Section.GoTo | components/sections/TestimonialsSection.tsx:113 | A dot click sets the index exactly |
| Testimonials.RoundTrips | components/sections/TestimonialsSection.tsx:44-50 | Back after forward, forward after back, and three ticks all return to the start |
| InterestForm.CreateRequestConfig | components/forms/InterestForm.tsx:63-88 | Succeeds iff the type is `property` or `service`; keeps the type and id; the property endpoint iff `property`; otherwise fails with `Unsupported request type: …` |
| InterestForm.EndpointsUnderBase | components/forms/InterestForm.tsx:64-80 | Both endpoints are paths under the API base URL |
| InterestForm.NameError | components/forms/InterestForm.tsx:114-123 | No error iff the length is 2 to 50; the required message for `""` |
| InterestForm.PhonePrefixesAgree | components/forms/InterestForm.tsx:134 | `0` and `+33` before the same nine digits decide alike: a digit 1-9, then eight digits |
| InterestForm.EmailValidIffPattern | components/forms/InterestForm.tsx:127 | The scanner accepts exactly the strings of the form local part, `@`, domain, `.`, two or more letters, case-insensitively |
| InterestForm.EmailError | components/forms/InterestForm.tsx:124-130 | No error iff non-empty and matching; the invalid message iff non-empty and not matching |
| InterestForm.PhoneError | components/forms/InterestForm.tsx:131-137 | No error iff non-empty and a French number |
| InterestForm.FormValidMeans | components/forms/InterestForm.tsx:113-138 | The form is valid iff both names have 2 to 50 characters, the email matches and the phone is French |
| InterestForm.BuildPayload | components/forms/InterestForm.tsx:140-155 | Keeps every form field and adds exactly `propertyId` (property) or `accompaniementId` (service) holding the configuration's id |
| InterestForm.ConfigBuildsPayload | components/forms/InterestForm.tsx:63-155 | A configuration made by `createRequestConfig` always builds its payload |
| InterestForm.ErrorDataOf | components/forms/InterestForm.tsx:171-185 | Without a JSON body: the status, the status text and the generic message; with one, each of `statusCode`, `error` and `message` is the server's value when truthy and otherwise that fallback; the message is always truthy |
| InterestForm.Form.constructor | components/forms/InterestForm.tsx:95-111 | Empty fields, the configuration's default message, status idle |
| InterestForm.Form.Submit | components/forms/InterestForm.tsx:157-211 | Invalid values send nothing; otherwise it sends the payload; OK gives success; a 400 with `onError` gives idle and reports the error data; any other failure gives error with its message |
| InterestForm.Form.FinishSuccess | components/forms/InterestForm.tsx:195-200 | After success the fields are reset and the status is idle |
| OrderForm.FinalPrice | components/forms/OrderForm.tsx:54 | Price minus the discount, a missing discount counting as 0; never above the price for a non-negative discount |
| OrderForm.PriceLabelOf | components/forms/OrderForm.tsx:158-160 | `Gratuit` iff the final price is not positive; otherwise the amount |
| OrderForm.FormAgreesWithCatalogue | components/forms/OrderForm.tsx:54 | The form charges the effective price the product filter uses |
| OrderForm.FullDiscountIsFree | components/forms/OrderForm.tsx:54-160 | A discount at least the price makes the product free |
| OrderForm.AddressFieldOf | components/forms/OrderForm.tsx:57-58 | The name after `address.`, up to the next dot |
| OrderForm.AddressFieldNames | components/forms/OrderForm.tsx:57-58 | `address.X` names `X` |
| OrderForm.CountryNotRequired | components/forms/OrderForm.tsx:87-97 | The country never decides validity |
| OrderForm.BlankNameInvalid | components/forms/OrderForm.tsx:87-97 | A field of spaces counts as empty |
| OrderForm.Form.constructor | components/forms/OrderForm.tsx:41-52 | Empty fields with country `France`; the form starts invalid |
| OrderForm.Form.HandleInputChange | components/forms/OrderForm.tsx:56-72 | `address.X` changes only `address.X`; any other name changes only that top-level field |
| ContactSection.RequiredMessage | components/sections/ContactSection.tsx:51-60 | A required message exists exactly for the five text fields other than the email |
| ContactSection.EmailMatchesIffShape | components/sections/ContactSection.tsx:55 | The scanner accepts exactly `^[^\s@]+@[^\s@]+\.[^\s@]+$` |
| ContactSection.BlankEmailNeverMatches | components/sections/ContactSection.tsx:53-56 | A blank value never matches the pattern |
| ContactSection.PaddedEmailIsInvalid | components/sections/ContactSection.tsx:55 | The pattern runs on the untrimmed value, so a leading space is invalid |
| ContactSection.MatchingEmailIsTrimmed | components/sections/ContactSection.tsx:55-118 | A matching email is its own trim |
| ContactSection.WithField | components/sections/ContactSection.tsx:72 | Sets one field and leaves the others |
| ContactSection.ErrorOfSpec | components/sections/ContactSection.tsx:51-65 | A text field has its required error iff blank; the email has `Email requis` when blank, else `Email invalide` when not matching; the attachment errs iff larger than 10 MiB |
| ContactSection.ValidationErrorsSpec | components/sections/ContactSection.tsx:48-67 | The dictionary holds exactly the keys with an error, each with its message |
| ContactSection.NoErrorsMeans | components/sections/ContactSection.tsx:48-68 | No error means six non-blank fields, a matching email and an attachment of at most 10 MiB |
| ContactSection.AttachmentLimit | components/sections/ContactSection.tsx:62-65 | Exactly 10 MiB passes; one byte more fails |
| ContactSection.CollectErrors | components/sections/ContactSection.tsx:49-66 | The loop records the error of each checked key in order |
| ContactSection.ErrorsOverSpec | components/sections/ContactSection.tsx:49-66 | The checks record exactly the listed keys with an error, each with its message |
| ContactSection.SentAsTrimmed | components/sections/ContactSection.tsx:115-121 | Each submitted text field is the trimmed input |
| ContactSection.ValidFormSendsFilledData | components/sections/ContactSection.tsx:109-123 | A validated form sends no empty field, and the email exactly as validated |
| ContactSection.SubmitErrorOf | components/sections/ContactSection.tsx:136-154 | `Erreur {status}: {statusText}` for a failed answer; the thrown message, or `Erreur inattendue` |
| ContactSection.ContactForm.constructor | components/sections/ContactSection.tsx:33-45 | Empty fields, no file, no errors, not submitting |
| ContactSection.ContactForm.ValidateForm | components/sections/ContactSection.tsx:48-69 | Records a fresh dictionary and answers true iff it is empty |
| ContactSection.ContactForm.HandleInputChange | components/sections/ContactSection.tsx:71-76 | Sets the field; blanks its error only if one was shown; no other error changes |
| ContactSection.ContactForm.HandleFileUpload | components/sections/ContactSection.tsx:78-86 | A chosen file replaces the attachment and blanks a shown attachment error |
| ContactSection.ContactForm.RemoveFile | components/sections/ContactSection.tsx:88-91 | Drops the attachment and leaves the errors |
| ContactSection.ContactForm.Submit | components/sections/ContactSection.tsx:106-158 | Validates first; sends the trimmed data only when there is no error; success resets the form; failure records the message |
| Footer.DigitsOfSpec | components/sections/Footer.tsx:17 | Only digits remain, every digit stays, and stripping distributes over concatenation |
| Footer.FormatPhoneForDisplay | components/sections/Footer.tsx:14-22 | Nothing iff the input is empty |
| Footer.DisplaySpec | components/sections/Footer.tsx:14-22 | With exactly ten digits: 14 characters, spaces at 2, 5, 8 and 11, digits unchanged; otherwise the input as it is |
| Footer.DisplayIdempotent | components/sections/Footer.tsx:14-22 | Formatting a displayed number again changes nothing |
| Footer.GroupedSpec | components/sections/Footer.tsx:19 | The grouped form is 14 characters with spaces exactly at 2, 5, 8, 11, and strips back to its digits |
| Footer.FormatPhoneForLink | components/sections/Footer.tsx:25-28 | Nothing iff empty; always starts with `+`; a `+` input is unchanged; otherwise `+33` and the input without one leading `0` |
| Footer.LinkIdempotent | components/sections/Footer.tsx:25-28 | A link is its own link |
| Footer.LinkOfFrenchPhone | components/sections/Footer.tsx:14-28 | A valid national number links to the valid international one and displays in pairs |
| Footer.ContactBlockOf | components/sections/Footer.tsx:30-37 | The contact's email, or the fallback; the formatted phone and link, or the fallback phone and link when the number is missing |
| Footer.FallbackPhoneAgrees | components/sections/Footer.tsx:32 | The fallback phone is the display form of `0123456789` |
| Footer.FallbackLinkAgrees | components/sections/Footer.tsx:33 | The fallback link is the link form of the same number |
| Footer.FallbackPhoneIsDisplayed | components/sections/Footer.tsx:32 | Formatting the fallback phone leaves it unchanged |

## Left out

- HTTP, `fetch`, `makeRequest`/`fetchAPI` and `localStorage`: their outcomes
  are parameters (an optional fetched value, a response, an outcome).
  `localStorage` writes in `toggleFavorite` are not modelled.
- Random delays, `setTimeout`/`setInterval` timing, `FileReader` and
  base64 encoding: the encoded attachment is a parameter. The success timers
  are separate methods, such as `InterestForm.Form.FinishSuccess`.
- Async orchestration and effect re-runs. The stale-response race is not
  modelled: responses are applied in the order the methods are called.
- Floating point: prices are integers. `toFixed` rounding is not modelled.
  `ProductTypes.DiscountedPrice` gives the value before rounding, as a real.
- Percent-encoding in `URLSearchParams.toString`: pairs are joined as
  `key=value` without escaping.
- `ServiceApi.OrderKey`, `Media.OrderKey`, `PropertyTypes.OrderKey`: an order
  text that does not start with a digit reads as 0 here. The source compares
  `NaN`, which leaves the sort order to the engine.
- `Strings.ParseInt` and `Strings.NumberOf`: leading whitespace, signs,
  decimals and exponents are not read. `Number("1e3")` and `parseInt(" 3")`
  are not modelled.
- `InterestForm.NameError`, `BiensPage.TruncateText`: lengths and cuts count
  Unicode characters, where `length` and `substring` count UTF-16 code units.
  The two differ for characters outside the Basic Multilingual Plane: one emoji
  has length 2 in the source, and `substring` can split it in half.
- `Strings.ToLower`: lower-cases ASCII and the Latin-1 accented capitals
  only, not the full Unicode case mapping.
- `PropertyTypes.IsPropertyAvailable`: `deletedAt` is either `null` (`None`)
  or a date. A `deletedAt` that is `undefined` (which the source treats as
  not available) cannot be expressed.
- The `catch` branches of `getMainImage`/`getAllImages`/`findCharacteristic`:
  the model's inputs cannot throw, so the `Image+Error` placeholder is
  unreachable.
- `OrderForm.Form.HandleInputChange`: the field name `address` itself is
  excluded. It would replace the nested address object with a string.
- `InterestForm` rules run by react-hook-form: only the configured rules are
  modelled. The order in which the library reports several errors is not.
- The mock property and product tables are parameters. The fallback services
  and the resources are fixtures reduced to the fields the code reads:
  quotes, images, descriptions and ratings are left out.
- `getAllProperties`, `getAllProducts`, `getFeaturedProducts`,
  `searchProducts`, `submitPropertyInterest` and the `useServices`,
  `useProducts`, `useContact` and `useOrders` hooks: these are network calls
  or forward to modelled operations.
- UI rendering, animation, scroll offsets and the pages outside the modelled
  core are left out.
