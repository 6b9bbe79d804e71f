/**
 * The view helpers of `lib/types/property.ts`: price and address strings,
 * image selection, typed facts pulled out of the free-form characteristic
 * list, badge lists and URL slugs. Every helper accepts a missing property
 * (`None`) as the source accepts `null`/`undefined`.
 */
module PropertyTypes {
  import opened Wrappers
  import opened Strings
  import opened Collections
  import opened Sorting

  // ---------------------------------------------------------------------------
  // Data model (the interfaces of lib/api/properties.ts, reduced to the fields read here)
  // ---------------------------------------------------------------------------

  datatype Address = Address(city: string, postalCode: string, country: string,
                             addressLine1: string, addressLine2: string)

  /** Money fields; `None` is a field that is `undefined`. */
  datatype Price = Price(monthlyPrice: Option<int>, chargesPrice: Option<int>, dossierPrice: Option<int>,
                         ensurenceDepositPrice: Option<int>, firstDepositPrice: Option<int>)

  datatype Characteristic = Characteristic(name: string, value: string)

  datatype Image = Image(fullUrl: string, order: string)

  /** `deletedAt` is `None` for `null`; a missing address or price is `None`. */
  datatype Property = Property(id: string, title: string, description: string, isFeatured: bool,
                               deletedAt: Option<string>, address: Option<Address>, price: Option<Price>,
                               characteristics: seq<Characteristic>, images: seq<Image>)

  const Euro: char := '\U{20AC}'

  // ---------------------------------------------------------------------------
  // Price strings
  // ---------------------------------------------------------------------------

  /** The money fields the formatters print. */
  datatype PriceKind = Monthly | Charges | Dossier | FirstDeposit

  /** The money field `kind` of the property's price, when the property, its price and the field exist. */
  function PriceField(p: Option<Property>, kind: PriceKind): Option<int> {
    if p.None? || p.value.price.None? then None
    else
      var pr := p.value.price.value;
      match kind
      case Monthly => pr.monthlyPrice
      case Charges => pr.chargesPrice
      case Dossier => pr.dossierPrice
      case FirstDeposit => pr.firstDepositPrice
  }

  /**
   * `${amount}${suffix}`, or `fallback` when the amount is unknown. The number
   * reads back from the text: `parseInt` of the result is the amount exactly
   * when the amount is known and not negative.
   */
  function FormatAmount(amount: Option<int>, suffix: string, fallback: string): (r: string)
    requires suffix != [] && !IsDigit(suffix[0]) && fallback != [] && !IsDigit(fallback[0])
    ensures amount.None? ==> r == fallback
    ensures ParseInt(r).Some? <==> amount.Some? && amount.value >= 0
    ensures amount.Some? && amount.value >= 0 ==> ParseInt(r) == amount
  {
    if amount.None? then fallback
    else
      var n := amount.value;
      var r := IntToString(n) + suffix;
      if n >= 0 then
        NumberTextReadsBack(n, suffix);
        r
      else r
  }

  const PerMonth: string := [Euro] + "/mois"

  /** `formatPrice`: the monthly rent with `€/mois`, or `Prix non disponible`. */
  function FormatPrice(p: Option<Property>): (r: string)
    ensures PriceField(p, Monthly).None? ==> r == "Prix non disponible"
    ensures var m := PriceField(p, Monthly);
      m.Some? && m.value >= 0 ==> ParseInt(r) == m && r == NatToString(m.value) + PerMonth
  {
    FormatAmount(PriceField(p, Monthly), PerMonth, "Prix non disponible")
  }

  /** `formatCharges`: the monthly charges with `€/mois`, or `Charges non disponibles`. */
  function FormatCharges(p: Option<Property>): (r: string)
    ensures PriceField(p, Charges).None? ==> r == "Charges non disponibles"
    ensures var m := PriceField(p, Charges);
      m.Some? && m.value >= 0 ==> ParseInt(r) == m && r == NatToString(m.value) + PerMonth
  {
    FormatAmount(PriceField(p, Charges), PerMonth, "Charges non disponibles")
  }

  /** `formatDeposit`: the first deposit with `€`, or `Dépôt non disponible`. */
  function FormatDeposit(p: Option<Property>): (r: string)
    ensures PriceField(p, FirstDeposit).None? ==> r == "D\U{00E9}p\U{00F4}t non disponible"
    ensures var m := PriceField(p, FirstDeposit);
      m.Some? && m.value >= 0 ==> ParseInt(r) == m && r == NatToString(m.value) + [Euro]
  {
    FormatAmount(PriceField(p, FirstDeposit), [Euro], "D\U{00E9}p\U{00F4}t non disponible")
  }

  /** `formatApplicationFees`: the dossier fees with `€`, or `Frais non disponibles`. */
  function FormatApplicationFees(p: Option<Property>): (r: string)
    ensures PriceField(p, Dossier).None? ==> r == "Frais non disponibles"
    ensures var m := PriceField(p, Dossier);
      m.Some? && m.value >= 0 ==> ParseInt(r) == m && r == NatToString(m.value) + [Euro]
  {
    FormatAmount(PriceField(p, Dossier), [Euro], "Frais non disponibles")
  }

  /** `getTotalMonthlyCost`: rent plus charges, a missing (or zero) amount counting as 0. */
  function TotalMonthlyCost(p: Option<Property>): (r: int)
    ensures p.None? || p.value.price.None? ==> r == 0
    ensures p.Some? && p.value.price.Some? ==>
      r == p.value.price.value.monthlyPrice.GetOr(0) + p.value.price.value.chargesPrice.GetOr(0)
  {
    if p.None? || p.value.price.None? then 0
    else
      var pr := p.value.price.value;
      (if pr.monthlyPrice.Some? && pr.monthlyPrice.value != 0 then pr.monthlyPrice.value else 0) +
      (if pr.chargesPrice.Some? && pr.chargesPrice.value != 0 then pr.chargesPrice.value else 0)
  }

  const TotalSuffix: string := [Euro] + "/mois (tout compris)"
  const NoTotal: string := "Co\U{00FB}t total non disponible"

  /** `formatTotalMonthlyCost`: the fallback exactly when the total is 0; a positive total reads back. */
  function FormatTotalMonthlyCost(p: Option<Property>): (r: string)
    ensures TotalMonthlyCost(p) == 0 <==> r == NoTotal
    ensures TotalMonthlyCost(p) > 0 ==> ParseInt(r) == Some(TotalMonthlyCost(p))
  {
    var total := TotalMonthlyCost(p);
    if total != 0 then FormatAmount(Some(total), TotalSuffix, NoTotal) else NoTotal
  }

  /** `isPropertyAvailable`: a property that is present and not soft-deleted. */
  predicate IsPropertyAvailable(p: Option<Property>) {
    p.Some? && p.value.deletedAt.None?
  }

  /**
   * Availability depends on the deletion mark alone: soft-deleting any property
   * makes it unavailable, clearing the mark makes it available, and a missing
   * property is never available.
   */
  lemma AvailabilityFollowsDeletion(p: Property, when: string)
    ensures !IsPropertyAvailable(None)
    ensures !IsPropertyAvailable(Some(p.(deletedAt := Some(when))))
    ensures IsPropertyAvailable(Some(p.(deletedAt := None)))
    ensures IsPropertyAvailable(Some(p)) <==> p == p.(deletedAt := None)
  {
  }

  // ---------------------------------------------------------------------------
  // Address strings: the parts are pushed one by one into a local list
  // ---------------------------------------------------------------------------

  predicate NonEmpty(s: string) { s != "" }

  /** The address fields `getFullAddress` reads, in the order it reads them. */
  function FullAddressFields(a: Address): seq<string> {
    [a.addressLine1, a.city, a.postalCode, a.country]
  }

  function ShortAddressFields(a: Address): seq<string> {
    [a.city, a.postalCode]
  }

  /** The label for a list of candidate parts: the non-empty ones joined by `", "`, or `incomplete`. */
  function AddressLabel(fields: seq<string>, incomplete: string): string {
    var parts := Filter(fields, NonEmpty);
    if parts == [] then incomplete else Join(parts, ", ")
  }

  const NoAddress: string := "Adresse non disponible"
  const IncompleteAddress: string := "Adresse incompl\U{00E8}te"
  const NoLocation: string := "Localisation non disponible"
  const IncompleteLocation: string := "Localisation incompl\U{00E8}te"

  /** Appends `field` to `parts` when it is truthy. */
  method PushIfPresent(parts: seq<string>, field: string) returns (r: seq<string>)
    ensures r == parts + (if field != "" then [field] else [])
  {
    r := parts;
    if field != "" {
      r := r + [field];
    }
  }

  /** `getFullAddress`. */
  method GetFullAddress(p: Option<Property>) returns (r: string)
    ensures p.None? || p.value.address.None? ==> r == NoAddress
    ensures p.Some? && p.value.address.Some? ==>
      r == AddressLabel(FullAddressFields(p.value.address.value), IncompleteAddress)
  {
    if p.None? || p.value.address.None? {
      return NoAddress;
    }
    var a := p.value.address.value;
    var parts: seq<string> := [];
    parts := PushIfPresent(parts, a.addressLine1);
    assert parts == Filter([a.addressLine1], NonEmpty);
    parts := PushIfPresent(parts, a.city);
    FilterSnoc([a.addressLine1], a.city, NonEmpty);
    assert [a.addressLine1] + [a.city] == [a.addressLine1, a.city];
    parts := PushIfPresent(parts, a.postalCode);
    FilterSnoc([a.addressLine1, a.city], a.postalCode, NonEmpty);
    assert [a.addressLine1, a.city] + [a.postalCode] == [a.addressLine1, a.city, a.postalCode];
    parts := PushIfPresent(parts, a.country);
    FilterSnoc([a.addressLine1, a.city, a.postalCode], a.country, NonEmpty);
    assert [a.addressLine1, a.city, a.postalCode] + [a.country] == FullAddressFields(a);
    r := if |parts| > 0 then Join(parts, ", ") else IncompleteAddress;
  }

  /** `getShortAddress`. */
  method GetShortAddress(p: Option<Property>) returns (r: string)
    ensures p.None? || p.value.address.None? ==> r == NoLocation
    ensures p.Some? && p.value.address.Some? ==>
      r == AddressLabel(ShortAddressFields(p.value.address.value), IncompleteLocation)
  {
    if p.None? || p.value.address.None? {
      return NoLocation;
    }
    var a := p.value.address.value;
    var parts: seq<string> := [];
    parts := PushIfPresent(parts, a.city);
    assert parts == Filter([a.city], NonEmpty);
    parts := PushIfPresent(parts, a.postalCode);
    FilterSnoc([a.city], a.postalCode, NonEmpty);
    assert [a.city] + [a.postalCode] == ShortAddressFields(a);
    r := if |parts| > 0 then Join(parts, ", ") else IncompleteLocation;
  }

  /**
   * An address label names every non-empty field it was built from, and it is
   * the `incomplete` text when every field is empty.
   */
  lemma AddressLabelShape(fields: seq<string>, incomplete: string)
    ensures (forall i :: 0 <= i < |fields| ==> fields[i] == "") ==> AddressLabel(fields, incomplete) == incomplete
    ensures forall i :: 0 <= i < |fields| && fields[i] != "" ==> Includes(AddressLabel(fields, incomplete), fields[i])
  {
    var parts := Filter(fields, NonEmpty);
    if forall i :: 0 <= i < |fields| ==> fields[i] == "" {
      FilterNoneKept(fields, NonEmpty);
    }
    forall i | 0 <= i < |fields| && fields[i] != "" ensures Includes(AddressLabel(fields, incomplete), fields[i]) {
      FilterMembers(fields, NonEmpty, fields[i]);
      var k :| 0 <= k < |parts| && parts[k] == fields[i];
      JoinIncludesParts(parts, ", ", k);
    }
  }

  /** `filter` keeps nothing when nothing passes. */
  lemma {:induction false} FilterNoneKept<T>(s: seq<T>, p: T -> bool)
    requires forall i :: 0 <= i < |s| ==> !p(s[i])
    ensures Filter(s, p) == []
  {
    if s != [] {
      FilterNoneKept(s[1..], p);
    }
  }

  // ---------------------------------------------------------------------------
  // Images
  // ---------------------------------------------------------------------------

  const NoImage: string := "/placeholder.svg?height=300&width=400&text=No+Image"

  predicate HasUrl(img: Image) { img.fullUrl != "" }

  function Url(img: Image): string { img.fullUrl }

  /** `img.order || "0"`: only an empty order reads as `"0"`. */
  function OrderText(img: Image): string { if img.order == "" then "0" else img.order }

  /** The sort key `parseInt(img.order || "0")` is a number. */
  predicate OrderParses(img: Image) { ParseInt(OrderText(img)).Some? }

  function OrderKey(img: Image): int { ParseInt(OrderText(img)).GetOr(0) }

  /** The images `getMainImage` and `getAllImages` consider: those with a URL. */
  function WithUrl(images: seq<Image>): (r: seq<Image>)
    ensures forall i :: 0 <= i < |r| ==> HasUrl(r[i])
  {
    Filter(images, HasUrl)
  }

  /** Every image with a URL has a numeric order, so the comparator never yields NaN. */
  predicate OrdersParse(images: seq<Image>) {
    forall i :: 0 <= i < |images| && HasUrl(images[i]) ==> OrderParses(images[i])
  }

  /** The URL-bearing images in the order `getAllImages` lists them. */
  function ImagesByOrder(images: seq<Image>): seq<Image> {
    SortByKey(WithUrl(images), OrderKey)
  }

  /**
   * `getMainImage`: the placeholder when no image has a URL; otherwise the URL
   * of the first URL-bearing image whose order is least.
   */
  function GetMainImage(images: seq<Image>): (r: string)
    ensures WithUrl(images) == [] ==> r == NoImage
    ensures WithUrl(images) != [] ==>
      exists k :: IsFirstMinimum(WithUrl(images), OrderKey, k) && r == WithUrl(images)[k].fullUrl
  {
    if |images| == 0 then NoImage
    else
      var sorted := ImagesByOrder(images);
      if |sorted| > 0 then
        MainImageIsFirstMinimum(images);
        sorted[0].fullUrl
      else NoImage
  }

  lemma MainImageIsFirstMinimum(images: seq<Image>)
    requires WithUrl(images) != []
    ensures exists k :: IsFirstMinimum(WithUrl(images), OrderKey, k) &&
                        ImagesByOrder(images)[0] == WithUrl(images)[k]
  {
    var k := FirstMinimumExists(WithUrl(images), OrderKey);
    SortHeadIsFirstMinimum(WithUrl(images), OrderKey, k);
  }

  /** `getAllImages`: the URLs of the images that have one, sorted by order. */
  function GetAllImages(images: seq<Image>): (r: seq<string>)
    ensures |r| == |WithUrl(images)|
  {
    MapSeq(ImagesByOrder(images), Url)
  }

  /**
   * `getAllImages` lists exactly the URL-bearing images' URLs (as a multiset),
   * in non-decreasing order, and its first entry is `getMainImage`.
   */
  lemma AllImagesSpec(images: seq<Image>)
    ensures multiset(GetAllImages(images)) == multiset(MapSeq(WithUrl(images), Url))
    ensures forall i :: 0 <= i < |GetAllImages(images)| ==> GetAllImages(images)[i] != ""
    ensures SortedBy(ImagesByOrder(images), OrderKey)
    ensures GetAllImages(images) == MapSeq(ImagesByOrder(images), Url)
    ensures GetAllImages(images) != [] ==> GetMainImage(images) == GetAllImages(images)[0]
  {
    var w := WithUrl(images);
    SortByKeyPermutation(w, OrderKey);
    MapPermutation(ImagesByOrder(images), w, Url);
    SortByKeySorted(w, OrderKey);
    SortedImagesHaveUrls(images);
  }

  lemma SortedImagesHaveUrls(images: seq<Image>)
    ensures forall i :: 0 <= i < |GetAllImages(images)| ==> GetAllImages(images)[i] != ""
  {
    var w := WithUrl(images);
    var sorted := ImagesByOrder(images);
    SortByKeyPermutation(w, OrderKey);
    forall i | 0 <= i < |sorted| ensures HasUrl(sorted[i]) {
      assert sorted[i] in multiset(w);
      assert sorted[i] in w;
    }
  }

  // ---------------------------------------------------------------------------
  // Characteristic lookup
  // ---------------------------------------------------------------------------

  /** `c?.name && c.name.toLowerCase() === name.toLowerCase()`. */
  predicate NameMatches(c: Characteristic, name: string) {
    c.name != "" && ToLower(c.name) == ToLower(name)
  }

  /** `k` is the first characteristic whose name matches. */
  ghost predicate IsFirstNamed(cs: seq<Characteristic>, name: string, k: int) {
    0 <= k < |cs| && NameMatches(cs[k], name) && forall j :: 0 <= j < k ==> !NameMatches(cs[j], name)
  }

  /**
   * `findCharacteristic`: the value of the first characteristic whose name
   * matches case-insensitively, read as absent when that value is empty.
   */
  function FindCharacteristic(cs: seq<Characteristic>, name: string): (r: Option<string>)
    ensures r.Some? ==> r.value != ""
  {
    var i := FindIndex(cs, c => NameMatches(c, name));
    if i.Some? && cs[i.value].value != "" then Some(cs[i.value].value) else None
  }

  /**
   * The lookup answers exactly when the first characteristic with a matching
   * name has a non-empty value, and then answers that value: a later match
   * is never consulted.
   */
  lemma FindCharacteristicSpec(cs: seq<Characteristic>, name: string)
    ensures FindCharacteristic(cs, name).Some? <==> exists k :: IsFirstNamed(cs, name, k) && cs[k].value != ""
    ensures forall k :: IsFirstNamed(cs, name, k) && cs[k].value != "" ==> FindCharacteristic(cs, name) == Some(cs[k].value)
  {
    var i := FindIndex(cs, c => NameMatches(c, name));
    if i.Some? {
      assert IsFirstNamed(cs, name, i.value);
      forall k | IsFirstNamed(cs, name, k) ensures k == i.value {
      }
    }
  }

  /** `v1 || v2 || ...` over lookups that are either a non-empty string or absent. */
  function FirstSome(vs: seq<Option<string>>): Option<string> {
    if vs == [] then None
    else if vs[0].Some? then vs[0]
    else FirstSome(vs[1..])
  }

  /** The first present lookup, or absent when all are. */
  lemma {:induction false} FirstSomeSpec(vs: seq<Option<string>>)
    ensures FirstSome(vs).None? <==> forall i :: 0 <= i < |vs| ==> vs[i].None?
    ensures FirstSome(vs).Some? ==> exists i :: 0 <= i < |vs| && vs[i] == FirstSome(vs) && forall j :: 0 <= j < i ==> vs[j].None?
  {
    if vs != [] && vs[0].None? {
      FirstSomeSpec(vs[1..]);
      assert forall i :: 1 <= i < |vs| ==> vs[i] == vs[1..][i - 1];
      if FirstSome(vs[1..]).Some? {
        var i :| 0 <= i < |vs[1..]| && vs[1..][i] == FirstSome(vs[1..]) && forall j :: 0 <= j < i ==> vs[1..][j].None?;
        assert vs[i + 1] == FirstSome(vs);
      }
    } else if vs != [] {
      assert vs[0] == FirstSome(vs);
    }
  }

  /** The lookup of every alias, in order. */
  function Lookups(cs: seq<Characteristic>, aliases: seq<string>): (r: seq<Option<string>>)
    ensures |r| == |aliases| && forall i :: 0 <= i < |aliases| ==> r[i] == FindCharacteristic(cs, aliases[i])
  {
    if aliases == [] then [] else [FindCharacteristic(cs, aliases[0])] + Lookups(cs, aliases[1..])
  }

  /** `find(a1) || find(a2) || ...`. */
  function FirstOf(cs: seq<Characteristic>, aliases: seq<string>): Option<string> {
    FirstSome(Lookups(cs, aliases))
  }

  /**
   * The chain answers with the first alias the lookup answers, is absent when
   * none does, and never answers the empty string.
   */
  lemma FirstOfSpec(cs: seq<Characteristic>, aliases: seq<string>)
    ensures FirstOf(cs, aliases).Some? ==> FirstOf(cs, aliases).value != ""
    ensures FirstOf(cs, aliases).None? <==> forall i :: 0 <= i < |aliases| ==> FindCharacteristic(cs, aliases[i]).None?
    ensures FirstOf(cs, aliases).Some? ==>
      exists i :: 0 <= i < |aliases| && FindCharacteristic(cs, aliases[i]) == FirstOf(cs, aliases) &&
                  forall j :: 0 <= j < i ==> FindCharacteristic(cs, aliases[j]).None?
  {
    var vs := Lookups(cs, aliases);
    FirstSomeSpec(vs);
    var r := FirstSome(vs);
    assert FirstOf(cs, aliases) == r;
    if r.Some? {
      var i :| 0 <= i < |vs| && vs[i] == r && forall j :: 0 <= j < i ==> vs[j].None?;
      assert FindCharacteristic(cs, aliases[i]) == r;
      assert r.value != "";
      forall j | 0 <= j < i ensures FindCharacteristic(cs, aliases[j]).None? {
        assert vs[j].None?;
      }
    } else {
      forall i | 0 <= i < |aliases| ensures FindCharacteristic(cs, aliases[i]).None? {
        assert vs[i].None?;
      }
    }
  }

  const BedAliases: seq<string> := ["Chambres", "Bedroom", "Chambre"]
  const BathAliases: seq<string> := ["Salle de bain", "Salles de bain", "Bathroom", "Bathrooms"]
  const AreaAliases: seq<string> := ["Surface", "Area", "Superficie"]
  const RoomAliases: seq<string> := ["Pi\U{00E8}ces", "Pieces", "Rooms"]

  /** `getPropertyBeds`: the first answered alias, or `N/A`; never empty. */
  function GetPropertyBeds(cs: seq<Characteristic>): (r: string)
    ensures r != ""
    ensures FirstOf(cs, BedAliases).None? ==> r == "N/A"
    ensures FirstOf(cs, BedAliases).Some? ==> r == FirstOf(cs, BedAliases).value
  {
    FirstOfSpec(cs, BedAliases);
    FirstOf(cs, BedAliases).GetOr("N/A")
  }

  /** `getPropertyBaths`: `oui`/`yes` in any case read as `1`; any other value as it is. */
  function GetPropertyBaths(cs: seq<Characteristic>): (r: string)
    ensures r != ""
    ensures FirstOf(cs, BathAliases).None? ==> r == "N/A"
    ensures var v := FirstOf(cs, BathAliases);
      v.Some? ==> r == (if ToLower(v.value) == "oui" || ToLower(v.value) == "yes" then "1" else v.value)
  {
    var v := FirstOf(cs, BathAliases);
    FirstOfSpec(cs, BathAliases);
    if v.None? then "N/A"
    else
      var lower := ToLower(v.value);
      if lower == "oui" || lower == "yes" then "1" else v.value
  }

  /**
   * `getPropertyArea`: the first run of digits of the value (`"45m²"` gives
   * `"45"`), or the value itself when it has no digit.
   */
  function GetPropertyArea(cs: seq<Characteristic>): (r: string)
    ensures r != ""
    ensures FirstOf(cs, AreaAliases).None? ==> r == "N/A"
    ensures var v := FirstOf(cs, AreaAliases);
      v.Some? && (forall i :: 0 <= i < |v.value| ==> !IsDigit(v.value[i])) ==> r == v.value
    ensures var v := FirstOf(cs, AreaAliases);
      v.Some? && (exists i :: 0 <= i < |v.value| && IsDigit(v.value[i])) ==>
        AllDigits(r) && exists a :: FirstRunAt(v.value, r, a)
  {
    var v := FirstOf(cs, AreaAliases);
    FirstOfSpec(cs, AreaAliases);
    if v.None? then "N/A"
    else
      var m := FirstDigitRun(v.value);
      if m.Some? then m.value else v.value
  }

  /** `getPropertyRooms`: the first answered alias, or `N/A`; never empty. */
  function GetPropertyRooms(cs: seq<Characteristic>): (r: string)
    ensures r != ""
    ensures FirstOf(cs, RoomAliases).None? ==> r == "N/A"
    ensures FirstOf(cs, RoomAliases).Some? ==> r == FirstOf(cs, RoomAliases).value
  {
    FirstOfSpec(cs, RoomAliases);
    FirstOf(cs, RoomAliases).GetOr("N/A")
  }

  /** `hasAmenity`: the amenity is listed with a value other than `non`/`no`/`false` in any case. */
  function HasAmenity(cs: seq<Characteristic>, amenity: string): (r: bool)
    ensures r <==> FindCharacteristic(cs, amenity).Some? &&
                   ToLower(FindCharacteristic(cs, amenity).value) !in ["non", "no", "false"]
  {
    var v := FindCharacteristic(cs, amenity);
    if v.None? then false
    else
      var lower := ToLower(v.value);
      lower != "non" && lower != "no" && lower != "false"
  }

  // ---------------------------------------------------------------------------
  // Property type
  // ---------------------------------------------------------------------------

  /** The label for a parsed room count. */
  function RoomsType(n: nat): string { if n == 1 then "Studio" else "T" + NatToString(n) }

  /** The label for a parsed bed count: one more room than bedrooms. */
  function BedsType(n: nat): string { if n == 0 then "Studio" else "T" + NatToString(n + 1) }

  /** `getPropertyType`: rooms decide when they parse, then beds, then `Appartement`. */
  function GetPropertyType(cs: seq<Characteristic>): string {
    var rooms := GetPropertyRooms(cs);
    var beds := GetPropertyBeds(cs);
    if rooms != "N/A" && ParseInt(rooms).Some? then RoomsType(ParseInt(rooms).value)
    else if beds != "N/A" && ParseInt(beds).Some? then BedsType(ParseInt(beds).value)
    else "Appartement"
  }

  /**
   * Precedence: a room value that parses decides; one that does not (or is
   * missing) falls through to the bed value; with neither, `Appartement`.
   */
  lemma PropertyTypePrecedence(cs: seq<Characteristic>)
    ensures var rooms := ParseInt(GetPropertyRooms(cs));
            var beds := ParseInt(GetPropertyBeds(cs));
      GetPropertyType(cs) ==
        if rooms.Some? then RoomsType(rooms.value)
        else if beds.Some? then BedsType(beds.value)
        else "Appartement"
  {
    assert "N/A"[0] == 'N';
  }

  /**
   * The `T{n}` label carries the room count: `n` rooms read back as `n`, `b`
   * bedrooms as `b + 1`; every label is `Studio`, `Appartement` or `T` and digits.
   */
  lemma TypeLabelsReadBack(n: nat)
    ensures n != 1 ==> RoomsType(n)[0] == 'T' && ParseInt(RoomsType(n)[1..]) == Some(n)
    ensures n != 0 ==> BedsType(n)[0] == 'T' && ParseInt(BedsType(n)[1..]) == Some(n + 1)
    ensures RoomsType(n) == "Studio" || AllDigits(RoomsType(n)[1..])
    ensures BedsType(n) == "Studio" || AllDigits(BedsType(n)[1..])
  {
    NatToStringParses(n);
    NatToStringParses(n + 1);
    assert ("T" + NatToString(n))[1..] == NatToString(n);
    assert ("T" + NatToString(n + 1))[1..] == NatToString(n + 1);
  }

  // ---------------------------------------------------------------------------
  // Feature badges
  // ---------------------------------------------------------------------------

  const ExcludedNames: seq<string> :=
    ["chambres", "chambre", "bedroom", "bedrooms", "surface", "superficie", "area",
     "pi\U{00E8}ces", "pieces", "rooms"]

  const FalsyValues: seq<string> := ["non", "no", "false", "0", "0m\U{00B2}", "0 m\U{00B2}"]

  /** The first filter of `getPropertyFeatures`: a name and a value that does not read as "none". */
  predicate IsShown(c: Characteristic) {
    c.name != "" && c.value != "" && ToLower(c.value) !in FalsyValues
  }

  /** The second filter: the name is not one of the numeric facts shown elsewhere. */
  predicate IsNotExcluded(c: Characteristic) {
    ToLower(c.name) !in ExcludedNames
  }

  function Name(c: Characteristic): string { c.name }

  /** `getPropertyFeatures`. */
  function GetPropertyFeatures(cs: seq<Characteristic>): seq<string> {
    MapSeq(Filter(Filter(cs, IsShown), IsNotExcluded), Name)
  }

  /** A characteristic that `getPropertyFeatures` turns into a badge: shown and not excluded. */
  predicate IsBadge(c: Characteristic) {
    IsShown(c) && IsNotExcluded(c)
  }

  /**
   * The badges are characteristic names in their original order; none is an
   * excluded name; each belongs to a characteristic with a non-empty value
   * outside `non, no, false, 0, 0m², 0 m²`. Conversely every such
   * characteristic gives a badge, one badge per characteristic.
   */
  lemma FeaturesSpec(cs: seq<Characteristic>)
    ensures IsSubsequence(GetPropertyFeatures(cs), MapSeq(cs, Name))
    ensures forall i :: 0 <= i < |GetPropertyFeatures(cs)| ==> ToLower(GetPropertyFeatures(cs)[i]) !in ExcludedNames
    ensures forall i :: 0 <= i < |GetPropertyFeatures(cs)| ==>
      exists c :: c in cs && c.name == GetPropertyFeatures(cs)[i] && IsBadge(c)
    ensures forall c :: c in cs && IsBadge(c) ==> c.name in GetPropertyFeatures(cs)
    ensures |GetPropertyFeatures(cs)| == Count(cs, IsBadge)
  {
    var shown := Filter(cs, IsShown);
    var kept := Filter(shown, IsNotExcluded);
    FeaturesComplete(cs);
    FilterIsSubsequence(cs, IsShown);
    FilterIsSubsequence(shown, IsNotExcluded);
    SubsequenceTrans(kept, shown, cs);
    MapSubsequence(kept, cs, Name);
    forall i | 0 <= i < |kept|
      ensures kept[i] in cs && IsShown(kept[i]) && IsNotExcluded(kept[i])
    {
      FilterMembers(shown, IsNotExcluded, kept[i]);
      FilterMembers(cs, IsShown, kept[i]);
    }
  }

  /** Every badge-worthy characteristic gives a badge, one badge each. */
  lemma FeaturesComplete(cs: seq<Characteristic>)
    ensures GetPropertyFeatures(cs) == MapSeq(Filter(cs, IsBadge), Name)
    ensures forall c :: c in cs && IsBadge(c) ==> c.name in GetPropertyFeatures(cs)
  {
    FilterCompose(cs, IsShown, IsNotExcluded, IsBadge);
    var kept := Filter(cs, IsBadge);
    forall c | c in cs && IsBadge(c)
      ensures c.name in GetPropertyFeatures(cs)
    {
      FilterMembers(cs, IsBadge, c);
      var k :| 0 <= k < |kept| && kept[k] == c;
      assert GetPropertyFeatures(cs)[k] == c.name;
    }
  }

  lemma {:induction false} SubsequenceTrans<T>(a: seq<T>, b: seq<T>, c: seq<T>)
    requires IsSubsequence(a, b) && IsSubsequence(b, c)
    ensures IsSubsequence(a, c)
    decreases |c|
  {
    if a != [] {
      assert b != [] && c != [];
      if b[0] == c[0] {
        if a[0] == b[0] {
          SubsequenceTrans(a[1..], b[1..], c[1..]);
        } else {
          SubsequenceTrans(a, b[1..], c[1..]);
        }
      } else {
        SubsequenceTrans(a, b, c[1..]);
        SubsequenceSkip(a, c);
      }
    }
  }

  /** The bathroom aliases, lower-cased. */
  const BathNames: seq<string> := ["salle de bain", "salles de bain", "bathroom", "bathrooms"]

  /** No bathroom name is an excluded name. */
  lemma BathNamesNotExcluded()
    ensures forall n :: n in BathNames ==> n !in ExcludedNames
  {
  }

  /** So a characteristic named like a bathroom, in any case, with a count is a badge. */
  lemma FeaturesKeepBathrooms(name: string, value: string)
    requires ToLower(name) in BathNames && value != "" && ToLower(value) !in FalsyValues
    ensures GetPropertyFeatures([Characteristic(name, value)]) == [name]
  {
    BathNamesNotExcluded();
    var c := Characteristic(name, value);
    assert name != "" by { assert |ToLower(name)| > 0; }
    assert IsShown(c) && IsNotExcluded(c);
    assert Filter([c], IsShown) == [c];
    assert Filter([c], IsNotExcluded) == [c];
  }

  // ---------------------------------------------------------------------------
  // Characteristics map: filled in a loop, later entries overwriting earlier ones
  // ---------------------------------------------------------------------------

  predicate IsRecorded(c: Characteristic) { c.name != "" && c.value != "" }

  /** The dictionary the loop has built after the characteristics `cs`. */
  ghost function MapAfter(cs: seq<Characteristic>): map<string, string>
  {
    if cs == [] then map[]
    else
      var m := MapAfter(cs[..|cs| - 1]);
      var c := cs[|cs| - 1];
      if IsRecorded(c) then m[c.name := c.value] else m
  }

  /** `getCharacteristicsMap`. */
  method GetCharacteristicsMap(cs: seq<Characteristic>) returns (m: map<string, string>)
    ensures m == MapAfter(cs)
  {
    m := map[];
    var i := 0;
    while i < |cs|
      invariant 0 <= i <= |cs|
      invariant m == MapAfter(cs[..i])
    {
      assert cs[..i + 1][..i] == cs[..i];
      var c := cs[i];
      if c.name != "" && c.value != "" {
        m := m[c.name := c.value];
      }
      i := i + 1;
    }
    assert cs[..|cs|] == cs;
  }

  /**
   * A name is a key exactly when some characteristic records it, and its value
   * comes from the last such characteristic.
   */
  lemma {:induction false} MapAfterSpec(cs: seq<Characteristic>, name: string)
    ensures name in MapAfter(cs) <==> exists i :: 0 <= i < |cs| && IsRecorded(cs[i]) && cs[i].name == name
    ensures forall i :: 0 <= i < |cs| && IsRecorded(cs[i]) && cs[i].name == name &&
                        (forall j :: i < j < |cs| ==> !(IsRecorded(cs[j]) && cs[j].name == name)) ==>
                        name in MapAfter(cs) && MapAfter(cs)[name] == cs[i].value
  {
    if cs != [] {
      var init := cs[..|cs| - 1];
      MapAfterSpec(init, name);
      forall i | 0 <= i < |init| ensures init[i] == cs[i] { }
    }
  }

  // ---------------------------------------------------------------------------
  // URL slugs
  // ---------------------------------------------------------------------------

  /** The accented letters the slug generator folds, after lower-casing. */
  function Deaccent(c: char): char {
    if '\U{00E0}' <= c <= '\U{00E5}' then 'a'
    else if '\U{00E8}' <= c <= '\U{00EB}' then 'e'
    else if '\U{00EC}' <= c <= '\U{00EF}' then 'i'
    else if '\U{00F2}' <= c <= '\U{00F6}' then 'o'
    else if '\U{00F9}' <= c <= '\U{00FC}' then 'u'
    else if c == '\U{00E7}' then 'c'
    else c
  }

  function MapDeaccent(s: string): (r: string)
    ensures |r| == |s| && forall i :: 0 <= i < |s| ==> r[i] == Deaccent(s[i])
  {
    if s == [] then [] else [Deaccent(s[0])] + MapDeaccent(s[1..])
  }

  /** `[a-z0-9]`. */
  predicate IsSlugAlnum(c: char) { 'a' <= c <= 'z' || '0' <= c <= '9' }

  /** Drops the leading characters outside `[a-z0-9]`. */
  function DropNonAlnum(s: string): (r: string)
    ensures |r| <= |s| && r == s[|s| - |r|..]
    ensures r != [] ==> IsSlugAlnum(r[0])
  {
    if s != [] && !IsSlugAlnum(s[0]) then
      var r := DropNonAlnum(s[1..]);
      assert s[1..][|s| - 1 - |r|..] == s[|s| - |r|..];
      r
    else s
  }

  /** `.replace(/[^a-z0-9]+/g, "-")`: each maximal run outside `[a-z0-9]` becomes one dash. */
  function CollapseNonAlnum(s: string): (r: string)
    ensures s != [] && IsSlugAlnum(s[0]) ==> r != [] && r[0] == s[0]
    decreases |s|
  {
    if s == [] then []
    else if IsSlugAlnum(s[0]) then [s[0]] + CollapseNonAlnum(s[1..])
    else "-" + CollapseNonAlnum(DropNonAlnum(s[1..]))
  }

  function TrimLeadingDashes(s: string): (r: string)
    ensures |r| <= |s| && r == s[|s| - |r|..]
    ensures r != [] ==> r[0] != '-'
  {
    if s != [] && s[0] == '-' then TrimLeadingDashes(s[1..]) else s
  }

  function TrimTrailingDashes(s: string): (r: string)
    ensures |r| <= |s| && r == s[..|r|]
    ensures r != [] ==> r[|r| - 1] != '-'
  {
    if s != [] && s[|s| - 1] == '-' then TrimTrailingDashes(s[..|s| - 1]) else s
  }

  /** The chain of `toLowerCase` and `replace` calls applied to a title. */
  function Slugify(title: string): string {
    TrimTrailingDashes(TrimLeadingDashes(CollapseNonAlnum(MapDeaccent(ToLower(title)))))
  }

  /** `generatePropertySlug`: `property-details` without a title. */
  function GeneratePropertySlug(p: Option<Property>): string {
    if p.None? || p.value.title == "" then DefaultSlug else Slugify(p.value.title)
  }

  /** A slug-shaped string: only `[a-z0-9-]`, no dash at either end, no two dashes in a row. */
  ghost predicate IsSlug(s: string) {
    (forall i :: 0 <= i < |s| ==> IsSlugAlnum(s[i]) || s[i] == '-') &&
    (s != [] ==> s[0] != '-' && s[|s| - 1] != '-') &&
    (forall i :: 0 <= i < |s| - 1 ==> !(s[i] == '-' && s[i + 1] == '-'))
  }

  /** Only `[a-z0-9-]`, and no two dashes in a row. */
  ghost predicate DashSeparated(s: string) {
    (forall i :: 0 <= i < |s| ==> IsSlugAlnum(s[i]) || s[i] == '-') &&
    (forall i :: 0 <= i < |s| - 1 ==> !(s[i] == '-' && s[i + 1] == '-'))
  }

  lemma {:induction false} CollapseDashSeparated(s: string)
    ensures DashSeparated(CollapseNonAlnum(s))
    decreases |s|
  {
    if s != [] {
      if IsSlugAlnum(s[0]) {
        CollapseDashSeparated(s[1..]);
        var t := CollapseNonAlnum(s[1..]);
        assert forall i :: 0 < i < |t| + 1 ==> ([s[0]] + t)[i] == t[i - 1];
      } else {
        var rest := DropNonAlnum(s[1..]);
        CollapseDashSeparated(rest);
        var t := CollapseNonAlnum(rest);
        assert t != [] ==> t[0] == rest[0];
        assert forall i :: 0 < i < |t| + 1 ==> ("-" + t)[i] == t[i - 1];
      }
    }
  }

  /** A contiguous piece of a dash-separated string is dash-separated. */
  lemma SliceDashSeparated(s: string, a: nat, b: nat)
    requires DashSeparated(s) && a <= b <= |s|
    ensures DashSeparated(s[a..b])
  {
    var t := s[a..b];
    forall i | 0 <= i < |t| - 1 ensures !(t[i] == '-' && t[i + 1] == '-') {
      assert t[i] == s[a + i] && t[i + 1] == s[a + i + 1];
    }
  }

  /** Every slug is slug-shaped. */
  lemma SlugifyIsSlug(title: string)
    ensures IsSlug(Slugify(title))
  {
    CollapseDashSeparated(MapDeaccent(ToLower(title)));
    TrimDashesIsSlug(CollapseNonAlnum(MapDeaccent(ToLower(title))));
  }

  /** Trimming the dashes at both ends of a dash-separated string leaves a slug. */
  lemma TrimDashesIsSlug(c: string)
    requires DashSeparated(c)
    ensures IsSlug(TrimTrailingDashes(TrimLeadingDashes(c)))
  {
    var l := TrimLeadingDashes(c);
    TrimLeadingKeepsDashSeparated(c);
    TrimTrailingKeepsDashSeparated(l);
  }

  lemma TrimLeadingKeepsDashSeparated(c: string)
    requires DashSeparated(c)
    ensures DashSeparated(TrimLeadingDashes(c))
  {
    var l := TrimLeadingDashes(c);
    SliceDashSeparated(c, |c| - |l|, |c|);
    assert c[|c| - |l|..|c|] == l;
  }

  lemma TrimTrailingKeepsDashSeparated(l: string)
    requires DashSeparated(l)
    ensures var r := TrimTrailingDashes(l);
      DashSeparated(r) && (r != [] ==> r[0] == l[0])
  {
    var r := TrimTrailingDashes(l);
    SliceDashSeparated(l, 0, |r|);
    assert l[0..|r|] == r;
  }

  lemma {:induction false} CollapseOfSlug(s: string)
    requires DashSeparated(s) && (s != [] ==> s[0] != '-')
    ensures CollapseNonAlnum(s) == s
    decreases |s|
  {
    if s != [] {
      var t := s[1..];
      SliceDashSeparated(s, 1, |s|);
      if t != [] && t[0] == '-' {
        CollapseAfterDash(s);
      } else {
        CollapseOfSlug(t);
      }
      assert s == [s[0]] + t;
    }
  }

  /** A single dash between two letters or digits collapses to itself. */
  lemma {:induction false} CollapseAfterDash(s: string)
    requires DashSeparated(s) && |s| >= 2 && s[0] != '-' && s[1] == '-'
    ensures CollapseNonAlnum(s[1..]) == s[1..]
    decreases |s|, 0
  {
    var t := s[1..];
    var u := t[1..];
    SliceDashSeparated(s, 2, |s|);
    assert u == s[2..];
    if u != [] {
      assert u[0] == s[2];
      assert !(s[1] == '-' && s[2] == '-');
    }
    assert DropNonAlnum(u) == u;
    CollapseOfSlug(u);
    assert t == [t[0]] + u;
  }

  /** Folding a slug changes nothing: it is already lower-case ASCII. */
  lemma {:induction false} FoldOfSlugChars(s: string)
    requires forall i :: 0 <= i < |s| ==> IsSlugAlnum(s[i]) || s[i] == '-'
    ensures MapDeaccent(ToLower(s)) == s
  {
    assert ToLower(s) == s;
  }

  /**
   * `generatePropertySlug` gives `property-details` without a title and a
   * slug-shaped string otherwise; a non-empty slug, used as a title, slugs to itself.
   */
  lemma SlugSpec(p: Option<Property>)
    ensures p.None? || p.value.title == "" ==> GeneratePropertySlug(p) == DefaultSlug
    ensures IsSlug(GeneratePropertySlug(p))
    ensures var s := GeneratePropertySlug(p);
      p.Some? && s != "" ==> GeneratePropertySlug(Some(p.value.(title := s))) == s
  {
    var s := GeneratePropertySlug(p);
    if p.None? || p.value.title == "" {
      DefaultSlugIsSlug();
    } else {
      SlugifyIsSlug(p.value.title);
    }
    if s != "" {
      SlugFixedPoint(s);
    }
  }

  const DefaultSlug: string := "property-details"

  lemma DefaultSlugIsSlug()
    ensures IsSlug(DefaultSlug)
  {
  }

  lemma SlugFixedPoint(s: string)
    requires IsSlug(s)
    ensures Slugify(s) == s
  {
    FoldOfSlugChars(s);
    assert MapDeaccent(ToLower(s)) == s;
    CollapseOfSlug(s);
    assert CollapseNonAlnum(s) == s;
    assert TrimLeadingDashes(s) == s;
    assert TrimTrailingDashes(s) == s;
  }

  /** A title with no letter or digit slugs to the empty string, which is not itself a fixed point. */
  lemma SlugCanBeEmpty()
    ensures Slugify("!!") == ""
    ensures GeneratePropertySlug(Some(Property("", "", "", false, None, None, None, [], []))) == DefaultSlug
  {
    var bang := "!!";
    assert ToLower(bang) == bang;
    assert MapDeaccent(bang) == bang;
    assert bang[1..] == "!" && "!"[1..] == "";
    assert DropNonAlnum("!") == "";
    assert CollapseNonAlnum("") == "";
    assert CollapseNonAlnum(bang) == "-";
    assert "-"[1..] == "";
    assert TrimLeadingDashes("-") == "";
  }
}
