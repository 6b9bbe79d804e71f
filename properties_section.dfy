/**
 * The home page's property carousel, `components/sections/PropertiesSection.tsx`:
 * the card details derived from the characteristics, the slide index, and the
 * three state cells behind the interest dialog.
 */
module PropertiesSection {
  import opened Wrappers
  import opened Strings
  import opened Carousel
  import opened PropertyTypes
  import opened InterestForm

  datatype PropertyDetails = PropertyDetails(beds: Option<string>, baths: Option<string>, area: Option<string>,
                                             kind: string, hasBasicInfo: bool)

  /** `s && s > 0` for an extracted string: non-empty and numerically positive (`"N/A"` is `NaN`). */
  predicate PositiveText(s: string) {
    s != "" && NumberOf(s).Some? && NumberOf(s).value > 0
  }

  /** `getPropertyDetails`. */
  function GetPropertyDetails(cs: seq<Characteristic>): (r: PropertyDetails)
    ensures r.beds.Some? <==> PositiveText(GetPropertyBeds(cs))
    ensures r.beds.Some? ==> r.beds.value == GetPropertyBeds(cs)
    ensures r.baths.Some? <==> PositiveText(GetPropertyBaths(cs))
    ensures r.baths.Some? ==> r.baths.value == GetPropertyBaths(cs)
    ensures r.area.Some? <==> PositiveText(GetPropertyArea(cs))
    ensures r.area.Some? ==> r.area.value == GetPropertyArea(cs) + " m²"
    ensures r.kind == GetPropertyType(cs)
    ensures r.hasBasicInfo
  {
    var beds, baths, area := GetPropertyBeds(cs), GetPropertyBaths(cs), GetPropertyArea(cs);
    var kind := GetPropertyType(cs);
    TypeLabelNonEmpty(cs);
    PropertyDetails(
      if PositiveText(beds) then Some(beds) else None,
      if PositiveText(baths) then Some(baths) else None,
      if PositiveText(area) then Some(area + " m²") else None,
      if kind != "" then kind else "Bien immobilier",
      beds != "" || baths != "" || area != "")
  }

  /** `getPropertyType` never gives `""`, so the `"Bien immobilier"` fallback is never used. */
  lemma TypeLabelNonEmpty(cs: seq<Characteristic>)
    ensures GetPropertyType(cs) != ""
  {
    var rooms, beds := GetPropertyRooms(cs), GetPropertyBeds(cs);
    if rooms != "N/A" && ParseInt(rooms).Some? {
      var n := ParseInt(rooms).value;
      assert RoomsType(n)[0] == if n == 1 then 'S' else 'T';
    } else if beds != "N/A" && ParseInt(beds).Some? {
      var n := ParseInt(beds).value;
      assert BedsType(n)[0] == if n == 0 then 'S' else 'T';
    }
  }

  /** A property without a bed characteristic shows no bed count: `"N/A"` is not a number. */
  lemma MissingBedsAreHidden(cs: seq<Characteristic>)
    requires FirstOf(cs, BedAliases).None?
    ensures GetPropertyDetails(cs).beds.None?
  {
    assert !IsDigit("N/A"[0]);
  }

  class Section {
    var count: nat
    var index: int
    var selectedProperty: Option<Property>
    var formError: Option<FormError>
    var requestConfig: Option<RequestConfig>

    constructor()
      ensures count == 0 && index == 0 && selectedProperty.None? && formError.None? && requestConfig.None?
    {
      count := 0;
      index := 0;
      selectedProperty := None;
      formError := None;
      requestConfig := None;
    }

    predicate IndexValid()
      reads this
    {
      0 <= index < count
    }

    /** The featured properties arrived; the index is kept. */
    method Loaded(n: nat)
      modifies this
      ensures count == n && index == old(index)
      ensures selectedProperty == old(selectedProperty) && formError == old(formError) && requestConfig == old(requestConfig)
    {
      count := n;
    }

    /** The arrows and the five-second tick (installed only when `count > 0`). */
    method Next()
      requires IndexValid()
      modifies this
      ensures count == old(count) && IndexValid() && index == NextIndex(old(index), count)
      ensures selectedProperty == old(selectedProperty) && formError == old(formError) && requestConfig == old(requestConfig)
    {
      index := (index + 1) % count;
    }

    method Prev()
      requires IndexValid()
      modifies this
      ensures count == old(count) && IndexValid() && index == PrevIndex(old(index), count)
      ensures selectedProperty == old(selectedProperty) && formError == old(formError) && requestConfig == old(requestConfig)
    {
      index := (index - 1 + count) % count;
    }

    /** A dot click. */
    method GoTo(b: int)
      requires 0 <= b < count
      modifies this
      ensures IndexValid() && index == b && count == old(count)
    {
      index := b;
    }

    /** The dialog is open exactly when a property and a configuration are both set. */
    predicate DialogOpen()
      reads this
    {
      selectedProperty.Some? && requestConfig.Some?
    }

    /** `handlePropertyInterest`: select the property, clear the error, configure a property request. */
    method HandlePropertyInterest(p: Property)
      modifies this
      ensures selectedProperty == Some(p) && formError.None?
      ensures requestConfig.Some? && requestConfig.value.kind == "property" && requestConfig.value.id == p.id &&
              requestConfig.value.endpoint == PropertyEndpoint
      ensures DialogOpen() && index == old(index) && count == old(count)
    {
      selectedProperty := Some(p);
      formError := None;
      var config := CreateRequestConfig("property", p.id);
      requestConfig := Some(config.value);
    }

    /** `handleFormError`. */
    method HandleFormError(e: FormError)
      modifies this
      ensures formError == Some(e)
      ensures selectedProperty == old(selectedProperty) && requestConfig == old(requestConfig) && index == old(index)
    {
      formError := Some(e);
    }

    /** `handleFormSuccess`: clears the error and the selection but keeps the configuration; the dialog closes. */
    method HandleFormSuccess()
      modifies this
      ensures formError.None? && selectedProperty.None? && requestConfig == old(requestConfig)
      ensures !DialogOpen() && index == old(index)
    {
      formError := None;
      selectedProperty := None;
    }

    /** `onOpenChange(false)`: clears all three. */
    method Close()
      modifies this
      ensures formError.None? && selectedProperty.None? && requestConfig.None?
      ensures !DialogOpen() && index == old(index)
    {
      selectedProperty := None;
      formError := None;
      requestConfig := None;
    }
  }
}
