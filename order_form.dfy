/**
 * The order form of `components/forms/OrderForm.tsx`: the price it shows, the
 * `formData` state with its nested address that `handleInputChange` edits by
 * field name, and the completeness check that enables the submit button. The
 * order request itself is not modelled.
 */
module OrderForm {
  import opened Wrappers
  import opened Strings
  import opened ProductTypes
  import opened ProductApi

  /** `product.price - (product.discount || 0)`: the discount read as an amount. */
  function FinalPrice(price: int, discount: Option<int>): (r: int)
    ensures r == price - discount.GetOr(0)
    ensures discount.GetOr(0) >= 0 ==> r <= price
  {
    price - (if discount.Some? && discount.value != 0 then discount.value else 0)
  }

  datatype PriceLabel = Free | Paid(amount: int)

  /** `"Gratuit"` unless the final price is positive. */
  function PriceLabelOf(finalPrice: int): (r: PriceLabel)
    ensures r == Free <==> finalPrice <= 0
    ensures r.Paid? ==> r.amount == finalPrice && r.amount > 0
  {
    if finalPrice > 0 then Paid(finalPrice) else Free
  }

  /** The form charges what the product list filters on, and labels the product as the product helpers do. */
  lemma FormAgreesWithCatalogue(p: Product)
    ensures FinalPrice(p.price, Some(p.discount)) == EffectivePrice(p)
    ensures (if p.kind == "BOOK" then "Livre" else "Produit") == GetProductTypeLabel(p.kind)
  {
  }

  /** A discount at least the price makes the product free. */
  lemma FullDiscountIsFree(price: int, discount: int)
    requires discount >= price
    ensures PriceLabelOf(FinalPrice(price, Some(discount))) == Free
  {
  }

  const TopFields: seq<string> := ["firstName", "lastName", "email", "phoneNumber"]
  const AddressFields: seq<string> := ["street", "city", "postalCode", "country"]
  const AddressPrefix: string := "address."

  predicate HasAddressPrefix(field: string) {
    |field| >= |AddressPrefix| && field[..|AddressPrefix|] == AddressPrefix
  }

  /** `field.split(".")[1]` for a field that starts with `address.`: the name up to the next dot. */
  function AddressFieldOf(field: string): (r: string)
    requires HasAddressPrefix(field)
    ensures '.' !in r
    ensures r == Split(field[|AddressPrefix|..], '.')[0]
  {
    SplitAfterPrefix(field);
    Split(field, '.')[1]
  }

  lemma SplitAfterPrefix(field: string)
    requires HasAddressPrefix(field)
    ensures |Split(field, '.')| >= 2 && Split(field, '.')[1] == Split(field[|AddressPrefix|..], '.')[0]
  {
    assert field[7] == AddressPrefix[7] == '.';
    assert forall k :: 0 <= k < 7 ==> field[k] == AddressPrefix[k] != '.';
    var i := IndexOf(field, '.');
    assert i == 7;
  }

  /** `address.street` names `street`. */
  lemma AddressFieldNames(name: string)
    requires '.' !in name
    ensures AddressFieldOf(AddressPrefix + name) == name
  {
    assert (AddressPrefix + name)[|AddressPrefix|..] == name;
    assert (AddressPrefix + name)[..|AddressPrefix|] == AddressPrefix;
  }

  function Field(m: map<string, string>, k: string): string { if k in m then m[k] else "" }

  /** `isFormValid`: every required field is non-blank after trimming; the country is not required. */
  predicate FormValidOf(fields: map<string, string>, address: map<string, string>) {
    !IsBlank(Field(fields, "firstName")) && !IsBlank(Field(fields, "lastName")) &&
    !IsBlank(Field(fields, "email")) && !IsBlank(Field(fields, "phoneNumber")) &&
    !IsBlank(Field(address, "street")) && !IsBlank(Field(address, "city")) &&
    !IsBlank(Field(address, "postalCode"))
  }

  /** The country never decides validity. */
  lemma CountryNotRequired(fields: map<string, string>, address: map<string, string>, country: string)
    ensures FormValidOf(fields, address["country" := country]) == FormValidOf(fields, address)
  {
    var a := address["country" := country];
    assert Field(a, "street") == Field(address, "street");
    assert Field(a, "city") == Field(address, "city");
    assert Field(a, "postalCode") == Field(address, "postalCode");
  }

  /** A field of only spaces counts as empty. */
  lemma BlankNameInvalid(fields: map<string, string>, address: map<string, string>)
    requires "firstName" in fields && fields["firstName"] == "   "
    ensures !FormValidOf(fields, address)
  {
    BlankIffAllWhitespace("   ");
  }

  class Form {
    var fields: map<string, string>
    var address: map<string, string>
    var isLoading: bool

    /** Empty strings everywhere, except the country `"France"`. */
    constructor()
      ensures fields == map["firstName" := "", "lastName" := "", "email" := "", "phoneNumber" := ""]
      ensures address == map["street" := "", "city" := "", "postalCode" := "", "country" := "France"]
      ensures !isLoading && !FormValid()
    {
      fields := map["firstName" := "", "lastName" := "", "email" := "", "phoneNumber" := ""];
      address := map["street" := "", "city" := "", "postalCode" := "", "country" := "France"];
      isLoading := false;
      new;
      assert Field(fields, "firstName") == "";
    }

    predicate FormValid()
      reads this
    {
      FormValidOf(fields, address)
    }

    /**
     * `handleInputChange(field, value)`: `address.X` sets `X` in the address copy,
     * any other name sets that top-level field; nothing else changes.
     */
    method HandleInputChange(field: string, value: string)
      requires field != "address"
      modifies this
      ensures HasAddressPrefix(field) ==>
        address == old(address)[AddressFieldOf(field) := value] && fields == old(fields)
      ensures !HasAddressPrefix(field) ==>
        fields == old(fields)[field := value] && address == old(address)
      ensures isLoading == old(isLoading)
    {
      if HasAddressPrefix(field) {
        address := address[AddressFieldOf(field) := value];
      } else {
        fields := fields[field := value];
      }
    }

    /** The submit button: disabled while invalid or loading. */
    predicate SubmitDisabled()
      reads this
    {
      !FormValid() || isLoading
    }
  }
}
