/**
 * The helpers of `lib/types/product.ts`: the discounted price before it is
 * rounded for display, the struck-through original price, the sale flag and
 * the type label. The image helpers are those of module `Media`.
 */
module ProductTypes {
  import opened Wrappers
  import opened Strings

  /** The two values `ProductTypeEnum` declares; a product's `type` may hold other strings at run time. */
  const Book: string := "BOOK"
  const ProductKind: string := "PRODUCT"

  /**
   * The number `formatProductPrice(price, discount = 0)` rounds and prints:
   * `discount` read as a percentage of the price when it is positive.
   */
  function DiscountedPrice(price: int, discount: Option<int>): (r: real)
    ensures discount.GetOr(0) <= 0 ==> r == price as real
    ensures discount.GetOr(0) > 0 ==> r == (price as real) * ((100 - discount.GetOr(0)) as real) / 100.0
    ensures 0 <= price && 0 <= discount.GetOr(0) <= 100 ==> 0.0 <= r <= price as real
  {
    var d := discount.GetOr(0);
    if d > 0 then
      ShareOfPrice(price as real, d as real);
      price as real - (price as real * d as real) / 100.0
    else price as real
  }

  /** Taking `d` percent off `p`. */
  lemma ShareOfPrice(p: real, d: real)
    ensures p - (p * d) / 100.0 == p * (100.0 - d) / 100.0
    ensures 0.0 <= p && 0.0 <= d <= 100.0 ==> 0.0 <= p - (p * d) / 100.0 <= p
  {
    assert p * (100.0 - d) == p * 100.0 - p * d;
    if 0.0 <= p && 0.0 <= d <= 100.0 {
      assert 0.0 <= p * d <= p * 100.0 by {
        assert p * (100.0 - d) >= 0.0;
      }
    }
  }

  /**
   * The same discount read as the amount `products.ts` subtracts when it filters
   * by price gives a different number: 2499 with a discount of 500 is 1999 there
   * but -9996 here.
   */
  lemma PercentageAndAmountDisagree()
    ensures DiscountedPrice(2499, Some(500)) == -9996.0
    ensures (2499 - 500) as real != DiscountedPrice(2499, Some(500))
  {
  }

  /** `isProductOnSale`: a positive discount. */
  predicate IsProductOnSale(discount: int) { discount > 0 }

  /**
   * The sale flag agrees with the two price helpers: a product is on sale iff
   * its original price is shown, and, for a non-zero price, iff its discounted
   * price differs from its price. A positive discount lowers a positive price.
   */
  lemma OnSaleMeansReduced(price: int, discount: int)
    ensures IsProductOnSale(discount) <==> GetOriginalPrice(price, Some(discount)).Some?
    ensures price != 0 ==>
      (IsProductOnSale(discount) <==> DiscountedPrice(price, Some(discount)) != price as real)
    ensures IsProductOnSale(discount) && price > 0 ==>
      DiscountedPrice(price, Some(discount)) < price as real
  {
    OriginalPriceOnSale(price, discount);
    DiscountChangesPrice(price, discount);
  }

  lemma OriginalPriceOnSale(price: int, discount: int)
    ensures IsProductOnSale(discount) <==> GetOriginalPrice(price, Some(discount)).Some?
  {
  }

  lemma DiscountChangesPrice(price: int, discount: int)
    ensures price != 0 ==>
      (IsProductOnSale(discount) <==> DiscountedPrice(price, Some(discount)) != price as real)
    ensures IsProductOnSale(discount) && price > 0 ==>
      DiscountedPrice(price, Some(discount)) < price as real
  {
    var r := DiscountedPrice(price, Some(discount));
    if discount > 0 {
      var p, d := price as real, discount as real;
      assert r == p - (p * d) / 100.0;
      CutChangesPrice(p, d);
    } else {
      assert r == price as real;
    }
  }

  /** Taking a positive share off a price changes it exactly when the price is not 0, and lowers a positive one. */
  lemma CutChangesPrice(p: real, d: real)
    requires d > 0.0
    ensures p != 0.0 <==> p - (p * d) / 100.0 != p
    ensures p > 0.0 ==> p - (p * d) / 100.0 < p
  {
    if p > 0.0 {
      assert p * d > 0.0;
    } else if p < 0.0 {
      assert p * d < 0.0;
    }
  }

  /** `${price.toFixed(0)}€` when the product is discounted, `null` otherwise (integer prices). */
  function GetOriginalPrice(price: int, discount: Option<int>): (r: Option<string>)
    ensures r.Some? <==> IsProductOnSale(discount.GetOr(0))
    ensures r.Some? && price >= 0 ==> ParseInt(r.value) == Some(price)
  {
    NumberTextReadsBack(if price >= 0 then price else 0, "\U{20AC}");
    if discount.GetOr(0) > 0 then Some(IntToString(price) + "\U{20AC}") else None
  }

  /** `"Livre"` for a book; every other type, declared or not, is `"Produit"`. */
  function GetProductTypeLabel(kind: string): (r: string)
    ensures r == "Livre" <==> kind == Book
    ensures r == "Livre" || r == "Produit"
  {
    if kind == Book then "Livre" else if kind == ProductKind then "Produit" else "Produit"
  }
}
