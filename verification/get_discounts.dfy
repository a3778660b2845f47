/** The GetDiscounts service of the QuoteGraphQl module: it turns a cart's
    applied rule discounts into display entries, resolving the cart's coupon
    through the repository and memoising successful lookups in
    `couponsByCode` until the framework resets it between requests. */
module QuoteGraphQl {
  import opened Php
  import opened DiscountFormat
  import opened CouponLookup

  /** What execute returns, with no cache: none for an empty discount list,
      otherwise one entry per record, or the repository's failure. */
  function Format(store: CouponStore, quote: Quote, discounts: seq<RuleDiscount>): (r: Result<Option<seq<FormattedDiscount>>>)
    ensures |discounts| == 0 ==> r == Ok(None)
    ensures r.Err? <==> |discounts| > 0 && Resolve(store, quote).Err?
    ensures r.Ok? && r.value.Some? ==> |r.value.value| == |discounts| > 0
    ensures |discounts| > 0 && Resolve(store, quote).Ok? ==>
              r == Ok(Some(FormatAll(quote, Resolve(store, quote).value, discounts)))
    ensures r.Err? ==> r.error == Resolve(store, quote).error
  {
    if |discounts| == 0 then Ok(None)
    else match Resolve(store, quote)
      case Err(e) => Err(e)
      case Ok(coupon) => Ok(Some(FormatAll(quote, coupon, discounts)))
  }

  class GetDiscounts {
    /** Coupons already resolved in this request, by code. */
    var couponsByCode: CouponsByCode
    /** Every code this instance has sent to the repository, in order. */
    ghost var lookups: seq<string>

    /** Only truthy codes are cached, and each one was looked up. */
    ghost predicate Valid()
      reads this
    {
      forall code :: code in couponsByCode ==> StringTruthy(Some(code)) && code in lookups
    }

    constructor ()
      ensures Valid()
      ensures couponsByCode == map[] && lookups == []
    {
      couponsByCode := map[];
      lookups := [];
    }

    /** getCoupon: the cart's coupon, from the cache or from the repository. */
    method GetCoupon(quote: Quote, store: CouponStore) returns (coupon: Result<Option<Coupon>>)
      requires Valid()
      modifies this
      ensures Valid()
      ensures coupon == CouponStep(old(couponsByCode), store, quote).coupon
      ensures couponsByCode == CouponStep(old(couponsByCode), store, quote).cache
      ensures lookups == old(lookups) + CouponStep(old(couponsByCode), store, quote).queried
      ensures old(AgreesWith(couponsByCode, store)) ==>
                coupon == Resolve(store, quote) && AgreesWith(couponsByCode, store)
      // every coupon handed out, cached or not, came from a repository query for the cart's code
      ensures coupon.Ok? && coupon.value.Some? ==>
                CouponCodeOf(quote).Some? && CouponCodeOf(quote).value in lookups
    {
      ghost var before := couponsByCode;
      var couponCode := quote.couponCode;
      if !StringTruthy(couponCode) {
        return Ok(None);
      }
      if couponCode.value in couponsByCode {
        coupon := Ok(Some(couponsByCode[couponCode.value]));
        if AgreesWith(before, store) {
          StepAgrees(before, store, quote);
        }
        return;
      }
      lookups := lookups + [couponCode.value];
      var couponModels := store(couponCode.value);
      if couponModels.Err? {
        coupon := Err(couponModels.error);
      } else if |couponModels.value| == 0 {
        coupon := Ok(None);
      } else {
        couponsByCode := couponsByCode[couponCode.value := couponModels.value[0]];
        coupon := Ok(Some(couponsByCode[couponCode.value]));
      }
      if AgreesWith(before, store) {
        StepAgrees(before, store, quote);
      }
    }

    /** execute: the display entries of the cart's discounts, or none when there are no discounts. */
    method Execute(quote: Quote, discounts: seq<RuleDiscount>, store: CouponStore)
      returns (r: Result<Option<seq<FormattedDiscount>>>)
      requires Valid()
      modifies this
      ensures Valid()
      ensures |discounts| == 0 ==>
                r == Ok(None) && couponsByCode == old(couponsByCode) && lookups == old(lookups)
      ensures |discounts| > 0 ==>
                && couponsByCode == CouponStep(old(couponsByCode), store, quote).cache
                && lookups == old(lookups) + CouponStep(old(couponsByCode), store, quote).queried
                && r == match CouponStep(old(couponsByCode), store, quote).coupon
                        case Err(e) => Err(e)
                        case Ok(c) => Ok(Some(FormatAll(quote, c, discounts)))
      ensures old(AgreesWith(couponsByCode, store)) ==>
                r == Format(store, quote, discounts) && AgreesWith(couponsByCode, store)
    {
      if |discounts| == 0 {
        return Ok(None);
      }
      var discountValues: seq<FormattedDiscount> := [];
      var coupon := GetCoupon(quote, store);
      if coupon.Err? {
        return Err(coupon.error);
      }
      for i := 0 to |discounts|
        invariant discountValues == FormatAll(quote, coupon.value, discounts[..i])
      {
        var value := discounts[i];
        var discountData := value.discountData;
        assert discounts[..i + 1][..i] == discounts[..i];
        discountValues := discountValues + [
          FormattedDiscount(
            Label(value.ruleLabel),
            discountData.appliedTo,
            Money(discountData.amount, quote.quoteCurrencyCode),
            FormatCoupon(coupon.value, IntCast(value.ruleId)))
        ];
      }
      assert discounts[..|discounts|] == discounts;
      return Ok(Some(discountValues));
    }

    /** _resetState: forget every cached coupon. */
    method ResetState()
      requires Valid()
      modifies this
      ensures Valid()
      ensures couponsByCode == map[] && lookups == old(lookups)
      ensures forall store: CouponStore :: AgreesWith(couponsByCode, store)
    {
      couponsByCode := map[];
    }
  }

  /** A repository holding one coupon, SAVE10, which belongs to rule 1. */
  function Save10Store(code: string): Result<seq<Coupon>>
  {
    if code == "SAVE10" then Ok([Coupon("SAVE10", Some(1))]) else Ok([])
  }

  /** A cart with coupon SAVE10 and two discounts: only the discount of
      rule 1 shows the coupon, and the unlabelled one shows the default label. */
  lemma CouponShownOnItsRuleOnly(quote: Quote, discounts: seq<RuleDiscount>)
    requires quote == Quote(Some("SAVE10"), "USD")
    requires discounts == [RuleDiscount(Some(1), Some(""), DiscountData("shipping", 5.0)),
                           RuleDiscount(Some(2), Some("Spring Sale"), DiscountData("subtotal", 10.0))]
    ensures Format(Save10Store, quote, discounts) == Ok(Some([
              FormattedDiscount(DefaultLabel, "shipping", Money(5.0, "USD"), Some(CouponRef("SAVE10"))),
              FormattedDiscount("Spring Sale", "subtotal", Money(10.0, "USD"), None)]))
  {
    assert Resolve(Save10Store, quote) == Ok(Some(Coupon("SAVE10", Some(1))));
    var coupon := Some(Coupon("SAVE10", Some(1)));
    var out := FormatAll(quote, coupon, discounts);
    FormatAllAt(quote, coupon, discounts);
    assert out[0] == FormattedDiscount(DefaultLabel, "shipping", Money(5.0, "USD"), Some(CouponRef("SAVE10")));
    assert out[1] == FormattedDiscount("Spring Sale", "subtotal", Money(10.0, "USD"), None);
    assert out == [out[0], out[1]];
    assert Format(Save10Store, quote, discounts) == Ok(Some(out));
  }
}
