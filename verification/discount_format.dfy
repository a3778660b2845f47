/** The records GetDiscounts reads and the display entries it builds, and the
    pure part of the formatting: the label fallback, the coupon attachment
    rule and the one-entry-per-record mapping. */
module DiscountFormat {
  import opened Php

  /** The monetary value of a discount. It is only passed through. */
  type Amount = real

  /** A sales-rule coupon: its code and the rule it belongs to (nullable). */
  datatype Coupon = Coupon(code: string, ruleId: Option<int>)

  /** The parts of the cart that formatting reads. */
  datatype Quote = Quote(couponCode: Option<string>, quoteCurrencyCode: string)

  /** The discount data attached to one applied rule. */
  datatype DiscountData = DiscountData(appliedTo: string, amount: Amount)

  /** One applied rule discount of the cart. */
  datatype RuleDiscount = RuleDiscount(ruleId: Option<int>, ruleLabel: Option<string>, discountData: DiscountData)

  /** The `amount` part of an entry: a value and the cart's currency. */
  datatype Money = Money(value: Amount, currency: string)

  /** The `coupon` part of an entry: just the code. */
  datatype CouponRef = CouponRef(code: string)

  /** One display entry of the discount list. */
  datatype FormattedDiscount = FormattedDiscount(labelText: string, appliedTo: string, amount: Money, coupon: Option<CouponRef>)

  /** The label shown for a rule without a (truthy) label of its own. */
  const DefaultLabel: string := "Discount"

  /** `getRuleLabel() ?: __('Discount')`. */
  function Label(ruleLabel: Option<string>): (r: string)
    ensures StringTruthy(Some(r))
    ensures StringTruthy(ruleLabel) ==> r == ruleLabel.value
    ensures !StringTruthy(ruleLabel) ==> r == DefaultLabel
  {
    if StringTruthy(ruleLabel) then ruleLabel.value else DefaultLabel
  }

  /** getFormattedCoupon: the coupon's code, but only for the rule the coupon belongs to. */
  function FormatCoupon(coupon: Option<Coupon>, ruleId: int): (r: Option<CouponRef>)
    ensures r.Some? <==> coupon.Some? && IntTruthy(coupon.value.ruleId) && coupon.value.ruleId.value == ruleId
    ensures r.Some? ==> ruleId != 0 && r.value.code == coupon.value.code
  {
    if coupon.Some? && IntTruthy(coupon.value.ruleId) && coupon.value.ruleId.value == ruleId then
      Some(CouponRef(coupon.value.code))
    else
      None
  }

  /** A coupon is attached to the entries of at most one rule id. */
  lemma CouponBelongsToOneRule(coupon: Option<Coupon>, d1: RuleDiscount, d2: RuleDiscount)
    requires FormatCoupon(coupon, IntCast(d1.ruleId)).Some?
    requires FormatCoupon(coupon, IntCast(d2.ruleId)).Some?
    ensures d1.ruleId == d2.ruleId == coupon.value.ruleId
  {
  }

  /** The entry built for one record by the body of execute's loop. */
  function FormatEntry(quote: Quote, coupon: Option<Coupon>, d: RuleDiscount): (e: FormattedDiscount)
    ensures StringTruthy(d.ruleLabel) ==> e.labelText == d.ruleLabel.value
    ensures !StringTruthy(d.ruleLabel) ==> e.labelText == DefaultLabel
    ensures e.appliedTo == d.discountData.appliedTo
    ensures e.amount.value == d.discountData.amount
    ensures e.amount.currency == quote.quoteCurrencyCode
    ensures e.coupon.Some? <==> coupon.Some? && IntTruthy(coupon.value.ruleId) && coupon.value.ruleId.value == IntCast(d.ruleId)
    ensures e.coupon.Some? ==> e.coupon.value.code == coupon.value.code
  {
    FormattedDiscount(
      Label(d.ruleLabel),
      d.discountData.appliedTo,
      Money(d.discountData.amount, quote.quoteCurrencyCode),
      FormatCoupon(coupon, IntCast(d.ruleId)))
  }

  /** The list execute builds: the entries of the records, appended in input order. */
  function FormatAll(quote: Quote, coupon: Option<Coupon>, discounts: seq<RuleDiscount>): (r: seq<FormattedDiscount>)
    ensures |r| == |discounts|
  {
    if |discounts| == 0 then []
    else FormatAll(quote, coupon, discounts[..|discounts| - 1]) + [FormatEntry(quote, coupon, discounts[|discounts| - 1])]
  }

  /** Entry i of the list is the entry of record i. */
  lemma {:induction false} FormatAllAt(quote: Quote, coupon: Option<Coupon>, discounts: seq<RuleDiscount>)
    ensures forall i :: 0 <= i < |discounts| ==> FormatAll(quote, coupon, discounts)[i] == FormatEntry(quote, coupon, discounts[i])
  {
    if |discounts| > 0 {
      var init := discounts[..|discounts| - 1];
      FormatAllAt(quote, coupon, init);
      forall i | 0 <= i < |discounts|
        ensures FormatAll(quote, coupon, discounts)[i] == FormatEntry(quote, coupon, discounts[i])
      {
        if i < |init| {
          assert discounts[i] == init[i];
        }
      }
    }
  }

  /** What every entry of the list says about its record, the cart and the coupon. */
  lemma {:induction false} FormatAllEntries(quote: Quote, coupon: Option<Coupon>, discounts: seq<RuleDiscount>)
    ensures |FormatAll(quote, coupon, discounts)| == |discounts|
    ensures forall i :: 0 <= i < |discounts| ==>
      && (StringTruthy(discounts[i].ruleLabel) ==> FormatAll(quote, coupon, discounts)[i].labelText == discounts[i].ruleLabel.value)
      && (!StringTruthy(discounts[i].ruleLabel) ==> FormatAll(quote, coupon, discounts)[i].labelText == DefaultLabel)
      && FormatAll(quote, coupon, discounts)[i].appliedTo == discounts[i].discountData.appliedTo
      && FormatAll(quote, coupon, discounts)[i].amount.value == discounts[i].discountData.amount
      && FormatAll(quote, coupon, discounts)[i].amount.currency == quote.quoteCurrencyCode
      && (FormatAll(quote, coupon, discounts)[i].coupon.Some? <==>
            coupon.Some? && IntTruthy(coupon.value.ruleId) && coupon.value.ruleId.value == IntCast(discounts[i].ruleId))
      && (FormatAll(quote, coupon, discounts)[i].coupon.Some? ==>
            FormatAll(quote, coupon, discounts)[i].coupon.value.code == coupon.value.code)
  {
    FormatAllAt(quote, coupon, discounts);
  }
}
