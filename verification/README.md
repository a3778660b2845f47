# GetDiscounts (Magento QuoteGraphQl) in Dafny

This project models `Magento\QuoteGraphQl\Model\GetDiscounts`. That service turns
the rule discounts applied to a cart (quote) into the list of discount entries
that the GraphQL cart resolvers display. Each entry has:

- a label, which falls back to "Discount";
- the `applied_to` descriptor;
- the amount, with the quote's currency;
- the cart's coupon code, attached only to the entries of the rule that the coupon belongs to.

The service resolves the cart's coupon through the coupon repository. It memoises
successful lookups in its `couponsByCode` field. The framework clears that field
between requests through `_resetState`.

Files and modules:

- `php.dfy`, module `Php`: nullable values, and PHP truthiness of strings and
  integers (null, `""` and `"0"` are falsy strings). Also the `(int)` cast.
- `discount_format.dfy`, module `DiscountFormat`: the records (`Coupon`, `Quote`,
  `RuleDiscount`, `DiscountData`) and the entries (`FormattedDiscount`). Also the
  label fallback, `getFormattedCoupon`, and the list built by `execute`'s loop
  (`FormatAll`), with its lemmas.
- `coupon_lookup.dfy`, module `CouponLookup`: the repository as a function from a
  code to the matching coupons or a failure. `Resolve` is the uncached coupon of a
  cart. `CouponStep` is one `getCoupon` call as a pure step from cache to cache.
  `Replay` is a run of calls. The lemmas cover what the cache does over such runs.
- `get_discounts.dfy`, module `QuoteGraphQl`: the class `GetDiscounts`. It has the
  `couponsByCode` map field and a ghost log `lookups` of every code sent to the
  repository. Its methods are `GetCoupon`, `Execute` and `ResetState`. `Format`
  is the uncached specification of `execute`.

Modelling choices:

- The repository is passed to each call as `store`, the repository's contents at
  that moment. Its contents may change between requests. `AgreesWith(cache, store)`
  says that no cached entry is stale with respect to the repository's current contents.
- The repository's `LocalizedException` is the `Err` outcome. `execute` then
  returns the error and no entries. The failed query is still logged in `lookups`,
  and the cache is left unchanged.
- Rule ids are nullable integers. `(int)` maps null to 0. A coupon rule id that the
  persistence layer delivers as a numeric string is taken as its integer value. This
  matches PHP 8's loose `==` between a numeric string and an int.
- The amount is a `real` that is only passed through.

Details of the PHP code that the model keeps:

- The label falls back to "Discount" whenever the rule label is falsy in PHP (line 61).
  That includes `"0"`, not only the empty or missing label.
- A coupon is attached only when its rule id is non-zero and equals the record's
  `(int)`-cast rule id (line 83). An equal rule id alone is not enough.
- `execute` takes an `array`, so the discount list is never null. Only the empty
  list yields null (lines 50-54).

## Model

| member | source | states |
|---|---|---|
| `Php.IntCast` | app/code/Magento/QuoteGraphQl/Model/GetDiscounts.php:67 | the `(int)` cast of a nullable rule id is non-zero exactly when the rule id is truthy, and is that id then |
| `DiscountFormat.Label` | app/code/Magento/QuoteGraphQl/Model/GetDiscounts.php:61 | a truthy rule label is kept and any falsy one (null, "", "0") becomes "Discount"; the label shown is always truthy |
| `DiscountFormat.FormatCoupon` | app/code/Magento/QuoteGraphQl/Model/GetDiscounts.php:81-87 | `{code}` is returned iff a coupon is present, its rule id is truthy and equals the given rule id; then it carries the coupon's code, and rule id 0 never gets a coupon |
| `DiscountFormat.CouponBelongsToOneRule` | app/code/Magento/QuoteGraphQl/Model/GetDiscounts.php:83 | two records that both receive the coupon have the coupon's own rule id |
| `DiscountFormat.FormatEntry` | app/code/Magento/QuoteGraphQl/Model/GetDiscounts.php:59-68 | the entry of one record: label fallback (truthy label kept, else "Discount"), `applied_to` and amount value copied from the record, currency equal to the quote currency, coupon present iff the resolved coupon's non-zero rule id equals the record's cast rule id, and then with its code |
| `DiscountFormat.FormatAll` | app/code/Magento/QuoteGraphQl/Model/GetDiscounts.php:56-71 | the list built by the loop has exactly one entry per input record |
| `DiscountFormat.FormatAllAt` | app/code/Magento/QuoteGraphQl/Model/GetDiscounts.php:58-69 | entry i of the list is the entry formatted from record i (input order is preserved) |
| `DiscountFormat.FormatAllEntries` | app/code/Magento/QuoteGraphQl/Model/GetDiscounts.php:58-69 | each entry: label fallback, `applied_to` and amount value copied from the record, currency equals the quote currency, coupon present iff the resolved coupon's non-zero rule id equals the record's cast rule id, and then with its code |
| `CouponLookup.CouponCodeOf` | app/code/Magento/QuoteGraphQl/Model/GetDiscounts.php:98-101 | the quote's coupon code counts only when it is truthy (not null, "" or "0") |
| `CouponLookup.FirstMatch` | app/code/Magento/QuoteGraphQl/Model/GetDiscounts.php:105-111 | a repository query fails iff the repository fails, finds nothing iff no coupon matches, and otherwise gives the first match |
| `CouponLookup.CouponStep` | app/code/Magento/QuoteGraphQl/Model/GetDiscounts.php:96-113 | one getCoupon call: no code gives null with no query; a cached code is answered from the cache with no query; a miss queries the repository once; existing entries are kept; the cache grows only by a found coupon, stored under the code and returned |
| `CouponLookup.StepAgrees` | app/code/Magento/QuoteGraphQl/Model/GetDiscounts.php:102-112 | with a non-stale cache, a call returns what an uncached lookup would and leaves the cache non-stale |
| `CouponLookup.StaleEntryOutlivesStore` | app/code/Magento/QuoteGraphQl/Model/GetDiscounts.php:102-104 | a cached entry that the repository no longer agrees with is still returned, which differs from a fresh lookup; this is why the cache must be reset between requests |
| `CouponLookup.Replay` | app/code/Magento/QuoteGraphQl/Model/GetDiscounts.php:96-113 | a run of calls makes at most one query per call and never loses a cached code |
| `CouponLookup.CachedCodeNeverQueried` | app/code/Magento/QuoteGraphQl/Model/GetDiscounts.php:102-104 | once a code is cached, no later call in the run queries it and its entry is unchanged |
| `CouponLookup.ResolvedCodeQueriedAtMostOnce` | app/code/Magento/QuoteGraphQl/Model/GetDiscounts.php:102-112 | a code that the repository resolves is queried at most once in any run of calls without a reset |
| `CouponLookup.UnresolvedCodeRequeried` | app/code/Magento/QuoteGraphQl/Model/GetDiscounts.php:108-110 | an unresolved code is never cached, so each call for it queries the repository again |
| `CouponLookup.FreshLookupAfterReset` | app/code/Magento/QuoteGraphQl/Model/GetDiscounts.php:118-121 | on the empty cache left by a reset, a truthy code is queried afresh and answered as an uncached lookup |
| `QuoteGraphQl.Format` | app/code/Magento/QuoteGraphQl/Model/GetDiscounts.php:50-72 | an empty discount list gives null (never an empty list); a lookup failure gives that same error with no entries; otherwise a list whose entries are `FormatAll` of the records with the resolved coupon, one per record |
| `QuoteGraphQl.GetDiscounts.constructor` | app/code/Magento/QuoteGraphQl/Model/GetDiscounts.php:30-40 | a new instance starts with an empty `couponsByCode` |
| `QuoteGraphQl.GetDiscounts.GetCoupon` | app/code/Magento/QuoteGraphQl/Model/GetDiscounts.php:96-113 | the result, the new cache and the new lookup log are those of `CouponStep`; with a non-stale cache the result equals the uncached lookup; any coupon returned was fetched by a logged query for the cart's code |
| `QuoteGraphQl.GetDiscounts.Execute` | app/code/Magento/QuoteGraphQl/Model/GetDiscounts.php:50-72 | an empty list returns null and changes no state; otherwise the cache and log change as one getCoupon call, and the result is the error or `FormatAll` of the records; with a non-stale cache the result equals `Format` |
| `QuoteGraphQl.GetDiscounts.ResetState` | app/code/Magento/QuoteGraphQl/Model/GetDiscounts.php:118-121 | `couponsByCode` becomes empty whatever it held, so the method is idempotent, and the empty cache agrees with every repository |
| `QuoteGraphQl.CouponShownOnItsRuleOnly` | app/code/Magento/QuoteGraphQl/Model/GetDiscounts.php:56-71 | for coupon SAVE10 of rule 1 and discounts of rules 1 and 2, only the rule-1 entry carries the coupon and the unlabelled entry reads "Discount" |

## Left out

- dev/tests/unit/testsuite/Magento/Framework/Backup/_files/Ftp.php: a test mock whose `run()` does nothing. Its real counterpart is FTP and file-system I/O.
- The coupon repository's `getList` and the `SearchCriteriaBuilder` filter are foreign library code. They are replaced by `store(code)`, the list of coupons whose code equals the given code, or a failure.
- The localisation function `__()`: "Discount" is a constant string.
- The amount's numeric type: it is passed through, so no arithmetic, rounding or formatting is modelled.
- Dependency injection, the GraphQL resolver plumbing and the `ResetAfterRequestInterface` contract are left out. Only the effect of `_resetState` on the cache is modelled.
- PHP array-key normalisation is not modelled: a numeric-string code such as "123" becomes the integer key 123. All keys are coupon codes, so this renaming is injective and does not change lookups.
- Concurrency: the service is used by one request at a time and the model is sequential.
