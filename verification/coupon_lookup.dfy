/** Resolving the cart's coupon through the coupon repository, with and
    without the per-instance cache `couponsByCode`. A call of getCoupon is
    described here as a pure step from one cache to the next, and a run of
    calls as a fold of those steps. */
module CouponLookup {
  import opened Php
  import opened DiscountFormat

  /** The failure the repository may raise (a LocalizedException). */
  datatype LookupError = LookupError(message: string)

  /** A normal outcome or the repository's failure. */
  datatype Result<+T> = Ok(value: T) | Err(error: LookupError)

  /** The contents of the coupon repository at the time of a call: the
      coupons whose `code` field equals the given code, or a failure. */
  type CouponStore = string -> Result<seq<Coupon>>

  /** The cache: a coupon resolved earlier, by code. */
  type CouponsByCode = map<string, Coupon>

  /** The cart's coupon code when it is truthy; none otherwise. */
  function CouponCodeOf(quote: Quote): (r: Option<string>)
    ensures r.Some? <==> StringTruthy(quote.couponCode)
    ensures r.Some? ==> r == quote.couponCode && r.value != "" && r.value != "0"
  {
    if StringTruthy(quote.couponCode) then quote.couponCode else None
  }

  /** One repository query: the first coupon found, none when nothing matched. */
  function FirstMatch(store: CouponStore, code: string): (r: Result<Option<Coupon>>)
    ensures r.Err? <==> store(code).Err?
    ensures r.Ok? ==> (r.value.None? <==> |store(code).value| == 0)
    ensures r.Ok? && r.value.Some? ==> r.value.value == store(code).value[0]
  {
    match store(code)
    case Err(e) => Err(e)
    case Ok(items) => if |items| == 0 then Ok(None) else Ok(Some(items[0]))
  }

  /** The cart's coupon as the repository gives it now, with no cache. */
  function Resolve(store: CouponStore, quote: Quote): Result<Option<Coupon>>
  {
    if CouponCodeOf(quote).None? then Ok(None) else FirstMatch(store, CouponCodeOf(quote).value)
  }

  /** The cache holds no stale entry: every cached coupon is what the
      repository would return for its code now. */
  ghost predicate AgreesWith(cache: CouponsByCode, store: CouponStore)
  {
    forall code :: code in cache ==> FirstMatch(store, code) == Ok(Some(cache[code]))
  }

  /** The effect of one getCoupon call: its result, the new cache, and the
      codes it sent to the repository (empty or one code). */
  datatype Step = Step(coupon: Result<Option<Coupon>>, cache: CouponsByCode, queried: seq<string>)

  /** getCoupon as a function of the cache and the repository. */
  function CouponStep(cache: CouponsByCode, store: CouponStore, quote: Quote): (s: Step)
    // the repository is asked at most once, and only for a truthy code missing from the cache
    ensures s.queried == (if CouponCodeOf(quote).Some? && CouponCodeOf(quote).value !in cache
                          then [CouponCodeOf(quote).value] else [])
    // no truthy code: no coupon
    ensures CouponCodeOf(quote).None? ==> s.coupon == Ok(None)
    // a cached code is answered from the cache
    ensures CouponCodeOf(quote).Some? && CouponCodeOf(quote).value in cache ==>
              s.coupon == Ok(Some(cache[CouponCodeOf(quote).value]))
    // a miss is answered by the repository's first match
    ensures s.queried != [] ==> s.coupon == FirstMatch(store, s.queried[0])
    // the cache only grows, and only by a coupon that was found
    ensures forall code :: code in cache ==> code in s.cache && s.cache[code] == cache[code]
    ensures s.cache != cache ==> s.queried != [] && s.coupon.Ok? && s.coupon.value.Some?
    ensures s.cache.Keys <= cache.Keys + set code | code in s.queried
    // a found coupon is the one kept under the code
    ensures s.coupon.Ok? && s.coupon.value.Some? ==>
              CouponCodeOf(quote).Some? && CouponCodeOf(quote).value in s.cache &&
              s.cache[CouponCodeOf(quote).value] == s.coupon.value.value
  {
    var code := CouponCodeOf(quote);
    if code.None? then Step(Ok(None), cache, [])
    else if code.value in cache then Step(Ok(Some(cache[code.value])), cache, [])
    else
      var found := FirstMatch(store, code.value);
      if found.Ok? && found.value.Some? then Step(found, cache[code.value := found.value.value], [code.value])
      else Step(found, cache, [code.value])
  }

  /** A cache that agrees with the repository is invisible: the step answers
      as an uncached lookup would, and the new cache still agrees. */
  lemma StepAgrees(cache: CouponsByCode, store: CouponStore, quote: Quote)
    requires AgreesWith(cache, store)
    ensures CouponStep(cache, store, quote).coupon == Resolve(store, quote)
    ensures AgreesWith(CouponStep(cache, store, quote).cache, store)
  {
  }

  /** An entry from an earlier request is used even after the repository
      changed: the cache agrees only with the repository it was filled from. */
  lemma StaleEntryOutlivesStore(cache: CouponsByCode, store: CouponStore, quote: Quote)
    requires CouponCodeOf(quote).Some? && CouponCodeOf(quote).value in cache
    requires FirstMatch(store, CouponCodeOf(quote).value) != Ok(Some(cache[CouponCodeOf(quote).value]))
    ensures CouponStep(cache, store, quote).coupon != Resolve(store, quote)
    ensures !AgreesWith(cache, store)
  {
  }

  /** Successive getCoupon calls on one instance with no reset between them. */
  datatype Trace = Trace(cache: CouponsByCode, queried: seq<string>)

  function Replay(cache: CouponsByCode, store: CouponStore, quotes: seq<Quote>): (t: Trace)
    ensures |t.queried| <= |quotes|
    ensures cache.Keys <= t.cache.Keys
    decreases |quotes|
  {
    if |quotes| == 0 then Trace(cache, [])
    else
      var s := CouponStep(cache, store, quotes[0]);
      var rest := Replay(s.cache, store, quotes[1..]);
      Trace(rest.cache, s.queried + rest.queried)
  }

  /** Once a code is cached, no later call asks the repository for it, and
      its entry stays as it is. */
  lemma {:induction false} CachedCodeNeverQueried(cache: CouponsByCode, store: CouponStore, quotes: seq<Quote>, code: string)
    requires code in cache
    ensures code !in Replay(cache, store, quotes).queried
    ensures code in Replay(cache, store, quotes).cache && Replay(cache, store, quotes).cache[code] == cache[code]
    decreases |quotes|
  {
    if |quotes| > 0 {
      var s := CouponStep(cache, store, quotes[0]);
      CachedCodeNeverQueried(s.cache, store, quotes[1..], code);
    }
  }

  /** A code the repository resolves is asked for at most once in a run. */
  lemma {:induction false} ResolvedCodeQueriedAtMostOnce(cache: CouponsByCode, store: CouponStore, quotes: seq<Quote>, code: string)
    requires FirstMatch(store, code).Ok? && FirstMatch(store, code).value.Some?
    ensures multiset(Replay(cache, store, quotes).queried)[code] <= 1
    decreases |quotes|
  {
    if code in cache {
      CachedCodeNeverQueried(cache, store, quotes, code);
    } else if |quotes| > 0 {
      var s := CouponStep(cache, store, quotes[0]);
      var rest := Replay(s.cache, store, quotes[1..]);
      assert Replay(cache, store, quotes).queried == s.queried + rest.queried;
      if s.queried == [code] {
        assert code in s.cache;
        CachedCodeNeverQueried(s.cache, store, quotes[1..], code);
      } else {
        assert code !in s.queried;
        ResolvedCodeQueriedAtMostOnce(s.cache, store, quotes[1..], code);
      }
    }
  }

  /** A code the repository does not resolve is never cached, so every call
      for it asks the repository again. */
  lemma {:induction false} UnresolvedCodeRequeried(cache: CouponsByCode, store: CouponStore, quotes: seq<Quote>, code: string)
    requires code !in cache
    requires FirstMatch(store, code) == Ok(None)
    requires forall i :: 0 <= i < |quotes| ==> CouponCodeOf(quotes[i]) == Some(code)
    ensures multiset(Replay(cache, store, quotes).queried)[code] == |quotes|
    ensures Replay(cache, store, quotes).cache == cache
    decreases |quotes|
  {
    if |quotes| > 0 {
      var s := CouponStep(cache, store, quotes[0]);
      assert s.queried == [code];
      UnresolvedCodeRequeried(s.cache, store, quotes[1..], code);
    }
  }

  /** On an empty cache (after a reset) a truthy code is always looked up afresh. */
  lemma FreshLookupAfterReset(store: CouponStore, quote: Quote)
    requires CouponCodeOf(quote).Some?
    ensures CouponStep(map[], store, quote).queried == [CouponCodeOf(quote).value]
    ensures CouponStep(map[], store, quote).coupon == Resolve(store, quote)
    ensures AgreesWith(map[], store)
  {
  }
}
