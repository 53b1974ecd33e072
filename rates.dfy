/** Exchange rates and conversion: turning the rate feed's array into a
    dictionary keyed by currency code, the service fee of a quote, and the
    conversion of an amount at a rate, rounded to the currency's digits. */
module Rates {
  import opened Wrappers
  import opened Exceptions
  import opened Pricing

  /** One element of the feed's array, as delivered. */
  datatype RawRate = RawRate(code: string, currencyCode: string, basePrice: real, currencyUnit: real)

  /** A dictionary entry: the feed's fields plus the currency's digits. */
  datatype RateInfo = RateInfo(code: string, currencyCode: string, basePrice: real, currencyUnit: real, fractionDigits: nat)

  /** What the HTTP call to the feed produced. */
  datatype FeedResponse =
    | Unreachable                  // the request failed
    | NonArray                     // the body is not an array
    | ArrayData(items: seq<RawRate>)

  function Entry(rate: RawRate, c: Currency): RateInfo
  {
    RateInfo(rate.code, rate.currencyCode, rate.basePrice, rate.currencyUnit, Info(c).fractionDigits)
  }

  /** The dictionary after the forEach has visited `items` in order; a code
      outside SUPPORTED_CURRENCY makes the `fractionDigits` read fail. */
  function RatesAfter(items: seq<RawRate>): Result<map<string, RateInfo>, Fault>
    decreases |items|
  {
    if |items| == 0 then Success(map[])
    else
      match RatesAfter(items[..|items| - 1])
      case Failure(f) => Failure(f)
      case Success(rates) =>
        var rate := items[|items| - 1];
        match SupportedCurrency(rate.currencyCode)
        case None => Failure(TypeFault)
        case Some(c) => Success(rates[rate.currencyCode := Entry(rate, c)])
  }

  /** What getExchangeRates yields for a feed response. */
  function FeedRates(response: FeedResponse): Result<map<string, RateInfo>, Fault>
  {
    match response
    case Unreachable => Failure(Thrown("An error happened!"))
    case NonArray => Failure(Http(InternalServerError))
    case ArrayData(items) => RatesAfter(items)
  }

  /** getExchangeRates after the HTTP call: a transport failure rethrows a
      bare string, a non-array body is an INTERNAL_SERVER_ERROR, and an array
      is folded into a dictionary one element at a time. */
  method GetExchangeRates(response: FeedResponse) returns (r: Result<map<string, RateInfo>, Fault>)
    ensures response.Unreachable? ==> r == Failure(Thrown("An error happened!"))
    ensures response.NonArray? ==> r == Failure(Http(InternalServerError))
    ensures response.ArrayData? ==> r == RatesAfter(response.items)
    ensures r == FeedRates(response)
  {
    match response
    case Unreachable =>
      r := Failure(Thrown("An error happened!"));
    case NonArray =>
      r := Failure(Http(InternalServerError));
    case ArrayData(items) =>
      var rates: map<string, RateInfo> := map[];
      var i := 0;
      while i < |items|
        invariant 0 <= i <= |items|
        invariant RatesAfter(items[..i]) == Success(rates)
      {
        assert items[..i + 1][..i] == items[..i];
        var rate := items[i];
        var currency := SupportedCurrency(rate.currencyCode);
        if currency.None? {
          assert RatesAfter(items[..i + 1]) == Failure(TypeFault);
          RatesAfterFailureSticks(items, i + 1);
          r := Failure(TypeFault);
          return;
        }
        rates := rates[rate.currencyCode := Entry(rate, currency.value)];
        i := i + 1;
      }
      assert items[..i] == items;
      r := Success(rates);
  }

  /** Once a prefix fails, the whole fold fails the same way. */
  lemma {:induction false} RatesAfterFailureSticks(items: seq<RawRate>, k: nat)
    requires k <= |items|
    requires RatesAfter(items[..k]).Failure?
    ensures RatesAfter(items) == RatesAfter(items[..k])
    decreases |items| - k
  {
    if k < |items| {
      var next := items[..k + 1];
      assert next[..k] == items[..k];
      assert RatesAfter(next) == RatesAfter(items[..k]);
      RatesAfterFailureSticks(items, k + 1);
    } else {
      assert items[..k] == items;
    }
  }

  /** The fold succeeds exactly when every element names a supported
      currency. */
  lemma {:induction false} RatesAfterSucceeds(items: seq<RawRate>)
    ensures RatesAfter(items).Success? <==>
      forall i :: 0 <= i < |items| ==> SupportedCurrency(items[i].currencyCode).Some?
    decreases |items|
  {
    if |items| > 0 {
      var init := items[..|items| - 1];
      RatesAfterSucceeds(init);
      assert forall i :: 0 <= i < |init| ==> init[i] == items[i];
    }
  }

  /** A successful dictionary holds exactly the codes the feed delivered. */
  lemma {:induction false} RatesAfterKeys(items: seq<RawRate>)
    requires RatesAfter(items).Success?
    ensures forall code :: code in RatesAfter(items).value <==>
      exists i :: 0 <= i < |items| && items[i].currencyCode == code
    decreases |items|
  {
    if |items| > 0 {
      var init := items[..|items| - 1];
      var last := items[|items| - 1];
      RatesAfterKeys(init);
      var rates := RatesAfter(items).value;
      assert rates.Keys == RatesAfter(init).value.Keys + {last.currencyCode};
      forall code
        ensures code in rates <==> exists i :: 0 <= i < |items| && items[i].currencyCode == code
      {
        if code in rates && code != last.currencyCode {
          var i :| 0 <= i < |init| && init[i].currencyCode == code;
          assert items[i].currencyCode == code;
        }
        if code in rates && code == last.currencyCode {
          assert items[|items| - 1].currencyCode == code;
        }
        if exists i :: 0 <= i < |items| && items[i].currencyCode == code {
          var i :| 0 <= i < |items| && items[i].currencyCode == code;
          if i < |items| - 1 {
            assert init[i].currencyCode == code;
          }
        }
      }
    }
  }

  /** No later element of `items` has the currency code of element `i`. */
  predicate LastOfItsCode(items: seq<RawRate>, i: int)
    requires 0 <= i < |items|
  {
    forall j :: i < j < |items| ==> items[j].currencyCode != items[i].currencyCode
  }

  /** When a code is delivered more than once, the last element wins, and
      every entry carries its currency's digits. */
  lemma {:induction false} RatesAfterLastWins(items: seq<RawRate>, i: int)
    requires RatesAfter(items).Success?
    requires 0 <= i < |items| && LastOfItsCode(items, i)
    ensures SupportedCurrency(items[i].currencyCode).Some?
    ensures items[i].currencyCode in RatesAfter(items).value
    ensures RatesAfter(items).value[items[i].currencyCode] ==
      Entry(items[i], SupportedCurrency(items[i].currencyCode).value)
    decreases |items|
  {
    var init := items[..|items| - 1];
    var last := items[|items| - 1];
    if i < |items| - 1 {
      assert init[i] == items[i];
      assert items[|items| - 1].currencyCode != items[i].currencyCode;
      assert LastOfItsCode(init, i);
      RatesAfterLastWins(init, i);
    }
  }

  /** Every dictionary entry has two fraction digits. */
  lemma RatesHaveTwoDigits(items: seq<RawRate>)
    requires RatesAfter(items).Success?
    ensures forall code :: code in RatesAfter(items).value ==>
      RatesAfter(items).value[code].fractionDigits == 2
    decreases |items|
  {
    if |items| > 0 {
      RatesHaveTwoDigits(items[..|items| - 1]);
    }
  }

  /** getServiceFee: the user type's fixed fee plus the target currency's
      charge on the amount. An unsupported currency fails on the table read,
      an amount below 1 with NEGATIVE_NUMBER; otherwise the fee lies strictly
      between the fixed fee and the fixed fee plus the amount. */
  function ServiceFee(idType: IdType, amount: real, currencyCode: string): (r: Result<real, Fault>)
    ensures r.Failure? <==> SupportedCurrency(currencyCode).None? || amount < 1.0
    ensures SupportedCurrency(currencyCode).None? ==> r == Failure(TypeFault)
    ensures r.Success? ==>
      && SupportedCurrency(currencyCode).Some?
      && r.value == FixedUserFee(idType) + ServiceCharge(SupportedCurrency(currencyCode).value, amount).value
    ensures r.Success? ==> FixedUserFee(idType) < r.value < FixedUserFee(idType) + amount
  {
    match SupportedCurrency(currencyCode)
    case None => Failure(TypeFault)
    case Some(c) =>
      match ServiceCharge(c, amount)
      case Failure(f) => Failure(f)
      case Success(charge) => Success(FixedUserFee(idType) + charge)
  }

  function Pow10(d: nat): (p: real)
    ensures p >= 1.0
  {
    if d == 0 then 1.0 else 10.0 * Pow10(d - 1)
  }

  /** `k` units of the last digit kept, for `scale` = 10^d. */
  function Units(k: int, scale: real): real
    requires scale >= 1.0
  {
    k as real / scale
  }

  /** `parseFloat(x.toFixed(d))` on the exact value, with `scale` = 10^d:
      the nearest multiple of 1/scale, ties away from zero. The result is a
      whole number of units of the last digit kept. */
  function RoundToFixed(x: real, scale: real): (r: real)
    requires scale >= 1.0
    ensures exists k: int :: r == Units(k, scale)
  {
    if x >= 0.0 then
      var k := (x * scale + 0.5).Floor;
      assert k as real / scale == Units(k, scale);
      k as real / scale
    else
      var k := (-x * scale + 0.5).Floor;
      assert -(k as real / scale) == Units(-k, scale);
      -(k as real / scale)
  }

  /** Rounding a non-negative value moves it by at most half a unit of the
      last digit kept. */
  lemma RoundNonNegativeError(x: real, scale: real)
    requires x >= 0.0 && scale >= 1.0
    ensures -0.5 <= (RoundToFixed(x, scale) - x) * scale <= 0.5
  {
    var y := x * scale;
    var n := (y + 0.5).Floor as real;
    assert y - 0.5 < n <= y + 0.5;
    var r := RoundToFixed(x, scale);
    assert r == n / scale;
    assert r * scale == n;
    assert (r - x) * scale == r * scale - x * scale;
  }

  /** Rounding moves any value by at most half a unit of the last digit. */
  lemma RoundingError(x: real, scale: real)
    requires scale >= 1.0
    ensures -0.5 <= (RoundToFixed(x, scale) - x) * scale <= 0.5
  {
    if x >= 0.0 {
      RoundNonNegativeError(x, scale);
    } else {
      RoundNonNegativeError(-x, scale);
      assert RoundToFixed(x, scale) == -RoundToFixed(-x, scale);
      assert (RoundToFixed(x, scale) - x) * scale == -((RoundToFixed(-x, scale) - -x) * scale);
    }
  }

  /** getExchangedAmount: `amount * currencyUnit / basePrice` rounded to the
      rate's digits: a whole number of units of the last digit, within half
      a unit of the exact quotient. A zero basePrice has no finite result. */
  function ExchangedAmount(amount: real, rate: RateInfo): (r: Result<real, Fault>)
    ensures r.Failure? <==> rate.basePrice == 0.0
    ensures r.Failure? ==> r.error == NonFiniteAmount
    ensures r.Success? ==>
      -0.5 <= (r.value - amount * rate.currencyUnit / rate.basePrice) * Pow10(rate.fractionDigits) <= 0.5
    ensures r.Success? ==> exists k: int :: r.value == Units(k, Pow10(rate.fractionDigits))
  {
    if rate.basePrice == 0.0 then Failure(NonFiniteAmount)
    else
      var exact := amount * rate.currencyUnit / rate.basePrice;
      RoundingError(exact, Pow10(rate.fractionDigits));
      Success(RoundToFixed(exact, Pow10(rate.fractionDigits)))
  }
}
