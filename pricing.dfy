/** The wire-transfer policy tables: the quote validity window, the fixed
    fee and the daily limit per user type, the supported target currencies
    with their tiered service charges, and the address of the rate feed. */
module Pricing {
  import opened Wrappers
  import opened Exceptions
  import Strings

  /** How long a fresh quote stays valid, in milliseconds (ten minutes). */
  const QUOTE_VALID_TIME: int := 600000

  /** The user classification that selects fee and limit. */
  datatype IdType = RegNo | BusinessNo

  /** FIXED_USER_FEE: the flat part of the fee, in source-currency units. */
  function FixedUserFee(t: IdType): real
  {
    match t
    case RegNo => 1000.0
    case BusinessNo => 3000.0
  }

  /** ID_TYPE_WIRE_AMOUNT_LIMIT: the daily cap on the USD-equivalent volume. */
  function WireAmountLimit(t: IdType): real
  {
    match t
    case RegNo => 1000.0
    case BusinessNo => 5000.0
  }

  /** A supported target currency, one per property of SUPPORTED_CURRENCY. */
  datatype Currency = USD | JPY

  /** The descriptive part of a SUPPORTED_CURRENCY entry. */
  datatype CurrencyInfo = CurrencyInfo(frxCode: string, currencyCode: string, fractionDigits: nat)

  function Info(c: Currency): CurrencyInfo
  {
    match c
    case USD => CurrencyInfo("FRX.KRWUSD", "USD", 2)
    case JPY => CurrencyInfo("FRX.KRWJPY", "JPY", 2)
  }

  /** The properties of SUPPORTED_CURRENCY in declaration order, which is the
      order `Object.entries` visits them in. */
  const SUPPORTED_CURRENCIES: seq<Currency> := [USD, JPY]

  /** `SUPPORTED_CURRENCY[code]`, `undefined` for any other string. Each
      property is named after its currency code. */
  function SupportedCurrency(code: string): (r: Option<Currency>)
    ensures r.Some? ==> Info(r.value).currencyCode == code
    ensures r.None? ==> forall c :: Info(c).currencyCode != code
  {
    if code == "USD" then Some(USD)
    else if code == "JPY" then Some(JPY)
    else None
  }

  /** `getServiceCharge(amount)` of the currency's entry: 0.2% up to and
      including 1,000,000 and 0.1% above for USD, 0.5% for JPY; any amount
      below 1 throws NEGATIVE_NUMBER. What is accepted is charged strictly
      more than nothing and strictly less than the amount itself. */
  function ServiceCharge(c: Currency, amount: real): (r: Result<real, Fault>)
    ensures r.Failure? <==> amount < 1.0
    ensures r.Failure? ==> r.error == Http(NegativeNumber)
    ensures r.Success? ==> 0.0 < r.value < amount
  {
    match c
    case USD =>
      if amount >= 1.0 && amount <= 1000000.0 then Success(amount * (0.2 / 100.0))
      else if amount > 1000000.0 then Success(amount * (0.1 / 100.0))
      else Failure(Http(NegativeNumber))
    case JPY =>
      if amount >= 1.0 then Success(amount * (0.5 / 100.0))
      else Failure(Http(NegativeNumber))
  }

  /** The USD tiers: 0.2% from 1 to 1,000,000 inclusive, 0.1% beyond. */
  lemma UsdChargeTiers(amount: real)
    ensures 1.0 <= amount <= 1000000.0 ==> ServiceCharge(USD, amount) == Success(amount * 0.002)
    ensures amount > 1000000.0 ==> ServiceCharge(USD, amount) == Success(amount * 0.001)
  {
  }

  /** The JPY charge: a flat 0.5% from 1 on. */
  lemma JpyChargeRate(amount: real)
    ensures amount >= 1.0 ==> ServiceCharge(JPY, amount) == Success(amount * 0.005)
  {
  }

  /** The USD charge is not monotone: crossing the tier boundary halves the
      rate, so one unit more than 1,000,000 is charged less. */
  lemma UsdChargeDropsAtBoundary()
    ensures ServiceCharge(USD, 1000000.0) == Success(2000.0)
    ensures ServiceCharge(USD, 1000001.0) == Success(1000.001)
  {
  }

  /** Business users pay the higher fixed fee and get the higher cap. */
  lemma BusinessTierAboveRegular()
    ensures FixedUserFee(RegNo) == 1000.0 && FixedUserFee(BusinessNo) == 3000.0
    ensures WireAmountLimit(RegNo) == 1000.0 && WireAmountLimit(BusinessNo) == 5000.0
    ensures WireAmountLimit(BusinessNo) > WireAmountLimit(RegNo)
  {
  }

  /** Every supported currency is rounded to two decimals. */
  lemma TwoFractionDigits(c: Currency)
    ensures Info(c).fractionDigits == 2
  {
  }

  /** The fixed part of the feed address, up to and including `codes=,`. */
  const RATE_FEED_PREFIX: string := "https://quotation-api-cdn.dunamu.com:443/v1/forex/recent?codes=,"

  /** The frxCode of each currency, in order. */
  function FrxCodes(cs: seq<Currency>): (r: seq<string>)
    ensures |r| == |cs|
    ensures forall i :: 0 <= i < |cs| ==> r[i] == Info(cs[i]).frxCode
  {
    if |cs| == 0 then [] else [Info(cs[0]).frxCode] + FrxCodes(cs[1..])
  }

  /** What the loop of getCurrencyExchangeRateInfoUrl accumulates: a comma
      and the frxCode for each currency visited so far. */
  function JoinedCodes(cs: seq<Currency>): string
  {
    if |cs| == 0 then "" else JoinedCodes(cs[..|cs| - 1]) + "," + Info(cs[|cs| - 1]).frxCode
  }

  /** getCurrencyExchangeRateInfoUrl: walks the table and appends
      `,frxCode` for each entry, after a prefix that already ends in a
      comma, so the address carries an empty first code. */
  method CurrencyExchangeRateInfoUrl() returns (url: string)
    ensures url == RATE_FEED_PREFIX + JoinedCodes(SUPPORTED_CURRENCIES)
    ensures url == "https://quotation-api-cdn.dunamu.com:443/v1/forex/recent?codes=,,FRX.KRWUSD,FRX.KRWJPY"
  {
    var joinedCode := "";
    for i := 0 to |SUPPORTED_CURRENCIES|
      invariant joinedCode == JoinedCodes(SUPPORTED_CURRENCIES[..i])
    {
      assert SUPPORTED_CURRENCIES[..i + 1][..i] == SUPPORTED_CURRENCIES[..i];
      joinedCode := joinedCode + "," + Info(SUPPORTED_CURRENCIES[i]).frxCode;
    }
    assert SUPPORTED_CURRENCIES[..|SUPPORTED_CURRENCIES|] == SUPPORTED_CURRENCIES;
    url := RATE_FEED_PREFIX + joinedCode;
  }

  /** The accumulated codes are the frxCodes joined with commas behind an
      empty first segment. */
  lemma {:induction false} JoinedCodesAsJoin(cs: seq<Currency>)
    ensures JoinedCodes(cs) == Strings.Join([""] + FrxCodes(cs), ',')
    decreases |cs|
  {
    if |cs| > 0 {
      var init, last := cs[..|cs| - 1], cs[|cs| - 1];
      var code := Info(last).frxCode;
      var parts := [""] + FrxCodes(init);
      JoinedCodesAsJoin(init);
      assert JoinedCodes(cs) == Strings.Join(parts, ',') + [','] + code;
      Strings.JoinSnoc(parts, code, ',');
      assert init + [last] == cs;
      FrxCodesSnoc(init, last);
      assert parts + [code] == [""] + FrxCodes(cs);
    }
  }

  lemma FrxCodesSnoc(cs: seq<Currency>, c: Currency)
    ensures FrxCodes(cs + [c]) == FrxCodes(cs) + [Info(c).frxCode]
  {
  }

  /** Splitting the feed's code list on commas yields an empty code and then
      every supported currency's frxCode, in table order. */
  lemma UrlCodesInTableOrder()
    ensures Strings.Split(JoinedCodes(SUPPORTED_CURRENCIES), ',') == ["", "FRX.KRWUSD", "FRX.KRWJPY"]
  {
    JoinedCodesAsJoin(SUPPORTED_CURRENCIES);
    var parts := [""] + FrxCodes(SUPPORTED_CURRENCIES);
    assert parts == ["", "FRX.KRWUSD", "FRX.KRWJPY"];
    Strings.SplitJoin(parts, ',');
  }
}
