/** The quote/transfer record and the steps of the transfer repository as
    functions of the stored records: building a quote, the three checks of
    a transfer request in their fixed order, the commit, and moving a quote's
    expiry back. Time is in integer milliseconds; `dayOf` maps a timestamp
    to its calendar day. */
module Transfers {
  import opened Wrappers
  import opened Exceptions
  import opened Pricing
  import opened Rates

  /** A user's unique `userId`, which the bearer token carries. */
  type UserKey = string

  /** The parts of a user the transfer code reads. */
  datatype User = User(name: string, idType: IdType)

  /** One record serves first as the quote and then as the committed
      transfer. */
  datatype Record = Record(
    id: nat,
    owner: UserKey,
    quoteExpirationTime: int,
    sourceAmount: real,
    fee: real,
    usdExchangeRate: real,
    usdAmount: real,
    targetCurrency: Currency,
    exchangeRate: real,
    targetAmount: real,
    requestedDate: Option<int>,
    isWired: bool)

  /** The stored records, keyed by their generated id. */
  type Records = map<nat, Record>

  /** A record carries a request date exactly when it has been wired. */
  predicate WiredIffRequested(r: Record)
  {
    r.requestedDate.Some? <==> r.isWired
  }

  /** What holds of the stored records between operations: ids below the
      next id to generate, each record filed under its own id, owned by a
      known user, and wired exactly when it has a request date. */
  predicate Consistent(records: Records, users: map<UserKey, User>, nextId: nat)
  {
    && 1 <= nextId
    && forall id :: id in records ==>
         && 1 <= id < nextId
         && records[id].id == id
         && records[id].owner in users
         && WiredIffRequested(records[id])
  }

  // ----- getQuote -----

  /** The reply to a quote request. */
  datatype QuoteSummary = QuoteSummary(quoteId: nat, exchangeRate: real, expireTime: int, targetAmount: real)

  function Summary(r: Record): QuoteSummary
  {
    QuoteSummary(r.id, r.exchangeRate, r.quoteExpirationTime, r.targetAmount)
  }

  /** The record getQuote builds once the rates and the user are known: the
      fee from the user's type and the target currency, the USD amount from
      the raw amount, the target amount from the amount net of the fee, an
      expiry one validity window after `now`, not requested, not wired. */
  function NewQuote(id: nat, owner: UserKey, user: User, amount: real, currencyCode: string,
                    rates: map<string, RateInfo>, now: int): (r: Result<Record, Fault>)
    ensures r.Success? ==>
      && r.value.id == id && r.value.owner == owner
      && r.value.quoteExpirationTime == now + QUOTE_VALID_TIME
      && r.value.requestedDate == None && !r.value.isWired
      && r.value.sourceAmount == amount
      && SupportedCurrency(currencyCode) == Some(r.value.targetCurrency)
      && FixedUserFee(user.idType) < r.value.fee < FixedUserFee(user.idType) + amount
    ensures r.Success? ==> ServiceFee(user.idType, amount, currencyCode) == Success(r.value.fee)
    ensures r.Success? ==>
      && "USD" in rates && currencyCode in rates
      && r.value.usdExchangeRate == rates["USD"].basePrice
      && r.value.exchangeRate == rates[currencyCode].basePrice
      && ExchangedAmount(amount, rates["USD"]) == Success(r.value.usdAmount)
      && ExchangedAmount(amount - r.value.fee, rates[currencyCode]) == Success(r.value.targetAmount)
    ensures SupportedCurrency(currencyCode).None? ==> r == Failure(TypeFault)
    ensures SupportedCurrency(currencyCode).Some? && amount < 1.0 ==> r == Failure(Http(NegativeNumber))
  {
    match ServiceFee(user.idType, amount, currencyCode)
    case Failure(f) => Failure(f)
    case Success(fee) =>
      if "USD" !in rates || currencyCode !in rates then Failure(TypeFault)
      else
        match ExchangedAmount(amount, rates["USD"])
        case Failure(f) => Failure(f)
        case Success(usdAmount) =>
          match ExchangedAmount(amount - fee, rates[currencyCode])
          case Failure(f) => Failure(f)
          case Success(targetAmount) =>
            Success(Record(
              id, owner, now + QUOTE_VALID_TIME, amount, fee,
              rates["USD"].basePrice, usdAmount, SupportedCurrency(currencyCode).value,
              rates[currencyCode].basePrice, targetAmount, None, false))
  }

  /** getQuote up to the save: the rates are fetched first, then the user
      is looked up, then the record is priced. */
  function QuoteRecord(users: map<UserKey, User>, id: nat, userKey: UserKey, amount: real,
                       currencyCode: string, rates: Result<map<string, RateInfo>, Fault>,
                       now: int): (r: Result<Record, Fault>)
    ensures rates.Failure? ==> r == Failure(rates.error)
    ensures rates.Success? && userKey !in users ==> r == Failure(Http(UserNotFound))
    ensures rates.Success? && userKey in users ==>
      r == NewQuote(id, userKey, users[userKey], amount, currencyCode, rates.value, now)
  {
    match rates
    case Failure(f) => Failure(f)
    case Success(table) =>
      if userKey !in users then Failure(Http(UserNotFound))
      else NewQuote(id, userKey, users[userKey], amount, currencyCode, table, now)
  }

  /** Saving a fresh quote under the next id keeps the records consistent. */
  lemma SaveQuoteKeepsConsistent(records: Records, users: map<UserKey, User>, nextId: nat, r: Record)
    requires Consistent(records, users, nextId)
    requires r.id == nextId && r.owner in users && r.requestedDate == None && !r.isWired
    ensures Consistent(records[nextId := r], users, nextId + 1)
  {
  }

  // ----- requestWireTransfer -----

  /** `!isQuoteValid`: the quote exists and `now` is strictly past its
      expiry. A missing quote is never expired. */
  predicate Expired(records: Records, quoteId: nat, now: int)
  {
    quoteId in records && now > records[quoteId].quoteExpirationTime
  }

  /** isAlreadyWired: a missing quote is rejected with the QUOTE_NOT_FOUND
      message text. */
  function IsAlreadyWired(records: Records, quoteId: nat): (r: Result<bool, Fault>)
    ensures r.Failure? <==> quoteId !in records
    ensures r.Failure? ==> r.error == Described(QuoteNotFound)
    ensures r.Success? ==> r.value == records[quoteId].isWired
  {
    if quoteId !in records then Failure(Described(QuoteNotFound))
    else Success(records[quoteId].isWired)
  }

  /** Whether a record counts toward `owner`'s volume on calendar `day`:
      the SQL filter on the owner and on the year, month and day of
      `requestedDate` (a NULL date matches no day). */
  predicate OnDay(r: Record, owner: UserKey, day: int, dayOf: int -> int)
  {
    r.owner == owner && r.requestedDate.Some? && dayOf(r.requestedDate.value) == day
  }

  /** `COALESCE(SUM(usdAmount), 0)` over the records with id below `n` that
      count toward `owner` on `day`. */
  function DayVolume(records: Records, owner: UserKey, day: int, dayOf: int -> int, n: nat): real
  {
    if n == 0 then 0.0
    else
      DayVolume(records, owner, day, dayOf, n - 1) +
      (if n - 1 in records && OnDay(records[n - 1], owner, day, dayOf) then records[n - 1].usdAmount else 0.0)
  }

  /** isLimitExceeded: a missing user is rejected with the USER_NOT_FOUND
      message text; a missing quote adds `undefined`, the sum is NaN and the
      comparison is false; otherwise the day's volume plus the quote's USD
      amount is compared, strictly, with the user type's limit. */
  function IsLimitExceeded(records: Records, users: map<UserKey, User>, nextId: nat,
                           userKey: UserKey, quoteId: nat, now: int, dayOf: int -> int): (r: Result<bool, Fault>)
    ensures r.Failure? <==> userKey !in users
    ensures r.Failure? ==> r.error == Described(UserNotFound)
    ensures userKey in users && quoteId !in records ==> r == Success(false)
    ensures userKey in users && quoteId in records ==>
      (r.value <==> DayVolume(records, userKey, dayOf(now), dayOf, nextId) + records[quoteId].usdAmount
                    > WireAmountLimit(users[userKey].idType))
  {
    if userKey !in users then Failure(Described(UserNotFound))
    else if quoteId !in records then Success(false)
    else
      var total := DayVolume(records, userKey, dayOf(now), dayOf, nextId) + records[quoteId].usdAmount;
      Success(total > WireAmountLimit(users[userKey].idType))
  }

  /** The update a successful request makes: the target record gets a
      request date and is wired; nothing else changes. */
  function Commit(records: Records, quoteId: nat, now: int): Records
    requires quoteId in records
  {
    records[quoteId := records[quoteId].(requestedDate := Some(now), isWired := true)]
  }

  /** requestWireTransfer's verdict: the expiry check, then the reuse check,
      then the limit check, the first failing one deciding the error; only a
      quote that passes all three is committed. The quote's owner is never
      compared with the requesting user. */
  function RequestOutcome(records: Records, users: map<UserKey, User>, nextId: nat,
                          userKey: UserKey, quoteId: nat, now: int, dayOf: int -> int): (r: Outcome<Fault>)
    ensures r == Fail(Coded(QuoteExpired)) <==> Expired(records, quoteId, now)
    ensures quoteId !in records ==> r == Fail(Described(QuoteNotFound))
    ensures r == Fail(Coded(AlreadyWired)) <==>
      quoteId in records && !Expired(records, quoteId, now) && records[quoteId].isWired
    ensures (quoteId in records && !Expired(records, quoteId, now) && !records[quoteId].isWired &&
             userKey !in users) ==> r == Fail(Described(UserNotFound))
    ensures r == Fail(Coded(LimitExcess)) <==>
      && quoteId in records && !Expired(records, quoteId, now) && !records[quoteId].isWired
      && userKey in users
      && DayVolume(records, userKey, dayOf(now), dayOf, nextId) + records[quoteId].usdAmount
         > WireAmountLimit(users[userKey].idType)
    ensures r.Pass? <==>
      && quoteId in records && !Expired(records, quoteId, now) && !records[quoteId].isWired
      && userKey in users
      && DayVolume(records, userKey, dayOf(now), dayOf, nextId) + records[quoteId].usdAmount
         <= WireAmountLimit(users[userKey].idType)
  {
    if Expired(records, quoteId, now) then Fail(Coded(QuoteExpired))
    else
      match IsAlreadyWired(records, quoteId)
      case Failure(f) => Fail(f)
      case Success(wired) =>
        if wired then Fail(Coded(AlreadyWired))
        else
          match IsLimitExceeded(records, users, nextId, userKey, quoteId, now, dayOf)
          case Failure(f) => Fail(f)
          case Success(exceeded) => if exceeded then Fail(Coded(LimitExcess)) else Pass
  }

  /** A commit changes the target record's request date and wired flag and
      nothing else, and keeps the records consistent. */
  lemma CommitOnlyTouchesTarget(records: Records, users: map<UserKey, User>, nextId: nat, quoteId: nat, now: int)
    requires Consistent(records, users, nextId) && quoteId in records
    ensures Commit(records, quoteId, now).Keys == records.Keys
    ensures forall id :: id in records && id != quoteId ==> Commit(records, quoteId, now)[id] == records[id]
    ensures Commit(records, quoteId, now)[quoteId] ==
      records[quoteId].(requestedDate := Some(now), isWired := true)
    ensures Consistent(Commit(records, quoteId, now), users, nextId)
  {
  }

  /** Committing a record that was not yet requested adds its USD amount to
      its owner's volume on the day of the commit and leaves every other
      owner and day as it was: a pending quote is not in any sum. */
  lemma {:induction false} CommitAddsToDayVolume(records: Records, quoteId: nat, now: int,
                                                  owner: UserKey, day: int, dayOf: int -> int, n: nat)
    requires quoteId in records && records[quoteId].requestedDate == None
    ensures DayVolume(Commit(records, quoteId, now), owner, day, dayOf, n) ==
      DayVolume(records, owner, day, dayOf, n) +
      (if quoteId < n && records[quoteId].owner == owner && dayOf(now) == day
       then records[quoteId].usdAmount else 0.0)
  {
    if n > 0 {
      CommitAddsToDayVolume(records, quoteId, now, owner, day, dayOf, n - 1);
    }
  }

  /** The daily cap holds after a commit: when a user commits a quote of
      their own, their volume for that day stays within their limit. */
  lemma CommitRespectsLimit(records: Records, users: map<UserKey, User>, nextId: nat,
                            userKey: UserKey, quoteId: nat, now: int, dayOf: int -> int)
    requires Consistent(records, users, nextId)
    requires RequestOutcome(records, users, nextId, userKey, quoteId, now, dayOf).Pass?
    requires records[quoteId].owner == userKey
    ensures DayVolume(Commit(records, quoteId, now), userKey, dayOf(now), dayOf, nextId)
      <= WireAmountLimit(users[userKey].idType)
  {
    CommitAddsToDayVolume(records, quoteId, now, userKey, dayOf(now), dayOf, nextId);
  }

  /** Nothing checks ownership: a user can commit another user's quote, the
      volume checked is the requester's, and the owner's day volume grows
      past the owner's own limit. */
  lemma ForeignQuoteBypassesOwnersLimit()
    ensures
      var dayOf := (t: int) => 0;
      var users := map["a" := User("A", RegNo), "b" := User("B", RegNo)];
      var quote := Record(1, "a", 10, 0.0, 0.0, 0.0, 1000.0, USD, 0.0, 0.0, None, false);
      var wired := quote.(id := 2, requestedDate := Some(0), isWired := true);
      var records := map[1 := quote, 2 := wired];
      && Consistent(records, users, 3)
      && RequestOutcome(records, users, 3, "b", 1, 5, dayOf).Pass?
      && DayVolume(Commit(records, 1, 5), "a", 0, dayOf, 3) > WireAmountLimit(RegNo)
  {
    var dayOf := (t: int) => 0;
    var records := map[1 := Record(1, "a", 10, 0.0, 0.0, 0.0, 1000.0, USD, 0.0, 0.0, None, false),
                        2 := Record(2, "a", 10, 0.0, 0.0, 0.0, 1000.0, USD, 0.0, 0.0, Some(0), true)];
    assert DayVolume(records, "b", 0, dayOf, 3) == 0.0;
    var after := Commit(records, 1, 5);
    assert DayVolume(after, "a", 0, dayOf, 1) == 0.0;
    assert DayVolume(after, "a", 0, dayOf, 2) == 1000.0;
    assert DayVolume(after, "a", 0, dayOf, 3) == 2000.0;
  }

  /** A request on an expired quote fails QUOTE_EXPIRED and commits nothing. */
  lemma ExpiredQuoteNeverCommits(records: Records, users: map<UserKey, User>, nextId: nat,
                                 userKey: UserKey, quoteId: nat, now: int, dayOf: int -> int)
    requires quoteId in records && now > records[quoteId].quoteExpirationTime
    ensures RequestOutcome(records, users, nextId, userKey, quoteId, now, dayOf) == Fail(Coded(QuoteExpired))
  {
  }

  /** Wiring is terminal: once committed, every later request on the same
      quote fails, with QUOTE_EXPIRED past the expiry and ALREADY_WIRED
      before it. */
  lemma CommittedQuoteIsSpent(records: Records, users: map<UserKey, User>, nextId: nat,
                              userKey: UserKey, quoteId: nat, now: int, dayOf: int -> int,
                              otherUser: UserKey, later: int)
    requires RequestOutcome(records, users, nextId, userKey, quoteId, now, dayOf).Pass?
    ensures
      var after := Commit(records, quoteId, now);
      var again := RequestOutcome(after, users, nextId, otherUser, quoteId, later, dayOf);
      again == (if later > records[quoteId].quoteExpirationTime then Fail(Coded(QuoteExpired))
                else Fail(Coded(AlreadyWired)))
  {
  }

  // ----- expireQuote -----

  /** expireQuote: one validity window before the current expiry; with no
      stored quote the value is computed from `now`, but the update then
      matches no row. */
  function MoveExpiryBack(records: Records, quoteId: nat, now: int): (r: Records)
    ensures r.Keys == records.Keys
    ensures forall id :: id in records && id != quoteId ==> r[id] == records[id]
    ensures quoteId in records ==>
      r[quoteId] == records[quoteId].(quoteExpirationTime := records[quoteId].quoteExpirationTime - QUOTE_VALID_TIME)
  {
    var newExpiry :=
      if quoteId in records then records[quoteId].quoteExpirationTime - QUOTE_VALID_TIME
      else now - QUOTE_VALID_TIME;
    if quoteId in records then records[quoteId := records[quoteId].(quoteExpirationTime := newExpiry)]
    else records
  }

  /** Each expiry strictly lowers the expiry time, so an expired quote stays
      expired, and the records stay consistent. */
  lemma ExpireLowersExpiry(records: Records, users: map<UserKey, User>, nextId: nat, quoteId: nat, now: int, t: int)
    requires Consistent(records, users, nextId) && quoteId in records
    ensures MoveExpiryBack(records, quoteId, now)[quoteId].quoteExpirationTime < records[quoteId].quoteExpirationTime
    ensures Expired(records, quoteId, t) ==> Expired(MoveExpiryBack(records, quoteId, now), quoteId, t)
    ensures Consistent(MoveExpiryBack(records, quoteId, now), users, nextId)
  {
  }

  /** Expiring a fresh quote once moves its expiry back to its creation
      time, so a request at any time after creation fails QUOTE_EXPIRED;
      the comparison is strict, so a request in the creation millisecond
      itself still passes the expiry check. */
  lemma ExpireFreshQuote(records: Records, users: map<UserKey, User>, nextId: nat, userKey: UserKey,
                         quoteId: nat, created: int, now: int, dayOf: int -> int)
    requires quoteId in records && records[quoteId].quoteExpirationTime == created + QUOTE_VALID_TIME
    ensures forall t :: t > created ==>
      RequestOutcome(MoveExpiryBack(records, quoteId, now), users, nextId, userKey, quoteId, t, dayOf) == Fail(Coded(QuoteExpired))
    ensures !Expired(MoveExpiryBack(records, quoteId, now), quoteId, created)
  {
  }
}
