# Wire-transfer service: a Dafny model

This project models the core of a small remittance API. A user asks for a
**quote** to send an amount in KRW to USD or JPY. The quote is priced from a
live exchange-rate feed, carries a fee, and is valid for ten minutes. The
user then **requests the transfer** of that quote, which commits it if it has
not expired, has not been used before and keeps the user under a daily USD
cap. The user can also list **today's history**. Around this core sit an
error-code table, a bearer-token guard and a validation-error filter.

One record type serves both as the quote and as the committed transfer. Its
request date is empty and its wired flag false until the transfer is
requested.

## Structure

| file | module | what it covers |
|---|---|---|
| `wrappers.dfy` | `Wrappers` | `Option`, `Result`, `Outcome` |
| `strings.dfy` | `Strings` | JavaScript `split`/`join` on one separator, and their round trips |
| `exceptions.dfy` | `Exceptions` | `EXCEPTION_CODE` and `EXCEPTIONS` as a datatype with key, status and message functions; the ways a failure is signalled; the controller's table lookup |
| `pricing.dfy` | `Pricing` | validity window, fixed fees, daily limits, the tiered service charges, the rate-feed address builder (a loop) |
| `rates.dfy` | `Rates` | the rate array folded into a dictionary (a loop), the service fee, the rounded conversion |
| `transfers.dfy` | `Transfers` | the record, building a quote, the three checks of a request and their order, the commit, expiring a quote, the daily volume |
| `history.dfy` | `History` | the history query's order, and its filter, count, sum and projection |
| `ledger.dfy` | `Ledger` | class `WireTransferRepository`: the record table and the operations that change it |
| `auth.dfy` | `Auth` | token extraction from the header, and `canActivate` on a mutable request |
| `validation.dfy` | `Validation` | the validation pipe's per-field messages, and the filter's `resultMsg` and `resultCode` |

Time is in integer milliseconds. Money is `real`, so the fee tiers and the
limit comparisons are exact. Six things are parameters rather than
computed:
- the calendar day of a timestamp (`dayOf`);
- the start of today (`today`);
- the current time (`now`);
- the rate feed's response (`FeedResponse`);
- token verification (`verify`, a function from token to payload);
- whether the handler is marked public (`isPublic`).

The repository is a class whose fields are the stored records (a map from
id to record), the next id to generate and the fixed user table. Each
public method is one atomic step. Each is specified by a pure function of
the old table (`QuoteRecord`, `RequestOutcome` with `Commit`,
`MoveExpiryBack`, `WireTransferHistory`), and every method keeps the table
invariant `Valid`. `Valid` says:
- ids are below the next id;
- each record is filed under its own id;
- each record's owner is a known user;
- a record has a request date exactly when it is wired.

## Model

| member | source | states |
|---|---|---|
| Strings.Split | src/auth/auth.guard.ts:63 | `split(' ')` yields at least one segment and no segment contains the separator |
| Strings.JoinSplit | src/auth/auth.guard.ts:63 | joining the segments of a split gives the string back |
| Strings.SplitJoin | src/validation/validation.filter.ts:26 | splitting a join of separator-free pieces gives the pieces back in order |
| Strings.JoinSnoc | src/validation/validation.filter.ts:26 | one more piece adds one separator and the piece at the end |
| Exceptions.Find | src/exception/exception.constants.ts:26-103 | property lookup: a hit has the key asked for, a miss means no property has it |
| Exceptions.TablesCoverEveryCode | src/exception/exception.constants.ts:4-103 | every code is declared in both tables, and its EXCEPTION_CODE value equals its own property name |
| Exceptions.KeyInjective | src/exception/exception.constants.ts:4-24 | distinct codes have distinct property names |
| Exceptions.LookupCodeValue | src/exception/exception.constants.ts:4-103 | `EXCEPTIONS[EXCEPTION_CODE.X]` is X's own entry, for every X |
| Exceptions.NotFoundCodes | src/exception/exception.constants.ts:51-74 | status 404 holds exactly for USER_NOT_FOUND, QUOTE_NOT_FOUND, RECORD_NOT_FOUND and INCORRECT_PASSWORD_LENGTH |
| Exceptions.StatusByCode | src/exception/exception.constants.ts:26-103 | 401 only for INVALID_TOKEN, 500 only for INTERNAL_SERVER_ERROR, 400 for every remaining code |
| Exceptions.MessagesDistinct | src/exception/exception.constants.ts:26-103 | no two codes share a `resultMsg` |
| Exceptions.KeyEndsInLetter | src/exception/exception.constants.ts:4-24 | every property name ends in a capital letter |
| Exceptions.MessageEndsInPeriod | src/exception/exception.constants.ts:26-103 | every message ends in a period |
| Exceptions.MessageIsNoKey | src/exception/exception.constants.ts:26-103 | looking up a message text as a property name finds nothing |
| Exceptions.ControllerBody | src/wireTransfer/wireTransfer.controller.ts:131 | `EXCEPTIONS[error.message]` finds the entry for an `Error(code)` rejection, and nothing for an `Error(message text)` rejection or any other failure |
| Pricing.SupportedCurrency | src/wireTransfer/wireTransfer.constants.ts:21-52 | a hit is the currency whose code was asked for; a miss means no supported currency has that code |
| Pricing.ServiceCharge | src/wireTransfer/wireTransfer.constants.ts:26-50 | fails with NEGATIVE_NUMBER exactly when amount < 1; an accepted amount is charged strictly between 0 and the amount |
| Pricing.UsdChargeTiers | src/wireTransfer/wireTransfer.constants.ts:28-31 | USD: 0.2% for 1 to 1,000,000 inclusive, 0.1% above |
| Pricing.JpyChargeRate | src/wireTransfer/wireTransfer.constants.ts:44-45 | JPY: 0.5% from 1 on |
| Pricing.UsdChargeDropsAtBoundary | src/wireTransfer/wireTransfer.constants.ts:28-31 | the USD charge at 1,000,000 is 2000 and at 1,000,001 is 1000.001: the charge is not monotone |
| Pricing.BusinessTierAboveRegular | src/wireTransfer/wireTransfer.constants.ts:7-15 | fees 1000/3000 and limits 1000/5000 for REG_NO/BUSINESS_NO; the business limit is strictly greater |
| Pricing.TwoFractionDigits | src/wireTransfer/wireTransfer.constants.ts:21-52 | both supported currencies round to two digits |
| Pricing.FrxCodes | src/wireTransfer/wireTransfer.constants.ts:56-57 | the frxCode of each currency, in table order |
| Pricing.JoinedCodes | src/wireTransfer/wireTransfer.constants.ts:55-58 | the `joinedCode` accumulator: a comma and the frxCode for each currency visited, in table order; `JoinedCodesAsJoin` relates it to a join |
| Pricing.CurrencyExchangeRateInfoUrl | src/wireTransfer/wireTransfer.constants.ts:54-61 | the loop's result is the prefix plus `,frxCode` per table entry, i.e. `...codes=,,FRX.KRWUSD,FRX.KRWJPY` |
| Pricing.JoinedCodesAsJoin | src/wireTransfer/wireTransfer.constants.ts:55-58 | the accumulated codes are the frxCodes comma-joined behind an empty first code |
| Pricing.UrlCodesInTableOrder | src/wireTransfer/wireTransfer.constants.ts:54-61 | the address's code list splits into an empty code, then FRX.KRWUSD, then FRX.KRWJPY |
| Rates.GetExchangeRates | src/wireTransfer/wireTransfer.repository.ts:286-317 | transport failure throws the bare string, a non-array body is INTERNAL_SERVER_ERROR, an array is folded element by element (loop invariant: the fold of the prefix) |
| Rates.RatesAfterFailureSticks | src/wireTransfer/wireTransfer.repository.ts:301-309 | once an element fails the table read, the whole fold fails with that error |
| Rates.RatesAfterSucceeds | src/wireTransfer/wireTransfer.repository.ts:301-309 | the fold succeeds exactly when every element's code is a supported currency |
| Rates.RatesAfterKeys | src/wireTransfer/wireTransfer.repository.ts:301-309 | the dictionary's keys are exactly the delivered currency codes |
| Rates.RatesAfterLastWins | src/wireTransfer/wireTransfer.repository.ts:301-309 | for a code delivered several times the last element's fields are kept, with the currency's fraction digits |
| Rates.RatesHaveTwoDigits | src/wireTransfer/wireTransfer.repository.ts:307 | every dictionary entry has two fraction digits |
| Rates.ServiceFee | src/wireTransfer/wireTransfer.repository.ts:319-323 | fails exactly for an unsupported currency (table read) or an amount below 1; otherwise the fee is exactly the type's fixed fee plus the currency's tiered charge on the amount, and so lies strictly between the fixed fee and the fixed fee plus the amount |
| Rates.RoundingError | src/wireTransfer/wireTransfer.repository.ts:326-329 | `toFixed(d)` moves the value by at most half a unit in the d-th decimal |
| Rates.ExchangedAmount | src/wireTransfer/wireTransfer.repository.ts:325-331 | fails exactly for a zero basePrice; otherwise rounded to the rate's `fractionDigits` digits (a whole number of units of the last digit) and within half a unit of `amount * currencyUnit / basePrice` |
| Transfers.NewQuote | src/wireTransfer/wireTransfer.repository.ts:43-72 | expiry now + 600000 (QUOTE_VALID_TIME), not requested, not wired, fee exactly `ServiceFee` of the user's type, amount and currency, USD amount from the raw amount, target amount from amount − fee, rates as fetched; an unsupported currency fails on the table read, amount < 1 fails NEGATIVE_NUMBER |
| Transfers.QuoteRecord | src/wireTransfer/wireTransfer.repository.ts:35-72 | rate feed failures first, then USER_NOT_FOUND as an HTTP exception, then pricing |
| Transfers.SaveQuoteKeepsConsistent | src/wireTransfer/wireTransfer.repository.ts:70-75 | saving a fresh, unrequested quote under the next id keeps the table invariant |
| Transfers.IsAlreadyWired | src/wireTransfer/wireTransfer.repository.ts:226-245 | a missing quote rejects with the QUOTE_NOT_FOUND message text; otherwise it answers the wired flag |
| Transfers.IsLimitExceeded | src/wireTransfer/wireTransfer.repository.ts:247-284 | a missing user rejects with the USER_NOT_FOUND message text; a missing quote is not exceeded; otherwise exceeded exactly when the day's volume plus the quote's USD amount is strictly above the limit |
| Transfers.RequestOutcome | src/wireTransfer/wireTransfer.repository.ts:88-105 | QUOTE_EXPIRED iff the quote exists and is past its expiry; then a missing quote gives the QUOTE_NOT_FOUND text and a wired one ALREADY_WIRED; then a missing user gives the USER_NOT_FOUND text and an exceeded cap LIMIT_EXCESS; passes iff none applies |
| Transfers.CommitOnlyTouchesTarget | src/wireTransfer/wireTransfer.repository.ts:101-104 | a commit changes the target's request date and wired flag and nothing else, and keeps the table invariant |
| Transfers.CommitAddsToDayVolume | src/wireTransfer/wireTransfer.repository.ts:257-274 | committing an unrequested record adds its USD amount to its owner's volume for the commit's day only; a pending quote is in no sum |
| Transfers.CommitRespectsLimit | src/wireTransfer/wireTransfer.repository.ts:88-105 | when the requester owns the quote, the day's volume after a commit is within the requester's limit |
| Transfers.ForeignQuoteBypassesOwnersLimit | src/wireTransfer/wireTransfer.repository.ts:88-105 | ownership is never checked: committing another user's quote can push the owner's volume past the owner's limit |
| Transfers.ExpiredQuoteNeverCommits | src/wireTransfer/wireTransfer.repository.ts:208-224 | a request strictly after the expiry fails QUOTE_EXPIRED |
| Transfers.CommittedQuoteIsSpent | src/wireTransfer/wireTransfer.repository.ts:88-98 | after a commit, any later request on the quote, by any user, fails QUOTE_EXPIRED past the expiry and ALREADY_WIRED before it |
| Transfers.MoveExpiryBack | src/wireTransfer/wireTransfer.repository.ts:333-345 | the quote's expiry moves back one window, nothing else changes; an unknown id changes nothing |
| Transfers.ExpireLowersExpiry | src/wireTransfer/wireTransfer.repository.ts:333-345 | each expiry strictly lowers the expiry, an expired quote stays expired, and the table invariant holds |
| Transfers.ExpireFreshQuote | src/wireTransfer/wireTransfer.repository.ts:212-219 | after one expiry of a fresh quote, every request at any time after its creation fails QUOTE_EXPIRED, but the quote is not expired in the creation millisecond (the comparison is strict) |
| History.UserWired | src/wireTransfer/wireTransfer.repository.ts:111-116 | every row is a stored, wired record of the user, and every stored, wired record of the user is a row; empty exactly when the user has no wired record |
| History.Insert | src/wireTransfer/wireTransfer.repository.ts:115 | inserting into an ordered sequence keeps it ordered and adds exactly that record |
| History.SortNewestFirst | src/wireTransfer/wireTransfer.repository.ts:115 | `ORDER BY requestedDate DESC` (NULLs first) yields an ordered permutation of its input |
| History.TodayRecords | src/wireTransfer/wireTransfer.repository.ts:133-135 | keeps exactly the records whose request date is at or after the start of today |
| History.TodayKeepsOrder | src/wireTransfer/wireTransfer.repository.ts:133-135 | the filter keeps the newest-first order |
| History.TodayPermutation | src/wireTransfer/wireTransfer.repository.ts:133-135 | filtering permuted rows gives a permutation of the filtered rows |
| History.SumPermutation | src/wireTransfer/wireTransfer.repository.ts:137-140 | the reduce's total does not depend on the rows' order |
| History.EntriesPermutation | src/wireTransfer/wireTransfer.repository.ts:142-153 | projecting permuted rows gives a permutation of the projection |
| History.QueryOrderAgnostic | src/wireTransfer/wireTransfer.repository.ts:133-153 | the reply's count, total and entries built from the ordered rows are those of the user's today records in any order |
| History.WireTransferHistory | src/wireTransfer/wireTransfer.repository.ts:107-162 | fails with the RECORD_NOT_FOUND text exactly when the user has no wired record; otherwise count = number of entries, total = sum of today's USD amounts, entries are exactly today's records, newest first, each requested today or later |
| Strings.Join | src/validation/validation.filter.ts:26 | `join(' ')`: the pieces with one separator between neighbours; its round trips are `SplitJoin`, `JoinSplit` and `JoinSnoc` |
| Exceptions.Key | src/exception/exception.constants.ts:4-24 | the property name of each code in EXCEPTION_CODE; distinct by `KeyInjective` |
| Exceptions.CodeValue | src/exception/exception.constants.ts:4-24 | the string value of each code, equal to its property name by `TablesCoverEveryCode` |
| Exceptions.Response | src/exception/exception.constants.ts:26-103 | the `{ resultCode, resultMsg }` entry of each code in EXCEPTIONS, where `resultCode` holds the HTTP status; statuses pinned by `StatusByCode` and `NotFoundCodes`, messages by `MessagesDistinct` |
| Exceptions.Status | src/exception/exception.constants.ts:26-103 | an entry's `resultCode`, the HTTP status, as `StatusByCode` and `NotFoundCodes` state it |
| Exceptions.Message | src/exception/exception.constants.ts:26-103 | an entry's `resultMsg`, distinct per code by `MessagesDistinct` and never a property name by `MessageIsNoKey` |
| Exceptions.Lookup | src/exception/exception.constants.ts:26-103 | `EXCEPTIONS[key]`: an own property's entry, or nothing; `LookupCodeValue` and `MessageIsNoKey` say what it finds |
| Pricing.FixedUserFee | src/wireTransfer/wireTransfer.constants.ts:7-10 | FIXED_USER_FEE: 1000 for REG_NO, 3000 for BUSINESS_NO, as `BusinessTierAboveRegular` states |
| Pricing.WireAmountLimit | src/wireTransfer/wireTransfer.constants.ts:12-15 | ID_TYPE_WIRE_AMOUNT_LIMIT: 1000 for REG_NO, 5000 for BUSINESS_NO, as `BusinessTierAboveRegular` states |
| Pricing.Info | src/wireTransfer/wireTransfer.constants.ts:21-52 | each supported currency's frxCode, currency code and fraction digits; `SupportedCurrency` and `TwoFractionDigits` state them |
| Rates.RatesAfter | src/wireTransfer/wireTransfer.repository.ts:301-309 | the `forEach` over the feed as a left fold into the dictionary; its keys, last-wins values, failure and success are the `RatesAfter…` lemmas |
| Rates.RoundToFixed | src/wireTransfer/wireTransfer.repository.ts:326-330 | `parseFloat(x.toFixed(d))` on the exact value: a whole number of units of the d-th decimal; its error bound is `RoundingError` |
| Rates.FeedRates | src/wireTransfer/wireTransfer.repository.ts:286-317 | getExchangeRates as a value: a transport failure throws the bare string, a non-array body is INTERNAL_SERVER_ERROR, an array is `RatesAfter`; the reference `GetExchangeRates` is proved against |
| Rates.Entry | src/wireTransfer/wireTransfer.repository.ts:302-308 | the stored object: the element's code, currency code, base price and unit, with the fraction digits of the supported currency |
| Transfers.Summary | src/wireTransfer/wireTransfer.repository.ts:77-82 | getQuote's reply: the saved record's id, exchange rate, expiry and target amount |
| Transfers.OnDay | src/wireTransfer/wireTransfer.repository.ts:261-270 | the SUM query's WHERE: the user's record with a request date on the given calendar day |
| History.NewerOrSame | src/wireTransfer/wireTransfer.repository.ts:115 | the order of `requestedDate DESC`, with a NULL date before every date |
| History.NewestFirst | src/wireTransfer/wireTransfer.repository.ts:115 | every pair of rows is in that order; the order `SortNewestFirst` establishes |
| History.SinceToday | src/wireTransfer/wireTransfer.repository.ts:133-135 | the filter's test: a request date, at or after the start of today |
| History.Entry | src/wireTransfer/wireTransfer.repository.ts:142-153 | one reply entry: the record's amounts, rates, currency and request date |
| History.TodayView | src/wireTransfer/wireTransfer.repository.ts:130-161 | the reply built from ordered rows: today's count, USD total and entries; `QueryOrderAgnostic` says what it does not depend on |
| Transfers.Consistent | src/wireTransfer/wireTransfer.entity.ts:5-41 | the table invariant: ids below the next id, each record under its own id, a known owner, and a request date exactly when wired; kept by `SaveQuoteKeepsConsistent`, `CommitOnlyTouchesTarget` and `ExpireLowersExpiry` |
| Transfers.Expired | src/wireTransfer/wireTransfer.repository.ts:208-224 | `isQuoteValid` negated: the quote exists and the time is strictly after its expiry; `ExpiredQuoteNeverCommits` and `ExpireFreshQuote` are about it |
| Transfers.DayVolume | src/wireTransfer/wireTransfer.repository.ts:258-271 | `COALESCE(SUM(usdAmount), 0)` over the owner's records requested on the given calendar day; `CommitAddsToDayVolume` says how a commit changes it |
| Transfers.Commit | src/wireTransfer/wireTransfer.repository.ts:101-104 | the update setting the request date to now and the wired flag; `CommitOnlyTouchesTarget` says it changes nothing else |
| History.SumUsd | src/wireTransfer/wireTransfer.repository.ts:137-140 | the `reduce` adding the USD amounts from 0; order-independent by `SumPermutation` |
| History.Entries | src/wireTransfer/wireTransfer.repository.ts:142-153 | the `map` projecting each record to its reply entry; `EntriesPermutation` and `EntriesConcat` state how it composes |
| Ledger.WireTransferRepository.constructor | src/wireTransfer/wireTransfer.repository.ts:27-33 | an empty table over a given user table satisfies the invariant |
| Ledger.WireTransferRepository.GetQuote | src/wireTransfer/wireTransfer.repository.ts:35-86 | on success the new record is saved under the next id and the summary returned; on failure the table is unchanged; the invariant holds |
| Ledger.WireTransferRepository.RequestWireTransfer | src/wireTransfer/wireTransfer.repository.ts:88-105 | the verdict is `RequestOutcome` on the old table; the table is committed exactly when it passes; the invariant holds |
| Ledger.WireTransferRepository.ExpireQuote | src/wireTransfer/wireTransfer.repository.ts:333-345 | the table becomes `MoveExpiryBack` of the old table; the invariant holds |
| Ledger.WireTransferRepository.GetWireTransferHistory | src/wireTransfer/wireTransfer.repository.ts:107-162 | the reply is `WireTransferHistory` of the current table; every entry has a request date |
| Auth.ExtractToken | src/auth/auth.guard.ts:62-65 | a token comes only from a header opening with exactly `Bearer`, one space and the token, which is space-free and followed by the end or a space |
| Auth.BearerHeaderYieldsToken | src/auth/auth.guard.ts:62-65 | conversely, such a header yields its token whatever follows it |
| Auth.LowerCaseSchemeRejected | src/auth/auth.guard.ts:64 | the scheme comparison is case-sensitive |
| Auth.BareSchemeRejected | src/auth/auth.guard.ts:63-64 | `Bearer` alone, or an empty header, carries no token |
| Auth.DoubledSpaceYieldsEmptyToken | src/auth/auth.guard.ts:63-64 | a doubled space after the scheme yields the empty token |
| Auth.GuardDecision | src/auth/auth.guard.ts:22-60 | public handlers pass without a user; otherwise Unauthorized (401, one fixed body) exactly when the token is missing or empty or fails verification; a pass carries the verified payload |
| Auth.Request.constructor | src/auth/auth.guard.ts:31 | the request the guard reads: its authorization header, with no user attached yet |
| Auth.CanActivate | src/auth/auth.guard.ts:22-60 | passes exactly when the decision does; on a verified token `request.user` becomes the payload, otherwise it is unchanged |
| Validation.Substitute | src/validation/validation.filter.ts:22-25 | an empty entry becomes `Validation failed`; other entries are kept; the result is never empty |
| Validation.Substituted | src/validation/validation.filter.ts:21-25 | the map step, entry by entry, same length |
| Validation.ResultMsg | src/validation/validation.filter.ts:21-30 | never empty; no entries give `Validation failed`; one entry gives that entry, substituted |
| Validation.FallbackOnlyWithoutEntries | src/validation/validation.filter.ts:26-30 | the join is empty, and the fallback applies, exactly when there are no entries |
| Validation.ResultMsgSnoc | src/validation/validation.filter.ts:21-26 | one more entry appends one space and that entry: the order is kept |
| Validation.RecoverEntries | src/validation/validation.filter.ts:21-26 | with non-empty, space-free entries the message splits back into the entries |
| Validation.FieldMessages | src/main.ts:16-23 | the pipe's exceptionFactory: one entry per field, its constraint messages joined by one space, `Validation Failed` for a field without constraints |
| Validation.EmptyConstraintsFallBack | src/main.ts:18-19 | an empty constraints object joins to the empty string, which the filter replaces by `Validation failed` |
| Validation.TwoMessagesJoined | src/app.spec.ts:156-173 | the name field's two messages are joined by one space in the pipe, and the filter writes that single entry unchanged |
| Validation.Catch | src/validation/validation.filter.ts:13-31 | the HTTP status is the exception's, the body's resultCode is always 400, resultMsg as above |

## Behaviour the model keeps as written

Each of these may look unintended; the model does what the code does.
- getQuote fetches the rates before it looks up the user, so a rate-feed
  failure is reported even for an unknown user
  (src/wireTransfer/wireTransfer.repository.ts:35-41).
- `expireQuote` on an unknown id does not fail. It computes a new expiry
  from the current time, and the update then matches no row
  (src/wireTransfer/wireTransfer.repository.ts:333-345).
- A quote is expired only when the current time is strictly after its
  expiry (src/wireTransfer/wireTransfer.repository.ts:217). A request in the
  very millisecond of the expiry still passes that check.
- A missing quote passes the expiry check. It is then rejected by the reuse
  check with the message text of QUOTE_NOT_FOUND rather than the code, so
  the controller's table lookup finds no entry for it
  (src/wireTransfer/wireTransfer.repository.ts:226-245).

## Left out

- The HTTP controllers, module wiring and bootstrap are not modelled. This
  includes the `amount < 0` guard
  (src/wireTransfer/wireTransfer.controller.ts:50-60) and the remapping of
  every quote error to WRONG_PARAMETER (:75-83). Only the
  `EXCEPTIONS[error.message]` lookup is modelled, as `ControllerBody`.
- The rate-feed HTTP call is a `FeedResponse` parameter. The response
  logging is left out.
- Floating point: amounts, rates and fees are exact `real`s. `toFixed` is
  modelled as rounding the exact value half away from zero. Binary doubles
  can round a decimal tie the other way; that is not modelled.
- ExchangedAmount: a zero basePrice is a `NonFiniteAmount` failure.
  JavaScript instead yields Infinity and getQuote would save it. A `real`
  cannot hold Infinity.
- Calendar and time zone are left out. SQL `EXTRACT` of year, month and day
  is the `dayOf` parameter, `setHours(0, 0, 0)` is the `today` parameter,
  and `new Date()` is the `now` parameter.
- `formatDate` (Asia/Seoul formatting of the request date) is left out:
  entries keep the request date as a timestamp.
- Persistence is a map from id to record plus a next-id counter. TypeORM
  query builders, the `save`/`update` calls and the database's own failures
  are not modelled. The user join is modelled by the owner key.
- Transfers.NewQuote and Ledger.WireTransferRepository.GetQuote store the
  exact `real` amount and fee. In the source `sourceAmount` and `fee` are
  plain `@Column()` numbers (src/wireTransfer/wireTransfer.entity.ts:12-16),
  which TypeORM's default mapping makes `integer` columns when the schema is
  synchronised on Postgres (src/typeOrm/typeOrm.service.ts:15-22). A quote
  with a fractional amount or fee, such as a REG_NO user's 12345 KRW to USD
  with fee 1024.69, is then refused by the database at `repository.save`;
  getQuote swallows that failure (:83-85), resolves `undefined` and stores
  nothing. The model does not capture this column typing: it stores the
  quote and returns its summary.
- Swallowed errors are not modelled as behaviour: `getQuote` logging a
  failed save and returning `undefined` (:74-85), and `isQuoteValid` answering
  "valid" when the lookup throws (:221).
- The rethrow of an `isLimitExceeded` error as a new `Error` (:275-283) is
  not modelled. The missing-user rejection does not reach it: it is
  returned, not awaited, inside the `try`. The catch only wraps a failure of
  the lookups or of the SUM query, which are database failures and not
  modelled.
- The SUM query's total is taken to be a number. A driver that returns the
  sum as a string would make `+` concatenate; that is not modelled.
- Token verification (JWT) is the `verify` parameter, a total function from
  token to payload. bcrypt, login and signing are not part of this model.
- DTO validation is left out. The validator decorators, and the messages
  they produce and their order, belong to the library. `Validation` takes
  each failing field's constraint messages as input, and models the pipe's
  joining of them (`FieldMessages`) and the filter.
- User types and currencies are datatypes (`IdType`, `Currency`), so the
  model has no user of an unknown type. The source has them: user creation
  accepts any non-empty `idType` string (src/users/dto/create-user.dto.ts:24-26).
  For such a user `FIXED_USER_FEE[idType]` is `undefined`, so the quote's fee
  is NaN (src/wireTransfer/wireTransfer.repository.ts:319-323), and the
  comparison with `ID_TYPE_WIRE_AMOUNT_LIMIT[idType]` is always false, so
  LIMIT_EXCESS never fires for that user (:247-284). An unknown currency
  string is still modelled, because it arrives from the request.
- Rates.RatesAfter, Rates.RatesAfterSucceeds and Exceptions.Lookup treat a
  key that is not an own property of the table as absent. A JavaScript
  property read also finds inherited names. A feed entry with currency code
  `toString` or `constructor` reads `fractionDigits` as `undefined` without
  throwing, so the source stores the entry where the model fails with
  `TypeFault` (:307); and `EXCEPTIONS["toString"]` is a function, where
  `Lookup` finds nothing. The feed sends no such codes.
- Concurrency: each repository method is one atomic step. The race between
  the checks and the update of a request is not modelled.
- Logging and the logger middleware are left out; they only have side
  effects.
- Transfers.CommitRespectsLimit requires the requester to own the quote.
  The source never checks ownership, and `ForeignQuoteBypassesOwnersLimit`
  shows the cap failing for the quote's owner without it.
