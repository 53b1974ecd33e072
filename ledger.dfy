/** The transfer repository as an object over its stored records: each
    public operation is one atomic step on the record table, with the user
    table fixed. The rate feed's response, the current time and the start
    of today are parameters. */
module Ledger {
  import opened Wrappers
  import opened Exceptions
  import opened Rates
  import opened Transfers
  import opened History

  class WireTransferRepository {
    /** The wire_transfer table, keyed by the generated id. */
    var records: Records
    /** The id the next saved record receives. */
    var nextId: nat
    /** The user table, by `userId`. */
    const users: map<UserKey, User>

    ghost predicate Valid()
      reads this
    {
      Consistent(records, users, nextId)
    }

    constructor (users: map<UserKey, User>)
      ensures Valid()
      ensures this.users == users && records == map[] && nextId == 1
    {
      this.users := users;
      records := map[];
      nextId := 1;
    }

    /** getQuote: fetch the rates, find the user, price the quote and save
        it under a fresh id; any failure leaves the table as it was. */
    method GetQuote(userKey: UserKey, amount: real, currencyCode: string, feed: FeedResponse, now: int)
      returns (r: Result<QuoteSummary, Fault>)
      requires Valid()
      modifies this
      ensures Valid()
      ensures match QuoteRecord(users, old(nextId), userKey, amount, currencyCode, FeedRates(feed), now)
        case Failure(f) => r == Failure(f) && records == old(records) && nextId == old(nextId)
        case Success(q) =>
          && r == Success(Summary(q)) && r.value.quoteId == old(nextId)
          && records == old(records)[old(nextId) := q] && nextId == old(nextId) + 1
    {
      var rates := GetExchangeRates(feed);
      if rates.Failure? {
        return Failure(rates.error);
      }
      if userKey !in users {
        return Failure(Http(UserNotFound));
      }
      var quote := NewQuote(nextId, userKey, users[userKey], amount, currencyCode, rates.value, now);
      if quote.Failure? {
        return Failure(quote.error);
      }
      SaveQuoteKeepsConsistent(records, users, nextId, quote.value);
      records := records[nextId := quote.value];
      nextId := nextId + 1;
      r := Success(Summary(quote.value));
    }

    /** requestWireTransfer: the expiry, reuse and limit checks in that
        order, then the commit of the quote. */
    method RequestWireTransfer(userKey: UserKey, quoteId: nat, now: int, dayOf: int -> int)
      returns (r: Outcome<Fault>)
      requires Valid()
      modifies this
      ensures Valid()
      ensures r == RequestOutcome(old(records), users, old(nextId), userKey, quoteId, now, dayOf)
      ensures nextId == old(nextId)
      ensures records == if r.Pass? then Commit(old(records), quoteId, now) else old(records)
    {
      if Expired(records, quoteId, now) {
        return Fail(Coded(QuoteExpired));
      }
      var wired := IsAlreadyWired(records, quoteId);
      if wired.Failure? {
        return Fail(wired.error);
      }
      if wired.value {
        return Fail(Coded(AlreadyWired));
      }
      var exceeded := IsLimitExceeded(records, users, nextId, userKey, quoteId, now, dayOf);
      if exceeded.Failure? {
        return Fail(exceeded.error);
      }
      if exceeded.value {
        return Fail(Coded(LimitExcess));
      }
      CommitOnlyTouchesTarget(records, users, nextId, quoteId, now);
      records := Commit(records, quoteId, now);
      r := Pass;
    }

    /** expireQuote: move the quote's expiry one validity window back; an
        unknown id updates nothing. */
    method ExpireQuote(quoteId: nat, now: int)
      requires Valid()
      modifies this
      ensures Valid()
      ensures records == MoveExpiryBack(old(records), quoteId, now)
      ensures nextId == old(nextId)
    {
      if quoteId in records {
        ExpireLowersExpiry(records, users, nextId, quoteId, now, now);
      }
      records := MoveExpiryBack(records, quoteId, now);
    }

    /** getWireTransferHistory, which reads the table and changes nothing. */
    method GetWireTransferHistory(userKey: UserKey, today: int) returns (r: Result<HistoryView, Fault>)
      requires Valid()
      ensures r == WireTransferHistory(records, users, nextId, userKey, today)
      ensures r.Success? ==> forall i :: 0 <= i < |r.value.history| ==> r.value.history[i].requestedDate.Some?
    {
      r := WireTransferHistory(records, users, nextId, userKey, today);
    }
  }
}
