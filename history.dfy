/** getWireTransferHistory: the user's wired records as the query returns
    them (ordered by request date, newest first), filtered to those
    requested since the start of today, counted, summed in USD and
    projected to the reply's entries. */
module History {
  import opened Wrappers
  import opened Exceptions
  import opened Pricing
  import opened Transfers

  /** The user's wired records in id order, ids below `n`: the join of the
      user with their transfers, restricted to `isWired = true`. Every row is
      such a record, and every such record is a row. */
  function UserWired(records: Records, owner: UserKey, n: nat): (rows: seq<Record>)
    ensures forall x :: x in rows ==> x.owner == owner && x.isWired && x in records.Values
    ensures forall id :: 0 <= id < n && id in records && records[id].owner == owner && records[id].isWired ==>
      records[id] in rows
    ensures rows == [] <==> forall id :: 0 <= id < n && id in records ==> !(records[id].owner == owner && records[id].isWired)
  {
    if n == 0 then []
    else
      UserWired(records, owner, n - 1) +
      (if n - 1 in records && records[n - 1].owner == owner && records[n - 1].isWired then [records[n - 1]] else [])
  }

  // ----- ORDER BY requestedDate DESC -----

  /** `a` may precede `b` under a descending order on the request date, in
      which a NULL date sorts first. */
  predicate NewerOrSame(a: Option<int>, b: Option<int>)
  {
    match a
    case None => true
    case Some(x) => b.Some? && x >= b.value
  }

  predicate NewestFirst(rows: seq<Record>)
  {
    forall i, j :: 0 <= i < j < |rows| ==> NewerOrSame(rows[i].requestedDate, rows[j].requestedDate)
  }

  /** Places `r` into an already ordered sequence. */
  function Insert(r: Record, rows: seq<Record>): (s: seq<Record>)
    requires NewestFirst(rows)
    ensures NewestFirst(s)
    ensures multiset(s) == multiset(rows) + multiset{r}
  {
    if |rows| == 0 then [r]
    else if NewerOrSame(r.requestedDate, rows[0].requestedDate) then
      assert forall k :: 1 <= k < |[r] + rows| ==> ([r] + rows)[k] == rows[k - 1];
      [r] + rows
    else
      var rest := Insert(r, rows[1..]);
      assert rows == [rows[0]] + rows[1..];
      assert forall k :: 0 <= k < |rest| ==> NewerOrSame(rows[0].requestedDate, rest[k].requestedDate) by {
        forall k | 0 <= k < |rest|
          ensures NewerOrSame(rows[0].requestedDate, rest[k].requestedDate)
        {
          assert rest[k] in multiset(rest);
          if rest[k] != r {
            assert rest[k] in multiset(rows[1..]);
            var m :| 0 <= m < |rows[1..]| && rows[1..][m] == rest[k];
            assert rows[1 + m] == rest[k];
          }
        }
      }
      [rows[0]] + rest
  }

  /** The query's ordering: a newest-first permutation of its input. */
  function SortNewestFirst(rows: seq<Record>): (s: seq<Record>)
    ensures NewestFirst(s)
    ensures multiset(s) == multiset(rows)
  {
    if |rows| == 0 then []
    else
      assert rows == [rows[0]] + rows[1..];
      Insert(rows[0], SortNewestFirst(rows[1..]))
  }

  // ----- filter, reduce, map -----

  /** The filter on `requestedDate >= today`; a record without a request
      date is dropped. */
  predicate SinceToday(r: Record, today: int)
  {
    r.requestedDate.Some? && r.requestedDate.value >= today
  }

  function TodayRecords(rows: seq<Record>, today: int): (s: seq<Record>)
    ensures forall x :: x in s ==> x in rows && SinceToday(x, today)
    ensures forall x :: x in rows && SinceToday(x, today) ==> x in s
  {
    if |rows| == 0 then []
    else (if SinceToday(rows[0], today) then [rows[0]] else []) + TodayRecords(rows[1..], today)
  }

  /** `reduce((total, wire) => total + wire.usdAmount, 0)`. */
  function SumUsd(rows: seq<Record>): real
  {
    if |rows| == 0 then 0.0 else SumUsd(rows[..|rows| - 1]) + rows[|rows| - 1].usdAmount
  }

  /** One row of the reply; the request date is kept as a timestamp. */
  datatype HistoryEntry = HistoryEntry(
    sourceAmount: real, fee: real, usdExchangeRate: real, usdAmount: real,
    targetCurrency: Currency, exchangeRate: real, targetAmount: real,
    requestedDate: Option<int>)

  function Entry(r: Record): HistoryEntry
  {
    HistoryEntry(r.sourceAmount, r.fee, r.usdExchangeRate, r.usdAmount,
                 r.targetCurrency, r.exchangeRate, r.targetAmount, r.requestedDate)
  }

  function Entries(rows: seq<Record>): seq<HistoryEntry>
  {
    seq(|rows|, i requires 0 <= i < |rows| => Entry(rows[i]))
  }

  datatype HistoryView = HistoryView(
    userId: UserKey, name: string, todayTransferCount: nat,
    todayTransferUsdAmount: real, history: seq<HistoryEntry>)

  /** The reply: with no wired record for the user the query finds no user
      row and the call is rejected with the RECORD_NOT_FOUND message text;
      otherwise the count, the USD total and the entries of today's records,
      newest first. The count and the total are those of the user's records
      of today in any order, and the entries are exactly those records. */
  function WireTransferHistory(records: Records, users: map<UserKey, User>, nextId: nat,
                               userKey: UserKey, today: int): (r: Result<HistoryView, Fault>)
    ensures r.Failure? <==> userKey !in users || UserWired(records, userKey, nextId) == []
    ensures r.Failure? ==> r.error == Described(RecordNotFound)
    ensures r.Success? ==> r.value.userId == userKey && r.value.name == users[userKey].name
    ensures r.Success? ==> r.value.todayTransferCount == |r.value.history|
    ensures r.Success? ==>
      r.value.todayTransferUsdAmount == SumUsd(TodayRecords(UserWired(records, userKey, nextId), today))
    ensures r.Success? ==>
      multiset(r.value.history) == multiset(Entries(TodayRecords(UserWired(records, userKey, nextId), today)))
    ensures r.Success? ==> forall i, j :: 0 <= i < j < |r.value.history| ==>
      NewerOrSame(r.value.history[i].requestedDate, r.value.history[j].requestedDate)
    ensures r.Success? ==> forall i :: 0 <= i < |r.value.history| ==>
      r.value.history[i].requestedDate.Some? && r.value.history[i].requestedDate.value >= today
  {
    var plain := UserWired(records, userKey, nextId);
    var rows := SortNewestFirst(plain);
    SortKeepsLength(plain);
    if userKey !in users || |rows| == 0 then Failure(Described(RecordNotFound))
    else
      QueryOrderAgnostic(userKey, users[userKey].name, plain, today);
      Success(TodayView(userKey, users[userKey].name, rows, today))
  }

  /** The reply built from the rows the query returns. */
  function TodayView(userKey: UserKey, name: string, rows: seq<Record>, today: int): HistoryView
  {
    var todays := TodayRecords(rows, today);
    HistoryView(userKey, name, |todays|, SumUsd(todays), Entries(todays))
  }

  // ----- lemmas behind the contract -----

  /** What the reply takes from the ordered rows equals what it would take
      from the rows in any order, save for the order itself, which is
      newest first. */
  lemma QueryOrderAgnostic(userKey: UserKey, name: string, plain: seq<Record>, today: int)
    ensures var v := TodayView(userKey, name, SortNewestFirst(plain), today);
      && v.todayTransferCount == |v.history|
      && v.todayTransferUsdAmount == SumUsd(TodayRecords(plain, today))
      && multiset(v.history) == multiset(Entries(TodayRecords(plain, today)))
      && (forall i, j :: 0 <= i < j < |v.history| ==>
            NewerOrSame(v.history[i].requestedDate, v.history[j].requestedDate))
      && (forall i :: 0 <= i < |v.history| ==>
            v.history[i].requestedDate.Some? && v.history[i].requestedDate.value >= today)
  {
    var rows := SortNewestFirst(plain);
    TodayKeepsOrder(rows, today);
    TodayPermutation(rows, plain, today);
    var todays := TodayRecords(rows, today);
    SumPermutation(todays, TodayRecords(plain, today));
    EntriesPermutation(todays, TodayRecords(plain, today));
    TodayRecordsAreSinceToday(rows, today);
  }

  lemma SortKeepsLength(plain: seq<Record>)
    ensures |SortNewestFirst(plain)| == |plain|
  {
    var rows := SortNewestFirst(plain);
    assert |rows| == |multiset(rows)| == |multiset(plain)| == |plain|;
  }

  lemma TodayRecordsAreSinceToday(rows: seq<Record>, today: int)
    ensures forall i :: 0 <= i < |TodayRecords(rows, today)| ==> SinceToday(TodayRecords(rows, today)[i], today)
  {
    var todays := TodayRecords(rows, today);
    forall i | 0 <= i < |todays|
      ensures SinceToday(todays[i], today)
    {
      assert todays[i] in todays;
    }
  }

  /** Filtering keeps the newest-first order. */
  lemma {:induction false} TodayKeepsOrder(rows: seq<Record>, today: int)
    requires NewestFirst(rows)
    ensures NewestFirst(TodayRecords(rows, today))
  {
    if |rows| > 0 {
      TodayKeepsOrder(rows[1..], today);
      var rest := TodayRecords(rows[1..], today);
      forall k | 0 <= k < |rest|
        ensures NewerOrSame(rows[0].requestedDate, rest[k].requestedDate)
      {
        assert rest[k] in rest;
        var m :| 0 <= m < |rows[1..]| && rows[1..][m] == rest[k];
        assert rows[1 + m] == rest[k];
      }
    }
  }

  /** A permutation of `b` starts with some element of `b`; the rest of
      the permutation is a permutation of what is left of `b`. */
  lemma PermutationSplit(a: seq<Record>, b: seq<Record>) returns (k: nat)
    requires multiset(a) == multiset(b) && |a| > 0
    ensures k < |b| && b[k] == a[0]
    ensures multiset(a[1..]) == multiset(b[..k] + b[k + 1..])
  {
    assert a == [a[0]] + a[1..];
    assert a[0] in multiset(b);
    k :| 0 <= k < |b| && b[k] == a[0];
    assert b == b[..k] + [b[k]] + b[k + 1..];
    assert multiset(b) == multiset(b[..k]) + multiset{b[k]} + multiset(b[k + 1..]);
    assert multiset(a) == multiset{a[0]} + multiset(a[1..]);
    assert multiset(b[..k] + b[k + 1..]) == multiset(b[..k]) + multiset(b[k + 1..]);
    calc {
      multiset(a[1..]);
      multiset(a) - multiset{a[0]};
      multiset(b) - multiset{b[k]};
      multiset(b[..k] + b[k + 1..]);
    }
  }

  lemma {:induction false} SumConcat(x: seq<Record>, y: seq<Record>)
    ensures SumUsd(x + y) == SumUsd(x) + SumUsd(y)
  {
    if |y| > 0 {
      assert (x + y)[..|x + y| - 1] == x + y[..|y| - 1];
      SumConcat(x, y[..|y| - 1]);
    } else {
      assert x + y == x;
    }
  }

  /** The total does not depend on the order of the records. */
  lemma {:induction false} SumPermutation(a: seq<Record>, b: seq<Record>)
    requires multiset(a) == multiset(b)
    ensures SumUsd(a) == SumUsd(b)
    decreases |a|
  {
    if |a| == 0 {
      assert |b| == |multiset(b)| == 0;
    } else {
      var k := PermutationSplit(a, b);
      SumPermutation(a[1..], b[..k] + b[k + 1..]);
      assert a == [a[0]] + a[1..];
      SumConcat([a[0]], a[1..]);
      assert b == b[..k] + ([b[k]] + b[k + 1..]);
      SumConcat(b[..k], [b[k]] + b[k + 1..]);
      SumConcat([b[k]], b[k + 1..]);
      SumConcat(b[..k], b[k + 1..]);
      assert SumUsd([a[0]]) == SumUsd([]) + a[0].usdAmount;
    }
  }

  lemma {:induction false} TodayConcat(x: seq<Record>, y: seq<Record>, today: int)
    ensures TodayRecords(x + y, today) == TodayRecords(x, today) + TodayRecords(y, today)
  {
    if |x| == 0 {
      assert x + y == y;
    } else {
      assert (x + y)[1..] == x[1..] + y;
      TodayConcat(x[1..], y, today);
    }
  }

  /** Filtering a permutation gives a permutation of the filtered input. */
  lemma {:induction false} TodayPermutation(a: seq<Record>, b: seq<Record>, today: int)
    requires multiset(a) == multiset(b)
    ensures multiset(TodayRecords(a, today)) == multiset(TodayRecords(b, today))
    decreases |a|
  {
    if |a| == 0 {
      assert |b| == |multiset(b)| == 0;
    } else {
      var k := PermutationSplit(a, b);
      TodayPermutation(a[1..], b[..k] + b[k + 1..], today);
      TodayAt(b, k, today);
      assert TodayRecords(a, today) == (if SinceToday(a[0], today) then [a[0]] else []) + TodayRecords(a[1..], today);
    }
  }

  /** Taking the record at `k` out of `b` takes it out of the filtered
      records, if it was there. */
  lemma TodayAt(b: seq<Record>, k: nat, today: int)
    requires k < |b|
    ensures multiset(TodayRecords(b, today)) ==
      multiset(TodayRecords(b[..k] + b[k + 1..], today)) + multiset(if SinceToday(b[k], today) then [b[k]] else [])
  {
    var x, z := b[..k], b[k + 1..];
    assert b == (x + [b[k]]) + z;
    TodayConcat(x + [b[k]], z, today);
    TodayConcat(x, [b[k]], today);
    TodayConcat(x, z, today);
    assert [b[k]][1..] == [];
  }

  lemma EntriesConcat(x: seq<Record>, y: seq<Record>)
    ensures Entries(x + y) == Entries(x) + Entries(y)
  {
    assert forall i :: 0 <= i < |x + y| ==> Entries(x + y)[i] == (Entries(x) + Entries(y))[i];
  }

  /** Taking the record at `k` out of `b` takes its entry out of the
      projection. */
  lemma EntriesAt(b: seq<Record>, k: nat)
    requires k < |b|
    ensures multiset(Entries(b)) == multiset(Entries(b[..k] + b[k + 1..])) + multiset{Entry(b[k])}
  {
    var x, z := b[..k], b[k + 1..];
    assert b == (x + [b[k]]) + z;
    EntriesConcat(x + [b[k]], z);
    EntriesConcat(x, [b[k]]);
    EntriesConcat(x, z);
    assert Entries([b[k]]) == [Entry(b[k])];
  }

  /** Projecting a permutation gives a permutation of the projection. */
  lemma {:induction false} EntriesPermutation(a: seq<Record>, b: seq<Record>)
    requires multiset(a) == multiset(b)
    ensures multiset(Entries(a)) == multiset(Entries(b))
    decreases |a|
  {
    if |a| == 0 {
      assert |b| == |multiset(b)| == 0;
    } else {
      var k := PermutationSplit(a, b);
      EntriesPermutation(a[1..], b[..k] + b[k + 1..]);
      EntriesStep(a, b, k);
    }
  }

  /** The inductive step: moving the first record to place `k`. */
  lemma EntriesStep(a: seq<Record>, b: seq<Record>, k: nat)
    requires |a| > 0 && k < |b| && b[k] == a[0]
    requires multiset(Entries(a[1..])) == multiset(Entries(b[..k] + b[k + 1..]))
    ensures multiset(Entries(a)) == multiset(Entries(b))
  {
    EntriesAt(b, k);
    assert Entries(a) == [Entry(a[0])] + Entries(a[1..]);
  }
}
