/**
 * The dashboard routes: bank-wide balance totals, the displayed rate, the
 * recent-transactions list and the twelve-month totals table.
 */
module Dashboard {
  import opened Wrappers
  import opened Domain
  import opened Models

  // ---------------------------------------------------------------- totals

  /** The reduce over the customers `find` returns: the sum of one currency's balances. */
  function TotalBalance(customers: seq<Customer>, c: Currency): real {
    if |customers| == 0 then 0.0
    else TotalBalance(customers[..|customers| - 1], c) + customers[|customers| - 1].safes.Balance(c)
  }

  /** Replacing one customer changes the total by the change in that customer's balance. */
  lemma {:induction false} TotalAfterReplace(customers: seq<Customer>, i: nat, x: Customer, c: Currency)
    requires i < |customers|
    ensures TotalBalance(customers[i := x], c) == TotalBalance(customers, c) - customers[i].safes.Balance(c) + x.safes.Balance(c)
  {
    var n := |customers|;
    if i == n - 1 {
      assert customers[i := x][..n - 1] == customers[..n - 1];
    } else {
      assert customers[i := x][..n - 1] == customers[..n - 1][i := x];
      TotalAfterReplace(customers[..n - 1], i, x, c);
    }
  }

  /** `ids` lists every customer of the map once: the order `find` returns them in. */
  ghost predicate Lists(ids: seq<CustomerId>, customers: map<CustomerId, Customer>) {
    && (forall i, j :: 0 <= i < j < |ids| ==> ids[i] != ids[j])
    && (forall k :: k in customers <==> k in ids)
  }

  function Listing(ids: seq<CustomerId>, customers: map<CustomerId, Customer>): (r: seq<Customer>)
    requires forall i :: 0 <= i < |ids| ==> ids[i] in customers
    ensures |r| == |ids| && forall i :: 0 <= i < |ids| ==> r[i] == customers[ids[i]]
  {
    seq(|ids|, i requires 0 <= i < |ids| => customers[ids[i]])
  }

  lemma ListingAfterUpdate(ids: seq<CustomerId>, customers: map<CustomerId, Customer>, k: CustomerId, x: Customer) returns (i: nat)
    requires Lists(ids, customers) && k in customers
    ensures Lists(ids, customers[k := x])
    ensures i < |ids| && Listing(ids, customers[k := x]) == Listing(ids, customers)[i := x]
    ensures Listing(ids, customers)[i] == customers[k]
  {
    var j :| 0 <= j < |ids| && ids[j] == k;
    i := j;
  }

  /** Saving one customer changes a bank-wide total by the change in that customer's balance. */
  lemma TotalAfterUpdate(ids: seq<CustomerId>, customers: map<CustomerId, Customer>, k: CustomerId, x: Customer, c: Currency)
    requires Lists(ids, customers) && k in customers
    ensures Lists(ids, customers[k := x])
    ensures TotalBalance(Listing(ids, customers[k := x]), c)
         == TotalBalance(Listing(ids, customers), c) - customers[k].safes.Balance(c) + x.safes.Balance(c)
  {
    var i := ListingAfterUpdate(ids, customers, k, x);
    TotalAfterReplace(Listing(ids, customers), i, x, c);
  }

  /** A transfer between two distinct customers leaves both bank-wide totals as they were. */
  lemma TransferKeepsTotals(ids: seq<CustomerId>, customers: map<CustomerId, Customer>,
                            fromCustomerId: CustomerId, toCustomerId: CustomerId, amount: real, currency: Currency)
    requires Lists(ids, customers)
    requires fromCustomerId in customers && toCustomerId in customers && fromCustomerId != toCustomerId
    ensures
      var sender, receiver := customers[fromCustomerId], customers[toCustomerId];
      var after := customers[fromCustomerId := sender.(safes := sender.safes.Debit(currency, amount))]
                            [toCustomerId := receiver.(safes := receiver.safes.Credit(currency, amount))];
      && Lists(ids, after)
      && TotalBalance(Listing(ids, after), currency) == TotalBalance(Listing(ids, customers), currency)
      && TotalBalance(Listing(ids, after), Other(currency)) == TotalBalance(Listing(ids, customers), Other(currency))
  {
    var sender, receiver := customers[fromCustomerId], customers[toCustomerId];
    var debited := sender.(safes := sender.safes.Debit(currency, amount));
    var credited := receiver.(safes := receiver.safes.Credit(currency, amount));
    var middle := customers[fromCustomerId := debited];
    assert middle[toCustomerId] == receiver;
    TotalAfterUpdate(ids, customers, fromCustomerId, debited, currency);
    TotalAfterUpdate(ids, customers, fromCustomerId, debited, Other(currency));
    TotalAfterUpdate(ids, middle, toCustomerId, credited, currency);
    TotalAfterUpdate(ids, middle, toCustomerId, credited, Other(currency));
  }

  // ------------------------------------------------------------------ rate

  /** `exchangeRateValue`: the stored dollar-to-dinar rate, else the controller's default. */
  function ExchangeRateValue(stored: Option<Rate>): (v: real)
    ensures stored.Some? ==> v == stored.value.dollarToDinar
    ensures stored.None? ==> v == DefaultRate.dollarToDinar
  {
    if stored.Some? then stored.value.dollarToDinar else 3.0
  }

  // ---------------------------------------------------------------- recent

  predicate NewestFirst(s: seq<TxRecord>) {
    forall i, j :: 0 <= i < j < |s| ==> s[i].date.instant >= s[j].date.instant
  }

  /** `{ date: { $gte: since } }`. */
  function Since(txs: seq<TxRecord>, since: int): (r: seq<TxRecord>)
    ensures forall t :: t in r <==> t in txs && t.date.instant >= since
    ensures forall t :: multiset(r)[t] == if t.date.instant >= since then multiset(txs)[t] else 0
  {
    if |txs| == 0 then []
    else
      var rest := Since(txs[1..], since);
      assert txs == [txs[0]] + txs[1..];
      if txs[0].date.instant >= since then [txs[0]] + rest else rest
  }

  /** A record no older than the head of a newest-first list can go in front of it. */
  lemma ConsNewest(x: TxRecord, s: seq<TxRecord>)
    requires NewestFirst(s)
    requires |s| > 0 ==> x.date.instant >= s[0].date.instant
    ensures NewestFirst([x] + s)
  {
    var r := [x] + s;
    forall i, j | 0 <= i < j < |r|
      ensures r[i].date.instant >= r[j].date.instant
    {
      if i == 0 {
        assert r[j] == s[j - 1] && s[0].date.instant >= s[j - 1].date.instant;
      } else {
        assert r[i] == s[i - 1] && r[j] == s[j - 1];
      }
    }
  }

  /** One step of insertion sort: `t` goes in front of the first record older than it. */
  function Insert(t: TxRecord, s: seq<TxRecord>): (r: seq<TxRecord>)
    requires NewestFirst(s)
    ensures NewestFirst(r) && |r| == |s| + 1
    ensures r[0] == t || (|s| > 0 && r[0] == s[0])
  {
    if |s| == 0 then [t]
    else if t.date.instant >= s[0].date.instant then
      ConsNewest(t, s);
      [t] + s
    else
      TailNewest(s);
      var rest := Insert(t, s[1..]);
      assert |s| > 1 ==> s[0].date.instant >= s[1].date.instant;
      ConsNewest(s[0], rest);
      [s[0]] + rest
  }

  /** Insertion adds exactly the one record. */
  lemma {:induction false} InsertPermutes(t: TxRecord, s: seq<TxRecord>)
    requires NewestFirst(s)
    ensures multiset(Insert(t, s)) == multiset(s) + multiset{t}
  {
    if |s| > 0 {
      TailNewest(s);
      if t.date.instant >= s[0].date.instant {
        assert multiset([t] + s) == multiset{t} + multiset(s);
      } else {
        var rest := Insert(t, s[1..]);
        InsertPermutes(t, s[1..]);
        assert multiset([s[0]] + rest) == multiset{s[0]} + multiset(rest);
      }
    }
  }

  lemma TailNewest(s: seq<TxRecord>)
    requires NewestFirst(s) && |s| > 0
    ensures NewestFirst(s[1..])
    ensures multiset(s) == multiset{s[0]} + multiset(s[1..])
  {
    assert s == [s[0]] + s[1..];
    forall i, j | 0 <= i < j < |s[1..]|
      ensures s[1..][i].date.instant >= s[1..][j].date.instant
    {
      assert s[1..][i] == s[i + 1] && s[1..][j] == s[j + 1];
    }
  }

  /** `.sort({ date: -1 })`; records with the same instant may come in any order. */
  function SortNewestFirst(s: seq<TxRecord>): (r: seq<TxRecord>)
    ensures NewestFirst(r) && multiset(r) == multiset(s)
  {
    if |s| == 0 then []
    else
      assert s == [s[0]] + s[1..];
      var rest := SortNewestFirst(s[1..]);
      InsertPermutes(s[0], rest);
      Insert(s[0], rest)
  }

  const RecentLimit := 10

  /** `.limit(n)`: the first `n` entries of a newest-first list, and none newer left behind. */
  function Take(sorted: seq<TxRecord>, n: nat): (r: seq<TxRecord>)
    requires NewestFirst(sorted)
    ensures |r| == if |sorted| < n then |sorted| else n
    ensures NewestFirst(r) && multiset(r) <= multiset(sorted)
    ensures forall t, u :: t in sorted && t !in r && u in r ==> u.date.instant >= t.date.instant
  {
    var k := if |sorted| < n then |sorted| else n;
    assert sorted == sorted[..k] + sorted[k..];
    forall t, u | t in sorted && t !in sorted[..k] && u in sorted[..k]
      ensures u.date.instant >= t.date.instant
    {
      var a :| 0 <= a < |sorted| && sorted[a] == t;
      var b :| 0 <= b < k && sorted[..k][b] == u;
    }
    sorted[..k]
  }

  /** `recentTransactions`: the newest ten of the transactions dated on or after `since`. */
  function RecentTransactions(txs: seq<TxRecord>, since: int): (r: seq<TxRecord>)
    ensures |r| <= RecentLimit && NewestFirst(r)
    ensures |r| == if |Since(txs, since)| < RecentLimit then |Since(txs, since)| else RecentLimit
    ensures multiset(r) <= multiset(txs)
    ensures forall t :: t in r ==> t.date.instant >= since
    ensures forall t, u :: t in txs && t.date.instant >= since && t !in r && u in r ==> u.date.instant >= t.date.instant
  {
    var recent := Since(txs, since);
    var sorted := SortNewestFirst(recent);
    var r := Take(sorted, RecentLimit);
    assert forall t :: t in r ==> t in multiset(recent);
    assert forall t :: t in txs && t.date.instant >= since ==> t in sorted by {
      forall t | t in txs && t.date.instant >= since ensures t in sorted {
        assert t in multiset(recent);
      }
    }
    r
  }

  // --------------------------------------------------------------- monthly

  /** The `$sum` of the amounts dated in month `m`. */
  function MonthSum(txs: seq<TxRecord>, m: int): real {
    if |txs| == 0 then 0.0
    else
      var last := txs[|txs| - 1];
      MonthSum(txs[..|txs| - 1], m) + (if last.date.month == m then last.amount else 0.0)
  }

  /** Some transaction of `txs` is dated in month `m` (see HasMonthMeans). */
  predicate HasMonth(txs: seq<TxRecord>, m: int) {
    |txs| > 0 && (txs[|txs| - 1].date.month == m || HasMonth(txs[..|txs| - 1], m))
  }

  lemma {:induction false} HasMonthMeans(txs: seq<TxRecord>, m: int)
    ensures HasMonth(txs, m) <==> exists t :: t in txs && t.date.month == m
  {
    if |txs| > 0 {
      var prefix := txs[..|txs| - 1];
      assert txs == prefix + [txs[|txs| - 1]];
      assert forall t :: t in txs <==> t in prefix || t == txs[|txs| - 1];
      HasMonthMeans(prefix, m);
    }
  }

  lemma {:induction false} EmptyMonth(txs: seq<TxRecord>, m: int)
    requires !HasMonth(txs, m)
    ensures MonthSum(txs, m) == 0.0
  {
    if |txs| > 0 {
      EmptyMonth(txs[..|txs| - 1], m);
    }
  }

  /** One document of the `$group` stage: a month and its total. */
  datatype MonthTotal = MonthTotal(month: int, total: real)

  /** The months of a list of groups. */
  function Months(groups: seq<MonthTotal>): set<int> {
    if |groups| == 0 then {} else {groups[0].month} + Months(groups[1..])
  }

  lemma MonthsStep(groups: seq<MonthTotal>, k: nat)
    requires k < |groups|
    ensures Months(groups[k..]) == {groups[k].month} + Months(groups[k + 1..])
  {
    assert groups[k..][1..] == groups[k + 1..];
  }

  /** Putting month `m`'s group, if it has data, in front of the groups for months `m + 1` to 12. */
  lemma GroupStep(txs: seq<TxRecord>, m: int, rest: seq<MonthTotal>, r: seq<MonthTotal>)
    requires 1 <= m <= 12
    requires forall i :: 0 <= i < |rest| ==> m + 1 <= rest[i].month <= 12 && rest[i].total == MonthSum(txs, rest[i].month)
    requires forall i, j :: 0 <= i < j < |rest| ==> rest[i].month < rest[j].month
    requires forall n :: n in Months(rest) <==> m + 1 <= n <= 12 && HasMonth(txs, n)
    requires r == if HasMonth(txs, m) then [MonthTotal(m, MonthSum(txs, m))] + rest else rest
    ensures forall i :: 0 <= i < |r| ==> m <= r[i].month <= 12 && r[i].total == MonthSum(txs, r[i].month)
    ensures forall i, j :: 0 <= i < j < |r| ==> r[i].month < r[j].month
    ensures forall n :: n in Months(r) <==> m <= n <= 12 && HasMonth(txs, n)
  {
    if HasMonth(txs, m) {
      GroupCons(txs, m, rest);
      assert Months(r) == {m} + Months(rest);
      forall n
        ensures n in Months(r) <==> m <= n <= 12 && HasMonth(txs, n)
      {
        if n != m {
          assert n in Months(r) <==> n in Months(rest);
        }
      }
    } else {
      forall n
        ensures n in Months(r) <==> m <= n <= 12 && HasMonth(txs, n)
      {
        if n == m {
          assert !HasMonth(txs, n);
        }
      }
    }
  }

  lemma GroupCons(txs: seq<TxRecord>, m: int, rest: seq<MonthTotal>)
    requires 1 <= m <= 12
    requires forall i :: 0 <= i < |rest| ==> m + 1 <= rest[i].month <= 12 && rest[i].total == MonthSum(txs, rest[i].month)
    requires forall i, j :: 0 <= i < j < |rest| ==> rest[i].month < rest[j].month
    ensures var r := [MonthTotal(m, MonthSum(txs, m))] + rest;
      && (forall i :: 0 <= i < |r| ==> m <= r[i].month <= 12 && r[i].total == MonthSum(txs, r[i].month))
      && (forall i, j :: 0 <= i < j < |r| ==> r[i].month < r[j].month)
      && Months(r) == {m} + Months(rest)
  {
    var r := [MonthTotal(m, MonthSum(txs, m))] + rest;
    assert r[1..] == rest;
  }

  /** The groups for months `m` to 12, in ascending month order, one per month that has data. */
  function GroupsFrom(txs: seq<TxRecord>, m: int): (r: seq<MonthTotal>)
    requires 1 <= m <= 13
    ensures forall i :: 0 <= i < |r| ==> m <= r[i].month <= 12 && r[i].total == MonthSum(txs, r[i].month)
    ensures forall i, j :: 0 <= i < j < |r| ==> r[i].month < r[j].month
    ensures forall n :: n in Months(r) <==> m <= n <= 12 && HasMonth(txs, n)
    decreases 13 - m
  {
    if m == 13 then []
    else
      var rest := GroupsFrom(txs, m + 1);
      var r := if HasMonth(txs, m) then [MonthTotal(m, MonthSum(txs, m))] + rest else rest;
      GroupStep(txs, m, rest, r);
      r
  }

  /** The aggregate pipeline: `$group` by `$month`, `$sort` by month. */
  function MonthlyGroups(txs: seq<TxRecord>): (r: seq<MonthTotal>)
    ensures forall i :: 0 <= i < |r| ==> 1 <= r[i].month <= 12 && r[i].total == MonthSum(txs, r[i].month)
    ensures forall i, j :: 0 <= i < j < |r| ==> r[i].month < r[j].month
    ensures forall n :: n in Months(r) <==> 1 <= n <= 12 && HasMonth(txs, n)
  {
    GroupsFrom(txs, 1)
  }

  /** `data` holds the month total at index month − 1 for the months in `written`, zero elsewhere. */
  predicate TableHolds(data: seq<real>, txs: seq<TxRecord>, written: set<int>) {
    |data| == 12 && forall i :: 0 <= i < 12 ==> data[i] == if i + 1 in written then MonthSum(txs, i + 1) else 0.0
  }

  lemma WriteGroup(data: seq<real>, txs: seq<TxRecord>, written: set<int>, g: MonthTotal)
    requires TableHolds(data, txs, written)
    requires 1 <= g.month <= 12 && g.total == MonthSum(txs, g.month)
    ensures TableHolds(data[g.month - 1 := g.total], txs, written + {g.month})
  {
  }

  lemma {:induction false} FinishedTable(data: seq<real>, txs: seq<TxRecord>, written: set<int>)
    requires TableHolds(data, txs, written)
    requires forall n :: n in written <==> 1 <= n <= 12 && HasMonth(txs, n)
    ensures forall i :: 0 <= i < 12 ==> data[i] == MonthSum(txs, i + 1)
  {
    forall i | 0 <= i < 12
      ensures data[i] == MonthSum(txs, i + 1)
    {
      if i + 1 !in written {
        EmptyMonth(txs, i + 1);
      }
    }
  }

  /** GET /dashboard/monthly-totals: twelve zeros, then each group's total written at index month − 1. */
  method MonthlyTotals(txs: seq<TxRecord>) returns (table: seq<real>)
    ensures |table| == 12
    ensures forall i :: 0 <= i < 12 ==> table[i] == MonthSum(txs, i + 1)
  {
    var groups := MonthlyGroups(txs);
    var data := new real[12](_ => 0.0);
    ghost var written: set<int> := {};
    for k := 0 to |groups|
      invariant TableHolds(data[..], txs, written)
      invariant written + Months(groups[k..]) == Months(groups)
    {
      var g := groups[k];
      MonthsStep(groups, k);
      ghost var before := data[..];
      WriteGroup(before, txs, written, g);
      data[g.month - 1] := g.total;
      assert data[..] == before[g.month - 1 := g.total];
      written := written + {g.month};
    }
    FinishedTable(data[..], txs, written);
    table := data[..];
  }

  /** The sum of all amounts. */
  function Amounts(txs: seq<TxRecord>): real {
    if |txs| == 0 then 0.0 else Amounts(txs[..|txs| - 1]) + txs[|txs| - 1].amount
  }

  /** The sum of the month totals of months 1 to `m`. */
  function FirstMonths(txs: seq<TxRecord>, m: nat): real {
    if m == 0 then 0.0 else FirstMonths(txs, m - 1) + MonthSum(txs, m)
  }

  lemma {:induction false} FirstMonthsStep(prefix: seq<TxRecord>, t: TxRecord, m: nat)
    ensures FirstMonths(prefix + [t], m) == FirstMonths(prefix, m) + (if 1 <= t.date.month <= m then t.amount else 0.0)
  {
    assert (prefix + [t])[..|prefix|] == prefix;
    if m > 0 {
      FirstMonthsStep(prefix, t, m - 1);
    }
  }

  lemma {:induction false} NoMonths(txs: seq<TxRecord>, m: nat)
    requires txs == []
    ensures FirstMonths(txs, m) == 0.0
  {
    if m > 0 {
      NoMonths(txs, m - 1);
    }
  }

  /** With every date in months 1 to 12, the table's entries add up to the total of all amounts. */
  lemma {:induction false} TableCoversAll(txs: seq<TxRecord>)
    requires forall t :: t in txs ==> t.date.WellFormed()
    ensures FirstMonths(txs, 12) == Amounts(txs)
  {
    if |txs| == 0 {
      NoMonths(txs, 12);
    } else {
      var prefix := txs[..|txs| - 1];
      var t := txs[|txs| - 1];
      assert txs == prefix + [t];
      assert forall u :: u in prefix ==> u in txs;
      assert t in txs;
      TableCoversAll(prefix);
      FirstMonthsStep(prefix, t, 12);
    }
  }
}
