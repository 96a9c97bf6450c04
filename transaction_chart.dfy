/**
 * The chart's daily aggregation: one bucket per day key, in order of first
 * appearance, holding deposit and withdrawal totals per currency.
 */
module TransactionChart {
  import opened Wrappers
  import opened Domain
  import opened Client

  datatype Counter = IQDDeposits | IQDWithdrawals | USDDeposits | USDWithdrawals

  datatype Bucket = Bucket(day: int, iqdDeposits: real, iqdWithdrawals: real, usdDeposits: real, usdWithdrawals: real)

  function Get(b: Bucket, c: Counter): real {
    match c
    case IQDDeposits => b.iqdDeposits
    case IQDWithdrawals => b.iqdWithdrawals
    case USDDeposits => b.usdDeposits
    case USDWithdrawals => b.usdWithdrawals
  }

  /** Adds `x` to one counter of a bucket. */
  function Bump(b: Bucket, c: Counter, x: real): (r: Bucket)
    ensures r.day == b.day
    ensures forall k :: Get(r, k) == Get(b, k) + (if k == c then x else 0.0)
  {
    match c
    case IQDDeposits => b.(iqdDeposits := b.iqdDeposits + x)
    case IQDWithdrawals => b.(iqdWithdrawals := b.iqdWithdrawals + x)
    case USDDeposits => b.(usdDeposits := b.usdDeposits + x)
    case USDWithdrawals => b.(usdWithdrawals := b.usdWithdrawals + x)
  }

  function Fresh(day: int): (b: Bucket)
    ensures b.day == day && forall k :: Get(b, k) == 0.0
  {
    Bucket(day, 0.0, 0.0, 0.0, 0.0)
  }

  /** The counter a transaction feeds: dinar to IQD, anything else to USD; none but deposits and withdrawals count. */
  function CounterOf(t: ClientTx): Option<Counter> {
    match t.kind
    case Deposit => Some(if t.fromCurrency == Dinar then IQDDeposits else USDDeposits)
    case Withdraw => Some(if t.fromCurrency == Dinar then IQDWithdrawals else USDWithdrawals)
    case _ => None
  }

  /** The distinct day keys of `txs`, in order of first appearance. */
  function Days(txs: seq<ClientTx>): (ds: seq<int>)
    ensures forall t :: t in txs ==> t.date.day in ds
    ensures forall d :: d in ds ==> exists t :: t in txs && t.date.day == d
  {
    if |txs| == 0 then []
    else
      var prefix := txs[..|txs| - 1];
      var last := txs[|txs| - 1];
      var ds := Days(prefix);
      assert forall t :: t in txs <==> t in prefix || t == last;
      if last.date.day in ds then ds else ds + [last.date.day]
  }

  predicate Distinct(ds: seq<int>) {
    forall i, j :: 0 <= i < j < |ds| ==> ds[i] != ds[j]
  }

  lemma {:induction false} DaysDistinct(txs: seq<ClientTx>)
    ensures Distinct(Days(txs))
  {
    if |txs| > 0 {
      DaysDistinct(txs[..|txs| - 1]);
    }
  }

  /** The total of the counter `c` over the transactions of day `d`. */
  function DaySum(txs: seq<ClientTx>, d: int, c: Counter): real {
    if |txs| == 0 then 0.0
    else
      var last := txs[|txs| - 1];
      DaySum(txs[..|txs| - 1], d, c) + (if last.date.day == d && CounterOf(last) == Some(c) then last.amount else 0.0)
  }

  /** The total of the counter `c` over all transactions. */
  function Total(txs: seq<ClientTx>, c: Counter): real {
    if |txs| == 0 then 0.0
    else
      var last := txs[|txs| - 1];
      Total(txs[..|txs| - 1], c) + (if CounterOf(last) == Some(c) then last.amount else 0.0)
  }

  /** The bucket the aggregation should hold for day `d`. */
  function BucketFor(txs: seq<ClientTx>, d: int): (b: Bucket)
    ensures b.day == d && forall c :: Get(b, c) == DaySum(txs, d, c)
  {
    Bucket(d, DaySum(txs, d, IQDDeposits), DaySum(txs, d, IQDWithdrawals), DaySum(txs, d, USDDeposits), DaySum(txs, d, USDWithdrawals))
  }

  /** `acc` holds exactly one correct bucket per day of `txs`, in order of first appearance. */
  predicate Describes(acc: seq<Bucket>, txs: seq<ClientTx>) {
    var ds := Days(txs);
    |acc| == |ds| && forall j :: 0 <= j < |acc| ==> acc[j] == BucketFor(txs, ds[j])
  }

  lemma {:induction false} DaySumOfAbsentDay(txs: seq<ClientTx>, d: int, c: Counter)
    requires d !in Days(txs)
    ensures DaySum(txs, d, c) == 0.0
  {
    if |txs| > 0 {
      DaySumOfAbsentDay(txs[..|txs| - 1], d, c);
    }
  }

  /** Appending one transaction changes only the bucket of its own day, by its own counter. */
  lemma BucketStep(prefix: seq<ClientTx>, t: ClientTx, d: int)
    ensures BucketFor(prefix + [t], d) ==
      if d == t.date.day && CounterOf(t).Some? then Bump(BucketFor(prefix, d), CounterOf(t).value, t.amount)
      else BucketFor(prefix, d)
  {
    assert (prefix + [t])[..|prefix|] == prefix;
  }

  /** `acc.find(item => item.date === day)`, as an index. */
  method FindBucket(acc: seq<Bucket>, day: int) returns (i: int)
    ensures -1 <= i < |acc|
    ensures i == -1 <==> forall j :: 0 <= j < |acc| ==> acc[j].day != day
    ensures i >= 0 ==> acc[i].day == day && forall j :: 0 <= j < i ==> acc[j].day != day
  {
    i := 0;
    while i < |acc|
      invariant 0 <= i <= |acc|
      invariant forall j :: 0 <= j < i ==> acc[j].day != day
    {
      if acc[i].day == day {
        return;
      }
      i := i + 1;
    }
    i := -1;
  }

  /** `acc` holds the buckets of `txs` for the days `ds`, one per day and in that order. */
  predicate Holds(acc: seq<Bucket>, txs: seq<ClientTx>, ds: seq<int>) {
    |acc| == |ds| && forall j :: 0 <= j < |acc| ==> acc[j] == BucketFor(txs, ds[j])
  }

  lemma FoundDay(acc: seq<Bucket>, prefix: seq<ClientTx>, t: ClientTx, i: int)
    requires Describes(acc, prefix) && 0 <= i < |acc| && acc[i].day == t.date.day
    ensures Holds(acc, prefix, Days(prefix + [t])) && Days(prefix + [t])[i] == t.date.day
  {
    assert (prefix + [t])[..|prefix|] == prefix;
  }

  lemma NewDay(acc: seq<Bucket>, prefix: seq<ClientTx>, t: ClientTx)
    requires Describes(acc, prefix) && forall j :: 0 <= j < |acc| ==> acc[j].day != t.date.day
    ensures Holds(acc + [Fresh(t.date.day)], prefix, Days(prefix + [t]))
    ensures Days(prefix + [t])[|acc|] == t.date.day
  {
    assert (prefix + [t])[..|prefix|] == prefix;
    assert t.date.day !in Days(prefix);
    DaySumOfAbsentDay(prefix, t.date.day, IQDDeposits);
    DaySumOfAbsentDay(prefix, t.date.day, IQDWithdrawals);
    DaySumOfAbsentDay(prefix, t.date.day, USDDeposits);
    DaySumOfAbsentDay(prefix, t.date.day, USDWithdrawals);
  }

  lemma Bumped(acc: seq<Bucket>, prefix: seq<ClientTx>, t: ClientTx, ds: seq<int>, i: int)
    requires Holds(acc, prefix, ds) && Distinct(ds) && 0 <= i < |ds| && ds[i] == t.date.day
    ensures Holds(if CounterOf(t).Some? then acc[i := Bump(acc[i], CounterOf(t).value, t.amount)] else acc, prefix + [t], ds)
  {
    forall j | 0 <= j < |ds|
      ensures BucketFor(prefix + [t], ds[j]) ==
        if ds[j] == t.date.day && CounterOf(t).Some? then Bump(BucketFor(prefix, ds[j]), CounterOf(t).value, t.amount)
        else BucketFor(prefix, ds[j])
    {
      BucketStep(prefix, t, ds[j]);
    }
  }

  /** One step of the reduce: find or push the day's bucket, then bump its counter. */
  method AddToBuckets(acc: seq<Bucket>, ghost prefix: seq<ClientTx>, t: ClientTx) returns (next: seq<Bucket>)
    requires Describes(acc, prefix)
    ensures Describes(next, prefix + [t])
  {
    DaysDistinct(prefix + [t]);
    var i := FindBucket(acc, t.date.day);
    next := acc;
    if i < 0 {
      NewDay(acc, prefix, t);
      next := acc + [Fresh(t.date.day)];
      i := |acc|;
    } else {
      FoundDay(acc, prefix, t, i);
    }
    Bumped(next, prefix, t, Days(prefix + [t]), i);
    var c := CounterOf(t);
    if c.Some? {
      next := next[i := Bump(next[i], c.value, t.amount)];
    }
  }

  /** `aggregatedData`: the reduce that pushes new buckets and bumps counters in place. */
  method AggregateDaily(txs: seq<ClientTx>) returns (acc: seq<Bucket>)
    ensures Describes(acc, txs)
  {
    acc := [];
    var n := 0;
    assert txs[..0] == [];
    while n < |txs|
      invariant 0 <= n <= |txs|
      invariant Describes(acc, txs[..n])
    {
      assert txs[..n + 1] == txs[..n] + [txs[n]];
      acc := AddToBuckets(acc, txs[..n], txs[n]);
      n := n + 1;
    }
    assert txs[..n] == txs;
  }

  /** The sum of counter `c` over the buckets `acc`. */
  function CounterSum(acc: seq<Bucket>, c: Counter): real {
    if |acc| == 0 then 0.0 else CounterSum(acc[..|acc| - 1], c) + Get(acc[|acc| - 1], c)
  }

  /** The sum of the day totals of `c` over the days `ds`. */
  function DaysSum(txs: seq<ClientTx>, ds: seq<int>, c: Counter): real {
    if |ds| == 0 then 0.0 else DaysSum(txs, ds[..|ds| - 1], c) + DaySum(txs, ds[|ds| - 1], c)
  }

  lemma {:induction false} DaysSumStep(prefix: seq<ClientTx>, t: ClientTx, ds: seq<int>, c: Counter)
    requires Distinct(ds)
    ensures DaysSum(prefix + [t], ds, c) ==
      DaysSum(prefix, ds, c) + (if t.date.day in ds && CounterOf(t) == Some(c) then t.amount else 0.0)
  {
    assert (prefix + [t])[..|prefix|] == prefix;
    if |ds| > 0 {
      var init := ds[..|ds| - 1];
      assert forall x :: x in ds <==> x in init || x == ds[|ds| - 1];
      DaysSumStep(prefix, t, init, c);
    }
  }

  lemma DaysSnoc(prefix: seq<ClientTx>, t: ClientTx)
    ensures Days(prefix + [t]) == if t.date.day in Days(prefix) then Days(prefix) else Days(prefix) + [t.date.day]
  {
    assert (prefix + [t])[..|prefix|] == prefix;
  }

  lemma TotalSnoc(prefix: seq<ClientTx>, t: ClientTx, c: Counter)
    ensures Total(prefix + [t], c) == Total(prefix, c) + (if CounterOf(t) == Some(c) then t.amount else 0.0)
    ensures DaySum(prefix + [t], t.date.day, c) == DaySum(prefix, t.date.day, c) + (if CounterOf(t) == Some(c) then t.amount else 0.0)
  {
    assert (prefix + [t])[..|prefix|] == prefix;
  }

  /** Summed over all days, the day totals of a counter make up its overall total. */
  lemma {:induction false} DaysCoverTotal(txs: seq<ClientTx>, c: Counter)
    ensures DaysSum(txs, Days(txs), c) == Total(txs, c)
  {
    if |txs| > 0 {
      var prefix := txs[..|txs| - 1];
      var t := txs[|txs| - 1];
      assert txs == prefix + [t];
      var ds := Days(prefix);
      DaysCoverTotal(prefix, c);
      DaysDistinct(prefix);
      DaysSnoc(prefix, t);
      TotalSnoc(prefix, t, c);
      DaysSumStep(prefix, t, ds, c);
      if t.date.day !in ds {
        var ds' := ds + [t.date.day];
        assert ds'[..|ds|] == ds;
        DaySumOfAbsentDay(prefix, t.date.day, c);
        assert DaysSum(txs, ds', c) == DaysSum(txs, ds, c) + DaySum(txs, t.date.day, c);
      }
    }
  }

  lemma {:induction false} CounterSumOfPrefix(acc: seq<Bucket>, txs: seq<ClientTx>, k: nat, c: Counter)
    requires Describes(acc, txs) && k <= |acc|
    ensures CounterSum(acc[..k], c) == DaysSum(txs, Days(txs)[..k], c)
  {
    if k > 0 {
      assert acc[..k][..k - 1] == acc[..k - 1];
      assert Days(txs)[..k][..k - 1] == Days(txs)[..k - 1];
      CounterSumOfPrefix(acc, txs, k - 1, c);
    }
  }

  /** Over all buckets, each counter adds up to its total over the input (exchanges and transfers in none). */
  lemma BucketsAddUp(acc: seq<Bucket>, txs: seq<ClientTx>, c: Counter)
    requires Describes(acc, txs)
    ensures CounterSum(acc, c) == Total(txs, c)
  {
    CounterSumOfPrefix(acc, txs, |acc|, c);
    assert acc[..|acc|] == acc;
    assert Days(txs)[..|acc|] == Days(txs);
    DaysCoverTotal(txs, c);
  }

  /** Exchanges and transfers leave every counter as it was. */
  lemma ExchangesCountNowhere(txs: seq<ClientTx>, t: ClientTx, c: Counter)
    requires t.kind == Exchange || t.kind == Transfer
    ensures Total(txs + [t], c) == Total(txs, c)
  {
    assert (txs + [t])[..|txs|] == txs;
  }
}
