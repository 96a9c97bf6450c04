/**
 * The per-customer analysis card: totals by type, and a running total per
 * source currency.
 */
module CustomerAnalysis {
  import opened Wrappers
  import opened Domain
  import opened Client

  datatype Analysis = Analysis(
    totalDeposits: real,
    totalWithdrawals: real,
    totalExchanges: real,
    byCurrency: map<Currency, real>)

  /** The sum of the amounts. */
  function Amounts(txs: seq<ClientTx>): real {
    if |txs| == 0 then 0.0 else Amounts(txs[..|txs| - 1]) + txs[|txs| - 1].amount
  }

  lemma AmountsAppend(txs: seq<ClientTx>, t: ClientTx)
    ensures Amounts(txs + [t]) == Amounts(txs) + t.amount
  {
    assert (txs + [t])[..|txs|] == txs;
  }

  function OfCustomer(txs: seq<ClientTx>, customerId: string): (r: seq<ClientTx>)
    ensures forall t :: t in r <==> t in txs && t.customerId == customerId
    ensures forall t :: multiset(r)[t] == if t.customerId == customerId then multiset(txs)[t] else 0
  {
    if |txs| == 0 then []
    else
      var last := txs[|txs| - 1];
      assert txs == txs[..|txs| - 1] + [last];
      assert forall t :: t in txs <==> t in txs[..|txs| - 1] || t == last;
      OfCustomer(txs[..|txs| - 1], customerId) + (if last.customerId == customerId then [last] else [])
  }

  function OfKind(txs: seq<ClientTx>, k: Kind): (r: seq<ClientTx>)
    ensures forall t :: t in r <==> t in txs && t.kind == k
    ensures forall t :: multiset(r)[t] == if t.kind == k then multiset(txs)[t] else 0
  {
    if |txs| == 0 then []
    else
      var last := txs[|txs| - 1];
      assert txs == txs[..|txs| - 1] + [last];
      assert forall t :: t in txs <==> t in txs[..|txs| - 1] || t == last;
      OfKind(txs[..|txs| - 1], k) + (if last.kind == k then [last] else [])
  }

  function OfCurrency(txs: seq<ClientTx>, c: Currency): (r: seq<ClientTx>)
    ensures forall t :: t in r <==> t in txs && t.fromCurrency == c
    ensures forall t :: multiset(r)[t] == if t.fromCurrency == c then multiset(txs)[t] else 0
  {
    if |txs| == 0 then []
    else
      var last := txs[|txs| - 1];
      assert txs == txs[..|txs| - 1] + [last];
      assert forall t :: t in txs <==> t in txs[..|txs| - 1] || t == last;
      OfCurrency(txs[..|txs| - 1], c) + (if last.fromCurrency == c then [last] else [])
  }

  lemma AmountsOfPart(part: seq<ClientTx>, keep: bool, t: ClientTx)
    ensures Amounts(part + (if keep then [t] else [])) == Amounts(part) + (if keep then t.amount else 0.0)
  {
    if keep {
      AmountsAppend(part, t);
    } else {
      assert part + [] == part;
    }
  }

  /** Every amount is in exactly one type's total; transfers are in none of the card's three. */
  lemma {:induction false} KindsPartition(txs: seq<ClientTx>)
    ensures Amounts(txs) == Amounts(OfKind(txs, Deposit)) + Amounts(OfKind(txs, Withdraw))
                          + Amounts(OfKind(txs, Exchange)) + Amounts(OfKind(txs, Transfer))
  {
    if |txs| > 0 {
      var prefix := txs[..|txs| - 1];
      var t := txs[|txs| - 1];
      KindsPartition(prefix);
      AmountsOfPart(OfKind(prefix, Deposit), t.kind == Deposit, t);
      AmountsOfPart(OfKind(prefix, Withdraw), t.kind == Withdraw, t);
      AmountsOfPart(OfKind(prefix, Exchange), t.kind == Exchange, t);
      AmountsOfPart(OfKind(prefix, Transfer), t.kind == Transfer, t);
    }
  }

  /** The currency totals add up to the total of all amounts. */
  lemma {:induction false} CurrenciesPartition(txs: seq<ClientTx>)
    ensures Amounts(txs) == Amounts(OfCurrency(txs, Dinar)) + Amounts(OfCurrency(txs, Dollar))
  {
    if |txs| > 0 {
      var prefix := txs[..|txs| - 1];
      var t := txs[|txs| - 1];
      CurrenciesPartition(prefix);
      AmountsOfPart(OfCurrency(prefix, Dinar), t.fromCurrency == Dinar, t);
      AmountsOfPart(OfCurrency(prefix, Dollar), t.fromCurrency == Dollar, t);
    }
  }

  /** Some transaction of `txs` is in currency `c` (by the contract of OfCurrency). */
  predicate Uses(txs: seq<ClientTx>, c: Currency) {
    OfCurrency(txs, c) != []
  }

  lemma CurrencyStep(prefix: seq<ClientTx>, t: ClientTx, c: Currency)
    ensures Uses(prefix + [t], c) <==> Uses(prefix, c) || t.fromCurrency == c
    ensures Amounts(OfCurrency(prefix + [t], c)) == Amounts(OfCurrency(prefix, c)) + (if t.fromCurrency == c then t.amount else 0.0)
  {
    assert (prefix + [t])[..|prefix|] == prefix;
    AmountsOfPart(OfCurrency(prefix, c), t.fromCurrency == c, t);
  }

  /** `acc` has a key for each currency of `txs`, holding that currency's total. */
  predicate Accumulates(acc: map<Currency, real>, txs: seq<ClientTx>) {
    && (forall c :: c in acc <==> Uses(txs, c))
    && (forall c :: c in acc ==> acc[c] == Amounts(OfCurrency(txs, c)))
  }

  /** One reduce step, for one currency `c`. */
  lemma AccumulateAt(acc: map<Currency, real>, prefix: seq<ClientTx>, t: ClientTx, c: Currency)
    requires c in acc <==> Uses(prefix, c)
    requires c in acc ==> acc[c] == Amounts(OfCurrency(prefix, c))
    ensures var next := acc[t.fromCurrency := (if t.fromCurrency in acc then acc[t.fromCurrency] else 0.0) + t.amount];
      && (c in next <==> Uses(prefix + [t], c))
      && (c in next ==> next[c] == Amounts(OfCurrency(prefix + [t], c)))
  {
    CurrencyStep(prefix, t, c);
  }

  lemma Accumulate(acc: map<Currency, real>, prefix: seq<ClientTx>, t: ClientTx)
    requires Accumulates(acc, prefix)
    ensures Accumulates(acc[t.fromCurrency := (if t.fromCurrency in acc then acc[t.fromCurrency] else 0.0) + t.amount], prefix + [t])
  {
    forall c
      ensures var next := acc[t.fromCurrency := (if t.fromCurrency in acc then acc[t.fromCurrency] else 0.0) + t.amount];
        && (c in next <==> Uses(prefix + [t], c))
        && (c in next ==> next[c] == Amounts(OfCurrency(prefix + [t], c)))
    {
      AccumulateAt(acc, prefix, t, c);
    }
  }

  /** The `transactionsByCurrency` reduce, which writes into its accumulator object. */
  method ByCurrency(own: seq<ClientTx>) returns (acc: map<Currency, real>)
    ensures forall c :: c in acc <==> Uses(own, c)
    ensures forall c :: c in acc ==> acc[c] == Amounts(OfCurrency(own, c))
  {
    acc := map[];
    assert own[..0] == [];
    for i := 0 to |own|
      invariant Accumulates(acc, own[..i])
    {
      var t := own[i];
      assert own[..i + 1] == own[..i] + [t];
      Accumulate(acc, own[..i], t);
      acc := acc[t.fromCurrency := (if t.fromCurrency in acc then acc[t.fromCurrency] else 0.0) + t.amount];
    }
    assert own[..|own|] == own;
  }

  /** The card for `customerId`, or None (the component renders nothing) for an unknown customer. */
  method AnalyseCustomer(customers: seq<ClientCustomer>, txs: seq<ClientTx>, customerId: string) returns (r: Option<Analysis>)
    ensures r.None? <==> FindCustomer(customers, customerId).None?
    ensures r.Some? ==>
      var own := OfCustomer(txs, customerId);
      && r.value.totalDeposits == Amounts(OfKind(own, Deposit))
      && r.value.totalWithdrawals == Amounts(OfKind(own, Withdraw))
      && r.value.totalExchanges == Amounts(OfKind(own, Exchange))
      && (forall c :: c in r.value.byCurrency <==> Uses(own, c))
      && (forall c :: c in r.value.byCurrency ==> r.value.byCurrency[c] == Amounts(OfCurrency(own, c)))
  {
    if FindCustomer(customers, customerId).None? {
      return None;
    }
    var own := OfCustomer(txs, customerId);
    var byCurrency := ByCurrency(own);
    r := Some(Analysis(Amounts(OfKind(own, Deposit)), Amounts(OfKind(own, Withdraw)), Amounts(OfKind(own, Exchange)), byCurrency));
  }

  function ValueOr(m: map<Currency, real>, c: Currency): real {
    if c in m then m[c] else 0.0
  }

  /** The bars of the currency chart add up to the total amount of the customer's transactions. */
  lemma CurrencyBarsAddUp(own: seq<ClientTx>, byCurrency: map<Currency, real>)
    requires forall c :: c in byCurrency <==> Uses(own, c)
    requires forall c :: c in byCurrency ==> byCurrency[c] == Amounts(OfCurrency(own, c))
    ensures ValueOr(byCurrency, Dinar) + ValueOr(byCurrency, Dollar) == Amounts(own)
  {
    CurrenciesPartition(own);
  }
}
