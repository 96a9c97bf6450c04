/**
 * The row filter of the transaction table: a conjunction of a customer-name
 * search, a type filter, an optional date range and a currency filter.
 */
module TransactionTable {
  import opened Wrappers
  import opened Domain
  import opened Client
  import opened Text

  /** The currency selector of the table. */
  datatype CurrencyFilter = IQD | USD | Both

  function FilterCode(f: CurrencyFilter): string {
    match f
    case IQD => "IQD"
    case USD => "USD"
    case Both => "both"
  }

  /** The table's inputs besides the data. A date bound is an instant. */
  datatype TableQuery = TableQuery(
    searchTerm: string,
    filterType: Option<string>,
    start: Option<int>,
    end: Option<int>,
    currency: CurrencyFilter)

  /** The name the search looks at: the customer's, or '' when the id is unknown. */
  function CustomerName(t: ClientTx, customers: seq<ClientCustomer>): string {
    var c := FindCustomer(customers, t.customerId);
    if c.Some? then c.value.name else ""
  }

  predicate MatchesSearch(t: ClientTx, customers: seq<ClientCustomer>, searchTerm: string) {
    Includes(Lower(CustomerName(t, customers)), Lower(searchTerm))
  }

  /** An undefined or empty filter, like 'all', keeps every type. */
  predicate MatchesType(t: ClientTx, filterType: Option<string>) {
    filterType.None? || filterType.value == "" || filterType.value == "all" || KindName(t.kind) == filterType.value
  }

  /**
   * An undefined, empty or 'all' type filter keeps every transaction, and the
   * type string of a kind keeps exactly the transactions of that kind.
   */
  lemma TypeFilterSelects(t: ClientTx, filterType: Option<string>, k: Kind)
    ensures filterType.None? || filterType == Some("") || filterType == Some("all") ==> MatchesType(t, filterType)
    ensures filterType == Some(KindName(k)) ==> (MatchesType(t, filterType) <==> t.kind == k)
  {
  }

  /** The range applies only when both bounds are set, and includes both ends. */
  predicate InDateRange(t: ClientTx, start: Option<int>, end: Option<int>) {
    start.Some? && end.Some? ==> start.value <= t.date.instant <= end.value
  }

  predicate MatchesCurrency(t: ClientTx, currency: CurrencyFilter) {
    currency == Both || Upper(CurrencyName(t.fromCurrency)) == FilterCode(currency)
  }

  predicate Keep(t: ClientTx, customers: seq<ClientCustomer>, q: TableQuery) {
    && MatchesSearch(t, customers, q.searchTerm)
    && MatchesType(t, q.filterType)
    && InDateRange(t, q.start, q.end)
    && MatchesCurrency(t, q.currency)
  }

  /** `a` is `b` with some elements left out, the rest in their order. */
  predicate Subsequence<T(==)>(a: seq<T>, b: seq<T>)
    decreases |b|
  {
    if |a| == 0 then true
    else if |b| == 0 then false
    else (a[0] == b[0] && Subsequence(a[1..], b[1..])) || Subsequence(a, b[1..])
  }

  /** `filteredTransactions`. */
  function FilterTransactions(txs: seq<ClientTx>, customers: seq<ClientCustomer>, q: TableQuery): (r: seq<ClientTx>)
    ensures forall t :: t in r <==> t in txs && Keep(t, customers, q)
    ensures forall t :: multiset(r)[t] == if Keep(t, customers, q) then multiset(txs)[t] else 0
    ensures Subsequence(r, txs)
  {
    if |txs| == 0 then []
    else
      var rest := FilterTransactions(txs[1..], customers, q);
      assert txs == [txs[0]] + txs[1..];
      assert forall t :: t in txs <==> t == txs[0] || t in txs[1..];
      if Keep(txs[0], customers, q) then
        assert ([txs[0]] + rest)[1..] == rest;
        [txs[0]] + rest
      else
        rest
  }

  /** A transaction of an unknown customer survives the search only when the search is empty. */
  lemma UnknownCustomerSearch(t: ClientTx, customers: seq<ClientCustomer>, searchTerm: string)
    requires FindCustomer(customers, t.customerId).None?
    ensures MatchesSearch(t, customers, searchTerm) <==> searchTerm == ""
  {
    if searchTerm != "" {
      assert !OccursAt("", Lower(searchTerm), 0);
      assert forall i: nat :: !OccursAt("", Lower(searchTerm), i);
    } else {
      assert OccursAt("", "", 0);
    }
  }

  /** The search ignores letter case in the search term. */
  lemma SearchIgnoresCase(t: ClientTx, customers: seq<ClientCustomer>, searchTerm: string)
    ensures MatchesSearch(t, customers, Lower(searchTerm)) == MatchesSearch(t, customers, searchTerm)
  {
    LowerIdempotent(searchTerm);
  }

  /** Upper-cased stored names are DINAR and DOLLAR, never IQD or USD: only Both keeps anything. */
  lemma CurrencyFilterOnlyBoth(t: ClientTx, currency: CurrencyFilter)
    ensures MatchesCurrency(t, currency) <==> currency == Both
  {
    assert |Upper(CurrencyName(t.fromCurrency))| == |CurrencyName(t.fromCurrency)|;
  }
}
