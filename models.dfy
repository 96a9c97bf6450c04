/**
 * The three document kinds of the backend (Customer, Transaction and
 * ExchangeRate) and the store that holds them. The store stands in for the
 * MongoDB collections: `findById` is a map lookup, `save` writes a local copy
 * back into the map and `create` adds a document under a fresh id.
 */
module Models {
  import opened Wrappers
  import opened Domain

  type CustomerId = nat
  type TxId = nat

  /** One safe of a customer: its currency tag and its balance. */
  datatype Safe = Safe(currency: Currency, balance: real)

  /** The `safes` sub-document: exactly one safe per currency. */
  datatype Safes = Safes(dinar: Safe, dollar: Safe) {

    /** `safes[c].balance` */
    function Balance(c: Currency): real {
      if c == Dinar then dinar.balance else dollar.balance
    }

    /** `safes[c].balance += x`: only the balance of `c` moves, tags stay. */
    function Credit(c: Currency, x: real): (r: Safes)
      ensures r.Balance(c) == Balance(c) + x
      ensures r.Balance(Other(c)) == Balance(Other(c))
      ensures r.dinar.currency == dinar.currency && r.dollar.currency == dollar.currency
    {
      if c == Dinar then this.(dinar := dinar.(balance := dinar.balance + x))
      else this.(dollar := dollar.(balance := dollar.balance + x))
    }

    /** `safes[c].balance -= x`: only the balance of `c` moves, tags stay. */
    function Debit(c: Currency, x: real): (r: Safes)
      ensures r.Balance(c) == Balance(c) - x
      ensures r.Balance(Other(c)) == Balance(Other(c))
      ensures r.dinar.currency == dinar.currency && r.dollar.currency == dollar.currency
    {
      if c == Dinar then this.(dinar := dinar.(balance := dinar.balance - x))
      else this.(dollar := dollar.(balance := dollar.balance - x))
    }

    /** Each safe carries the tag of the key it is stored under. */
    predicate Tagged() {
      dinar.currency == Dinar && dollar.currency == Dollar
    }
  }

  /** The profile fields of a customer; only `name` is required by the schema. */
  datatype Profile = Profile(
    name: string,
    email: Option<string>,
    phone: Option<string>,
    address: Option<string>,
    avatar: Option<string>)

  datatype Customer = Customer(profile: Profile, safes: Safes)

  /** The `type` enum of the Transaction schema. */
  datatype TxType = Deposit | Withdraw | Exchange

  /** The string a transaction type is stored as. */
  function TypeName(k: TxType): string {
    match k
    case Deposit => "deposit"
    case Withdraw => "withdraw"
    case Exchange => "exchange"
  }

  /** A stored transaction document. */
  datatype TxRecord = TxRecord(
    customerId: CustomerId,
    kind: TxType,
    amount: real,
    fromCurrency: Currency,
    toCurrency: Option<Currency>,
    note: Option<string>,
    date: Stamp)
  {
    /**
     * What every record written by the handlers satisfies: an exchange names
     * the currency it credited (a missing one makes the handlers throw
     * before the record is written), and the date is a real calendar date.
     */
    predicate WellFormed() {
      (kind == Exchange ==> toCurrency.Some?) && date.WellFormed()
    }
  }

  /** The exchange-rate document. The two rates need not be reciprocal. */
  datatype Rate = Rate(dinarToDollar: real, dollarToDinar: real)

  /** The record the handlers create when none is stored. */
  const DefaultRate: Rate := Rate(0.33, 3.0)

  /**
   * The rate record `findOne` returns has no zero rate, so that the divisions
   * of the conversion formulas are defined.
   */
  predicate UsableRates(rates: seq<Rate>) {
    |rates| > 0 ==> rates[0].dinarToDollar != 0.0 && rates[0].dollarToDinar != 0.0
  }

  /** The outcome of a request handler, by HTTP status and error message. */
  datatype Status =
    | Ok
    | InvalidType           // 400 'Invalid transaction type'
    | InsufficientFunds     // 400 'Insufficient funds ...'
    | RateNotFound          // 400 'Exchange rate not found'
    | CustomerNotFound      // 404
    | TransactionNotFound   // 404
    | ServerError           // 500, an exception caught by the handler

  function HttpCode(s: Status): (code: nat)
    ensures code == 200 <==> s == Ok
  {
    match s
    case Ok => 200
    case InvalidType => 400
    case InsufficientFunds => 400
    case RateNotFound => 400
    case CustomerNotFound => 404
    case TransactionNotFound => 404
    case ServerError => 500
  }

  /** The database: three collections, and the next fresh id for the first two. */
  class Store {
    var customers: map<CustomerId, Customer>
    var transactions: map<TxId, TxRecord>
    var rates: seq<Rate>
    var nextCustomerId: nat
    var nextTxId: nat

    ghost predicate Valid()
      reads this
    {
      && (forall id | id in customers :: id < nextCustomerId && customers[id].safes.Tagged())
      && (forall id | id in transactions :: id < nextTxId && transactions[id].WellFormed())
    }

    /** `customer.save()` of a loaded customer document. */
    method SaveCustomer(id: CustomerId, c: Customer)
      requires Valid() && id in customers && c.safes.Tagged()
      modifies this
      ensures Valid()
      ensures customers == old(customers)[id := c]
      ensures transactions == old(transactions) && rates == old(rates)
      ensures nextCustomerId == old(nextCustomerId) && nextTxId == old(nextTxId)
    {
      customers := customers[id := c];
    }

    /** `transaction.save()` of a loaded transaction document. */
    method SaveTransaction(id: TxId, t: TxRecord)
      requires Valid() && id in transactions && t.WellFormed()
      modifies this
      ensures Valid()
      ensures transactions == old(transactions)[id := t]
      ensures customers == old(customers) && rates == old(rates)
      ensures nextCustomerId == old(nextCustomerId) && nextTxId == old(nextTxId)
    {
      transactions := transactions[id := t];
    }

    /** `Transaction.create(...)`: stores `t` under the next transaction id. */
    method CreateRecord(t: TxRecord) returns (id: TxId)
      requires Valid() && t.WellFormed()
      modifies this
      ensures Valid()
      ensures id == old(nextTxId) && nextTxId == id + 1
      ensures transactions == old(transactions)[id := t]
      ensures customers == old(customers) && rates == old(rates) && nextCustomerId == old(nextCustomerId)
    {
      id := nextTxId;
      transactions := transactions[id := t];
      nextTxId := id + 1;
    }

    /** `ExchangeRate.findOne({})`: the first stored record, if any. */
    function FindRate(): (r: Option<Rate>)
      reads this
      ensures r.Some? <==> |rates| > 0
      ensures r.Some? ==> r.value == rates[0]
    {
      if |rates| == 0 then None else Some(rates[0])
    }

    /** An empty database. */
    constructor ()
      ensures Valid()
      ensures customers == map[] && transactions == map[] && rates == []
    {
      customers, transactions, rates := map[], map[], [];
      nextCustomerId, nextTxId := 0, 0;
    }
  }
}
