/**
 * The request handlers of the transaction controller: createTransaction,
 * updateTransaction and transferMoney. Each handler loads documents into
 * local copies, changes the copies step by step, and writes a copy back only
 * where the original calls `save()` or `create()`; an early return or an
 * exception before such a call persists nothing of the copy.
 */
module TransactionController {
  import opened Wrappers
  import opened Domain
  import opened Models
  import opened BalanceEffects

  /** The whitelist check of createTransaction and updateTransaction. */
  function ParseTxType(s: string): (r: Option<TxType>)
    ensures r.Some? ==> TypeName(r.value) == s
    ensures r.None? ==> forall k :: TypeName(k) != s
  {
    if s == "deposit" then Some(Deposit)
    else if s == "withdraw" then Some(Withdraw)
    else if s == "exchange" then Some(Exchange)
    else None
  }

  /** Every stored type name is accepted again, as that type. */
  lemma ParseTypeName(k: TxType)
    ensures ParseTxType(TypeName(k)) == Some(k)
  {
  }

  /**
   * The effect step of createTransaction on the local safes. An exchange
   * without a loaded rate or without a target currency throws after the
   * debit, so `ok` is false and the safes are not saved.
   */
  method ApplyCreated(safes: Safes, e: Entry, exchangeRate: Option<Rate>) returns (ok: bool, r: Safes)
    requires Divisible(e, exchangeRate)
    ensures ok == Convertible(e, exchangeRate)
    ensures ok ==> r == CreateEffect(safes, e, exchangeRate)
  {
    ok, r := true, safes;
    match e.kind {
      case Deposit =>
        r := r.Credit(e.from, e.amount);
      case Withdraw =>
        r := r.Debit(e.from, e.amount);
      case Exchange =>
        r := r.Debit(e.from, e.amount);
        if exchangeRate.None? || e.to.None? {
          return false, r;
        }
        var rate := if e.from == Dinar then exchangeRate.value.dinarToDollar else exchangeRate.value.dollarToDinar;
        var convertedAmount := if e.from == Dinar then e.amount / rate else e.amount * rate;
        assert convertedAmount == Converted(AtCreate, e, exchangeRate);
        r := r.Credit(e.to.value, convertedAmount);
    }
  }

  /**
   * POST /transactions. Validates the type, loads the customer and the rate
   * record (creating the default record when there is none, while the local
   * rate stays null), applies the effect to the local customer, saves it,
   * then creates the record. An exchange without a loaded rate or without a
   * target currency throws before the save.
   */
  method CreateTransaction(db: Store, customerId: CustomerId, typeName: string, amount: real,
                           fromCurrency: Currency, toCurrency: Option<Currency>, note: Option<string>,
                           now: Stamp)
    returns (status: Status, created: Option<TxId>)
    requires db.Valid() && now.WellFormed()
    requires ParseTxType(typeName) == Some(Exchange) ==> UsableRates(db.rates)
    modifies db
    ensures db.Valid()
    ensures db.nextCustomerId == old(db.nextCustomerId)
    ensures ParseTxType(typeName).None? ==>
      status == InvalidType && created == None && unchanged(db)
    ensures ParseTxType(typeName).Some? && customerId !in old(db.customers) ==>
      status == CustomerNotFound && created == None && unchanged(db)
    ensures ParseTxType(typeName).Some? && customerId in old(db.customers) ==>
      var e := Entry(ParseTxType(typeName).value, amount, fromCurrency, toCurrency);
      var rate := old(db.FindRate());
      var c := old(db.customers)[customerId];
      && db.rates == (if rate.None? then [DefaultRate] else old(db.rates))
      && (!Convertible(e, rate) ==>
            && status == ServerError && created == None
            && db.customers == old(db.customers)
            && db.transactions == old(db.transactions)
            && db.nextTxId == old(db.nextTxId))
      && (Convertible(e, rate) ==>
            && status == Ok && created == Some(old(db.nextTxId))
            && db.customers == old(db.customers)[customerId := c.(safes := CreateEffect(c.safes, e, rate))]
            && db.transactions == old(db.transactions)[old(db.nextTxId) :=
                 TxRecord(customerId, e.kind, amount, fromCurrency, toCurrency, note, now)]
            && db.nextTxId == old(db.nextTxId) + 1)
  {
    var kind := ParseTxType(typeName);
    if kind.None? {
      return InvalidType, None;
    }
    if customerId !in db.customers {
      return CustomerNotFound, None;
    }
    var customer := db.customers[customerId];
    var exchangeRate := db.FindRate();
    if exchangeRate.None? {
      db.rates := db.rates + [DefaultRate];
    }

    status, created := CreateFor(db, customerId, customer, Entry(kind.value, amount, fromCurrency, toCurrency), exchangeRate, note, now);
  }

  /**
   * The effect and the writes of createTransaction, once the customer and
   * the rate record `exchangeRate` are loaded.
   */
  method CreateFor(db: Store, customerId: CustomerId, customer: Customer, e: Entry, exchangeRate: Option<Rate>, note: Option<string>, now: Stamp)
    returns (status: Status, created: Option<TxId>)
    requires db.Valid() && now.WellFormed() && Divisible(e, exchangeRate)
    requires customerId in db.customers && db.customers[customerId] == customer
    modifies db
    ensures db.Valid()
    ensures db.nextCustomerId == old(db.nextCustomerId) && db.rates == old(db.rates)
    ensures !Convertible(e, exchangeRate) ==>
      status == ServerError && created == None && unchanged(db)
    ensures Convertible(e, exchangeRate) ==>
      && status == Ok && created == Some(old(db.nextTxId))
      && db.customers == old(db.customers)[customerId := customer.(safes := CreateEffect(customer.safes, e, exchangeRate))]
      && db.transactions == old(db.transactions)[old(db.nextTxId) :=
           TxRecord(customerId, e.kind, e.amount, e.from, e.to, note, now)]
      && db.nextTxId == old(db.nextTxId) + 1
  {
    var ok, safes := ApplyCreated(customer.safes, e, exchangeRate);
    if !ok {
      // reading a rate of null, or `safes[undefined].balance`: a TypeError before the save
      return ServerError, None;
    }
    db.SaveCustomer(customerId, customer.(safes := safes));
    var id := db.CreateRecord(TxRecord(customerId, e.kind, e.amount, e.from, e.to, note, now));
    status, created := Ok, Some(id);
  }

  /**
   * Step 1 of updateTransaction on the local safes: remove the stored
   * transaction's effect. An exchange reloads the rate record and fails when
   * there is none.
   */
  method ReverseStored(safes: Safes, transaction: TxRecord, exchangeRate: Option<Rate>)
    returns (found: bool, r: Safes)
    requires transaction.WellFormed() && Divisible(EntryOf(transaction), exchangeRate)
    ensures found == Convertible(EntryOf(transaction), exchangeRate)
    ensures found ==> r == ReverseEffect(safes, EntryOf(transaction), exchangeRate)
  {
    found, r := true, safes;
    match transaction.kind {
      case Deposit =>
        r := r.Debit(transaction.fromCurrency, transaction.amount);
      case Withdraw =>
        r := r.Credit(transaction.fromCurrency, transaction.amount);
      case Exchange =>
        if exchangeRate.None? {
          return false, r;
        }
        var rate := if transaction.fromCurrency == Dinar then exchangeRate.value.dinarToDollar else exchangeRate.value.dollarToDinar;
        var originalConvertedAmount :=
          if transaction.fromCurrency == Dinar then transaction.amount * rate else transaction.amount / rate;
        assert originalConvertedAmount == Converted(AtReversal, EntryOf(transaction), exchangeRate);
        r := r.Credit(transaction.fromCurrency, transaction.amount);
        r := r.Debit(transaction.toCurrency.value, originalConvertedAmount);
    }
  }

  /**
   * The rollback of updateTransaction on the local safes: apply the stored
   * transaction again with the reversal's conversion. An exchange reloads
   * the rate record, which the reversal found.
   */
  method RestoreStored(safes: Safes, transaction: TxRecord, exchangeRate: Option<Rate>)
    returns (r: Safes)
    requires transaction.WellFormed() && Divisible(EntryOf(transaction), exchangeRate)
    requires Convertible(EntryOf(transaction), exchangeRate)
    ensures r == RestoreEffect(safes, EntryOf(transaction), exchangeRate)
  {
    r := safes;
    match transaction.kind {
      case Deposit =>
        r := r.Credit(transaction.fromCurrency, transaction.amount);
      case Withdraw =>
        r := r.Debit(transaction.fromCurrency, transaction.amount);
      case Exchange =>
        var rate := if transaction.fromCurrency == Dinar then exchangeRate.value.dinarToDollar else exchangeRate.value.dollarToDinar;
        var originalConvertedAmount :=
          if transaction.fromCurrency == Dinar then transaction.amount * rate else transaction.amount / rate;
        assert originalConvertedAmount == Converted(AtReversal, EntryOf(transaction), exchangeRate);
        r := r.Debit(transaction.fromCurrency, transaction.amount);
        r := r.Credit(transaction.toCurrency.value, originalConvertedAmount);
    }
  }

  /**
   * Step 3 of updateTransaction on the local safes: apply the edited
   * transaction. An exchange fails with 400 when no rate record is found and
   * throws when it names no target currency.
   */
  method ApplyEdited(safes: Safes, e: Entry, exchangeRate: Option<Rate>)
    returns (status: Status, r: Safes)
    requires Divisible(e, exchangeRate)
    ensures status == Ok <==> Convertible(e, exchangeRate)
    ensures status != Ok ==> status == (if exchangeRate.None? then RateNotFound else ServerError)
    ensures status == Ok ==> r == UpdateEffect(safes, e, exchangeRate)
  {
    status, r := Ok, safes;
    match e.kind {
      case Deposit =>
        r := r.Credit(e.from, e.amount);
      case Withdraw =>
        r := r.Debit(e.from, e.amount);
      case Exchange =>
        if exchangeRate.None? {
          return RateNotFound, r;
        }
        var convertedAmount :=
          if e.from == Dinar then e.amount * exchangeRate.value.dinarToDollar else e.amount * exchangeRate.value.dollarToDinar;
        r := r.Debit(e.from, e.amount);
        if e.to.None? {
          // `safes[undefined].balance`: a TypeError
          return ServerError, r;
        }
        assert convertedAmount == Converted(AtUpdate, e, exchangeRate);
        r := r.Credit(e.to.value, convertedAmount);
    }
  }

  /**
   * The controller's updateTransaction (not routed). Reverses the stored
   * transaction on a local copy of its customer and saves it; if the edited
   * transaction is a withdrawal or exchange larger than the reversed balance,
   * applies the stored transaction again, saves, and fails; otherwise applies
   * the edited transaction, saves, and overwrites the record's type, amount,
   * currencies and note.
   */
  method UpdateTransaction(db: Store, id: TxId, typeName: string, amount: real,
                           fromCurrency: Currency, toCurrency: Option<Currency>, note: Option<string>)
    returns (status: Status)
    requires db.Valid()
    requires ParseTxType(typeName) == Some(Exchange) || (id in db.transactions && db.transactions[id].kind == Exchange)
             ==> UsableRates(db.rates)
    modifies db
    ensures db.Valid()
    ensures db.rates == old(db.rates) && db.nextTxId == old(db.nextTxId)
    ensures db.nextCustomerId == old(db.nextCustomerId)
    ensures ParseTxType(typeName).None? ==> status == InvalidType && unchanged(db)
    ensures ParseTxType(typeName).Some? && id !in old(db.transactions) ==>
      status == TransactionNotFound && unchanged(db)
    ensures ParseTxType(typeName).Some? && id in old(db.transactions)
            && old(db.transactions)[id].customerId !in old(db.customers) ==>
      status == CustomerNotFound && unchanged(db)
    ensures ParseTxType(typeName).Some? && id in old(db.transactions)
            && old(db.transactions)[id].customerId in old(db.customers) ==>
      var t := old(db.transactions)[id];
      var c := old(db.customers)[t.customerId];
      var rate := old(db.FindRate());
      var e := Entry(ParseTxType(typeName).value, amount, fromCurrency, toCurrency);
      && (!Convertible(EntryOf(t), rate) ==> status == RateNotFound && unchanged(db))
      && (Convertible(EntryOf(t), rate) ==>
            var reversed := ReverseEffect(c.safes, EntryOf(t), rate);
            && (Insufficient(reversed, e) ==>
                  status == InsufficientFunds && db.customers == old(db.customers) && db.transactions == old(db.transactions))
            && (!Insufficient(reversed, e) && !Convertible(e, rate) ==>
                  && status == (if rate.None? then RateNotFound else ServerError)
                  && db.customers == old(db.customers)[t.customerId := c.(safes := reversed)]
                  && db.transactions == old(db.transactions))
            && (!Insufficient(reversed, e) && Convertible(e, rate) ==>
                  && status == Ok
                  && db.customers == old(db.customers)[t.customerId := c.(safes := UpdateEffect(reversed, e, rate))]
                  && db.transactions == old(db.transactions)[id := t.(kind := e.kind, amount := amount,
                       fromCurrency := fromCurrency, toCurrency := toCurrency, note := note)]))
  {
    var kind := ParseTxType(typeName);
    if kind.None? {
      return InvalidType;
    }
    if id !in db.transactions {
      return TransactionNotFound;
    }
    var transaction := db.transactions[id];
    if transaction.customerId !in db.customers {
      return CustomerNotFound;
    }
    var customer := db.customers[transaction.customerId];
    status := UpdateLoaded(db, id, transaction, customer, Entry(kind.value, amount, fromCurrency, toCurrency), note);
  }

  /**
   * Steps 1 to 4 of updateTransaction, once the stored transaction and its
   * customer are loaded.
   */
  method UpdateLoaded(db: Store, id: TxId, transaction: TxRecord, customer: Customer, edited: Entry, note: Option<string>)
    returns (status: Status)
    requires db.Valid() && (edited.kind == Exchange || transaction.kind == Exchange ==> UsableRates(db.rates))
    requires id in db.transactions && db.transactions[id] == transaction
    requires transaction.customerId in db.customers && db.customers[transaction.customerId] == customer
    modifies db
    ensures db.Valid()
    ensures db.rates == old(db.rates) && db.nextTxId == old(db.nextTxId)
    ensures db.nextCustomerId == old(db.nextCustomerId)
    ensures
      var rate := old(db.FindRate());
      && (!Convertible(EntryOf(transaction), rate) ==> status == RateNotFound && unchanged(db))
      && (Convertible(EntryOf(transaction), rate) ==>
            var reversed := ReverseEffect(customer.safes, EntryOf(transaction), rate);
            && (Insufficient(reversed, edited) ==>
                  status == InsufficientFunds && db.customers == old(db.customers) && db.transactions == old(db.transactions))
            && (!Insufficient(reversed, edited) && !Convertible(edited, rate) ==>
                  && status == (if rate.None? then RateNotFound else ServerError)
                  && db.customers == old(db.customers)[transaction.customerId := customer.(safes := reversed)]
                  && db.transactions == old(db.transactions))
            && (!Insufficient(reversed, edited) && Convertible(edited, rate) ==>
                  && status == Ok
                  && db.customers == old(db.customers)[transaction.customerId := customer.(safes := UpdateEffect(reversed, edited, rate))]
                  && db.transactions == old(db.transactions)[id := transaction.(kind := edited.kind, amount := edited.amount,
                       fromCurrency := edited.from, toCurrency := edited.to, note := note)]))
  {
    // 1. Reverse the stored transaction's effect, and save.
    var found, safes := ReverseStored(customer.safes, transaction, db.FindRate());
    if !found {
      return RateNotFound;
    }
    db.SaveCustomer(transaction.customerId, customer.(safes := safes));

    status := UpdateReversed(db, id, transaction, customer, safes, edited, note);
    WriteBackSame(old(db.customers), transaction.customerId, customer.(safes := safes), customer);
  }

  /**
   * Steps 2 to 4 of updateTransaction, once the reversed safes `reversed`
   * are saved on the customer.
   */
  method UpdateReversed(db: Store, id: TxId, transaction: TxRecord, customer: Customer, reversed: Safes,
                        edited: Entry, note: Option<string>)
    returns (status: Status)
    requires db.Valid() && transaction.WellFormed()
    requires edited.kind == Exchange || transaction.kind == Exchange ==> UsableRates(db.rates)
    requires id in db.transactions && db.transactions[id] == transaction
    requires transaction.customerId in db.customers && db.customers[transaction.customerId] == customer.(safes := reversed)
    requires Convertible(EntryOf(transaction), db.FindRate())
    requires reversed == ReverseEffect(customer.safes, EntryOf(transaction), db.FindRate())
    modifies db
    ensures db.Valid()
    ensures db.rates == old(db.rates) && db.nextTxId == old(db.nextTxId)
    ensures db.nextCustomerId == old(db.nextCustomerId)
    ensures Insufficient(reversed, edited) ==>
      status == InsufficientFunds && db.transactions == old(db.transactions)
      && db.customers == old(db.customers)[transaction.customerId := customer]
    ensures !Insufficient(reversed, edited) && !Convertible(edited, db.FindRate()) ==>
      && status == (if db.FindRate().None? then RateNotFound else ServerError)
      && db.customers == old(db.customers) && db.transactions == old(db.transactions)
    ensures !Insufficient(reversed, edited) && Convertible(edited, db.FindRate()) ==>
      && status == Ok
      && db.customers == old(db.customers)[transaction.customerId := customer.(safes := UpdateEffect(reversed, edited, db.FindRate()))]
      && db.transactions == old(db.transactions)[id := transaction.(kind := edited.kind, amount := edited.amount,
           fromCurrency := edited.from, toCurrency := edited.to, note := note)]
  {
    // 2. The funds check for the edited transaction; on failure, roll back and save.
    if Insufficient(reversed, edited) {
      var restored := RestoreStored(reversed, transaction, db.FindRate());
      RollbackUndoesReversal(customer.safes, EntryOf(transaction), db.FindRate());
      assert customer.(safes := restored) == customer;
      db.SaveCustomer(transaction.customerId, customer.(safes := restored));
      return InsufficientFunds;
    }

    // 3. Apply the edited transaction's effect, and save.
    var applied;
    status, applied := ApplyEdited(reversed, edited, db.FindRate());
    if status != Ok {
      return;
    }
    db.SaveCustomer(transaction.customerId, customer.(safes := applied));

    // 4. Overwrite the record, and save.
    db.SaveTransaction(id, transaction.(kind := edited.kind, amount := edited.amount,
      fromCurrency := edited.from, toCurrency := edited.to, note := note));
  }

  /** Saving a document twice, the second time as it was loaded, leaves the collection as it was. */
  lemma WriteBackSame<K, V>(m: map<K, V>, k: K, first: V, loaded: V)
    requires k in m && m[k] == loaded
    ensures m[k := first][k := loaded] == m
  {
    assert m[k := first][k := loaded] == m[k := loaded];
  }

  /**
   * POST /transactions/transfer. Loads both customers, checks the sender's
   * balance (an equal balance passes), debits and saves the sender and
   * creates a withdraw record, then credits and saves the receiver as loaded
   * at the start and creates a deposit record.
   */
  method TransferMoney(db: Store, fromCustomerId: CustomerId, toCustomerId: CustomerId, amount: real,
                       currency: Currency, now: Stamp)
    returns (status: Status, withdrawal: Option<TxId>, deposit: Option<TxId>)
    requires db.Valid() && now.WellFormed()
    modifies db
    ensures db.Valid()
    ensures db.rates == old(db.rates) && db.nextCustomerId == old(db.nextCustomerId)
    ensures fromCustomerId !in old(db.customers) || toCustomerId !in old(db.customers) ==>
      status == CustomerNotFound && withdrawal == None && deposit == None && unchanged(db)
    ensures fromCustomerId in old(db.customers) && toCustomerId in old(db.customers)
            && old(db.customers)[fromCustomerId].safes.Balance(currency) < amount ==>
      status == InsufficientFunds && withdrawal == None && deposit == None && unchanged(db)
    ensures fromCustomerId in old(db.customers) && toCustomerId in old(db.customers)
            && old(db.customers)[fromCustomerId].safes.Balance(currency) >= amount ==>
      var sender, receiver, n := old(db.customers)[fromCustomerId], old(db.customers)[toCustomerId], old(db.nextTxId);
      && status == Ok && withdrawal == Some(n) && deposit == Some(n + 1)
      && db.customers == old(db.customers)
           [fromCustomerId := sender.(safes := sender.safes.Debit(currency, amount))]
           [toCustomerId := receiver.(safes := receiver.safes.Credit(currency, amount))]
      && db.transactions == old(db.transactions)
           [n := TxRecord(fromCustomerId, Withdraw, amount, currency, None, None, now)]
           [n + 1 := TxRecord(toCustomerId, Deposit, amount, currency, None, None, now)]
      && db.nextTxId == n + 2
    ensures status == Ok && fromCustomerId != toCustomerId ==>
      && db.customers[fromCustomerId].safes.Balance(currency) + db.customers[toCustomerId].safes.Balance(currency)
         == old(db.customers)[fromCustomerId].safes.Balance(currency) + old(db.customers)[toCustomerId].safes.Balance(currency)
      && db.customers[fromCustomerId].safes.Balance(Other(currency)) == old(db.customers)[fromCustomerId].safes.Balance(Other(currency))
      && db.customers[toCustomerId].safes.Balance(Other(currency)) == old(db.customers)[toCustomerId].safes.Balance(Other(currency))
    ensures status == Ok && fromCustomerId == toCustomerId ==>
      db.customers[toCustomerId].safes.Balance(currency) == old(db.customers)[toCustomerId].safes.Balance(currency) + amount
  {
    if fromCustomerId !in db.customers || toCustomerId !in db.customers {
      return CustomerNotFound, None, None;
    }
    var fromCustomer := db.customers[fromCustomerId];
    var toCustomer := db.customers[toCustomerId];
    if fromCustomer.safes.Balance(currency) < amount {
      return InsufficientFunds, None, None;
    }

    fromCustomer := fromCustomer.(safes := fromCustomer.safes.Debit(currency, amount));
    db.SaveCustomer(fromCustomerId, fromCustomer);
    var w := db.CreateRecord(TxRecord(fromCustomerId, Withdraw, amount, currency, None, None, now));

    toCustomer := toCustomer.(safes := toCustomer.safes.Credit(currency, amount));
    db.SaveCustomer(toCustomerId, toCustomer);
    var d := db.CreateRecord(TxRecord(toCustomerId, Deposit, amount, currency, None, None, now));

    status, withdrawal, deposit := Ok, Some(w), Some(d);
    TransferBalances(old(db.customers), fromCustomerId, toCustomerId, amount, currency);
  }

  /**
   * The balances after a transfer's two saves, the receiver saved as loaded
   * before the sender's save: between two customers the moved amount is
   * conserved, and a self-transfer only credits.
   */
  lemma TransferBalances(customers: map<CustomerId, Customer>, fromCustomerId: CustomerId, toCustomerId: CustomerId,
                         amount: real, currency: Currency)
    requires fromCustomerId in customers && toCustomerId in customers
    ensures
      var sender, receiver := customers[fromCustomerId], customers[toCustomerId];
      var after := customers[fromCustomerId := sender.(safes := sender.safes.Debit(currency, amount))]
                            [toCustomerId := receiver.(safes := receiver.safes.Credit(currency, amount))];
      && (fromCustomerId != toCustomerId ==>
            && after[fromCustomerId].safes.Balance(currency) + after[toCustomerId].safes.Balance(currency)
               == sender.safes.Balance(currency) + receiver.safes.Balance(currency)
            && after[fromCustomerId].safes.Balance(Other(currency)) == sender.safes.Balance(Other(currency))
            && after[toCustomerId].safes.Balance(Other(currency)) == receiver.safes.Balance(Other(currency)))
      && (fromCustomerId == toCustomerId ==>
            after[toCustomerId].safes.Balance(currency) == receiver.safes.Balance(currency) + amount)
  {
  }
}
