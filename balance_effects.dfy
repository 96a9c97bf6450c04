/**
 * The balance arithmetic of the transaction controller, as pure functions on
 * a customer's safes. The three handlers spell the same debit/credit pattern
 * out several times with three different conversion formulas; here the
 * pattern is `Apply` and `Undo`, and `Formula` says which conversion a step
 * uses.
 */
module BalanceEffects {
  import opened Wrappers
  import opened Domain
  import opened Models

  /** The fields of a transaction that move balances, from a stored record or a request body. */
  datatype Entry = Entry(kind: TxType, amount: real, from: Currency, to: Option<Currency>)

  function EntryOf(t: TxRecord): Entry {
    Entry(t.kind, t.amount, t.fromCurrency, t.toCurrency)
  }

  /** The rate an exchange out of `from` is converted with. */
  function RateFor(r: Rate, from: Currency): real {
    if from == Dinar then r.dinarToDollar else r.dollarToDinar
  }

  /** The three places the controller converts an exchanged amount. */
  datatype Formula =
    | AtCreate    // createTransaction: dinar divided by dinarToDollar, dollar multiplied by dollarToDinar
    | AtReversal  // updateTransaction's reversal and rollback: dinar multiplied, dollar divided
    | AtUpdate    // updateTransaction's re-application: multiplied in both directions

  /** Neither rate of the loaded record is zero. */
  predicate NonZero(rate: Option<Rate>) {
    rate.Some? ==> rate.value.dinarToDollar != 0.0 && rate.value.dollarToDinar != 0.0
  }

  /**
   * Only an exchange reads the rate record, so only an exchange needs its
   * divisions to be defined; a deposit or withdrawal goes through whatever
   * rates are stored.
   */
  predicate Divisible(e: Entry, rate: Option<Rate>) {
    e.kind == Exchange ==> NonZero(rate)
  }

  /**
   * The amount an exchange of `amount` out of `from` moves into the other
   * safe. A quotient is stated by the product it inverts.
   */
  function Convert(f: Formula, amount: real, from: Currency, r: Rate): (x: real)
    requires NonZero(Some(r))
    ensures f == AtCreate && from == Dinar ==> x * r.dinarToDollar == amount
    ensures f == AtCreate && from == Dollar ==> x == amount * r.dollarToDinar
    ensures f == AtReversal && from == Dinar ==> x == amount * r.dinarToDollar
    ensures f == AtReversal && from == Dollar ==> x * r.dollarToDinar == amount
    ensures f == AtUpdate && from == Dinar ==> x == amount * r.dinarToDollar
    ensures f == AtUpdate && from == Dollar ==> x == amount * r.dollarToDinar
  {
    match f
    case AtCreate => if from == Dinar then amount / r.dinarToDollar else amount * r.dollarToDinar
    case AtReversal => if from == Dinar then amount * r.dinarToDollar else amount / r.dollarToDinar
    case AtUpdate => amount * RateFor(r, from)
  }

  /**
   * The handler can compute the effect of `e` without a TypeError: an
   * exchange names a target currency and a rate record was loaded.
   */
  predicate Convertible(e: Entry, rate: Option<Rate>) {
    e.kind == Exchange ==> e.to.Some? && rate.Some?
  }

  /** What an exchange credits under formula `f`; deposits and withdrawals convert nothing. */
  function Converted(f: Formula, e: Entry, rate: Option<Rate>): real
    requires Convertible(e, rate) && Divisible(e, rate)
  {
    if e.kind == Exchange then Convert(f, e.amount, e.from, rate.value) else 0.0
  }

  /** How much of `x` lands on the safe of currency `c` when `c` is `target`. */
  function On(c: Currency, target: Currency, x: real): real {
    if c == target then x else 0.0
  }

  /**
   * The effect of `e` on `s`, an exchange crediting `converted`: a deposit
   * adds the amount to its currency, a withdrawal and an exchange take it
   * away (with no funds check), and an exchange adds `converted` to its
   * target currency. Tags never change.
   */
  function Apply(s: Safes, e: Entry, converted: real): (r: Safes)
    requires e.kind == Exchange ==> e.to.Some?
    ensures r.dinar.currency == s.dinar.currency && r.dollar.currency == s.dollar.currency
    ensures e.kind == Deposit ==>
      forall c :: r.Balance(c) == s.Balance(c) + On(c, e.from, e.amount)
    ensures e.kind == Withdraw ==>
      forall c :: r.Balance(c) == s.Balance(c) - On(c, e.from, e.amount)
    ensures e.kind == Exchange ==>
      forall c :: r.Balance(c) == s.Balance(c) - On(c, e.from, e.amount) + On(c, e.to.value, converted)
  {
    match e.kind
    case Deposit => s.Credit(e.from, e.amount)
    case Withdraw => s.Debit(e.from, e.amount)
    case Exchange => s.Debit(e.from, e.amount).Credit(e.to.value, converted)
  }

  /** The opposite movement of `Apply`, an exchange taking `converted` back from its target. */
  function Undo(s: Safes, e: Entry, converted: real): (r: Safes)
    requires e.kind == Exchange ==> e.to.Some?
    ensures r.dinar.currency == s.dinar.currency && r.dollar.currency == s.dollar.currency
    ensures e.kind == Deposit ==>
      forall c :: r.Balance(c) == s.Balance(c) - On(c, e.from, e.amount)
    ensures e.kind == Withdraw ==>
      forall c :: r.Balance(c) == s.Balance(c) + On(c, e.from, e.amount)
    ensures e.kind == Exchange ==>
      forall c :: r.Balance(c) == s.Balance(c) + On(c, e.from, e.amount) - On(c, e.to.value, converted)
  {
    match e.kind
    case Deposit => s.Debit(e.from, e.amount)
    case Withdraw => s.Credit(e.from, e.amount)
    case Exchange => s.Credit(e.from, e.amount).Debit(e.to.value, converted)
  }

  /**
   * createTransaction's effect: a deposit credits and a withdrawal debits
   * `fromCurrency`, leaving the other currency; an exchange into the other
   * currency debits the amount and credits amount / dinarToDollar dollars
   * for dinar, amount * dollarToDinar dinars for dollar.
   */
  function CreateEffect(s: Safes, e: Entry, rate: Option<Rate>): (r: Safes)
    requires Convertible(e, rate) && Divisible(e, rate)
    ensures r.dinar.currency == s.dinar.currency && r.dollar.currency == s.dollar.currency
    ensures e.kind == Deposit ==>
      r.Balance(e.from) == s.Balance(e.from) + e.amount && r.Balance(Other(e.from)) == s.Balance(Other(e.from))
    ensures e.kind == Withdraw ==>
      r.Balance(e.from) == s.Balance(e.from) - e.amount && r.Balance(Other(e.from)) == s.Balance(Other(e.from))
    ensures e.kind == Exchange && e.to == Some(Other(e.from)) ==>
      && r.Balance(e.from) == s.Balance(e.from) - e.amount
      && (e.from == Dinar ==> (r.Balance(Dollar) - s.Balance(Dollar)) * rate.value.dinarToDollar == e.amount)
      && (e.from == Dollar ==> r.Balance(Dinar) - s.Balance(Dinar) == e.amount * rate.value.dollarToDinar)
  {
    Apply(s, e, Converted(AtCreate, e, rate))
  }

  /**
   * updateTransaction's reversal of the stored transaction: a deposit is
   * debited and a withdrawal credited back; an exchange into the other
   * currency gets its amount back and loses amount * dinarToDollar dollars
   * for dinar, amount / dollarToDinar dinars for dollar.
   */
  function ReverseEffect(s: Safes, e: Entry, rate: Option<Rate>): (r: Safes)
    requires Convertible(e, rate) && Divisible(e, rate)
    ensures r.dinar.currency == s.dinar.currency && r.dollar.currency == s.dollar.currency
    ensures e.kind == Deposit ==>
      r.Balance(e.from) == s.Balance(e.from) - e.amount && r.Balance(Other(e.from)) == s.Balance(Other(e.from))
    ensures e.kind == Withdraw ==>
      r.Balance(e.from) == s.Balance(e.from) + e.amount && r.Balance(Other(e.from)) == s.Balance(Other(e.from))
    ensures e.kind == Exchange && e.to == Some(Other(e.from)) ==>
      && r.Balance(e.from) == s.Balance(e.from) + e.amount
      && (e.from == Dinar ==> s.Balance(Dollar) - r.Balance(Dollar) == e.amount * rate.value.dinarToDollar)
      && (e.from == Dollar ==> (s.Balance(Dinar) - r.Balance(Dinar)) * rate.value.dollarToDinar == e.amount)
  {
    Undo(s, e, Converted(AtReversal, e, rate))
  }

  /**
   * updateTransaction's rollback, the stored transaction applied again with
   * the reversal's conversion: an exchange into the other currency is
   * debited its amount and credited amount * dinarToDollar dollars for
   * dinar, amount / dollarToDinar dinars for dollar.
   */
  function RestoreEffect(s: Safes, e: Entry, rate: Option<Rate>): (r: Safes)
    requires Convertible(e, rate) && Divisible(e, rate)
    ensures r.dinar.currency == s.dinar.currency && r.dollar.currency == s.dollar.currency
    ensures e.kind == Deposit ==>
      r.Balance(e.from) == s.Balance(e.from) + e.amount && r.Balance(Other(e.from)) == s.Balance(Other(e.from))
    ensures e.kind == Withdraw ==>
      r.Balance(e.from) == s.Balance(e.from) - e.amount && r.Balance(Other(e.from)) == s.Balance(Other(e.from))
    ensures e.kind == Exchange && e.to == Some(Other(e.from)) ==>
      && r.Balance(e.from) == s.Balance(e.from) - e.amount
      && (e.from == Dinar ==> r.Balance(Dollar) - s.Balance(Dollar) == e.amount * rate.value.dinarToDollar)
      && (e.from == Dollar ==> (r.Balance(Dinar) - s.Balance(Dinar)) * rate.value.dollarToDinar == e.amount)
  {
    Apply(s, e, Converted(AtReversal, e, rate))
  }

  /**
   * updateTransaction's application of the edited transaction: an exchange
   * into the other currency is debited its amount and credited
   * amount * dinarToDollar dollars for dinar, amount * dollarToDinar dinars
   * for dollar.
   */
  function UpdateEffect(s: Safes, e: Entry, rate: Option<Rate>): (r: Safes)
    requires Convertible(e, rate) && Divisible(e, rate)
    ensures r.dinar.currency == s.dinar.currency && r.dollar.currency == s.dollar.currency
    ensures e.kind == Deposit ==>
      r.Balance(e.from) == s.Balance(e.from) + e.amount && r.Balance(Other(e.from)) == s.Balance(Other(e.from))
    ensures e.kind == Withdraw ==>
      r.Balance(e.from) == s.Balance(e.from) - e.amount && r.Balance(Other(e.from)) == s.Balance(Other(e.from))
    ensures e.kind == Exchange && e.to == Some(Other(e.from)) ==>
      && r.Balance(e.from) == s.Balance(e.from) - e.amount
      && (e.from == Dinar ==> r.Balance(Dollar) - s.Balance(Dollar) == e.amount * rate.value.dinarToDollar)
      && (e.from == Dollar ==> r.Balance(Dinar) - s.Balance(Dinar) == e.amount * rate.value.dollarToDinar)
  {
    Apply(s, e, Converted(AtUpdate, e, rate))
  }

  /** The funds check of updateTransaction: a withdrawal or exchange larger than the balance. */
  predicate Insufficient(s: Safes, e: Entry) {
    (e.kind == Withdraw || e.kind == Exchange) && s.Balance(e.from) < e.amount
  }

  // ---------------------------------------------------------------------------
  // Round trips

  /** Two safes are equal exactly when their tags and their balances are. */
  lemma SafesEquality(s: Safes, t: Safes)
    requires s.dinar.currency == t.dinar.currency && s.dollar.currency == t.dollar.currency
    ensures s == t <==> s.Balance(Dinar) == t.Balance(Dinar) && s.Balance(Dollar) == t.Balance(Dollar)
  {
  }

  /**
   * Undoing an applied effect restores the safes exactly when the undo takes
   * back what the apply credited: always for a deposit or a withdrawal, and
   * for an exchange only if the two converted amounts agree.
   */
  lemma UndoAfterApply(s: Safes, e: Entry, credited: real, takenBack: real)
    requires e.kind == Exchange ==> e.to.Some?
    ensures Undo(Apply(s, e, credited), e, takenBack) == s <==> e.kind != Exchange || credited == takenBack
  {
    var r := Undo(Apply(s, e, credited), e, takenBack);
    SafesEquality(r, s);
    if e.kind == Exchange {
      var to := e.to.value;
      assert r.Balance(to) == s.Balance(to) + credited - takenBack;
    }
  }

  /** Applying after undoing restores the safes exactly when both use the same converted amount. */
  lemma ApplyAfterUndo(s: Safes, e: Entry, takenBack: real, credited: real)
    requires e.kind == Exchange ==> e.to.Some?
    ensures Apply(Undo(s, e, takenBack), e, credited) == s <==> e.kind != Exchange || credited == takenBack
  {
    var r := Apply(Undo(s, e, takenBack), e, credited);
    SafesEquality(r, s);
    if e.kind == Exchange {
      var to := e.to.value;
      assert r.Balance(to) == s.Balance(to) - takenBack + credited;
    }
  }

  /** A product is zero only when one of its factors is. */
  lemma ZeroProduct(x: real, y: real)
    requires x * y == 0.0
    ensures x == 0.0 || y == 0.0
  {
  }

  /** Dividing by `k` and multiplying by `k` agree only on zero or when `k` squared is one. */
  lemma DivEqualsMul(a: real, k: real)
    requires k != 0.0
    ensures a / k == a * k <==> a == 0.0 || k * k == 1.0
  {
    var q := a / k;
    assert a == q * k;
    assert a * k == q * (k * k);
    if a / k == a * k {
      assert q * (1.0 - k * k) == 0.0;
      ZeroProduct(q, 1.0 - k * k);
    }
    if k * k == 1.0 {
      assert q * (k * k) == q;
    }
  }

  /**
   * The creation formula and the reversal formula agree exactly when the
   * amount is zero or the rate in use squares to one.
   */
  lemma CreateAndReversalAgree(amount: real, from: Currency, r: Rate)
    requires NonZero(Some(r))
    ensures Convert(AtCreate, amount, from, r) == Convert(AtReversal, amount, from, r)
        <==> amount == 0.0 || RateFor(r, from) * RateFor(r, from) == 1.0
  {
    var k := RateFor(r, from);
    DivEqualsMul(amount, k);
    assert amount * k == k * amount;
  }

  /**
   * Reversing a created transaction restores the balances for every deposit
   * and withdrawal, but an exchange only when its amount is zero or its rate
   * squares to one: the reversal does not use the conversion of creation.
   */
  lemma ReversalUndoesCreation(s: Safes, e: Entry, rate: Option<Rate>)
    requires Convertible(e, rate) && Divisible(e, rate)
    ensures ReverseEffect(CreateEffect(s, e, rate), e, rate) == s
        <==> e.kind != Exchange || e.amount == 0.0 || RateFor(rate.value, e.from) * RateFor(rate.value, e.from) == 1.0
  {
    UndoAfterApply(s, e, Converted(AtCreate, e, rate), Converted(AtReversal, e, rate));
    if e.kind == Exchange {
      ExchangeCreditsAgree(e, rate);
    }
  }

  lemma ExchangeCreditsAgree(e: Entry, rate: Option<Rate>)
    requires Convertible(e, rate) && NonZero(rate) && e.kind == Exchange
    ensures Converted(AtCreate, e, rate) == Converted(AtReversal, e, rate)
        <==> e.amount == 0.0 || RateFor(rate.value, e.from) * RateFor(rate.value, e.from) == 1.0
  {
    CreateAndReversalAgree(e.amount, e.from, rate.value);
  }

  /** The rollback of updateTransaction restores the balances the reversal started from. */
  lemma RollbackUndoesReversal(s: Safes, e: Entry, rate: Option<Rate>)
    requires Convertible(e, rate) && Divisible(e, rate)
    ensures RestoreEffect(ReverseEffect(s, e, rate), e, rate) == s
  {
    ApplyAfterUndo(s, e, Converted(AtReversal, e, rate), Converted(AtReversal, e, rate));
  }

  /**
   * The reversal formula and the re-application formula agree for every
   * dinar amount, and for a dollar amount only when it is zero or
   * dollarToDinar squares to one.
   */
  lemma ReversalAndUpdateAgree(amount: real, from: Currency, r: Rate)
    requires NonZero(Some(r))
    ensures Convert(AtReversal, amount, from, r) == Convert(AtUpdate, amount, from, r)
        <==> from == Dinar || amount == 0.0 || r.dollarToDinar * r.dollarToDinar == 1.0
  {
    if from == Dollar {
      DivEqualsMul(amount, r.dollarToDinar);
    }
  }

  /**
   * Editing a transaction into itself leaves the balances as they were
   * exactly when it is no exchange, a dinar exchange (both formulas multiply),
   * or a dollar exchange whose amount is zero or whose rate squares to one.
   */
  lemma ResubmitLeavesBalances(s: Safes, e: Entry, rate: Option<Rate>)
    requires Convertible(e, rate) && Divisible(e, rate)
    ensures UpdateEffect(ReverseEffect(s, e, rate), e, rate) == s
        <==> e.kind != Exchange || e.from == Dinar || e.amount == 0.0
             || rate.value.dollarToDinar * rate.value.dollarToDinar == 1.0
  {
    ApplyAfterUndo(s, e, Converted(AtReversal, e, rate), Converted(AtUpdate, e, rate));
    if e.kind == Exchange {
      ReversalAndUpdateAgree(e.amount, e.from, rate.value);
    }
  }

  /**
   * The creation rates are not two views of one price: even when they are
   * reciprocal, converting dinar to dollar and the result back to dinar
   * multiplies the amount by dollarToDinar squared.
   */
  lemma CreationIsNotReciprocal(x: real, r: Rate)
    requires NonZero(Some(r)) && r.dinarToDollar * r.dollarToDinar == 1.0
    ensures Convert(AtCreate, Convert(AtCreate, x, Dinar, r), Dollar, r) == x * r.dollarToDinar * r.dollarToDinar
  {
    var y := x / r.dinarToDollar;
    assert y * r.dinarToDollar == x;
    assert y == y * (r.dinarToDollar * r.dollarToDinar);
    assert x * r.dollarToDinar == y;
  }

  /**
   * A worked edit at the default rates: 1000 dinar, a 500-dinar deposit, a
   * 300-dinar exchange (credited as 300 / 0.33 dollar), then the exchange
   * edited into a 100-dinar withdrawal. The reversal takes back only
   * 300 * 0.33 = 99 dollar.
   */
  lemma EditScenario()
    ensures var s0 := Safes(Safe(Dinar, 1000.0), Safe(Dollar, 0.0));
      var s1 := CreateEffect(s0, Entry(Deposit, 500.0, Dinar, None), Some(DefaultRate));
      var x := Entry(Exchange, 300.0, Dinar, Some(Dollar));
      var s2 := CreateEffect(s1, x, Some(DefaultRate));
      var s3 := ReverseEffect(s2, x, Some(DefaultRate));
      var w := Entry(Withdraw, 100.0, Dinar, None);
      && s2 == Safes(Safe(Dinar, 1200.0), Safe(Dollar, 10000.0 / 11.0))
      && s3 == Safes(Safe(Dinar, 1500.0), Safe(Dollar, 10000.0 / 11.0 - 99.0))
      && !Insufficient(s3, w)
      && UpdateEffect(s3, w, Some(DefaultRate)) == Safes(Safe(Dinar, 1400.0), Safe(Dollar, 10000.0 / 11.0 - 99.0))
  {
  }
}
