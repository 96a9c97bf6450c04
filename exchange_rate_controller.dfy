/**
 * The exchange-rate controller: the rate record is a singleton that is
 * created on first read and overwritten in place by an update.
 */
module ExchangeRateController {
  import opened Wrappers
  import opened Models

  /**
   * GET /exchange-rate. Returns the first stored record, creating the default
   * record (0.33 dinar to dollar, 3.0 dollar to dinar) when there is none.
   */
  method GetExchangeRate(db: Store) returns (rate: Rate)
    modifies db
    ensures |old(db.rates)| == 0 ==> rate == DefaultRate && db.rates == [DefaultRate]
    ensures |old(db.rates)| > 0 ==> rate == old(db.rates)[0] && db.rates == old(db.rates)
    ensures db.FindRate() == Some(rate)
    ensures |old(db.rates)| <= 1 ==> |db.rates| == 1
    ensures db.customers == old(db.customers) && db.transactions == old(db.transactions)
    ensures db.nextCustomerId == old(db.nextCustomerId) && db.nextTxId == old(db.nextTxId)
  {
    var found := db.FindRate();
    if found.None? {
      db.rates := db.rates + [DefaultRate];
      rate := DefaultRate;
    } else {
      rate := found.value;
    }
  }

  /**
   * PUT /exchange-rate. Creates the record with the two given rates, or
   * overwrites both fields of the first stored record; other records stay.
   */
  method UpdateExchangeRate(db: Store, dinarToDollar: real, dollarToDinar: real) returns (rate: Rate)
    modifies db
    ensures rate == Rate(dinarToDollar, dollarToDinar)
    ensures db.FindRate() == Some(rate)
    ensures |db.rates| == (if |old(db.rates)| == 0 then 1 else |old(db.rates)|)
    ensures |old(db.rates)| > 0 ==> db.rates[1..] == old(db.rates)[1..]
    ensures db.customers == old(db.customers) && db.transactions == old(db.transactions)
    ensures db.nextCustomerId == old(db.nextCustomerId) && db.nextTxId == old(db.nextTxId)
  {
    var found := db.FindRate();
    if found.None? {
      rate := Rate(dinarToDollar, dollarToDinar);
      db.rates := db.rates + [rate];
    } else {
      rate := found.value.(dinarToDollar := dinarToDollar, dollarToDinar := dollarToDinar);
      db.rates := db.rates[0 := rate];
    }
  }

  /**
   * Two reads in a row return the same record, and the second creates
   * nothing: the first read leaves exactly the record the second finds.
   */
  method GetExchangeRateTwice(db: Store) returns (first: Rate, second: Rate)
    modifies db
    ensures first == second
    ensures |old(db.rates)| == 0 ==> db.rates == [DefaultRate]
    ensures |old(db.rates)| > 0 ==> db.rates == old(db.rates)
  {
    first := GetExchangeRate(db);
    ghost var between := db.rates;
    second := GetExchangeRate(db);
    assert db.rates == between;
  }
}
