/**
 * Values shared by the backend and the frontend: the two currencies of a
 * customer's safes and the abstraction of a JavaScript `Date`.
 */
module Domain {

  /** The two supported currencies, stored as the strings 'dinar' and 'dollar'. */
  datatype Currency = Dinar | Dollar

  /** The currency that is not `c`. */
  function Other(c: Currency): (o: Currency)
    ensures o != c
  {
    if c == Dinar then Dollar else Dinar
  }

  /** The string a currency is stored as. */
  function CurrencyName(c: Currency): string {
    if c == Dinar then "dinar" else "dollar"
  }

  /**
   * A point in time: its instant (what `Date` comparisons compare), its UTC
   * calendar day (the `YYYY-MM-DD` key of `toISOString()`), and its month as
   * MongoDB's `$month` yields it. The calendar arithmetic that links the three
   * is not modelled.
   */
  datatype Stamp = Stamp(instant: int, day: int, month: int) {
    predicate WellFormed() {
      1 <= month <= 12
    }
  }
}
