/**
 * The three GET handlers of the analysis router, each of which builds a
 * MongoDB filter object from its query string before a `find`.
 */
module AnalysisRoutes {
  import opened Wrappers
  import opened Domain
  import opened Models
  import opened Text

  /** A date query parameter: its text, and the instant `new Date(text)` gives. */
  datatype DateArg = DateArg(text: string, instant: int)

  datatype Query = Query(
    startDate: Option<DateArg>,
    endDate: Option<DateArg>,
    currency: Option<string>,
    searchTerm: Option<string>,
    filterType: Option<string>)

  /** `filters.date`: `$gte` and `$lte`, each optional. */
  datatype DateBounds = DateBounds(gte: Option<int>, lte: Option<int>)

  /** The filter object; `search` stands for the `$or` of the two case-insensitive regexes. */
  datatype Filters = Filters(
    date: Option<DateBounds>,
    fromCurrency: Option<string>,
    search: Option<string>,
    kind: Option<string>)

  /** A query string value JavaScript treats as true: present and not empty. */
  predicate Given(s: Option<string>) {
    s.Some? && s.value != ""
  }

  predicate GivenDate(d: Option<DateArg>) {
    d.Some? && d.value.text != ""
  }

  /** Whether a stored transaction satisfies the date, currency and type parts of a filter. */
  predicate Selects(f: Filters, t: TxRecord) {
    && (f.date.Some? && f.date.value.gte.Some? ==> f.date.value.gte.value <= t.date.instant)
    && (f.date.Some? && f.date.value.lte.Some? ==> t.date.instant <= f.date.value.lte.value)
    && (f.fromCurrency.Some? ==> CurrencyName(t.fromCurrency) == f.fromCurrency.value)
    && (f.kind.Some? ==> TypeName(t.kind) == f.kind.value)
  }

  /** The date range the handlers ask for, inclusive at any bound given. */
  predicate Within(start: Option<DateArg>, end: Option<DateArg>, t: TxRecord) {
    && (GivenDate(start) ==> start.value.instant <= t.date.instant)
    && (GivenDate(end) ==> t.date.instant <= end.value.instant)
  }

  /** The date block the three handlers share. */
  method DateFilter(start: Option<DateArg>, end: Option<DateArg>) returns (date: Option<DateBounds>)
    ensures date.Some? <==> GivenDate(start) || GivenDate(end)
    ensures date.Some? ==> (date.value.gte.Some? <==> GivenDate(start)) && (date.value.lte.Some? <==> GivenDate(end))
    ensures date.Some? && GivenDate(start) ==> date.value.gte.value == start.value.instant
    ensures date.Some? && GivenDate(end) ==> date.value.lte.value == end.value.instant
  {
    date := None;
    if GivenDate(start) || GivenDate(end) {
      var bounds := DateBounds(None, None);
      if GivenDate(start) {
        bounds := bounds.(gte := Some(start.value.instant));
      }
      if GivenDate(end) {
        bounds := bounds.(lte := Some(end.value.instant));
      }
      date := Some(bounds);
    }
  }

  lemma DateFilterMeans(date: Option<DateBounds>, f: Filters, start: Option<DateArg>, end: Option<DateArg>, t: TxRecord)
    requires date.Some? <==> GivenDate(start) || GivenDate(end)
    requires date.Some? ==> (date.value.gte.Some? <==> GivenDate(start)) && (date.value.lte.Some? <==> GivenDate(end))
    requires date.Some? && GivenDate(start) ==> date.value.gte.value == start.value.instant
    requires date.Some? && GivenDate(end) ==> date.value.lte.value == end.value.instant
    requires f.date == date
    ensures Selects(f, t) <==> Within(start, end, t) && Selects(f.(date := None), t)
  {
  }

  /** A currency filter is set unless the parameter is absent, empty or 'both'. */
  predicate FiltersCurrency(currency: Option<string>) {
    Given(currency) && currency.value != "both"
  }

  /** GET /analysis/chart. */
  method ChartFilters(q: Query) returns (f: Filters)
    ensures f.date.Some? <==> GivenDate(q.startDate) || GivenDate(q.endDate)
    ensures f.fromCurrency.Some? <==> FiltersCurrency(q.currency)
    ensures f.fromCurrency.Some? ==> f.fromCurrency.value == (if q.currency.value == "IQD" then "dinar" else "dollar")
    ensures f.search.Some? <==> Given(q.searchTerm)
    ensures f.search.Some? ==> f.search == q.searchTerm
    ensures f.kind.Some? <==> Given(q.filterType) && q.filterType.value != "all"
    ensures f.kind.Some? ==> f.kind == q.filterType
    ensures forall t :: Selects(f, t) <==>
      && Within(q.startDate, q.endDate, t)
      && (FiltersCurrency(q.currency) ==> t.fromCurrency == (if q.currency.value == "IQD" then Dinar else Dollar))
      && (Given(q.filterType) && q.filterType.value != "all" ==> TypeName(t.kind) == q.filterType.value)
  {
    var date := DateFilter(q.startDate, q.endDate);
    f := Filters(date, None, None, None);
    if FiltersCurrency(q.currency) {
      f := f.(fromCurrency := Some(if q.currency.value == "IQD" then "dinar" else "dollar"));
    }
    if Given(q.searchTerm) {
      f := f.(search := q.searchTerm);
    }
    if Given(q.filterType) && q.filterType.value != "all" {
      f := f.(kind := q.filterType);
    }
    forall t ensures Selects(f, t) <==> Within(q.startDate, q.endDate, t) && Selects(f.(date := None), t) {
      DateFilterMeans(date, f, q.startDate, q.endDate, t);
    }
  }

  /** GET /analysis/chart-data: no search or type; the currency code is compared case-insensitively. */
  method ChartDataFilters(q: Query) returns (f: Filters)
    ensures f.date.Some? <==> GivenDate(q.startDate) || GivenDate(q.endDate)
    ensures f.fromCurrency.Some? <==> FiltersCurrency(q.currency)
    ensures f.fromCurrency.Some? ==> f.fromCurrency.value == (if Lower(q.currency.value) == "iqd" then "dinar" else "dollar")
    ensures f.search.None? && f.kind.None?
    ensures forall t :: Selects(f, t) <==>
      && Within(q.startDate, q.endDate, t)
      && (FiltersCurrency(q.currency) ==> t.fromCurrency == (if Lower(q.currency.value) == "iqd" then Dinar else Dollar))
  {
    var date := DateFilter(q.startDate, q.endDate);
    f := Filters(date, None, None, None);
    if FiltersCurrency(q.currency) {
      f := f.(fromCurrency := Some(if Lower(q.currency.value) == "iqd" then "dinar" else "dollar"));
    }
    forall t ensures Selects(f, t) <==> Within(q.startDate, q.endDate, t) && Selects(f.(date := None), t) {
      DateFilterMeans(date, f, q.startDate, q.endDate, t);
    }
  }

  /** GET /analysis/: the currency parameter is stored lower-cased, without mapping. */
  method ListFilters(q: Query) returns (f: Filters)
    ensures f.date.Some? <==> GivenDate(q.startDate) || GivenDate(q.endDate)
    ensures f.fromCurrency.Some? <==> FiltersCurrency(q.currency)
    ensures f.fromCurrency.Some? ==> f.fromCurrency.value == Lower(q.currency.value)
    ensures f.search.None? && f.kind.None?
    ensures forall t :: Selects(f, t) <==>
      && Within(q.startDate, q.endDate, t)
      && (FiltersCurrency(q.currency) ==> CurrencyName(t.fromCurrency) == Lower(q.currency.value))
  {
    var date := DateFilter(q.startDate, q.endDate);
    f := Filters(date, None, None, None);
    if FiltersCurrency(q.currency) {
      f := f.(fromCurrency := Some(Lower(q.currency.value)));
    }
    forall t ensures Selects(f, t) <==> Within(q.startDate, q.endDate, t) && Selects(f.(date := None), t) {
      DateFilterMeans(date, f, q.startDate, q.endDate, t);
    }
  }

  /** 'iqd' is already lower case and differs from 'IQD', which lower-cases to it. */
  lemma IqdCodes()
    ensures Lower("iqd") == "iqd"
    ensures (if "iqd" == "IQD" then "dinar" else "dollar") == "dollar"
    ensures (if Lower("IQD") == "iqd" then "dinar" else "dollar") == "dinar"
  {
    assert Lower("IQD") == [LowerChar('I')] + Lower("QD");
    assert Lower("QD") == [LowerChar('Q')] + Lower("D");
    assert Lower("D") == [LowerChar('D')] + Lower("");
    assert Lower("iqd") == [LowerChar('i')] + Lower("qd");
    assert Lower("qd") == [LowerChar('q')] + Lower("d");
    assert Lower("d") == [LowerChar('d')] + Lower("");
  }

  /**
   * The chart route maps only the exact 'IQD' to dinar, the chart-data route
   * also 'iqd': for the same query `?currency=iqd` the first selects dollar
   * transactions only and the second dinar transactions only.
   */
  lemma RoutesDisagreeOnLowerCase(q: Query, chart: Filters, chartData: Filters, t: TxRecord)
    requires q.currency == Some("iqd")
    requires chart.fromCurrency.Some? <==> FiltersCurrency(q.currency)
    requires chart.fromCurrency.Some? ==> chart.fromCurrency.value == (if q.currency.value == "IQD" then "dinar" else "dollar")
    requires chartData.fromCurrency.Some? <==> FiltersCurrency(q.currency)
    requires chartData.fromCurrency.Some? ==> chartData.fromCurrency.value == (if Lower(q.currency.value) == "iqd" then "dinar" else "dollar")
    ensures chart.fromCurrency == Some("dollar") && chartData.fromCurrency == Some("dinar")
    ensures Selects(chart, t) ==> t.fromCurrency == Dollar
    ensures Selects(chartData, t) ==> t.fromCurrency == Dinar
  {
    IqdCodes();
  }

  /** The list route with a three-letter code such as IQD or USD selects no stored transaction. */
  lemma ListWithCodeSelectsNothing(q: Query, f: Filters, t: TxRecord)
    requires q.currency == Some("IQD") || q.currency == Some("USD")
    requires forall u :: Selects(f, u) <==>
      && Within(q.startDate, q.endDate, u)
      && (FiltersCurrency(q.currency) ==> CurrencyName(u.fromCurrency) == Lower(q.currency.value))
    ensures !Selects(f, t)
  {
    assert |Lower(q.currency.value)| == 3;
  }
}
