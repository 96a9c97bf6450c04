/**
 * The front end's view of the data, as fetched by the application context:
 * customers with string ids, and transactions whose type may also be
 * 'transfer'.
 */
module Client {
  import opened Wrappers
  import opened Domain

  datatype Kind = Deposit | Withdraw | Exchange | Transfer

  /** The `type` string of a client transaction. */
  function KindName(k: Kind): string {
    match k
    case Deposit => "deposit"
    case Withdraw => "withdraw"
    case Exchange => "exchange"
    case Transfer => "transfer"
  }

  datatype ClientCustomer = ClientCustomer(id: string, name: string)

  datatype ClientTx = ClientTx(
    id: string,
    customerId: string,
    kind: Kind,
    amount: real,
    fromCurrency: Currency,
    toCurrency: Option<Currency>,
    date: Stamp,
    note: Option<string>)

  predicate FirstWithId(customers: seq<ClientCustomer>, id: string, i: int) {
    0 <= i < |customers| && customers[i].id == id && forall j :: 0 <= j < i ==> customers[j].id != id
  }

  /** `customers.find(c => c.id === id)`: the first customer with that id. */
  function FindCustomer(customers: seq<ClientCustomer>, id: string): (r: Option<ClientCustomer>)
    ensures r.None? <==> forall i :: 0 <= i < |customers| ==> customers[i].id != id
    ensures r.Some? ==> r.value.id == id
    ensures r.Some? ==> exists i :: FirstWithId(customers, id, i) && customers[i] == r.value
  {
    if |customers| == 0 then None
    else if customers[0].id == id then Some(customers[0])
    else
      var r := FindCustomer(customers[1..], id);
      assert forall i :: 1 <= i < |customers| ==> customers[i] == customers[1..][i - 1];
      assert forall i :: FirstWithId(customers[1..], id, i) ==> FirstWithId(customers, id, i + 1);
      r
  }
}
