/**
 * The customer controller: balance normalisation on creation, profile-only
 * updates, and deletion without cascade.
 */
module CustomerController {
  import opened Wrappers
  import opened Domain
  import opened Models

  /**
   * A `balance` field of the request body: absent or null, or present with
   * the number `parseFloat` reads from it (None when that is NaN).
   */
  datatype BalanceField = Absent | Present(parsed: Option<real>)

  /** A safe sub-object of the request body. Its `currency` is never read. */
  datatype SafeInput = SafeInput(currency: Option<string>, balance: BalanceField)

  /** The body of POST /customers; an absent `safes` object leaves both safes absent. */
  datatype CustomerInput = CustomerInput(
    name: Option<string>,
    email: Option<string>,
    phone: Option<string>,
    address: Option<string>,
    avatar: Option<string>,
    dinar: Option<SafeInput>,
    dollar: Option<SafeInput>)

  /** The body of PUT /customers/:id; an absent field is dropped from the update. */
  datatype ProfilePatch = ProfilePatch(
    name: Option<string>,
    email: Option<string>,
    phone: Option<string>,
    address: Option<string>,
    avatar: Option<string>)

  /** The starting balance of one safe: the parsed number, or 0 when it is absent, null or NaN. */
  function InitialBalance(safe: Option<SafeInput>): real {
    var parsed := if safe.Some? && safe.value.balance.Present? then safe.value.balance.parsed else Some(0.0);
    if parsed.None? then 0.0 else parsed.value
  }

  /** The Customer schema's `required` name rejects undefined, null and the empty string. */
  predicate NameAccepted(name: Option<string>) {
    name.Some? && name.value != ""
  }

  /** The document createCustomer asks the store to create, if the schema accepts it. */
  function NewCustomer(input: CustomerInput): (c: Option<Customer>)
    ensures c.Some? <==> NameAccepted(input.name)
    ensures c.Some? ==> c.value.safes.Tagged()
    ensures c.Some? ==> c.value.profile == Profile(input.name.value, input.email, input.phone, input.address, input.avatar)
    ensures c.Some? ==> c.value.safes.Balance(Dinar) == InitialBalance(input.dinar)
    ensures c.Some? ==> c.value.safes.Balance(Dollar) == InitialBalance(input.dollar)
  {
    if !NameAccepted(input.name) then None
    else Some(Customer(
      Profile(input.name.value, input.email, input.phone, input.address, input.avatar),
      Safes(Safe(Dinar, InitialBalance(input.dinar)), Safe(Dollar, InitialBalance(input.dollar)))))
  }

  /** A balance that is absent, null or NaN starts at zero; a number starts as itself, whatever the tag. */
  lemma InitialBalanceCases(safe: Option<SafeInput>)
    ensures safe.None? || safe.value.balance.Absent? || safe.value.balance.parsed.None? ==> InitialBalance(safe) == 0.0
    ensures safe.Some? && safe.value.balance.Present? && safe.value.balance.parsed.Some? ==>
      InitialBalance(safe) == safe.value.balance.parsed.value
  {
  }

  /** The currency tags of the request never reach the stored document. */
  lemma TagsIgnored(input: CustomerInput, dinarTag: Option<string>, dollarTag: Option<string>)
    requires input.dinar.Some? && input.dollar.Some?
    ensures NewCustomer(input) == NewCustomer(input.(dinar := Some(input.dinar.value.(currency := dinarTag)),
                                                     dollar := Some(input.dollar.value.(currency := dollarTag))))
  {
  }

  /** The five profile fields after an update: a given field replaces the stored one. */
  function Patched(p: Profile, patch: ProfilePatch): (q: Profile)
    ensures q.name == patch.name.GetOr(p.name)
    ensures q.email == (if patch.email.Some? then patch.email else p.email)
    ensures q.phone == (if patch.phone.Some? then patch.phone else p.phone)
    ensures q.address == (if patch.address.Some? then patch.address else p.address)
    ensures q.avatar == (if patch.avatar.Some? then patch.avatar else p.avatar)
  {
    Profile(
      patch.name.GetOr(p.name),
      if patch.email.Some? then patch.email else p.email,
      if patch.phone.Some? then patch.phone else p.phone,
      if patch.address.Some? then patch.address else p.address,
      if patch.avatar.Some? then patch.avatar else p.avatar)
  }

  /** POST /customers. A name the schema rejects makes `create` throw. */
  method CreateCustomer(db: Store, input: CustomerInput) returns (status: Status, created: Option<CustomerId>)
    requires db.Valid()
    modifies db
    ensures db.Valid()
    ensures db.transactions == old(db.transactions) && db.rates == old(db.rates) && db.nextTxId == old(db.nextTxId)
    ensures NewCustomer(input).None? ==> status == ServerError && created == None && unchanged(db)
    ensures NewCustomer(input).Some? ==>
      && status == Ok && created == Some(old(db.nextCustomerId))
      && db.customers == old(db.customers)[old(db.nextCustomerId) := NewCustomer(input).value]
      && db.nextCustomerId == old(db.nextCustomerId) + 1
  {
    var doc := NewCustomer(input);
    if doc.None? {
      return ServerError, None;
    }
    var id := db.nextCustomerId;
    db.customers := db.customers[id := doc.value];
    db.nextCustomerId := id + 1;
    status, created := Ok, Some(id);
  }

  /** PUT /customers/:id. Writes the five profile fields and nothing else. */
  method UpdateCustomer(db: Store, id: CustomerId, patch: ProfilePatch) returns (status: Status)
    requires db.Valid()
    modifies db
    ensures db.Valid()
    ensures db.transactions == old(db.transactions) && db.rates == old(db.rates)
    ensures db.nextCustomerId == old(db.nextCustomerId) && db.nextTxId == old(db.nextTxId)
    ensures id !in old(db.customers) ==> status == CustomerNotFound && db.customers == old(db.customers)
    ensures id in old(db.customers) ==>
      && status == Ok
      && db.customers == old(db.customers)[id := old(db.customers)[id].(profile := Patched(old(db.customers)[id].profile, patch))]
      && db.customers[id].safes == old(db.customers)[id].safes
  {
    if id !in db.customers {
      return CustomerNotFound;
    }
    var customer := db.customers[id];
    db.SaveCustomer(id, customer.(profile := Patched(customer.profile, patch)));
    status := Ok;
  }

  /** DELETE /customers/:id. Removes the customer only; its transactions stay. */
  method DeleteCustomer(db: Store, id: CustomerId) returns (status: Status)
    requires db.Valid()
    modifies db
    ensures db.Valid()
    ensures db.transactions == old(db.transactions) && db.rates == old(db.rates)
    ensures db.nextCustomerId == old(db.nextCustomerId) && db.nextTxId == old(db.nextTxId)
    ensures id !in old(db.customers) ==> status == CustomerNotFound && db.customers == old(db.customers)
    ensures id in old(db.customers) ==> status == Ok && db.customers == old(db.customers) - {id}
  {
    if id !in db.customers {
      return CustomerNotFound;
    }
    db.customers := db.customers - {id};
    status := Ok;
  }
}
