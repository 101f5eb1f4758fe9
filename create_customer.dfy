/**
 * `CreateCustomerUseCase.execute`: refuse a cpf that is already stored, otherwise hand the
 * input to the repository's `create`. `Outcome` states the use case on the store's map; the
 * method runs it against the repository object.
 */
module CreateCustomer {
  import opened Wrappers
  import opened Customers
  import opened ApplicationErrors
  import opened CustomerRepository

  datatype CreateCustomerInput = CreateCustomerInput(name: string, age: int, cpf: string)

  const AlreadyExistsMessage := "Customer with this CPF already exists"

  /** The error thrown for a cpf that is already stored. */
  function AlreadyExists(): (e: AppError)
    ensures !e.IsNotFound() && e.Code() == CustomerAlreadyExistsCode && e.Message() == AlreadyExistsMessage
  {
    NewConflictError(CustomerAlreadyExistsCode, AlreadyExistsMessage)
  }

  /** The customer `create` builds for `input` under `id`. */
  function NewCustomer(id: Id, input: CreateCustomerInput): Customer {
    FromPersistence(CustomerProps(id, input.name, input.age, input.cpf))
  }

  /** The result of the use case and the store afterwards, when `freshId` is the id `create` would draw. */
  function Outcome(customers: map<Id, Customer>, freshId: Id, input: CreateCustomerInput)
    : (r: (Result<Customer, AppError>, map<Id, Customer>))
    ensures r.0.Err? ==> r.1 == customers
    ensures r.0.Ok? ==> r.0.value.id == freshId && r.1 == customers[freshId := r.0.value]
  {
    if HasCpf(customers, input.cpf) then (Err(AlreadyExists()), customers)
    else (Ok(NewCustomer(freshId, input)), customers[freshId := NewCustomer(freshId, input)])
  }

  /** The use case fails exactly when the cpf is stored, with the conflict error, and then writes nothing. */
  lemma ConflictIffCpfStored(customers: map<Id, Customer>, freshId: Id, input: CreateCustomerInput)
    ensures Outcome(customers, freshId, input).0.Err? <==> HasCpf(customers, input.cpf)
    ensures Outcome(customers, freshId, input).0.Err? ==>
      && Outcome(customers, freshId, input).0.error == AlreadyExists()
      && Outcome(customers, freshId, input).1 == customers
  {
  }

  /**
   * On success exactly one record is added, under the fresh id, holding the input's name, age
   * and cpf, and the customer returned is that record.
   */
  lemma SuccessAddsOneRecord(customers: map<Id, Customer>, freshId: Id, input: CreateCustomerInput)
    requires freshId !in customers
    requires Outcome(customers, freshId, input).0.Ok?
    ensures var (r, after) := Outcome(customers, freshId, input);
      && r.value.id == freshId && r.value.name == input.name && r.value.age == input.age && r.value.cpf == input.cpf
      && after.Keys == customers.Keys + {freshId}
      && |after| == |customers| + 1
      && after[freshId] == r.value
      && (forall id :: id in customers ==> after[id] == customers[id])
  {
  }

  /** One call keeps every stored cpf unique. */
  lemma {:induction false} OutcomeKeepsCpfUnique(customers: map<Id, Customer>, freshId: Id, input: CreateCustomerInput)
    requires CpfUnique(customers) && freshId !in customers
    ensures CpfUnique(Outcome(customers, freshId, input).1)
  {
    if !HasCpf(customers, input.cpf) {
      var after := Outcome(customers, freshId, input).1;
      assert forall id :: id in customers ==> customers[id].cpf != input.cpf;
      assert after == customers[freshId := NewCustomer(freshId, input)];
    }
  }

  /**
   * Two inputs with the same cpf in a row (the same payload twice, say): the first call
   * succeeds, the second is a conflict that writes nothing.
   */
  lemma SameCpfTwice(customers: map<Id, Customer>, firstId: Id, secondId: Id,
                     first: CreateCustomerInput, second: CreateCustomerInput)
    requires first.cpf == second.cpf && !HasCpf(customers, first.cpf)
    ensures var (r, after) := Outcome(customers, firstId, first);
      && r.Ok?
      && Outcome(after, secondId, second) == (Err(AlreadyExists()), after)
  {
    var after := Outcome(customers, firstId, first).1;
    assert after[firstId].cpf == second.cpf;
  }

  /** The store after a sequence of calls, ids drawn from the counter in order. */
  function RunAll(customers: map<Id, Customer>, issued: nat, inputs: seq<CreateCustomerInput>): (final: map<Id, Customer>)
    ensures customers.Keys <= final.Keys
    ensures |final.Keys - customers.Keys| <= |inputs|
    decreases |inputs|
  {
    if inputs == [] then customers
    else
      var (r, after) := Outcome(customers, IdFor(issued), inputs[0]);
      var final := RunAll(after, if r.Ok? then issued + 1 else issued, inputs[1..]);
      assert final.Keys - customers.Keys <= (final.Keys - after.Keys) + (after.Keys - customers.Keys);
      assert after.Keys - customers.Keys <= {IdFor(issued)};
      SubsetSize(final.Keys - customers.Keys, (final.Keys - after.Keys) + (after.Keys - customers.Keys));
      SubsetSize(after.Keys - customers.Keys, {IdFor(issued)});
      final
  }

  lemma SubsetSize<T>(a: set<T>, b: set<T>)
    requires a <= b
    ensures |a| <= |b|
  {
    assert b == a + (b - a);
  }

  /** Over any sequence of calls, no two stored customers share a cpf. */
  lemma {:induction false} RunAllKeepsCpfUnique(customers: map<Id, Customer>, issued: nat, inputs: seq<CreateCustomerInput>)
    requires CpfUnique(customers)
    requires forall id :: id in customers ==> IssuedBefore(id, issued)
    ensures CpfUnique(RunAll(customers, issued, inputs))
    decreases |inputs|
  {
    if inputs != [] {
      NextIdIsFresh(customers, issued);
      OutcomeKeepsCpfUnique(customers, IdFor(issued), inputs[0]);
      var (r, after) := Outcome(customers, IdFor(issued), inputs[0]);
      var next := if r.Ok? then issued + 1 else issued;
      forall id | id in after
        ensures IssuedBefore(id, next)
      {
        if id == IdFor(issued) && r.Ok? {
          assert IdFor(issued) == id;
        } else {
          var k: nat :| k < issued && IdFor(k) == id;
          assert k < next;
        }
      }
      RunAllKeepsCpfUnique(after, next, inputs[1..]);
    }
  }

  /**
   * `execute(input)` on the repository: the result and the new store are those of `Outcome`
   * with the id the repository draws next; the store stays valid with unique cpfs.
   */
  method Execute(repository: InMemoryCustomerRepository, input: CreateCustomerInput)
    returns (r: Result<Customer, AppError>)
    requires repository.Valid() && CpfUnique(repository.customers)
    modifies repository
    ensures repository.Valid() && CpfUnique(repository.customers)
    ensures (r, repository.customers)
         == Outcome(old(repository.customers), IdFor(old(repository.issued)), input)
    ensures repository.issued == if r.Ok? then old(repository.issued) + 1 else old(repository.issued)
  {
    NextIdIsFresh(repository.customers, repository.issued);
    OutcomeKeepsCpfUnique(repository.customers, IdFor(repository.issued), input);
    var existing := FindByCpf(repository.customers, input.cpf);
    if existing.Some? {
      return Err(AlreadyExists());
    }
    var created := repository.Create(CreateCustomerRepositoryInput(input.name, input.age, input.cpf));
    return Ok(created);
  }
}
