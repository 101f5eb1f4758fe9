/** `GetCustomerByIdUseCase.execute`: a read-only lookup that fails with not-found on a miss. */
module GetCustomerById {
  import opened Wrappers
  import opened Customers
  import opened ApplicationErrors
  import opened CustomerRepository
  import opened CreateCustomer

  const CustomerNotFoundMessage := "Customer not found"

  /** `execute(id)` over the store's map, which it only reads. */
  function Execute(customers: map<Id, Customer>, id: Id): (r: Result<Customer, AppError>)
    ensures r.Ok? <==> id in customers
    ensures r.Ok? ==> r.value == customers[id]
    ensures r.Err? ==> r.error == NewNotFoundError(Some(CustomerNotFoundMessage))
  {
    match FindById(customers, id)
    case Some(customer) => Ok(customer)
    case None => Err(NewNotFoundError(Some(CustomerNotFoundMessage)))
  }

  /** A miss is a `NotFoundError` with code `NOT_FOUND` and message `Customer not found`. */
  lemma MissIsNotFound(customers: map<Id, Customer>, id: Id)
    requires id !in customers
    ensures Execute(customers, id).Err?
    ensures Execute(customers, id).error.IsNotFound()
    ensures Execute(customers, id).error.Code() == NotFoundCode
    ensures Execute(customers, id).error.Message() == CustomerNotFoundMessage
  {
  }

  /** After a successful create, looking up the returned id gives back the same customer. */
  lemma CreateThenGet(customers: map<Id, Customer>, freshId: Id, input: CreateCustomerInput)
    requires Outcome(customers, freshId, input).0.Ok?
    ensures var (created, after) := Outcome(customers, freshId, input);
      && Execute(after, created.value.id) == Ok(created.value)
      && created.value.name == input.name && created.value.age == input.age && created.value.cpf == input.cpf
  {
  }
}
