/**
 * `CustomerController`: `create` validates the body, runs the create use case and answers 201;
 * `getById` validates the route parameters, runs the lookup and answers 200. Neither catches:
 * a validation or use-case error, or an exception that escaped the schema, leaves the handler
 * as a `Thrown` value.
 */
module CustomerController {
  import opened Wrappers
  import opened Text
  import JsNumber
  import opened Json
  import opened Zod
  import opened Validation
  import opened CustomerSchemas
  import opened Customers
  import opened ApplicationErrors
  import opened CustomerRepository
  import opened CreateCustomer
  import GetCustomerById
  import opened Http
  import opened HttpResponses
  import opened HttpErrorMapper

  /** What a handler ends with: a response, or the error it throws. */
  type HandlerResult = Result<HttpResponse<CustomerProps>, Thrown>

  /** The validated body as the use case's input. */
  function ToInput(body: CreateCustomerBody): CreateCustomerInput {
    CreateCustomerInput(body.name, body.age, body.cpf)
  }

  /** How what `validate` throws reaches the error mapper. */
  function Rethrown(e: ValidateError): (t: Thrown)
    ensures e.Invalid? ==> t == ValidationFailure(e.validation)
    ensures e.Escaped? ==> t == Unclassified(e.description)
  {
    match e
    case Invalid(validation) => ValidationFailure(validation)
    case Escaped(description) => Unclassified(description)
  }

  /** `create(request)` on the store's map, when `freshId` is the id `create` would draw. */
  function CreateOutcome(customers: map<Id, Customer>, freshId: Id, request: HttpRequest)
    : (r: (HandlerResult, map<Id, Customer>))
    ensures r.0.Err? ==> r.1 == customers
    ensures r.0.Err? ==> r.0.error.ValidationFailure? || r.0.error.ApplicationFailure? || r.0.error.Unclassified?
    ensures r.0.Err? && r.0.error.Unclassified? <==> BodyRaises(request.body)
    ensures r.0.Ok? ==>
      && r.0.value.statusCode == 201 && r.0.value.body.DataBody?
      && r.0.value.body.data.id == freshId
      && r.1 == customers[freshId := FromPersistence(r.0.value.body.data)]
  {
    match Validate(ParseCreateCustomerBody, request.body)
    case Err(e) => (Err(Rethrown(e)), customers)
    case Ok(body) =>
      var (r, after) := Outcome(customers, freshId, ToInput(body));
      match r
      case Err(e) => (Err(ApplicationFailure(e)), after)
      case Ok(customer) => (Ok(Created(ToJson(customer))), after)
  }

  /** The use case's input that `create` builds from an accepted body. */
  function ValidatedInput(body: Option<Value>): CreateCustomerInput
    requires BodyAcceptable(body)
  {
    ToInput(ParseCreateCustomerBody(body).data)
  }

  /**
   * An invalid body is a validation error built from the schema's issues, or, when converting its
   * age throws, that `TypeError` itself; either way nothing is written.
   */
  lemma InvalidBodyIsRejected(customers: map<Id, Customer>, freshId: Id, request: HttpRequest)
    requires !BodyAcceptable(request.body)
    ensures var (r, after) := CreateOutcome(customers, freshId, request);
      && (!BodyRaises(request.body) ==>
            r == Err(ValidationFailure(FromZodError(ParseCreateCustomerBody(request.body).issues))))
      && (BodyRaises(request.body) ==> r == Err(Unclassified(JsNumber.CannotConvertToPrimitive)))
      && after == customers
  {
  }

  /**
   * A valid body with a cpf not yet stored gives 201 with the new customer's four fields: the
   * fresh id, the trimmed name, the age and the cpf's digits; exactly that record is added.
   */
  lemma ValidBodyIsCreated(customers: map<Id, Customer>, freshId: Id, request: HttpRequest)
    requires BodyAcceptable(request.body)
    requires !HasCpf(customers, ValidatedInput(request.body).cpf)
    ensures var (r, after) := CreateOutcome(customers, freshId, request);
      var m := request.body.value.members;
      && r.Ok? && r.value.statusCode == 201 && r.value.headers == None
      && r.value.body == DataBody(CustomerProps(freshId, Trim(Get(m, "name").value.s),
                                                ValidatedInput(request.body).age,
                                                DigitsOnly(Get(m, "cpf").value.s)))
      && IsElevenDigits(r.value.body.data.cpf)
      && after == customers[freshId := FromPersistence(r.value.body.data)]
  {
  }

  /** A valid body whose normalised cpf is stored is the conflict error, and nothing is written. */
  lemma StoredCpfIsConflict(customers: map<Id, Customer>, freshId: Id, request: HttpRequest)
    requires BodyAcceptable(request.body)
    requires HasCpf(customers, ValidatedInput(request.body).cpf)
    ensures var (r, after) := CreateOutcome(customers, freshId, request);
      && r == Err(ApplicationFailure(AlreadyExists()))
      && MapErrorToHttpResponse<CustomerProps>(r.error).statusCode == 409
      && after == customers
  {
  }

  /**
   * Two valid bodies whose cpfs reduce to the same 11 digits (`123.456.789-01` and
   * `12345678901`, say): the first is created, the second is a conflict answered with 409.
   */
  lemma SameDigitsTwice(customers: map<Id, Customer>, firstId: Id, secondId: Id, first: HttpRequest, second: HttpRequest)
    requires BodyAcceptable(first.body) && BodyAcceptable(second.body)
    requires ValidatedInput(first.body).cpf == ValidatedInput(second.body).cpf
    requires !HasCpf(customers, ValidatedInput(first.body).cpf)
    ensures var (r1, after) := CreateOutcome(customers, firstId, first);
      var (r2, final) := CreateOutcome(after, secondId, second);
      && r1.Ok? && r1.value.statusCode == 201
      && r2 == Err(ApplicationFailure(AlreadyExists()))
      && MapErrorToHttpResponse<CustomerProps>(r2.error).statusCode == 409
      && final == after
  {
    SameCpfTwice(customers, firstId, secondId, ValidatedInput(first.body), ValidatedInput(second.body));
  }

  /**
   * `create(request)` on the repository: the result and the new store are those of
   * `CreateOutcome` with the id the repository draws next; the store stays valid with unique cpfs.
   */
  method Create(repository: InMemoryCustomerRepository, request: HttpRequest) returns (r: HandlerResult)
    requires repository.Valid() && CpfUnique(repository.customers)
    modifies repository
    ensures repository.Valid() && CpfUnique(repository.customers)
    ensures (r, repository.customers)
         == CreateOutcome(old(repository.customers), IdFor(old(repository.issued)), request)
    ensures repository.issued == if r.Ok? then old(repository.issued) + 1 else old(repository.issued)
  {
    var body := Validate(ParseCreateCustomerBody, request.body);
    if body.Err? {
      return Err(Rethrown(body.error));
    }
    var customer := CreateCustomer.Execute(repository, ToInput(body.value));
    if customer.Err? {
      return Err(ApplicationFailure(customer.error));
    }
    return Ok(Created(ToJson(customer.value)));
  }

  /** `getById(request)`: validate the params, look the id up, answer 200 with the customer's fields. */
  function GetById(customers: map<Id, Customer>, request: HttpRequest): (r: HandlerResult)
    ensures r.Ok? <==>
      ParamsAcceptable(request.params) && Get(request.params.value.members, "id").value.s in customers
    ensures r.Ok? ==>
      && r.value.statusCode == 200 && r.value.headers == None
      && r.value.body == DataBody(ToJson(customers[Get(request.params.value.members, "id").value.s]))
    ensures !ParamsAcceptable(request.params) ==>
      r == Err(ValidationFailure(FromZodError(ParseCustomerParams(request.params).issues)))
    ensures ParamsAcceptable(request.params) && Get(request.params.value.members, "id").value.s !in customers ==>
      && r == Err(ApplicationFailure(NewNotFoundError(Some(GetCustomerById.CustomerNotFoundMessage))))
      && MapErrorToHttpResponse<CustomerProps>(r.error).statusCode == 404
  {
    match Validate(ParseCustomerParams, request.params)
    case Err(e) => Err(Rethrown(e))
    case Ok(params) =>
      match GetCustomerById.Execute(customers, params.id)
      case Err(e) => Err(ApplicationFailure(e))
      case Ok(customer) => Ok(HttpResponses.Ok(ToJson(customer)))
  }
}
