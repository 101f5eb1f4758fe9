/**
 * The customer endpoints as a client sees them: each handler's result goes through the HTTP
 * adapter's catch, which answers a thrown error with `mapErrorToHttpResponse`. The lemmas
 * follow the end-to-end scenarios of the service.
 */
module EndToEnd {
  import opened Wrappers
  import opened Text
  import opened Json
  import opened JsNumber
  import opened Zod
  import opened Validation
  import opened CustomerSchemas
  import opened Customers
  import opened ApplicationErrors
  import opened CustomerRepository
  import opened CreateCustomer
  import opened Http
  import opened HttpErrorMapper
  import opened CustomerController

  /** The adapter's `try { … } catch (error) { mapErrorToHttpResponse(error) }`. */
  function Respond(result: HandlerResult): (response: HttpResponse<CustomerProps>)
    ensures result.Ok? ==> response == result.value
    ensures result.Err? ==> response == MapErrorToHttpResponse(result.error)
  {
    match result
    case Ok(r) => r
    case Err(e) => MapErrorToHttpResponse(e)
  }

  /**
   * `POST /customers` against a store: 201, 400 for a body the schema refuses, 409 for a stored
   * cpf, or 500 when coercing the age throws; only a 201 writes.
   */
  function Post(customers: map<Id, Customer>, freshId: Id, body: Option<Value>)
    : (r: (HttpResponse<CustomerProps>, map<Id, Customer>))
    ensures r.0.statusCode in {201, 400, 409, 500}
    ensures r.0.statusCode == 400 <==> !BodyAcceptable(body) && !BodyRaises(body)
    ensures r.0.statusCode == 500 <==> BodyRaises(body)
    ensures r.0.statusCode != 201 ==> r.1 == customers
  {
    var (r, after) := CreateOutcome(customers, freshId, HttpRequest(body, None));
    (Respond(r), after)
  }

  /** `GET /customers/:id` against a store: 200 for a stored uuid, 400 for a malformed id, 404 otherwise. */
  function GetPath(customers: map<Id, Customer>, id: string): (response: HttpResponse<CustomerProps>)
    ensures response.statusCode in {200, 400, 404}
    ensures response.statusCode == 200 <==> IsUuid(id) && id in customers
    ensures response.statusCode == 400 <==> !IsUuid(id)
  {
    ParamsOfAcceptable(id);
    Respond(GetById(customers, HttpRequest(None, ParamsOf(id))))
  }

  /**
   * A body the schema refuses is answered 400 `VALIDATION_ERROR` with a list of details; one
   * whose age `Number` cannot convert is answered 500 `INTERNAL_SERVER_ERROR` instead. Nothing is
   * stored either way.
   */
  lemma InvalidBodyIs400(customers: map<Id, Customer>, freshId: Id, body: Option<Value>)
    requires !BodyAcceptable(body)
    ensures var (response, after) := Post(customers, freshId, body);
      && response.body.ErrorBody?
      && (!BodyRaises(body) ==>
            && response.statusCode == 400
            && response.body.error.code == ValidationErrorCode
            && response.body.error.message == InvalidRequest
            && response.body.error.details.Some?
            && |response.body.error.details.value| > 0)
      && (BodyRaises(body) ==>
            && response.statusCode == 500
            && response.body.error.code == InternalErrorCode
            && response.body.error.message == InternalErrorMessage
            && response.body.error.details.None?)
      && after == customers
  {
    InvalidBodyIsRejected(customers, freshId, HttpRequest(body, None));
  }

  /** A body `{name, age, cpf}` in this order. */
  function BodyOf(name: Value, age: Value, cpf: Value): Option<Value> {
    Some(JObject([("name", name), ("age", age), ("cpf", cpf)]))
  }

  /** Each field of such a body is found under its key, and no key is undeclared. */
  lemma BodyOfFields(name: Value, age: Value, cpf: Value)
    ensures var m := BodyOf(name, age, cpf).value.members;
      && Get(m, "name") == Some(name) && Get(m, "age") == Some(age) && Get(m, "cpf") == Some(cpf)
      && forall i :: 0 <= i < |m| ==> m[i].0 in BodyShape
  {
    var m := BodyOf(name, age, cpf).value.members;
    assert "name" != "age" by { assert |"name"| != |"age"|; }
    assert "name" != "cpf" by { assert |"name"| != |"cpf"|; }
    assert "age" != "cpf" by { assert "age"[0] != "cpf"[0]; }
    assert m[..2] == [("name", name), ("age", age)];
    assert m[..2][..1] == [("name", name)];
    assert Get(m[..2][..1], "name") == Some(name);
    assert Get(m[..2], "name") == Some(name);
    assert Get(m[..2], "age") == Some(age);
  }

  /**
   * A cpf with fewer than eleven characters (`123`) makes the body invalid; it is answered 400
   * unless the age is one that `Number` cannot convert.
   */
  lemma ShortCpfIsInvalid(name: Value, age: Value, cpf: string)
    requires |cpf| < 11
    ensures !BodyAcceptable(BodyOf(name, age, JString(cpf)))
    ensures BodyRaises(BodyOf(name, age, JString(cpf))) <==> ToPrimitiveThrows(age)
  {
    BodyOfFields(name, age, JString(cpf));
  }

  /** A negative age (`-1`) makes the body invalid, and it is answered 400. */
  lemma NegativeAgeIsInvalid(name: Value, age: real, cpf: Value)
    requires age < 0.0
    ensures !BodyAcceptable(BodyOf(name, JNumber(age), cpf))
    ensures !BodyRaises(BodyOf(name, JNumber(age), cpf))
  {
    BodyOfFields(name, JNumber(age), cpf);
  }

  /**
   * Posting the same valid payload twice: 201, then 409 `CUSTOMER_ALREADY_EXISTS` with the
   * message `Customer with this CPF already exists`, and the second post stores nothing.
   */
  lemma DuplicateIs409(customers: map<Id, Customer>, firstId: Id, secondId: Id, body: Option<Value>)
    requires BodyAcceptable(body)
    requires !HasCpf(customers, ValidatedInput(body).cpf)
    ensures var (first, after) := Post(customers, firstId, body);
      var (second, final) := Post(after, secondId, body);
      && first.statusCode == 201
      && second.statusCode == 409
      && second.body.ErrorBody?
      && second.body.error.code == CustomerAlreadyExistsCode
      && second.body.error.message == AlreadyExistsMessage
      && final == after
  {
    SameDigitsTwice(customers, firstId, secondId, HttpRequest(body, None), HttpRequest(body, None));
  }

  /** An age object with its own `toString` key, `{"toString": 1}`. */
  function ToStringAge(): Value {
    JObject([("toString", JNumber(1.0))])
  }

  /**
   * A body whose fields are otherwise valid but whose age is `{"toString": 1}`: `Number` throws a
   * `TypeError` that neither the schema nor the controller catches, so the adapter answers 500
   * `INTERNAL_SERVER_ERROR` and nothing is stored.
   */
  lemma ToStringAgeIs500(customers: map<Id, Customer>, freshId: Id)
    ensures var (response, after) :=
        Post(customers, freshId, BodyOf(JString("Bruno Santos"), ToStringAge(), JString("12345678901")));
      && response.statusCode == 500
      && response.body.ErrorBody?
      && response.body.error.code == InternalErrorCode
      && after == customers
  {
    var body := BodyOf(JString("Bruno Santos"), ToStringAge(), JString("12345678901"));
    BodyOfFields(JString("Bruno Santos"), ToStringAge(), JString("12345678901"));
    assert ToPrimitiveThrows(ToStringAge()) by {
      assert Keys(ToStringAge().members) == ["toString"];
    }
    assert AgeRaises(Get(body.value.members, "age"));
    InvalidBodyIs400(customers, freshId, body);
  }

  /** The route parameters `{id}`. */
  function ParamsOf(id: string): Option<Value> {
    Some(JObject([("id", JString(id))]))
  }

  /** `{id}` passes the params schema exactly when the id has uuid shape. */
  lemma ParamsOfAcceptable(id: string)
    ensures ParamsAcceptable(ParamsOf(id)) <==> IsUuid(id)
    ensures Get(ParamsOf(id).value.members, "id") == Some(JString(id))
  {
    assert Get(ParamsOf(id).value.members, "id") == Some(JString(id));
  }

  /** The id the not-found scenario asks for is well formed, so it reaches the lookup. */
  lemma UnknownTestIdIsUuid()
    ensures IsUuid("3f8b3c6e-7d78-4f04-a189-4a7c2e3d6e5a")
  {
  }

  /** A stored customer is answered 200 with its four fields. */
  lemma StoredIdIs200(customers: map<Id, Customer>, id: string)
    requires IsUuid(id) && id in customers
    ensures GetPath(customers, id) == HttpResponses.Ok(ToJson(customers[id]))
  {
    ParamsOfAcceptable(id);
  }

  /** A well-formed id that is not stored is answered 404 `NOT_FOUND`, `Customer not found`. */
  lemma UnknownIdIs404(customers: map<Id, Customer>, id: string)
    requires IsUuid(id) && id !in customers
    ensures var response := GetPath(customers, id);
      && response.statusCode == 404
      && response.body.ErrorBody?
      && response.body.error.code == NotFoundCode
      && response.body.error.message == GetCustomerById.CustomerNotFoundMessage
  {
    ParamsOfAcceptable(id);
  }

  /**
   * Create, then get by the returned id: the create answers 201 with an id of uuid shape, and
   * the get answers 200 with the same four fields.
   */
  lemma CreateThenGetById(customers: map<Id, Customer>, serial: nat, body: Option<Value>)
    requires serial < Pow(16, 12)
    requires BodyAcceptable(body)
    requires !HasCpf(customers, ValidatedInput(body).cpf)
    ensures var (created, after) := Post(customers, IdFor(serial), body);
      && created.statusCode == 201
      && created.body.DataBody?
      && IsVersionedUuid(created.body.data.id)
      && var found := GetPath(after, created.body.data.id);
      && found.statusCode == 200
      && found.body == created.body
  {
    IdForIsUuid(serial);
    ValidBodyIsCreated(customers, IdFor(serial), HttpRequest(body, None));
    var (created, after) := Post(customers, IdFor(serial), body);
    StoredIdIs200(after, IdFor(serial));
  }

  /**
   * The first scenario: `{name: 'Bruno Santos', age: 28, cpf: '123.456.789-01'}` on a store
   * without that cpf is answered 201 with the fresh uuid, the name, the age and the cpf's digits.
   */
  lemma FirstCustomerIsCreated(customers: map<Id, Customer>, serial: nat)
    requires serial < Pow(16, 12)
    requires !HasCpf(customers, "12345678901") && IdFor(serial) !in customers
    ensures var (response, after) := Post(customers, IdFor(serial), FirstBody());
      && response.statusCode == 201
      && response.body == DataBody(CustomerProps(IdFor(serial), "Bruno Santos", 28, "12345678901"))
      && IsUuid(response.body.data.id)
      && IsVersionedUuid(response.body.data.id)
      && |after| == |customers| + 1
  {
    FirstBodyIsAccepted();
    IdForIsUuid(serial);
    ValidBodyIsCreated(customers, IdFor(serial), HttpRequest(FirstBody(), None));
  }

  function FirstBody(): Option<Value> {
    BodyOf(JString("Bruno Santos"), JNumber(28.0), JString("123.456.789-01"))
  }

  /** The first scenario's body passes the schema and normalises to `Bruno Santos`, 28, `12345678901`. */
  lemma FirstBodyIsAccepted()
    ensures BodyAcceptable(FirstBody())
    ensures ValidatedInput(FirstBody()) == CreateCustomerInput("Bruno Santos", 28, "12345678901")
  {
    FirstBodyFields();
    FirstAge();
    assert BodyAcceptable(FirstBody());
    var data := ParseCreateCustomerBody(FirstBody()).data;
    assert data.name == "Bruno Santos";
    assert data.age as real == 28.0;
    assert data.cpf == "12345678901";
  }

  lemma FirstBodyFields()
    ensures var m := FirstBody().value.members;
      && Get(m, "name") == Some(JString("Bruno Santos"))
      && Get(m, "age") == Some(JNumber(28.0))
      && Get(m, "cpf") == Some(JString("123.456.789-01"))
      && (forall i :: 0 <= i < |m| ==> m[i].0 in BodyShape)
      && Trim("Bruno Santos") == "Bruno Santos"
      && DigitsOnly("123.456.789-01") == "12345678901"
  {
    BodyOfFields(JString("Bruno Santos"), JNumber(28.0), JString("123.456.789-01"));
    TrimUnpadded("Bruno Santos");
    FormattedCpfDigits();
  }

  lemma FirstAge()
    ensures AgeAcceptable(Some(JNumber(28.0)))
    ensures ParseAge(Some(JNumber(28.0))) == Parsed(28)
  {
    assert ToNumber(Some(JNumber(28.0))) == Ok(Finite(28.0));
  }
}
