# Customer service: a verified model of its request handling

This project models the request-handling core of a small hexagonal customer service in Dafny.
The service has two endpoints. `POST /customers` creates a customer: name, age and a Brazilian
tax number (cpf). `GET /customers/:id` reads one back. The model covers:

- the domain entity `Customer` and its `toJSON` round trip;
- the application errors (`ApplicationError`, `NotFoundError`, `ConflictError`);
- the two use cases. They run against an in-memory repository class that holds a
  `map<Id, Customer>` and hands out fresh ids;
- the request schemas as validating functions: `digitsOnly`, trimming, integer age, eleven-digit
  cpf, strict objects and the uuid id;
- `validate` and `ValidationError.fromZodError`;
- the total error-to-HTTP mapping and the `ok`/`created` presenters;
- the controller's `create` and `getById`;
- the two configuration helpers `parsePort` and `parseHttpAdapter`;
- the path-traversal guard and content-type table that serve the Swagger UI assets.

The end-to-end scenarios of the test suite are restated as lemmas over the composed handler.
The composed handler is the controller followed by the adapter's `catch`, which maps every thrown
error.

Layout (one Dafny module per file):

- `wrappers.dfy`: `Option` and `Result`.
- `text.dfy`: the JavaScript string primitives the core relies on. These are the `trim`
  whitespace set, digit tests, numerals in a base, substring search, `replace` of one character
  and ASCII lower-casing.
- `json.dfy`: request values (`JString`, `JNumber`, …, `JObject` as an ordered member list) and
  key lookup, where the last of duplicate keys wins.
- `jsnumber.dfy`: JavaScript `Number(…)` on strings and request values, reduced to what the core
  needs.
- `zod.dfy`: the parts of zod the schemas use. These are issues with paths, invalid-type
  messages, `.strict()` unknown-key issues and the uuid format.
- `customer.dfy`, `application_error.dfy`, `customer_repository.dfy`, `create_customer.dfy`,
  `get_customer.dfy`: domain, errors, repository and use cases.
- `customer_schemas.dfy`, `validate.dfy`, `http.dfy`, `http_responses.dfy`,
  `http_error_mapper.dfy`, `customer_controller.dfy`: the HTTP adapter layer.
- `env.dfy`, `swagger.dfy`: the configuration helpers.
- `end_to_end.dfy`: the test-suite scenarios.

Thrown errors become a datatype `Thrown`, with one constructor per kind the mapper tells apart:

- a `ValidationError`;
- a raw `ZodError`;
- an `ApplicationError` (including `NotFoundError` and `ConflictError`);
- anything else.

`Number(…)` throws a `TypeError` on a JSON object with its own `toString` key, and on an array
that holds such an object. `z.coerce.number()` calls it inside `safeParse` without catching, so
an age such as `{"toString": 1}` makes parsing throw. The exception passes through `validate`
and the controller as an unclassified error, and the adapter answers 500.

A handler returns `Result<HttpResponse, Thrown>`. The creating use case and the controller's
`create` are methods that change the repository object. Each is proved against a pure function
(`CreateCustomer.Outcome`, `CustomerController.CreateOutcome`) of the old map and the fresh id.
The lemmas about the sequence of creates are stated on those functions.

## Model

| member | source | states |
|---|---|---|
| Customers.FromPersistence | src/domain/customer/Customer.ts:14-23 | any props record yields a customer whose four fields are the props' fields, with no validation |
| Customers.ToJson | src/domain/customer/Customer.ts:25-27 | the record `toJSON` returns rebuilds the same customer through `fromPersistence` |
| Customers.ToJsonFromPersistence | src/domain/customer/Customer.ts:14-27 | `toJSON(fromPersistence(p)) == p`: id, name, age and cpf are copied unchanged |
| Customers.ToJsonInjective | src/domain/customer/Customer.ts:25-27 | two customers with the same JSON are the same customer, so `toJSON` loses no field |
| ApplicationErrors.NewNotFoundError | src/application/errors/ApplicationError.ts:10-14 | the code is always `NOT_FOUND`; the message is the given one or `Not found` by default; it is an application error |
| ApplicationErrors.NewConflictError | src/application/errors/ApplicationError.ts:16-20 | keeps the caller's code and message; it is an application error and not a not-found error |
| ApplicationErrors.NewApplicationError | src/application/errors/ApplicationError.ts:1-7 | stores the given code and message unchanged |
| ApplicationErrors.ErrorHierarchy | src/application/errors/ApplicationError.ts:10-20 | every error is an application error, and a not-found error carries `NOT_FOUND` |
| CustomerRepository.IdFor | src/adapters/repositories/PrismaCustomerRepository.ts:11-20 | a fresh id is a string of at least 36 characters |
| CustomerRepository.IdForInjective | src/adapters/repositories/PrismaCustomerRepository.ts:11-20 | different serials give different ids, so every issued id is fresh |
| CustomerRepository.IdForIsUuid | tests/customer.e2e.spec.ts:79-81 | below 16^12 the issued id matches the test's pattern: the uuid shape, a version digit 1-5 at index 14 (here `4`) and a variant digit `8`, `9`, `a` or `b` at index 19 (here `8`) |
| CustomerRepository.IsVersionedUuid | tests/customer.e2e.spec.ts:79-81 | the test's regular expression: uuid shape, version digit 1-5, variant digit in `89ab` (either case) |
| CustomerRepository.FindById | src/ports/repositories/CustomerRepository.ts:11 | a customer is found iff the id is stored, and it is the stored one |
| CustomerRepository.FindByCpf | src/ports/repositories/CustomerRepository.ts:12 | a customer is found iff some stored customer has the cpf, and the found one has that cpf and is stored |
| CustomerRepository.NextIdIsFresh | src/ports/repositories/CustomerRepository.ts:10 | the next id handed out is not a key of the store |
| CustomerRepository.InMemoryCustomerRepository.constructor | src/ports/repositories/CustomerRepository.ts:9-13 | a new store is empty and has issued no id |
| CustomerRepository.InMemoryCustomerRepository.Create | src/adapters/repositories/PrismaCustomerRepository.ts:11-21 | adds exactly one customer under a fresh id with the input's name, age and cpf, returns it, and changes no other entry |
| CreateCustomer.AlreadyExists | src/application/customer/CreateCustomerUseCase.ts:17-20 | the conflict carries code `CUSTOMER_ALREADY_EXISTS` and message `Customer with this CPF already exists` and is not a not-found error |
| CreateCustomer.ConflictIffCpfStored | src/application/customer/CreateCustomerUseCase.ts:15-22 | the use case fails iff a stored customer already has the cpf; then the error is the conflict and the store is unchanged |
| CreateCustomer.Outcome | src/application/customer/CreateCustomerUseCase.ts:14-29 | a failure leaves the store unchanged; a success returns the customer stored under the fresh id, and the store gains exactly that entry |
| CreateCustomer.RunAll | src/application/customer/CreateCustomerUseCase.ts:14-29 | a sequence of creates never removes a stored id and adds at most one id per request |
| CreateCustomer.SuccessAddsOneRecord | src/application/customer/CreateCustomerUseCase.ts:24-28 | on success exactly one record is added, under the fresh id, with the input's fields, and it is the one returned |
| CreateCustomer.OutcomeKeepsCpfUnique | src/application/customer/CreateCustomerUseCase.ts:15-28 | one create keeps "no two stored customers share a cpf" |
| CreateCustomer.RunAllKeepsCpfUnique | src/application/customer/CreateCustomerUseCase.ts:15-28 | any sequence of creates with fresh ids keeps cpfs unique |
| CreateCustomer.SameCpfTwice | src/application/customer/CreateCustomerUseCase.ts:15-28 | two creates with the same cpf give a success and then the conflict, and the second leaves the store as the first left it |
| CreateCustomer.Execute | src/application/customer/CreateCustomerUseCase.ts:14-29 | the method on the repository object gives the result and new store of `Outcome`, and keeps the store valid with unique cpfs |
| GetCustomerById.Execute | src/application/customer/GetCustomerByIdUseCase.ts:8-16 | succeeds iff the id is stored, and returns the stored customer; otherwise fails with `NotFoundError('Customer not found')` |
| GetCustomerById.MissIsNotFound | src/application/customer/GetCustomerByIdUseCase.ts:11-13 | a miss is a not-found error with code `NOT_FOUND` and message `Customer not found` |
| GetCustomerById.CreateThenGet | tests/customer.e2e.spec.ts:129-148 | after a successful create, looking up the returned id gives the created customer with the input's fields |
| CustomerSchemas.DigitsOnly | src/adapters/http/validation/customer.schemas.ts:3 | the result contains only the digits 0-9 and is no longer than the input |
| CustomerSchemas.DigitsOnlyAppend | src/adapters/http/validation/customer.schemas.ts:3 | deletion distributes over concatenation, so the kept digits stay in their original order |
| CustomerSchemas.DigitsOnlyCounts | src/adapters/http/validation/customer.schemas.ts:3 | every digit occurs in the result as often as in the input, and no other character occurs |
| CustomerSchemas.DigitsOnlyOfDigits | src/adapters/http/validation/customer.schemas.ts:3 | a string of digits is left as it is |
| CustomerSchemas.DigitsOnlyIdempotent | src/adapters/http/validation/customer.schemas.ts:3 | applying `digitsOnly` twice is the same as once |
| CustomerSchemas.DigitsOnlyDropsSeparator | src/adapters/http/validation/customer.schemas.ts:3 | a trailing non-digit is deleted |
| CustomerSchemas.DigitsOnlyKeepsDigits | src/adapters/http/validation/customer.schemas.ts:3 | trailing digits are kept after the digits of the prefix |
| CustomerSchemas.DigitsOnlyOfGroups | src/adapters/http/validation/customer.schemas.ts:3 | digit groups joined by separators reduce to the groups run together |
| CustomerSchemas.FormattedCpfGroups | tests/customer.e2e.spec.ts:69 | `123.456.789-01` is the four digit groups 123, 456, 789 and 01 joined by `.`, `.` and `-` |
| CustomerSchemas.FormattedCpfDigits | tests/customer.e2e.spec.ts:65-82 | `digitsOnly("123.456.789-01") == "12345678901"` |
| CustomerSchemas.ParseName | src/adapters/http/validation/customer.schemas.ts:7 | accepted iff a string whose trimmed form has at least 2 characters; the value is the trimmed string; otherwise issues at path `name` |
| CustomerSchemas.ParseAge | src/adapters/http/validation/customer.schemas.ts:8 | accepted iff `Number(…)` of the input converts and is an integer ≥ 0, the value being that number; throws, with the `TypeError`, iff `Number` throws; otherwise issues, all at path `age` |
| CustomerSchemas.ParseCpf | src/adapters/http/validation/customer.schemas.ts:9-12 | accepted iff a string whose `digitsOnly` form is exactly 11 digits; the value is that digit string; otherwise an issue at path `cpf` |
| CustomerSchemas.BodyIssuesEmpty | src/adapters/http/validation/customer.schemas.ts:5-14 | for an object body whose age converts, no issue iff it has no undeclared key and its three fields are acceptable (a body whose age throws never reaches the issue list) |
| CustomerSchemas.PathsWithinAppend | src/adapters/http/validation/customer.schemas.ts:5-14 | joining two issue lists keeps every issue at an allowed path |
| CustomerSchemas.BodyIssuesPaths | src/adapters/http/validation/customer.schemas.ts:5-14 | every issue of an object body is at the root or at `name`, `age` or `cpf` |
| CustomerSchemas.ParseCreateCustomerBody | src/adapters/http/validation/customer.schemas.ts:5-14 | parses iff the body is acceptable, with the trimmed name, the numeric age and the 11-digit cpf; throws the `TypeError` iff the body is an object whose age `Number` cannot convert; a rejection carries at least one issue, each at the root or at a field |
| CustomerSchemas.ParseId | src/adapters/http/validation/customer.schemas.ts:20 | accepted iff a string in uuid format; the value is the string itself |
| CustomerSchemas.ParseCustomerParams | src/adapters/http/validation/customer.schemas.ts:18-22 | parses iff the params are an object with only the key `id` whose value is a uuid string, with that id; never throws; a rejection carries at least one issue, each at the root or at `id` |
| CustomerSchemas.ParamsIssuesPaths | src/adapters/http/validation/customer.schemas.ts:18-22 | every issue of an object of route parameters is at the root or at `id` |
| Validation.SegmentTexts | src/adapters/http/validation/validate.ts:20 | one text per path segment, in order |
| Validation.JoinPathIsEmpty | src/adapters/http/validation/validate.ts:20 | the dot-join is empty iff the path is empty or a single empty key |
| Validation.JoinPathOfSeveral | src/adapters/http/validation/validate.ts:20 | a path of two or more segments never joins to `root` |
| Validation.JoinPathIsRoot | src/adapters/http/validation/validate.ts:20 | the dot-join is `root` iff the path is the single key `root` |
| Validation.IssuePath | src/adapters/http/validation/validate.ts:20 | the reported path is never empty; it is `root` exactly when the join is empty or is itself `root`; otherwise it is the dot-join |
| Validation.FromZodError | src/adapters/http/validation/validate.ts:16-24 | message `Invalid request`, one issue per input issue in the same order, with the joined path and the message copied unchanged |
| Validation.Validate | src/adapters/http/validation/validate.ts:27-35 | succeeds iff the schema parses, returning the parsed value; a rejection throws `fromZodError` of the schema's issues; an exception thrown inside `safeParse` passes through unchanged |
| HttpResponses.Ok | src/adapters/http/presenters/httpResponses.ts:3-6 | status 200, body `{data}` with the data unchanged, no headers |
| HttpResponses.Created | src/adapters/http/presenters/httpResponses.ts:8-11 | status 201, body `{data}` with the data unchanged, no headers |
| HttpErrorMapper.Json | src/adapters/http/presenters/httpErrorMapper.ts:6-9 | the helper never sets headers |
| HttpErrorMapper.ZodDetails | src/adapters/http/presenters/httpErrorMapper.ts:23-26 | one detail per schema issue |
| HttpErrorMapper.MapErrorToHttpResponse | src/adapters/http/presenters/httpErrorMapper.ts:11-64 | total; status in {400, 404, 409, 500}; 404 iff a not-found error; 409 iff another application error with code `CUSTOMER_ALREADY_EXISTS`; 500 iff not a known kind; the validation, application and internal bodies; never headers |
| HttpErrorMapper.SchemaFailureMatchesValidation | src/adapters/http/presenters/httpErrorMapper.ts:12-35 | a raw schema error maps to the same response as the `ValidationError` built from it |
| HttpErrorMapper.UnclassifiedDoesNotLeak | src/adapters/http/presenters/httpErrorMapper.ts:58-63 | the response to an unknown error does not depend on the error |
| HttpErrorMapper.ApplicationErrorStatuses | src/adapters/http/presenters/httpErrorMapper.ts:37-56 | not-found gives 404; an application or conflict error with code `NOT_FOUND` gives 400; a conflict gives 409 only with code `CUSTOMER_ALREADY_EXISTS` |
| HttpErrorMapper.SuccessAndErrorResponsesDiffer | src/adapters/http/presenters/httpResponses.ts:3-11 | no error response has the status of `ok` or `created`, and both presenters wrap the data unchanged |
| CustomerController.CreateOutcome | src/adapters/http/controllers/CustomerController.ts:19-30 | a thrown error is the validation error, the use case's application error, or the exception that escaped the schema (iff the age conversion throws), and leaves the store unchanged; a success is 201 with `{data}` holding the fresh id, and the store gains exactly that customer |
| CustomerController.Rethrown | src/adapters/http/controllers/CustomerController.ts:20 | what `validate` throws reaches the mapper as it is: a validation error, or an unclassified exception |
| CustomerController.InvalidBodyIsRejected | src/adapters/http/controllers/CustomerController.ts:20 | an invalid body raises the validation error of its issues before the use case runs, or the `TypeError` when its age cannot be converted; the store is unchanged |
| CustomerController.ValidBodyIsCreated | src/adapters/http/controllers/CustomerController.ts:19-30 | a valid body with a new cpf gives 201 with `{data: customer.toJSON()}` holding the fresh id and the normalised fields, and stores that customer |
| CustomerController.StoredCpfIsConflict | src/adapters/http/controllers/CustomerController.ts:22 | a valid body whose cpf is stored propagates the conflict unchanged; it maps to 409 and the store is unchanged |
| CustomerController.SameDigitsTwice | tests/customer.e2e.spec.ts:109-119 | two creates whose cpfs normalise to the same 11 digits give 201 and then a 409 conflict |
| CustomerController.Create | src/adapters/http/controllers/CustomerController.ts:19-30 | the method on the repository object gives the result and store of `CreateOutcome`, advances the id counter exactly on success, and keeps cpfs unique |
| CustomerController.GetById | src/adapters/http/controllers/CustomerController.ts:32-43 | 200 with `{data: customer.toJSON()}` iff the params are valid and the id is stored; invalid params raise the validation error; a miss propagates the not-found error (404) |
| EndToEnd.Respond | src/adapters/http/express/ExpressHttpServer.ts:47-50 | a handler's response is sent as it is, and a thrown error is sent as its mapped response |
| EndToEnd.Post | src/adapters/http/controllers/CustomerController.ts:19-30 | `POST /customers` answers 201, 400, 409 or 500; 400 iff the schema rejects the body without throwing; 500 iff converting the age throws; anything but 201 leaves the store unchanged |
| EndToEnd.GetPath | src/adapters/http/controllers/CustomerController.ts:32-43 | `GET /customers/:id` answers 200, 400 or 404; 200 iff the id is a uuid and stored; 400 iff the id is not a uuid |
| EndToEnd.UnknownTestIdIsUuid | tests/customer.e2e.spec.ts:121-127 | the id of the not-found test is in uuid format, so it passes the params schema and reaches the lookup |
| EndToEnd.InvalidBodyIs400 | tests/customer.e2e.spec.ts:84-107 | an invalid body gives 400 `VALIDATION_ERROR`, `Invalid request`, a non-empty details list; one whose age cannot be converted gives 500 `INTERNAL_SERVER_ERROR` without details; no write either way |
| EndToEnd.ToStringAgeIs500 | src/adapters/http/presenters/httpErrorMapper.ts:58-60 | an otherwise valid body with the age `{"toString": 1}` is answered 500 `INTERNAL_SERVER_ERROR` and stores nothing |
| EndToEnd.BodyOfFields | tests/customer.e2e.spec.ts:66-70 | a body built from the three fields has exactly the declared keys, each with its value |
| EndToEnd.ShortCpfIsInvalid | tests/customer.e2e.spec.ts:84-96 | a cpf shorter than 11 characters is rejected, and answered 400 unless `Number` throws on the age |
| EndToEnd.NegativeAgeIsInvalid | tests/customer.e2e.spec.ts:98-107 | a negative age is rejected without throwing, so it is answered 400 |
| EndToEnd.DuplicateIs409 | tests/customer.e2e.spec.ts:109-119 | posting the same payload twice gives 201, then 409 with `CUSTOMER_ALREADY_EXISTS` and its message, and no second write |
| EndToEnd.ParamsOfAcceptable | src/adapters/http/validation/customer.schemas.ts:18-22 | the route parameters of `/customers/:id` are accepted iff the id is a uuid |
| EndToEnd.StoredIdIs200 | src/adapters/http/controllers/CustomerController.ts:32-43 | a stored uuid id gives `ok(customer.toJSON())` |
| EndToEnd.UnknownIdIs404 | tests/customer.e2e.spec.ts:121-127 | an unknown uuid id gives 404 with `NOT_FOUND` and `Customer not found` |
| EndToEnd.CreateThenGetById | tests/customer.e2e.spec.ts:129-148 | a created customer has an id matching the test's uuid pattern (version and variant digits), and getting that id gives 200 with the same body |
| EndToEnd.FirstCustomerIsCreated | tests/customer.e2e.spec.ts:65-82 | the first test's payload gives 201 with name `Bruno Santos`, age 28, cpf `12345678901` and an id matching the test's uuid pattern (version and variant digits), and one more stored customer |
| EndToEnd.FirstBodyIsAccepted | tests/customer.e2e.spec.ts:65-70 | the first test's payload is accepted and normalises to (`Bruno Santos`, 28, `12345678901`) |
| EndToEnd.FirstBodyFields | tests/customer.e2e.spec.ts:65-70 | the payload's fields, its trimmed name and its digits-only cpf |
| EndToEnd.FirstAge | src/adapters/http/validation/customer.schemas.ts:8 | the age 28 is accepted as the integer 28 |
| Env.ParsePort | src/config/env.ts:8-11 | the port is always > 0; 3000 when unset; the parsed number when finite and positive; otherwise 3000 |
| Env.DefaultPortValue | src/config/env.ts:9 | the default text `3000` parses to 3000 |
| Env.DefaultPortDigits | src/config/env.ts:9 | `3000` is a digit string of value 3000 |
| Env.ParsePortOfDecimal | src/config/env.ts:8-11 | a decimal `n` gives port `n` when positive and 3000 for `0` |
| Env.ParsePortOfNegative | src/config/env.ts:10 | a negative decimal falls back to 3000 |
| Env.NegativeDecimal | src/config/env.ts:9 | `Number("-" + n)` is `-n` |
| Env.NegativeDigits | src/config/env.ts:9 | `Number` of a minus sign before digits is minus their value |
| Env.ParsePortOfWord | src/config/env.ts:8-11 | a non-numeric word falls back to 3000 |
| Env.ParseHttpAdapter | src/config/env.ts:13-16 | `express` iff the variable is set and lower-cases to `express`; `fastify` otherwise, including when unset |
| Env.ParseHttpAdapterIgnoresCase | src/config/env.ts:14-15 | every upper/lower-case spelling of `express` selects Express |
| Env.ParseHttpAdapterDefaults | src/config/env.ts:14-15 | unset, `FASTIFY` and `express ` (with a space) all give Fastify |
| Env.ReadEnv | src/config/env.ts:18-23 | the configuration is the two parsed variables, with a positive port |
| Env.ReadEnvDefaults | src/config/env.ts:18-23 | with neither variable set, port 3000 and Fastify |
| Swagger.ContentTypeByExt | src/config/swagger.ts:191-208 | the six listed extensions map to their content types; any other maps to `application/octet-stream` |
| Swagger.ContentTypeIsCaseSensitive | src/config/swagger.ts:191-208 | `.CSS`, `css` and the empty extension are not in the table |
| Swagger.Normalise | src/config/swagger.ts:214 | same length, and no backslash is left |
| Swagger.ContainsPairIff | src/config/swagger.ts:215 | the substring test for a doubled character holds iff two neighbouring characters are both that character |
| Swagger.GuardAssetPath | src/config/swagger.ts:214-217 | rejects exactly the normalised paths that start with `/`, contain `..` or contain `//`; an accepted path is the normalised one |
| Swagger.ParentReferenceRejected | src/config/swagger.ts:215-216 | any path containing `..` is rejected |
| Swagger.BackslashesRejected | src/config/swagger.ts:214-216 | backslashes are rewritten before the checks, so a leading `\`, `\\` and `/\` are rejected |
| Swagger.LastIndexOf | src/config/swagger.ts:221 | the index found holds the character and no later index does; none means the character does not occur |
| Swagger.TrimTrailingSlashes | src/config/swagger.ts:221 | a prefix of the path that does not end in `/`, and everything removed is `/` |
| Swagger.BaseName | src/config/swagger.ts:221 | the suffix of the trimmed path after its last `/` (all of it when there is none); it contains no `/` |
| Swagger.SegmentExt | src/config/swagger.ts:221 | the extension of one segment: empty iff the segment is `..` or has no `.` after its first character; otherwise the suffix from its last `.` |
| Swagger.ExtName | src/config/swagger.ts:221 | empty iff the last segment is `..` or has no `.` after its first character; otherwise a proper suffix of that segment that is a `.` followed by no `.` or `/` |
| Swagger.GetSwaggerUiAsset | src/config/swagger.ts:210-222 | null iff the guard rejects; otherwise the body read from the normalised path and the content type of its extension |
| Swagger.RejectedPathIsNotRead | src/config/swagger.ts:215-220 | a rejected path never reaches the file read: the result does not depend on the reader |
| Swagger.ExtNameOfFile | src/config/swagger.ts:221 | the extension of `stem.suffix` is `.suffix` |
| Swagger.SegmentExtOfFile | src/config/swagger.ts:221 | as one segment, `stem.suffix` has the extension `.suffix` |
| Swagger.PlainFileGuard | src/config/swagger.ts:214-217 | the guard accepts a plain file name and returns it unchanged |
| Swagger.PlainFileChars | src/config/swagger.ts:214-217 | a plain file name has no `/`, no backslash and no doubled `.` |
| Swagger.NormaliseWithoutBackslash | src/config/swagger.ts:214 | a path without backslashes is left unchanged |
| Swagger.PlainFileIsServed | src/config/swagger.ts:210-222 | a plain file name is read and served with the content type of its extension |
| Text.TrimStart | src/adapters/http/validation/customer.schemas.ts:7 | removes a prefix of white space and leaves a result that does not start with white space |
| Text.TrimEnd | src/adapters/http/validation/customer.schemas.ts:7 | removes a suffix of white space and leaves a result that does not end with white space |
| Text.Trim | src/adapters/http/validation/customer.schemas.ts:7 | an infix of the input with no white space at either end |
| Text.TrimIdempotent | src/adapters/http/validation/customer.schemas.ts:7 | trimming twice is trimming once |
| Text.TrimNoSpace | src/adapters/http/validation/customer.schemas.ts:7 | a string without white space is left unchanged |
| Text.TrimUnpadded | src/adapters/http/validation/customer.schemas.ts:7 | a string with no white space at either end is left unchanged |
| Text.TrimSignedDigits | src/config/env.ts:9 | a sign followed by digits is left unchanged by the trim `Number` performs |
| Text.NumeralDigits | src/config/env.ts:9 | every character of a numeral is a digit of its base |
| Text.NumeralRoundTrip | src/config/env.ts:9 | reading a numeral back gives the number |
| Text.NumeralInjective | src/adapters/repositories/PrismaCustomerRepository.ts:11-20 | different numbers have different numerals |
| Text.NumeralLength | tests/customer.e2e.spec.ts:79-81 | a number below base^width takes exactly `width` digits |
| Text.DecimalString | src/config/env.ts:9 | a decimal numeral is a non-empty digit string |
| Text.Join | src/adapters/http/validation/validate.ts:20 | no parts join to the empty string; otherwise the join starts with the first part, ends with the last, and the separator follows the first part when there are two or more |
| Text.StartsWith | src/config/swagger.ts:215 | `startsWith`: the string's prefix of the given length is the given prefix |
| Text.Contains | src/config/swagger.ts:215 | `includes`, by scanning start positions; characterised by `Text.ContainsIff` |
| Text.ContainsIff | src/config/swagger.ts:215 | `includes` holds iff the substring occurs at some index |
| Text.ReplaceChar | src/config/swagger.ts:214 | same length; each occurrence of the character is replaced and every other character is kept |
| Text.ToLowerAscii | src/config/env.ts:14 | same length; each upper-case ASCII letter is lowered and every other character is kept |
| JsNumber.UnsignedNumber | src/config/env.ts:9 | an unsigned literal is never negative; `Infinity` and only it gives +∞; never −∞ |
| JsNumber.SignedNumber | src/config/env.ts:9 | a trimmed literal: empty is 0; a negative value needs a leading `-`; −∞ iff `-Infinity`; +∞ iff `Infinity` or `+Infinity` |
| JsNumber.StringToNumber | src/config/env.ts:9 | `Number(s)`: blank text is 0; a negative value needs a leading `-` after trimming; −∞ iff the trimmed text is `-Infinity`; +∞ iff it is `Infinity` or `+Infinity` |
| JsNumber.StringToNumberIgnoresPadding | src/config/env.ts:9 | surrounding white space does not change `Number(s)` |
| JsNumber.ValueToNumber | src/adapters/http/validation/customer.schemas.ts:8 | throws the `TypeError` iff the value is an object with its own `toString` key or an array holding such a value at any depth; otherwise a number coerces to itself, a boolean or `null` to the integer 0 or 1, any other object to NaN, a string as `Number(s)`, an array of two or more to NaN, and a one-element array of a number, string, array or object as that element |
| JsNumber.StringToNumberOfDigits | src/config/env.ts:9 | `Number` of a digit string is its decimal value |
| JsNumber.StringToNumberOfDecimal | src/config/env.ts:9 | `Number(String(n))` is `n` |
| JsNumber.StringToNumberNegative | src/config/env.ts:9 | `Number` of `-` followed by a numeral is the negated unsigned value |
| JsNumber.ToNumber | src/adapters/http/validation/customer.schemas.ts:8 | throws iff the field is present and `ToPrimitive` throws on it; a JSON number coerces to itself and a missing field to NaN |
| Json.Get | src/adapters/http/validation/customer.schemas.ts:5-14 | a field is missing iff no member has the key; a present field is the value of the last member with that key, as `JSON.parse` keeps the last duplicate |
| Json.GetLastWins | src/adapters/http/validation/customer.schemas.ts:5-14 | a member appended with a key overrides every earlier member with that key |
| Zod.UnknownKeys | src/adapters/http/validation/customer.schemas.ts:14 | the undeclared keys are exactly the object's keys that the shape does not declare, each listed once, array-index keys first in ascending numeric order, as `for…in` visits them |
| Zod.UnknownKeysOrder | src/adapters/http/validation/customer.schemas.ts:14 | the undeclared keys that are not array indices come in the order of their first occurrence in the object |
| Zod.FirstIndex | src/adapters/http/validation/customer.schemas.ts:14 | the position of a key's first occurrence, `|keys|` iff it does not occur |
| Zod.FirstIndexSnoc | src/adapters/http/validation/customer.schemas.ts:14 | a member added last moves no earlier first occurrence, and a new key first occurs at the end |
| Zod.InsertIndexKey | src/adapters/http/validation/customer.schemas.ts:14 | inserting an array-index key adds exactly that key and keeps index keys first, ascending, and the keys distinct |
| Zod.InsertIndexKeyPlain | src/adapters/http/validation/customer.schemas.ts:14 | inserting an array-index key leaves the other keys in their order |
| Zod.AppendPlainKey | src/adapters/http/validation/customer.schemas.ts:14 | a key that is not an array index goes after all others without breaking the order or distinctness |
| Zod.IndexKeyReportedFirst | src/adapters/http/validation/customer.schemas.ts:14 | for `{"x": …, "0": …}` the undeclared keys are reported as `0`, then `x` |
| Zod.UnknownKeysEmpty | src/adapters/http/validation/customer.schemas.ts:14 | there is no undeclared key iff every member's key is declared |
| Zod.UnrecognizedKeysMessage | src/adapters/http/validation/customer.schemas.ts:14 | the message starts with `Unrecognized key(s) in object: `, then the first quoted key, and ends with the last quoted key |
| Zod.InvalidTypeMessage | src/adapters/http/validation/customer.schemas.ts:7-9 | `Required` iff the field is missing; otherwise `Expected <type>` … ending in the received type's name |
| Zod.IsUuid | src/adapters/http/validation/customer.schemas.ts:20 | the uuid format: 36 characters, hyphens at 8, 13, 18 and 23, hexadecimal digits in either case elsewhere |
| Zod.StrictIssues | src/adapters/http/validation/customer.schemas.ts:14 | no issue iff every key is declared; the issue sits at the root |

## Left out

- The Express and Fastify servers, routing, the composition root and server start-up are left
  out. They are framework bindings, sockets and promises. Only the Express `catch`, which sends
  the mapped response of any thrown error, is modelled (`EndToEnd.Respond`), and the Fastify
  adapter is assumed to do the same.
- The Prisma client and the database are replaced by the in-memory repository class. The unique
  cpf column becomes the invariant `CpfUnique`. `FindByCpf` requires it, as `findUnique` on
  `cpf` presupposes a unique column.
- The race between `findByCpf` and `create` under concurrent requests is left out. Calls are
  sequential, and uniqueness is claimed only for a sequence of calls.
- UUID v4 generation is random and is left out. Fresh ids are `IdFor(serial)`: a fixed
  `00000000-0000-4000-8000-` prefix followed by the serial in hexadecimal. They are distinct for
  every serial. While the serial is below 16^12 they match the test's uuid pattern, version and
  variant digits included.
- The use-case classes and the controller class have no state of their own beyond their
  collaborators. They are modelled as module-level functions and methods that take the repository.
- The controller's inline 201 record is the same record as `created(customer.toJSON())`, and
  the model builds it that way.
- `JsNumber.StringToNumber` models `Number(…)` on strings for optional sign, decimal digits and
  one decimal point, after trimming; `Infinity` and the empty string are also covered. Exponents,
  hexadecimal, octal and binary prefixes are not modelled and give NaN.
- `CustomerSchemas.ParseAge` inherits that gap: an age string such as `"2.8e1"`, which `Number`
  reads as 28, is refused.
- `Env.ParsePort` inherits it too: `PORT=8e3` gives 8000 in the service and 3000 here.
- `JsNumber.ValueToNumber`: an array converts through its string form only for zero or one
  element, and an element is then converted directly, not through the text `String` gives it.
- `JsNumber.ToNumber`: floating-point rounding is not modelled. Numbers are exact reals, so a
  value beyond 2^53 is not rounded, and a JSON literal too large for a double (such as `1e400`),
  which `JSON.parse` turns into `Infinity`, is not modelled.
- `CustomerSchemas.ParseName`: string lengths count characters, not UTF-16 code units, so
  `.min(2)` differs for characters outside the Basic Multilingual Plane.
- `Text.ToLowerAscii` lowers only ASCII letters. `toLowerCase` also lowers other letters, but
  no non-ASCII character lowers to one of the letters of `express`, so the adapter choice is
  the same.
- `Zod.IsUuid` takes the zod uuid format as 8-4-4-4-12 hexadecimal digits in either case.
  Zod releases that also constrain the version and variant digits are not modelled.
- `Zod.InvalidTypeMessage` and the order of issues inside zod follow zod's documented
  behaviour. The library itself is not part of this model.
- `Swagger.GetSwaggerUiAsset` models only the guard and content-type table of
  `getSwaggerUiAsset`. `require.resolve`, `path.join` and `fs.readFile` are I/O; the reader is a
  parameter, and the extension is taken from the normalised relative path. `path.join` also
  resolves `.` segments, which is not modelled.
- The OpenAPI document and the Swagger UI HTML page are static text and are left out.
- `Env.ReadEnv` takes the two environment variables as parameters instead of reading
  `process.env`.
- Response serialisation by the frameworks (`res.json`, headers, buffers) is left out.
