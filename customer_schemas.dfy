/**
 * The request schemas of the customer endpoints, written as the validating functions zod
 * builds from them: `CreateCustomerBodySchema` for the body of `POST /customers` and
 * `CustomerParamsSchema` for the route parameters of `GET /customers/:id`.
 */
module CustomerSchemas {
  import opened Wrappers
  import opened Text
  import opened Json
  import opened JsNumber
  import opened Zod

  const NameTooShort := "Name must have at least 2 characters"
  const AgeNotInteger := "Age must be an integer"
  const AgeNegative := "Age must be >= 0"
  const CpfNotElevenDigits := "CPF must have 11 digits"
  const AgeNotANumber := "Expected number, received nan"
  const InvalidId := "Invalid id"

  /** The keys the two strict objects declare. */
  const BodyShape: seq<string> := ["name", "age", "cpf"]
  const ParamsShape: seq<string> := ["id"]

  // ---------------------------------------------------------------------------
  // digitsOnly: `value.replace(/\D/g, '')`

  /** Deletes every character that is not an ASCII digit. */
  function DigitsOnly(s: string): (r: string)
    ensures |r| <= |s|
    ensures AllDigits(r)
  {
    if s == [] then [] else (if IsDigit(s[0]) then [s[0]] else []) + DigitsOnly(s[1..])
  }

  /** Deleting distributes over concatenation, so the digits keep their original order. */
  lemma {:induction false} DigitsOnlyAppend(s: string, t: string)
    ensures DigitsOnly(s + t) == DigitsOnly(s) + DigitsOnly(t)
  {
    if s == [] {
      assert s + t == t;
    } else {
      assert (s + t)[1..] == s[1..] + t;
      DigitsOnlyAppend(s[1..], t);
    }
  }

  /** Every digit of the input is kept, as often as it occurs; nothing else is. */
  lemma {:induction false} DigitsOnlyCounts(s: string, c: char)
    ensures multiset(DigitsOnly(s))[c] == if IsDigit(c) then multiset(s)[c] else 0
  {
    if s != [] {
      DigitsOnlyCounts(s[1..], c);
      var head := if IsDigit(s[0]) then [s[0]] else [];
      assert DigitsOnly(s) == head + DigitsOnly(s[1..]);
      assert multiset(DigitsOnly(s)) == multiset(head) + multiset(DigitsOnly(s[1..]));
      assert s == [s[0]] + s[1..];
      assert multiset(s) == multiset([s[0]]) + multiset(s[1..]);
    }
  }

  /** A string of digits is left as it is. */
  lemma {:induction false} DigitsOnlyOfDigits(s: string)
    requires AllDigits(s)
    ensures DigitsOnly(s) == s
  {
    if s != [] {
      DigitsOnlyOfDigits(s[1..]);
    }
  }

  lemma DigitsOnlyIdempotent(s: string)
    ensures DigitsOnly(DigitsOnly(s)) == DigitsOnly(s)
  {
    DigitsOnlyOfDigits(DigitsOnly(s));
  }

  /** A trailing separator is dropped. */
  lemma DigitsOnlyDropsSeparator(p: string, separator: char)
    requires !IsDigit(separator)
    ensures DigitsOnly(p + [separator]) == DigitsOnly(p)
  {
    DigitsOnlyAppend(p, [separator]);
    assert DigitsOnly([separator]) == [];
    assert DigitsOnly(p) + [] == DigitsOnly(p);
  }

  /** Trailing digits are kept. */
  lemma DigitsOnlyKeepsDigits(p: string, digits: string)
    requires AllDigits(digits)
    ensures DigitsOnly(p + digits) == DigitsOnly(p) + digits
  {
    DigitsOnlyAppend(p, digits);
    DigitsOnlyOfDigits(digits);
  }

  /** Groups of digits joined by separators reduce to the groups run together. */
  lemma DigitsOnlyOfGroups(a: string, b: string, c: string, d: string, s1: char, s2: char, s3: char)
    requires AllDigits(a) && AllDigits(b) && AllDigits(c) && AllDigits(d)
    requires !IsDigit(s1) && !IsDigit(s2) && !IsDigit(s3)
    ensures DigitsOnly(a + [s1] + b + [s2] + c + [s3] + d) == a + b + c + d
  {
    DigitsOnlyOfDigits(a);
    DigitsOnlyDropsSeparator(a, s1);
    DigitsOnlyKeepsDigits(a + [s1], b);
    DigitsOnlyDropsSeparator(a + [s1] + b, s2);
    DigitsOnlyKeepsDigits(a + [s1] + b + [s2], c);
    DigitsOnlyDropsSeparator(a + [s1] + b + [s2] + c, s3);
    DigitsOnlyKeepsDigits(a + [s1] + b + [s2] + c + [s3], d);
  }

  lemma FormattedCpfGroups()
    ensures "123.456.789-01" == "123" + ['.'] + "456" + ['.'] + "789" + ['-'] + "01"
    ensures "123" + "456" + "789" + "01" == "12345678901"
    ensures AllDigits("123") && AllDigits("456") && AllDigits("789") && AllDigits("01")
  {
  }

  /** A cpf written with its usual punctuation reduces to its eleven digits. */
  lemma FormattedCpfDigits()
    ensures DigitsOnly("123.456.789-01") == "12345678901"
  {
    FormattedCpfGroups();
    DigitsOnlyOfGroups("123", "456", "789", "01", '.', '.', '-');
  }

  /** The refinement `/^\d{11}$/.test(value)`. */
  predicate IsElevenDigits(v: string) {
    |v| == 11 && AllDigits(v)
  }

  // ---------------------------------------------------------------------------
  // CreateCustomerBodySchema

  /** The DTO the schema produces: trimmed name, integer age, cpf reduced to its digits. */
  datatype CreateCustomerBody = CreateCustomerBody(name: string, age: nat, cpf: string)

  /** The issues of one field, none when it parsed. */
  function IssuesOf<T>(r: Result<T, seq<Issue>>): seq<Issue> {
    if r.Err? then r.error else []
  }

  /** The issues of a coerced field, none when it parsed or threw. */
  function RejectedIssues<T>(r: SafeParseResult<T>): seq<Issue> {
    if r.Rejected? then r.issues else []
  }

  /** What each field accepts, stated on the raw input. */
  predicate NameAcceptable(v: Option<Value>) {
    v.Some? && v.value.JString? && |Trim(v.value.s)| >= 2
  }

  predicate AgeAcceptable(v: Option<Value>) {
    ToNumber(v).Ok? && IsInteger(ToNumber(v).value) && ToNumber(v).value.value >= 0.0
  }

  /** Coercing the age throws, so parsing stops with that exception. */
  predicate AgeRaises(v: Option<Value>) {
    ToNumber(v).Err?
  }

  predicate CpfAcceptable(v: Option<Value>) {
    v.Some? && v.value.JString? && |DigitsOnly(v.value.s)| == 11
  }

  /** `name: z.string().trim().min(2, …)` */
  function ParseName(v: Option<Value>): (r: Result<string, seq<Issue>>)
    ensures r.Ok? <==> NameAcceptable(v)
    ensures r.Ok? ==> r.value == Trim(v.value.s) && |r.value| >= 2
    ensures r.Err? ==> r.error != [] && forall i :: 0 <= i < |r.error| ==> r.error[i].path == [Key("name")]
  {
    match v
    case Some(JString(s)) =>
      var t := Trim(s);
      if |t| < 2 then Err([Issue([Key("name")], NameTooShort)]) else Ok(t)
    case _ => Err([Issue([Key("name")], InvalidTypeMessage("string", v))])
  }

  /** Below zero, as `.min(0)` compares (`value < 0`). */
  predicate BelowZero(n: Num) {
    n.NegativeInfinity? || (n.Finite? && n.value < 0.0)
  }

  /**
   * `age: z.coerce.number().int(…).min(0, …)`: the input goes through `Number(…)`, whose
   * `TypeError` propagates; NaN is a type error; otherwise both checks run and each failing one
   * adds its issue.
   */
  function ParseAge(v: Option<Value>): (r: SafeParseResult<nat>)
    ensures r.Parsed? <==> AgeAcceptable(v)
    ensures r.Raised? <==> AgeRaises(v)
    ensures r.Raised? ==> r.description == CannotConvertToPrimitive
    ensures r.Parsed? ==> r.data as real == ToNumber(v).value.value
    ensures r.Rejected? ==> r.issues != [] && forall i :: 0 <= i < |r.issues| ==> r.issues[i].path == [Key("age")]
  {
    match ToNumber(v)
    case Err(e) => Raised(e)
    case Ok(n) =>
      if n.NaN? then Rejected([Issue([Key("age")], AgeNotANumber)])
      else
        var issues := (if IsInteger(n) then [] else [Issue([Key("age")], AgeNotInteger)])
                      + (if BelowZero(n) then [Issue([Key("age")], AgeNegative)] else []);
        if issues == [] then Parsed(n.value.Floor) else Rejected(issues)
  }

  /** `cpf: z.string().transform(digitsOnly).refine(/^\d{11}$/ …)` */
  function ParseCpf(v: Option<Value>): (r: Result<string, seq<Issue>>)
    ensures r.Ok? <==> CpfAcceptable(v)
    ensures r.Ok? ==> r.value == DigitsOnly(v.value.s) && IsElevenDigits(r.value)
    ensures r.Err? ==> r.error != [] && forall i :: 0 <= i < |r.error| ==> r.error[i].path == [Key("cpf")]
  {
    match v
    case Some(JString(s)) =>
      var d := DigitsOnly(s);
      if IsElevenDigits(d) then Ok(d) else Err([Issue([Key("cpf")], CpfNotElevenDigits)])
    case _ => Err([Issue([Key("cpf")], InvalidTypeMessage("string", v))])
  }

  /** The body is accepted exactly when it is an object with no undeclared key whose three fields are acceptable. */
  predicate BodyAcceptable(data: Option<Value>) {
    && data.Some? && data.value.JObject?
    && var m := data.value.members;
    && (forall i :: 0 <= i < |m| ==> m[i].0 in BodyShape)
    && NameAcceptable(Get(m, "name"))
    && AgeAcceptable(Get(m, "age"))
    && CpfAcceptable(Get(m, "cpf"))
  }

  /** `safeParse` throws instead of returning: the body is an object whose age `Number` cannot convert. */
  predicate BodyRaises(data: Option<Value>) {
    data.Some? && data.value.JObject? && AgeRaises(Get(data.value.members, "age"))
  }

  /** All issues of an object body: the three fields in declaration order, then `.strict()`. */
  function BodyIssues(m: seq<(string, Value)>): seq<Issue> {
    IssuesOf(ParseName(Get(m, "name"))) + RejectedIssues(ParseAge(Get(m, "age"))) + IssuesOf(ParseCpf(Get(m, "cpf")))
    + StrictIssues(m, BodyShape)
  }

  /** An object body whose age converts has no issue exactly when it is acceptable. */
  lemma BodyIssuesEmpty(m: seq<(string, Value)>)
    requires !AgeRaises(Get(m, "age"))
    ensures BodyIssues(m) == [] <==> BodyAcceptable(Some(JObject(m)))
  {
    var name := ParseName(Get(m, "name"));
    var age := ParseAge(Get(m, "age"));
    var cpf := ParseCpf(Get(m, "cpf"));
    var strict := StrictIssues(m, BodyShape);
    assert RejectedIssues(age) == [] <==> age.Parsed?;
    assert IssuesOf(name) == [] <==> name.Ok?;
    assert IssuesOf(cpf) == [] <==> cpf.Ok?;
    assert BodyIssues(m) == IssuesOf(name) + RejectedIssues(age) + IssuesOf(cpf) + strict;
    assert BodyIssues(m) == [] <==> name.Ok? && age.Parsed? && cpf.Ok? && strict == [];
  }

  /** Every issue in `issues` sits at one of the `allowed` paths. */
  predicate PathsWithin(issues: seq<Issue>, allowed: set<seq<PathSegment>>) {
    forall i :: 0 <= i < |issues| ==> issues[i].path in allowed
  }

  lemma PathsWithinAppend(a: seq<Issue>, b: seq<Issue>, allowed: set<seq<PathSegment>>)
    requires PathsWithin(a, allowed) && PathsWithin(b, allowed)
    ensures PathsWithin(a + b, allowed)
  {
    forall i | 0 <= i < |a + b|
      ensures (a + b)[i].path in allowed
    {
      if i < |a| {
        assert (a + b)[i] == a[i];
      } else {
        assert (a + b)[i] == b[i - |a|];
      }
    }
  }

  /** Every issue of an object body sits at the root or at one of the three fields. */
  lemma BodyIssuesPaths(m: seq<(string, Value)>)
    ensures PathsWithin(BodyIssues(m), {[], [Key("name")], [Key("age")], [Key("cpf")]})
  {
    var allowed: set<seq<PathSegment>> := {[], [Key("name")], [Key("age")], [Key("cpf")]};
    var n := IssuesOf(ParseName(Get(m, "name")));
    var a := RejectedIssues(ParseAge(Get(m, "age")));
    var c := IssuesOf(ParseCpf(Get(m, "cpf")));
    var strict := StrictIssues(m, BodyShape);
    assert PathsWithin(n, allowed);
    assert PathsWithin(a, allowed);
    assert PathsWithin(c, allowed);
    assert PathsWithin(strict, allowed) by {
      forall i | 0 <= i < |strict| ensures strict[i].path in allowed {
        assert strict[i].path == [];
      }
    }
    PathsWithinAppend(n, a, allowed);
    PathsWithinAppend(n + a, c, allowed);
    PathsWithinAppend(n + a + c, strict, allowed);
  }

  /**
   * `CreateCustomerBodySchema.safeParse(data)`: the fields are checked in declaration order, then
   * `.strict()` reports undeclared keys; a non-object body is a single type issue at the root.
   * When coercing the age throws, `safeParse` throws too, whatever the other fields hold.
   */
  function ParseCreateCustomerBody(data: Option<Value>): (r: SafeParseResult<CreateCustomerBody>)
    ensures r.Parsed? <==> BodyAcceptable(data)
    ensures r.Raised? <==> BodyRaises(data)
    ensures r.Raised? ==> r.description == CannotConvertToPrimitive
    ensures r.Parsed? ==>
      var m := data.value.members;
      && r.data.name == Trim(Get(m, "name").value.s)
      && r.data.age as real == ToNumber(Get(m, "age")).value.value
      && r.data.cpf == DigitsOnly(Get(m, "cpf").value.s)
      && IsElevenDigits(r.data.cpf)
    ensures r.Rejected? ==>
      r.issues != [] && PathsWithin(r.issues, {[], [Key("name")], [Key("age")], [Key("cpf")]})
  {
    match data
    case Some(JObject(m)) =>
      var age := ParseAge(Get(m, "age"));
      if age.Raised? then Raised(age.description)
      else
        BodyIssuesEmpty(m);
        BodyIssuesPaths(m);
        if BodyIssues(m) == [] then
          Parsed(CreateCustomerBody(ParseName(Get(m, "name")).value, age.data, ParseCpf(Get(m, "cpf")).value))
        else
          Rejected(BodyIssues(m))
    case _ => Rejected([Issue([], InvalidTypeMessage("object", data))])
  }

  // ---------------------------------------------------------------------------
  // CustomerParamsSchema

  datatype CustomerParams = CustomerParams(id: string)

  predicate ParamsAcceptable(data: Option<Value>) {
    && data.Some? && data.value.JObject?
    && var m := data.value.members;
    && (forall i :: 0 <= i < |m| ==> m[i].0 in ParamsShape)
    && Get(m, "id").Some? && Get(m, "id").value.JString?
    && IsUuid(Get(m, "id").value.s)
  }

  /** `id: z.string().uuid('Invalid id')` */
  function ParseId(v: Option<Value>): (r: Result<string, seq<Issue>>)
    ensures r.Ok? <==> v.Some? && v.value.JString? && IsUuid(v.value.s)
    ensures r.Ok? ==> r.value == v.value.s
    ensures r.Err? ==> r.error != [] && forall i :: 0 <= i < |r.error| ==> r.error[i].path == [Key("id")]
  {
    match v
    case Some(JString(s)) => if IsUuid(s) then Ok(s) else Err([Issue([Key("id")], InvalidId)])
    case _ => Err([Issue([Key("id")], InvalidTypeMessage("string", v))])
  }

  /** Every issue of an object of route parameters sits at the root or at `id`. */
  lemma ParamsIssuesPaths(m: seq<(string, Value)>)
    ensures PathsWithin(IssuesOf(ParseId(Get(m, "id"))) + StrictIssues(m, ParamsShape), {[], [Key("id")]})
  {
    var allowed: set<seq<PathSegment>> := {[], [Key("id")]};
    var id := IssuesOf(ParseId(Get(m, "id")));
    var strict := StrictIssues(m, ParamsShape);
    assert PathsWithin(id, allowed);
    assert PathsWithin(strict, allowed) by {
      forall i | 0 <= i < |strict| ensures strict[i].path in allowed {
        assert strict[i].path == [];
      }
    }
    PathsWithinAppend(id, strict, allowed);
  }

  /** `CustomerParamsSchema.safeParse(data)` */
  function ParseCustomerParams(data: Option<Value>): (r: SafeParseResult<CustomerParams>)
    ensures r.Parsed? <==> ParamsAcceptable(data)
    ensures r.Parsed? ==> r.data.id == Get(data.value.members, "id").value.s
    ensures r.Rejected? ==> r.issues != [] && PathsWithin(r.issues, {[], [Key("id")]})
    ensures !r.Raised?
  {
    match data
    case Some(JObject(m)) =>
      var id := ParseId(Get(m, "id"));
      var issues := IssuesOf(id) + StrictIssues(m, ParamsShape);
      ParamsIssuesPaths(m);
      if issues == [] then Parsed(CustomerParams(id.value)) else Rejected(issues)
    case _ => Rejected([Issue([], InvalidTypeMessage("object", data))])
  }
}
