/**
 * The repository port (`create`, `findById`, `findByCpf`) and an in-memory implementation of
 * it: a map from id to customer plus a counter from which fresh, uuid-shaped ids are drawn.
 */
module CustomerRepository {
  import opened Wrappers
  import opened Text
  import opened Zod
  import opened Customers

  type Id = string

  /** `CreateCustomerRepositoryInput`: what `create` is given; the id is the store's choice. */
  datatype CreateCustomerRepositoryInput = CreateCustomerRepositoryInput(name: string, age: int, cpf: string)

  // ---------------------------------------------------------------------------
  // Fresh ids

  const IdPrefix := "00000000-0000-4000-8000-"

  /** The id handed out for the `serial`-th record: a version-4-shaped uuid ending in the serial in hex. */
  function IdFor(serial: nat): (id: Id)
    ensures |id| >= 36
  {
    IdPrefix + Numeral(serial, 16, 12)
  }

  /** Different serials give different ids, so an id never handed out before is fresh. */
  lemma IdForInjective(m: nat, n: nat)
    requires IdFor(m) == IdFor(n)
    ensures m == n
  {
    assert IdFor(m)[|IdPrefix|..] == Numeral(m, 16, 12);
    assert IdFor(n)[|IdPrefix|..] == Numeral(n, 16, 12);
    NumeralInjective(m, n, 16, 12);
  }

  /**
   * An RFC 4122 uuid as the service's clients match it: the 8-4-4-4-12 hex shape with a version
   * digit `1`-`5` at index 14 and a variant digit `8`, `9`, `a` or `b` (either case) at index 19.
   */
  predicate IsVersionedUuid(s: string) {
    IsUuid(s) && '1' <= s[14] <= '5' && s[19] in "89abAB"
  }

  /**
   * Below 16^12 records, every id handed out passes `z.string().uuid()` and is a version-4,
   * variant-8 uuid.
   */
  lemma IdForIsUuid(serial: nat)
    requires serial < Pow(16, 12)
    ensures IsUuid(IdFor(serial))
    ensures IdFor(serial)[14] == '4' && IdFor(serial)[19] == '8'
    ensures IsVersionedUuid(IdFor(serial))
  {
    NumeralLength(serial, 16, 12);
    NumeralDigits(serial, 16, 12);
    var id := IdFor(serial);
    forall i | 0 <= i < 36
      ensures if i == 8 || i == 13 || i == 18 || i == 23 then id[i] == '-' else IsHexDigit(id[i])
    {
      if i >= |IdPrefix| {
        assert id[i] == Numeral(serial, 16, 12)[i - |IdPrefix|];
      }
    }
  }

  // ---------------------------------------------------------------------------
  // Reading the store

  /** Some stored customer has this cpf. */
  predicate HasCpf(customers: map<Id, Customer>, cpf: string) {
    exists id :: id in customers && customers[id].cpf == cpf
  }

  /** No two stored customers share a cpf (the unique column `findByCpf` relies on). */
  predicate CpfUnique(customers: map<Id, Customer>) {
    forall a, b :: a in customers && b in customers && customers[a].cpf == customers[b].cpf ==> a == b
  }

  /** `findById(id)`: the stored customer, or null. */
  function FindById(customers: map<Id, Customer>, id: Id): (r: Option<Customer>)
    ensures r.Some? <==> id in customers
    ensures r.Some? ==> r.value == customers[id]
  {
    if id in customers then Some(customers[id]) else None
  }

  /** `findByCpf(cpf)`: the one stored customer with this cpf, or null. */
  function FindByCpf(customers: map<Id, Customer>, cpf: string): (r: Option<Customer>)
    requires CpfUnique(customers)
    ensures r.Some? <==> HasCpf(customers, cpf)
    ensures r.Some? ==> r.value.cpf == cpf && r.value in customers.Values
  {
    if HasCpf(customers, cpf) then
      var id :| id in customers && customers[id].cpf == cpf;
      Some(customers[id])
    else
      None
  }

  // ---------------------------------------------------------------------------
  // The store

  /** Every id in the map was handed out before the `issued`-th. */
  predicate IssuedBefore(id: Id, issued: nat) {
    exists k: nat :: k < issued && IdFor(k) == id
  }

  lemma NextIdIsFresh(customers: map<Id, Customer>, issued: nat)
    requires forall id :: id in customers ==> IssuedBefore(id, issued)
    ensures IdFor(issued) !in customers
  {
    if IdFor(issued) in customers {
      var k: nat :| k < issued && IdFor(k) == IdFor(issued);
      IdForInjective(k, issued);
      assert false;
    }
  }

  class InMemoryCustomerRepository {
    var customers: map<Id, Customer>
    var issued: nat

    /** Each record is stored under its own id, and every id was drawn from the counter. */
    ghost predicate Valid()
      reads this
    {
      forall id :: id in customers ==> customers[id].id == id && IssuedBefore(id, issued)
    }

    constructor()
      ensures Valid()
      ensures customers == map[] && issued == 0
    {
      customers := map[];
      issued := 0;
    }

    /**
     * `create(input)`: stores a new record under a fresh id and returns the customer built from
     * it; nothing already stored changes.
     */
    method Create(input: CreateCustomerRepositoryInput) returns (c: Customer)
      requires Valid()
      modifies this
      ensures Valid()
      ensures c == FromPersistence(CustomerProps(IdFor(old(issued)), input.name, input.age, input.cpf))
      ensures c.id !in old(customers)
      ensures customers == old(customers)[c.id := c]
      ensures issued == old(issued) + 1
    {
      NextIdIsFresh(customers, issued);
      c := FromPersistence(CustomerProps(IdFor(issued), input.name, input.age, input.cpf));
      customers := customers[c.id := c];
      issued := issued + 1;
    }
  }
}
