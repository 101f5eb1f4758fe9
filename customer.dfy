/**
 * The domain entity: a customer with an id, a name, an age and a cpf, built from a persisted
 * record without any check and serialised back to the same four fields.
 */
module Customers {

  /** The persisted record, and the shape `toJSON` produces. */
  datatype CustomerProps = CustomerProps(id: string, name: string, age: int, cpf: string)

  /** The entity; its fields are read-only, so it is a value. */
  datatype Customer = Customer(id: string, name: string, age: int, cpf: string)

  /** `Customer.fromPersistence(props)`: accepts every record and copies its four fields. */
  function FromPersistence(props: CustomerProps): (c: Customer)
    ensures c.id == props.id && c.name == props.name && c.age == props.age && c.cpf == props.cpf
  {
    Customer(props.id, props.name, props.age, props.cpf)
  }

  /** `customer.toJSON()`: exactly the four fields, which rebuild the same customer. */
  function ToJson(c: Customer): (props: CustomerProps)
    ensures FromPersistence(props) == c
  {
    CustomerProps(c.id, c.name, c.age, c.cpf)
  }

  /** Serialising a customer built from a record gives that record back. */
  lemma ToJsonFromPersistence(props: CustomerProps)
    ensures ToJson(FromPersistence(props)) == props
  {
  }

  /** Two customers serialise alike only if they are the same customer. */
  lemma ToJsonInjective(a: Customer, b: Customer)
    ensures ToJson(a) == ToJson(b) ==> a == b
  {
  }
}
