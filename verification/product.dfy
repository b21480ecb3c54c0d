/** The `Product` entity: six fields, a parameterless constructor, a
    full-field constructor, and the two members the request handlers call
    on it (a five-field constructor and a five-field `Update`). The entity
    holds state only; it checks nothing. */
module Entities {

  /** A 128-bit globally unique identifier. */
  type Guid = x: int | 0 <= x < 0x1_0000_0000_0000_0000_0000_0000_0000_0000

  /** `Guid.Empty`, the default value of an identifier field. */
  const EmptyGuid: Guid := 0

  /** A signed 32-bit integer, the width of `int` in the source. */
  type Int32 = x: int | -0x8000_0000 <= x < 0x8000_0000

  /** An exact decimal number, `mantissa / 10^scale`. Its textual forms are
      produced and consumed only by library code outside this model. */
  datatype Decimal = Decimal(mantissa: int, scale: nat)

  /** The default value of a decimal field. */
  const DecimalZero: Decimal := Decimal(0, 0)

  /** A value of the integer-backed category enumeration. The cast from the
      wire enumeration keeps the numeric value, named or not. */
  type Category = Int32

  datatype Product = Product(
    id: Guid,
    name: string,
    description: string,
    price: Decimal,
    category: Category,
    quantity: Int32)

  /** The parameterless constructor: every field keeps its default; the two
      text fields are initialised to the empty string rather than null. */
  function EmptyProduct(): (p: Product)
    ensures p.name == "" && p.description == ""
    ensures p.id == EmptyGuid && p.price == DecimalZero
    ensures p.category == 0 && p.quantity == 0
  {
    Product(EmptyGuid, "", "", DecimalZero, 0, 0)
  }

  /** The full-field constructor: each argument is stored verbatim, and
      nothing about the values is checked. */
  function Construct(id: Guid, name: string, description: string, price: Decimal,
                     category: Category, quantity: Int32): (p: Product)
    ensures p.id == id
    ensures p.name == name && p.description == description
    ensures p.price == price && p.category == category && p.quantity == quantity
  {
    Product(id, name, description, price, category, quantity)
  }

  /** The five-field constructor the create handler calls. The identifier is
      left at its default; the store assigns one when the row is inserted. */
  function FromDetails(name: string, description: string, price: Decimal,
                       category: Category, quantity: Int32): (p: Product)
    ensures p.id == EmptyGuid
    ensures p.name == name && p.description == description
    ensures p.price == price && p.category == category && p.quantity == quantity
  {
    Construct(EmptyGuid, name, description, price, category, quantity)
  }

  /** The full-replace update the update handler calls: the identifier is
      kept and all five other fields take the given values together. */
  function Update(p: Product, name: string, description: string, price: Decimal,
                  category: Category, quantity: Int32): (q: Product)
    ensures q == Construct(p.id, name, description, price, category, quantity)
  {
    p.(name := name, description := description, price := price,
       category := category, quantity := quantity)
  }

  /** The parameterless constructor is the full constructor applied to the
      default of every field. */
  lemma EmptyIsConstructOfDefaults()
    ensures EmptyProduct() == Construct(EmptyGuid, "", "", DecimalZero, 0, 0)
  {
  }

  /** Reading the six fields back and constructing again gives the same
      product: the full constructor loses nothing. */
  lemma ConstructFromFields(p: Product)
    ensures Construct(p.id, p.name, p.description, p.price, p.category, p.quantity) == p
  {
  }

  /** The entity enforces no invariant: an empty name, an empty description
      and a negative quantity are all representable. */
  lemma EntityEnforcesNoInvariant(id: Guid, price: Decimal, category: Category, quantity: Int32)
    requires quantity < 0
    ensures var p := Construct(id, "", "", price, category, quantity);
            p.name == "" && p.description == "" && p.quantity < 0
  {
  }

  /** No field but the identifier survives an update: two products with the
      same identifier become equal when updated with the same values. */
  lemma UpdateForgetsPreviousFields(p: Product, p': Product, name: string, description: string,
                                    price: Decimal, category: Category, quantity: Int32)
    requires p.id == p'.id
    ensures Update(p, name, description, price, category, quantity)
         == Update(p', name, description, price, category, quantity)
  {
  }
}
