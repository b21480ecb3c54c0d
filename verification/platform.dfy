/** The library calls the service makes but does not define, and the
    message types of the generated RPC contract. */
module Platform {
  import opened Results
  import opened Entities

  /** The foreign functions the handlers call. Each is an arbitrary total
      function: nothing is assumed about its grammar or formatting.
      - `parseGuid`: `Guid.TryParse`, `None` when it returns false.
      - `formatGuid`: `Guid.ToString()`.
      - `parsePrice`: `decimal.Parse` with the invariant culture; a failure
        carries the message of the exception it throws.
      - `formatPrice`: `decimal.ToString()` with the current culture.
      - `categoryText`: `ToString()` of the wire enumeration value.
      - `categoryKnown`: `Enum.TryParse` of that text into the category
        enumeration (which also accepts numeric text).
      - `categoryName`: `Enum.GetName` of a category, `None` for null.
      - `nullValueMessage`: the message of the exception a generated message
        type throws when null is assigned to one of its string fields. */
  datatype Env = Env(
    parseGuid: string -> Option<Guid>,
    formatGuid: Guid -> string,
    parsePrice: string -> Result<Decimal, string>,
    formatPrice: Decimal -> string,
    categoryText: Int32 -> string,
    categoryKnown: string -> bool,
    categoryName: Category -> Option<string>,
    nullValueMessage: string)

  /** `Guid.TryParse` accepts the text. */
  predicate ValidId(env: Env, s: string)
  {
    env.parseGuid(s).Some?
  }

  /** `Guid.TryParse` accepts the text `Guid.ToString()` produces and gives
      back the same identifier. The handlers do not rely on it; it is what
      lets a client reuse the identifier text a response carries. */
  predicate GuidTextRoundTrips(env: Env)
  {
    forall g: Guid :: env.parseGuid(env.formatGuid(g)) == Some(g)
  }

  datatype CreateProductRequest = CreateProductRequest(
    name: string, description: string, price: string, category: Int32, quantity: Int32)

  datatype UpdateProductRequest = UpdateProductRequest(
    id: string, name: string, description: string, price: string, category: Int32, quantity: Int32)

  datatype ProductIdRequest = ProductIdRequest(id: string)

  datatype ProductResponse = ProductResponse(
    id: string, name: string, description: string, price: string, quantity: Int32, category: string)

  datatype ProductDeletedResponse = ProductDeletedResponse(message: string)
}
