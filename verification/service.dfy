/** The request handlers of the product CRUD service, over an abstract
    store. Each handler is a pure function from the store and a request to
    the caller-visible result and the store afterwards. The body of each
    handler's try block yields a `Step`; `Guard` applies the catch clauses. */
module CrudProductService {
  import opened Results
  import opened Text
  import opened Entities
  import opened Rpc
  import opened Platform

  /** The product table, keyed by identifier. */
  type Store = map<Guid, Product>

  /** Every row sits under its own identifier, as a primary key does. */
  predicate WellFormed(store: Store)
  {
    forall g :: g in store ==> store[g].id == g
  }

  /** What a handler's try block produced, and the store it left. */
  datatype Step<T> = Step(outcome: Result<T, Fault>, store: Store)

  /** What the caller receives, and the store the handler left. */
  datatype Reply<T> = Reply(result: Result<T, Status>, store: Store)

  /** The try/catch around a handler body. */
  function Guard<T>(s: Step<T>): Reply<T>
  {
    Reply(CatchAll(s.outcome), s.store)
  }

  const InvalidIdMessage: string := "The product Id is invalid."
  const NameEmptyMessage: string := "The product name cannot be empty."
  const DescriptionEmptyMessage: string := "The product description cannot be empty."
  const PriceEmptyMessage: string := "The product price cannot be empty."
  const QuantityNegativeMessage: string := "Quantity cannot be negative."
  const CategoryUnknownMessage: string := "The product category is not reconized."

  /** The messages of the five field checks, in the order they are made. */
  const ValidationMessages: seq<string> :=
    [NameEmptyMessage, DescriptionEmptyMessage, PriceEmptyMessage,
     QuantityNegativeMessage, CategoryUnknownMessage]

  function NotFoundMessage(idText: string): string
  {
    "Product with ID " + idText + " was not found."
  }

  function DeletedMessage(name: string): string
  {
    "Product " + name + " excluded with success."
  }

  /** Which of the five field checks pass, in checking order. */
  function FieldChecks(name: string, description: string, price: string,
                       quantity: Int32, categoryKnown: bool): (c: seq<bool>)
    ensures |c| == |ValidationMessages|
  {
    [|name| > 0, |description| > 0, |price| > 0, quantity >= 0, categoryKnown]
  }

  /** Field validation. It passes exactly when all five checks pass; when it
      fails, the error is `InvalidArgument` carrying the message of the first
      check that fails. A non-empty price is never parsed here. */
  function ExecuteInputValidation(env: Env, name: string, description: string, price: string,
                                  quantity: Int32, category: string): (r: Outcome<Status>)
    ensures var c := FieldChecks(name, description, price, quantity, env.categoryKnown(category));
            r.Pass? <==> forall i :: 0 <= i < |c| ==> c[i]
    ensures var c := FieldChecks(name, description, price, quantity, env.categoryKnown(category));
            r.Fail? ==> exists i :: 0 <= i < |c| && !c[i] && (forall j :: 0 <= j < i ==> c[j])
                                    && r.error == Status(InvalidArgument, ValidationMessages[i])
  {
    var c := FieldChecks(name, description, price, quantity, env.categoryKnown(category));
    if |name| == 0 then
      assert !c[0];
      Fail(Status(InvalidArgument, NameEmptyMessage))
    else if |description| == 0 then
      assert c[0] && !c[1];
      Fail(Status(InvalidArgument, DescriptionEmptyMessage))
    else if |price| == 0 then
      assert c[0] && c[1] && !c[2];
      Fail(Status(InvalidArgument, PriceEmptyMessage))
    else if quantity < 0 then
      assert c[0] && c[1] && c[2] && !c[3];
      Fail(Status(InvalidArgument, QuantityNegativeMessage))
    else if !env.categoryKnown(category) then
      assert c[0] && c[1] && c[2] && c[3] && !c[4];
      Fail(Status(InvalidArgument, CategoryUnknownMessage))
    else
      Pass
  }

  /** The five request fields pass validation. */
  predicate FieldsValid(env: Env, name: string, description: string, price: string,
                        quantity: Int32, category: Int32)
  {
    ExecuteInputValidation(env, name, description, price, quantity, env.categoryText(category)).Pass?
  }

  /** Shapes a stored product into its wire form. Assigning the category's
      enumeration name fails when the name is null, since a generated
      message's string field refuses null; otherwise every response field
      comes from the product. */
  function ConvertToProductResponse(env: Env, p: Product): (r: Result<ProductResponse, string>)
    ensures r.Success? <==> env.categoryName(p.category).Some?
    ensures r.Success? ==> r.value.name == p.name && r.value.description == p.description
                           && r.value.quantity == p.quantity
                           && r.value.id == env.formatGuid(p.id)
                           && r.value.price == env.formatPrice(p.price)
                           && Some(r.value.category) == env.categoryName(p.category)
    ensures r.Failure? ==> r.error == env.nullValueMessage
  {
    match env.categoryName(p.category)
    case None => Failure(env.nullValueMessage)
    case Some(categoryName) =>
      Success(ProductResponse(env.formatGuid(p.id), p.name, p.description,
                              env.formatPrice(p.price), p.quantity, categoryName))
  }

  /** The response conversion as a step of a try block. */
  function Respond(env: Env, p: Product): Result<ProductResponse, Fault>
  {
    match ConvertToProductResponse(env, p)
    case Success(response) => Success(response)
    case Failure(message) => Failure(Thrown(message))
  }

  /** Fetches the row with identifier `g`. A missing row raises `NotFound`
      whose message mentions the identifier's text. */
  function GetProductFromDbById(env: Env, store: Store, g: Guid): (r: Result<Product, Fault>)
    ensures r.Success? <==> g in store
    ensures r.Success? ==> r.value == store[g]
    ensures r.Failure? ==> r.error.Raised? && r.error.status.code == NotFound
                           && Contains(r.error.status.detail, env.formatGuid(g))
  {
    if g in store then
      Success(store[g])
    else
      ContainsMiddle("Product with ID ", env.formatGuid(g), " was not found.");
      Failure(Raised(Status(NotFound, NotFoundMessage(env.formatGuid(g)))))
  }

  function CreateBody(env: Env, store: Store, freshId: Guid, request: CreateProductRequest): Step<ProductResponse>
  {
    match ExecuteInputValidation(env, request.name, request.description, request.price,
                                 request.quantity, env.categoryText(request.category))
    case Fail(status) => Step(Failure(Raised(status)), store)
    case Pass =>
      match env.parsePrice(request.price)
      case Failure(message) => Step(Failure(Thrown(message)), store)
      case Success(price) =>
        var product := FromDetails(request.name, request.description, price,
                                   request.category, request.quantity);
        // Inserting the row assigns the generated identifier.
        var stored := product.(id := freshId);
        Step(Respond(env, stored), store[freshId := stored])
  }

  /** CreateProduct. `freshId` is the identifier generated on insert; it is
      not yet in the store. The handler keeps every existing row, and adds
      the row `freshId` exactly when validation passes and the price parses;
      that row holds the request's fields. A success reports that row; a
      failure leaves the store as it was, unless it arose after the insert
      because the category has no enumeration name. */
  function CreateProduct(env: Env, store: Store, freshId: Guid, request: CreateProductRequest): (r: Reply<ProductResponse>)
    requires freshId !in store
    ensures forall g :: g in store ==> g in r.store && r.store[g] == store[g]
    ensures r.store.Keys <= store.Keys + {freshId}
    ensures freshId in r.store <==>
              FieldsValid(env, request.name, request.description, request.price, request.quantity, request.category)
              && env.parsePrice(request.price).Success?
    ensures freshId in r.store ==>
              r.store[freshId] == Construct(freshId, request.name, request.description,
                                            env.parsePrice(request.price).value,
                                            request.category, request.quantity)
    ensures r.result.Success? <==>
              FieldsValid(env, request.name, request.description, request.price, request.quantity, request.category)
              && env.parsePrice(request.price).Success? && env.categoryName(request.category).Some?
    ensures r.result.Success? ==>
              freshId in r.store && ConvertToProductResponse(env, r.store[freshId]) == Success(r.result.value)
    ensures r.result.Failure? && env.categoryName(request.category).Some? ==> r.store == store
  {
    Guard(CreateBody(env, store, freshId, request))
  }

  function UpdateBody(env: Env, store: Store, request: UpdateProductRequest): Step<ProductResponse>
  {
    match env.parseGuid(request.id)
    case None => Step(Failure(Raised(Status(InvalidArgument, InvalidIdMessage))), store)
    case Some(productId) =>
      match ExecuteInputValidation(env, request.name, request.description, request.price,
                                   request.quantity, env.categoryText(request.category))
      case Fail(status) => Step(Failure(Raised(status)), store)
      case Pass =>
        match GetProductFromDbById(env, store, productId)
        case Failure(fault) => Step(Failure(fault), store)
        case Success(product) =>
          match env.parsePrice(request.price)
          case Failure(message) => Step(Failure(Thrown(message)), store)
          case Success(price) =>
            var updated := Update(product, request.name, request.description, price,
                                  request.category, request.quantity);
            Step(Respond(env, updated), store[productId := updated])
  }

  /** UpdateProduct reaches the save: the identifier is well formed, the
      fields are valid, the row exists and the price parses. Whatever happens
      after the save, the row has been written. */
  predicate UpdateSaves(env: Env, store: Store, request: UpdateProductRequest)
  {
    && ValidId(env, request.id)
    && FieldsValid(env, request.name, request.description, request.price, request.quantity, request.category)
    && env.parseGuid(request.id).value in store
    && env.parsePrice(request.price).Success?
  }

  /** UpdateProduct. The checks run in a fixed order: identifier format,
      field validation, existence, price parsing. The store keeps its keys
      and changes at most the requested row; on success that row keeps its
      identifier, takes all five request fields, and is what the response
      reports. The row is written exactly when every check before the save
      passes, even if shaping the response then fails; any earlier failure
      leaves the store untouched. A malformed identifier is refused first. */
  function UpdateProduct(env: Env, store: Store, request: UpdateProductRequest): (r: Reply<ProductResponse>)
    ensures r.store.Keys == store.Keys
    ensures r.result.Success? <==>
              && ValidId(env, request.id)
              && FieldsValid(env, request.name, request.description, request.price, request.quantity, request.category)
              && env.parseGuid(request.id).value in store
              && env.parsePrice(request.price).Success?
              && env.categoryName(request.category).Some?
    ensures forall g :: g in store && env.parseGuid(request.id) != Some(g) ==> r.store[g] == store[g]
    ensures r.result.Success? ==>
              && ValidId(env, request.id)
              && var g := env.parseGuid(request.id).value;
              && g in store
              && env.parsePrice(request.price).Success?
              && r.store[g] == Update(store[g], request.name, request.description,
                                      env.parsePrice(request.price).value,
                                      request.category, request.quantity)
              && ConvertToProductResponse(env, r.store[g]) == Success(r.result.value)
    ensures !ValidId(env, request.id) ==>
              r == Reply(Failure(Status(InvalidArgument, InvalidIdMessage)), store)
    ensures UpdateSaves(env, store, request) ==>
              var g := env.parseGuid(request.id).value;
              r.store == store[g := Update(store[g], request.name, request.description,
                                           env.parsePrice(request.price).value,
                                           request.category, request.quantity)]
    ensures !UpdateSaves(env, store, request) ==> r.store == store
  {
    Guard(UpdateBody(env, store, request))
  }

  function GetBody(env: Env, store: Store, request: ProductIdRequest): Result<ProductResponse, Fault>
  {
    match env.parseGuid(request.id)
    case None => Failure(Raised(Status(InvalidArgument, InvalidIdMessage)))
    case Some(productId) =>
      match GetProductFromDbById(env, store, productId)
      case Failure(fault) => Failure(fault)
      case Success(product) => Respond(env, product)
  }

  /** GetProductById. It reads the store and never changes it. A success
      reports the row named by a well-formed identifier; a malformed
      identifier gives `InvalidArgument`, an absent one `NotFound`. */
  function GetProductById(env: Env, store: Store, request: ProductIdRequest): (r: Result<ProductResponse, Status>)
    ensures r.Success? ==>
              && ValidId(env, request.id)
              && env.parseGuid(request.id).value in store
              && ConvertToProductResponse(env, store[env.parseGuid(request.id).value]) == Success(r.value)
    ensures !ValidId(env, request.id) ==> r == Failure(Status(InvalidArgument, InvalidIdMessage))
    ensures ValidId(env, request.id) && env.parseGuid(request.id).value !in store ==>
              r == Failure(Status(NotFound, NotFoundMessage(env.formatGuid(env.parseGuid(request.id).value))))
    ensures ValidId(env, request.id) && env.parseGuid(request.id).value in store
            && env.categoryName(store[env.parseGuid(request.id).value].category).None? ==>
              r == Failure(Status(Internal, UnexpectedErrorPrefix + env.nullValueMessage))
    ensures ValidId(env, request.id) && env.parseGuid(request.id).value in store
            && env.categoryName(store[env.parseGuid(request.id).value].category).Some? ==>
              r.Success?
  {
    CatchAll(GetBody(env, store, request))
  }

  function DeleteBody(env: Env, store: Store, request: ProductIdRequest): Step<ProductDeletedResponse>
  {
    match env.parseGuid(request.id)
    case None => Step(Failure(Raised(Status(InvalidArgument, InvalidIdMessage))), store)
    case Some(productId) =>
      match GetProductFromDbById(env, store, productId)
      case Failure(fault) => Step(Failure(fault), store)
      case Success(product) =>
        Step(Success(ProductDeletedResponse(DeletedMessage(product.name))), store - {productId})
  }

  /** DeleteProduct. It succeeds exactly when the identifier is well formed
      and present; it then removes exactly that row and reports the removed
      product's name. Any failure leaves the store unchanged. */
  function DeleteProduct(env: Env, store: Store, request: ProductIdRequest): (r: Reply<ProductDeletedResponse>)
    ensures r.result.Success? <==>
              ValidId(env, request.id) && env.parseGuid(request.id).value in store
    ensures r.result.Success? ==>
              var g := env.parseGuid(request.id).value;
              && r.store == store - {g}
              && r.result.value.message == DeletedMessage(store[g].name)
              && Contains(r.result.value.message, store[g].name)
    ensures r.result.Failure? ==> r.store == store
  {
    var step := DeleteBody(env, store, request);
    if step.outcome.Success? then
      var name := store[env.parseGuid(request.id).value].name;
      ContainsMiddle("Product ", name, " excluded with success.");
      Guard(step)
    else
      Guard(step)
  }

  /** GetProducts. Every row is shaped into a response, in the order the
      store lists them, which is unspecified: `order` reports the order taken.
      The handler has no catch clauses, so a failing conversion leaves it as
      the raw exception. It succeeds exactly when every stored category has an
      enumeration name, and then returns one response per row. */
  method GetProducts(env: Env, store: Store) returns (r: Result<seq<ProductResponse>, Fault>, order: seq<Guid>)
    ensures r.Success? <==> forall g :: g in store ==> env.categoryName(store[g].category).Some?
    ensures r.Failure? ==> r.error == Thrown(env.nullValueMessage)
    ensures r.Success? ==>
              && |r.value| == |order| == |store|
              && (forall i, j :: 0 <= i < j < |order| ==> order[i] != order[j])
              && (forall g :: g in store <==> g in order)
              && (forall i :: 0 <= i < |order| ==>
                    order[i] in store && ConvertToProductResponse(env, store[order[i]]) == Success(r.value[i]))
  {
    var responses: seq<ProductResponse> := [];
    var remaining := store.Keys;
    order := [];
    while remaining != {}
      invariant remaining <= store.Keys
      invariant |responses| == |order|
      invariant |order| + |remaining| == |store|
      invariant forall i, j :: 0 <= i < j < |order| ==> order[i] != order[j]
      invariant forall g :: g in store <==> g in order || g in remaining
      invariant forall g :: g in order ==> g !in remaining
      invariant forall i :: 0 <= i < |order| ==>
                  order[i] in store && ConvertToProductResponse(env, store[order[i]]) == Success(responses[i])
      decreases remaining
    {
      var g :| g in remaining;
      match ConvertToProductResponse(env, store[g]) {
        case Failure(message) =>
          return Failure(Thrown(message)), order;
        case Success(response) =>
          responses := responses + [response];
          order := order + [g];
          remaining := remaining - {g};
      }
    }
    r := Success(responses);
  }
}
