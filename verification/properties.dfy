/** Properties of the product service that relate several calls, or state
    which error a caller sees when several things are wrong at once. */
module CrudProductProperties {
  import opened Results
  import opened Text
  import opened Entities
  import opened Rpc
  import opened Platform
  import opened CrudProductService

  /** With name, description and price present, validation reports the
      quantity error exactly when the quantity is negative; zero and every
      positive quantity leave the outcome to the category check alone. */
  lemma QuantityRejectedExactlyWhenNegative(env: Env, name: string, description: string,
                                            price: string, quantity: Int32, category: string)
    requires |name| > 0 && |description| > 0 && |price| > 0
    ensures (ExecuteInputValidation(env, name, description, price, quantity, category)
               == Fail(Status(InvalidArgument, QuantityNegativeMessage))) <==> quantity < 0
    ensures quantity >= 0 ==>
              ExecuteInputValidation(env, name, description, price, quantity, category)
                == ExecuteInputValidation(env, name, description, price, 0, category)
  {
  }

  /** A failed validation is the caller's error in CreateProduct: the reply is
      `InvalidArgument` with the first failing check's message, and the store
      is untouched. Conversely an `InvalidArgument` reply means validation
      failed. */
  lemma CreateInvalidArgumentIffValidationFails(env: Env, store: Store, freshId: Guid,
                                                request: CreateProductRequest)
    requires freshId !in store
    ensures var v := ExecuteInputValidation(env, request.name, request.description, request.price,
                                            request.quantity, env.categoryText(request.category));
            var r := CreateProduct(env, store, freshId, request);
            && (v.Fail? ==> r == Reply(Failure(v.error), store))
            && (r.result.Failure? && r.result.error.code == InvalidArgument ==> v.Fail?)
  {
  }

  /** A malformed identifier is refused by UpdateProduct, GetProductById and
      DeleteProduct with `InvalidArgument` before anything else is looked at,
      and the store is unchanged. */
  lemma MalformedIdRejected(env: Env, store: Store, id: string, request: UpdateProductRequest)
    requires !ValidId(env, id) && request.id == id
    ensures UpdateProduct(env, store, request) == Reply(Failure(Status(InvalidArgument, InvalidIdMessage)), store)
    ensures GetProductById(env, store, ProductIdRequest(id)) == Failure(Status(InvalidArgument, InvalidIdMessage))
    ensures DeleteProduct(env, store, ProductIdRequest(id)) == Reply(Failure(Status(InvalidArgument, InvalidIdMessage)), store)
  {
  }

  /** A well-formed identifier with no row gives `NotFound` whose message
      contains the identifier's text, from GetProductById and DeleteProduct;
      the store is unchanged. */
  lemma AbsentIdNotFound(env: Env, store: Store, g: Guid, request: ProductIdRequest)
    requires env.parseGuid(request.id) == Some(g) && g !in store
    ensures var r := GetProductById(env, store, request);
            r.Failure? && r.error.code == NotFound && Contains(r.error.detail, env.formatGuid(g))
    ensures var r := DeleteProduct(env, store, request);
            && r.store == store && r.result.Failure? && r.result.error.code == NotFound
            && Contains(r.result.error.detail, env.formatGuid(g))
  {
  }

  /** UpdateProduct with a well-formed identifier that has no row, and valid
      fields, gives `NotFound` whose message contains the identifier's text;
      the store is unchanged. */
  lemma UpdateAbsentIdNotFound(env: Env, store: Store, g: Guid, request: UpdateProductRequest)
    requires env.parseGuid(request.id) == Some(g) && g !in store
    requires FieldsValid(env, request.name, request.description, request.price,
                         request.quantity, request.category)
    ensures var r := UpdateProduct(env, store, request);
            && r.store == store && r.result.Failure? && r.result.error.code == NotFound
            && Contains(r.result.error.detail, env.formatGuid(g))
  {
  }

  /** With a well-formed identifier, whether or not its row exists, a failed
      validation is UpdateProduct's answer: `InvalidArgument` with the first
      failing check's message, and the store untouched. Conversely an
      `InvalidArgument` reply means the identifier or the fields were bad. */
  lemma UpdateInvalidArgumentIffValidationFails(env: Env, store: Store, request: UpdateProductRequest)
    requires ValidId(env, request.id)
    ensures var v := ExecuteInputValidation(env, request.name, request.description, request.price,
                                            request.quantity, env.categoryText(request.category));
            var r := UpdateProduct(env, store, request);
            && (v.Fail? ==> r == Reply(Failure(v.error), store))
            && (r.result.Failure? && r.result.error.code == InvalidArgument ==> v.Fail?)
  {
  }

  /** UpdateProduct validates the fields before it looks the row up: with a
      well-formed but absent identifier, invalid fields give
      `InvalidArgument` with the validation message, not `NotFound`. */
  lemma UpdateValidatesBeforeLookup(env: Env, store: Store, g: Guid, request: UpdateProductRequest)
    requires env.parseGuid(request.id) == Some(g) && g !in store
    requires !FieldsValid(env, request.name, request.description, request.price,
                          request.quantity, request.category)
    ensures var r := UpdateProduct(env, store, request);
            && r.store == store && r.result.Failure? && r.result.error.code == InvalidArgument
            && r.result.error.detail in ValidationMessages
  {
  }

  /** UpdateProduct looks the row up before it parses the price: with a
      well-formed but absent identifier and valid fields, an unparseable
      price gives `NotFound`, not `Internal`. */
  lemma UpdateLooksUpBeforeParsingPrice(env: Env, store: Store, g: Guid, request: UpdateProductRequest)
    requires env.parseGuid(request.id) == Some(g) && g !in store
    requires FieldsValid(env, request.name, request.description, request.price,
                         request.quantity, request.category)
    requires env.parsePrice(request.price).Failure?
    ensures var r := UpdateProduct(env, store, request);
            r.store == store && r.result == Failure(Status(NotFound, NotFoundMessage(env.formatGuid(g))))
  {
  }

  /** A non-empty price that does not parse passes validation, and
      CreateProduct catches the exception of the parse as `Internal`
      "Unexpected error: ..." carrying its message. The store is unchanged. */
  lemma CreateUnparseablePriceIsInternal(env: Env, store: Store, freshId: Guid, request: CreateProductRequest)
    requires freshId !in store
    requires FieldsValid(env, request.name, request.description, request.price, request.quantity, request.category)
    requires env.parsePrice(request.price).Failure?
    ensures |request.price| > 0
    ensures var r := CreateProduct(env, store, freshId, request);
            r.store == store
            && r.result == Failure(Status(Internal, UnexpectedErrorPrefix + env.parsePrice(request.price).error))
  {
  }

  /** For an existing row, a non-empty price that does not parse passes
      validation, and UpdateProduct catches the exception of the parse as
      `Internal` "Unexpected error: ..." carrying its message. The store is
      unchanged. */
  lemma UpdateUnparseablePriceIsInternal(env: Env, store: Store, g: Guid, request: UpdateProductRequest)
    requires env.parseGuid(request.id) == Some(g) && g in store
    requires FieldsValid(env, request.name, request.description, request.price, request.quantity, request.category)
    requires env.parsePrice(request.price).Failure?
    ensures |request.price| > 0
    ensures var r := UpdateProduct(env, store, request);
            r.store == store
            && r.result == Failure(Status(Internal, UnexpectedErrorPrefix + env.parsePrice(request.price).error))
  {
  }

  /** `Internal` from CreateProduct has exactly two causes: the price did not
      parse, or the category has no enumeration name. */
  lemma CreateInternalCauses(env: Env, store: Store, freshId: Guid, request: CreateProductRequest)
    requires freshId !in store
    requires var r := CreateProduct(env, store, freshId, request);
             r.result.Failure? && r.result.error.code == Internal
    ensures env.parsePrice(request.price).Failure? || env.categoryName(request.category).None?
  {
  }

  /** The sharp edge of the response shaping: a category the enumeration
      parse accepts but that has no name (numeric text is accepted) makes
      CreateProduct answer `Internal` after the row has been inserted. */
  lemma CreateCommitsThenFails(env: Env, store: Store, freshId: Guid, request: CreateProductRequest)
    requires freshId !in store
    requires FieldsValid(env, request.name, request.description, request.price,
                         request.quantity, request.category)
    requires env.parsePrice(request.price).Success?
    requires env.categoryName(request.category).None?
    ensures var r := CreateProduct(env, store, freshId, request);
            && r.result == Failure(Status(Internal, UnexpectedErrorPrefix + env.nullValueMessage))
            && freshId in r.store && r.store != store
  {
  }

  /** The same edge in UpdateProduct: with a recognised but unnamed
      category the row is overwritten and saved, and the caller still gets
      `Internal`. */
  lemma UpdateCommitsThenFails(env: Env, store: Store, g: Guid, request: UpdateProductRequest)
    requires env.parseGuid(request.id) == Some(g) && g in store
    requires FieldsValid(env, request.name, request.description, request.price,
                         request.quantity, request.category)
    requires env.parsePrice(request.price).Success?
    requires env.categoryName(request.category).None?
    ensures var r := UpdateProduct(env, store, request);
            && r.result == Failure(Status(Internal, UnexpectedErrorPrefix + env.nullValueMessage))
            && r.store == store[g := Update(store[g], request.name, request.description,
                                            env.parsePrice(request.price).value,
                                            request.category, request.quantity)]
  {
  }

  /** A successful CreateProduct answers with the submitted name,
      description and quantity verbatim, the generated identifier, the
      parsed price formatted back, and the category's name. */
  lemma CreateResponseMirrorsRequest(env: Env, store: Store, freshId: Guid, request: CreateProductRequest)
    requires freshId !in store
    requires CreateProduct(env, store, freshId, request).result.Success?
    ensures var response := CreateProduct(env, store, freshId, request).result.value;
            && response.name == request.name
            && response.description == request.description
            && response.quantity == request.quantity
            && response.id == env.formatGuid(freshId)
            && response.price == env.formatPrice(env.parsePrice(request.price).value)
            && env.categoryName(request.category) == Some(response.category)
  {
  }

  /** A successful UpdateProduct answers with the request's five fields,
      the row's unchanged identifier, and nothing kept from the old row. */
  lemma UpdateResponseMirrorsRequest(env: Env, store: Store, request: UpdateProductRequest)
    requires WellFormed(store)
    requires UpdateProduct(env, store, request).result.Success?
    ensures var response := UpdateProduct(env, store, request).result.value;
            && response.name == request.name
            && response.description == request.description
            && response.quantity == request.quantity
            && response.id == env.formatGuid(env.parseGuid(request.id).value)
            && response.price == env.formatPrice(env.parsePrice(request.price).value)
            && env.categoryName(request.category) == Some(response.category)
  {
  }

  /** Each handler keeps every row under its own identifier. */
  lemma HandlersPreserveWellFormed(env: Env, store: Store, freshId: Guid, create: CreateProductRequest,
                                   update: UpdateProductRequest, delete: ProductIdRequest)
    requires WellFormed(store) && freshId !in store
    ensures WellFormed(CreateProduct(env, store, freshId, create).store)
    ensures WellFormed(UpdateProduct(env, store, update).store)
    ensures WellFormed(DeleteProduct(env, store, delete).store)
  {
  }

  /** After a successful CreateProduct, GetProductById with any text that
      parses to the new identifier returns the same response. */
  lemma CreateThenGet(env: Env, store: Store, freshId: Guid, request: CreateProductRequest, idText: string)
    requires freshId !in store
    requires CreateProduct(env, store, freshId, request).result.Success?
    requires env.parseGuid(idText) == Some(freshId)
    ensures var created := CreateProduct(env, store, freshId, request);
            GetProductById(env, created.store, ProductIdRequest(idText)) == created.result
  {
  }

  /** After a successful DeleteProduct, GetProductById with the same
      identifier text fails with `NotFound`, and so does a second delete,
      which leaves the store alone. */
  lemma DeleteThenGetNotFound(env: Env, store: Store, request: ProductIdRequest)
    requires DeleteProduct(env, store, request).result.Success?
    ensures var deleted := DeleteProduct(env, store, request);
            var get := GetProductById(env, deleted.store, request);
            var again := DeleteProduct(env, deleted.store, request);
            && get.Failure? && get.error.code == NotFound
            && again.result.Failure? && again.result.error.code == NotFound
            && again.store == deleted.store
  {
  }

  /** The create, read, delete, read sequence: the created product reads
      back as created, deleting it answers with a message naming it and
      restores the store exactly, and reading it again gives `NotFound`. */
  lemma CreateGetDeleteGet(env: Env, store: Store, freshId: Guid, request: CreateProductRequest, idText: string)
    requires freshId !in store
    requires CreateProduct(env, store, freshId, request).result.Success?
    requires env.parseGuid(idText) == Some(freshId)
    ensures var created := CreateProduct(env, store, freshId, request);
            var deleted := DeleteProduct(env, created.store, ProductIdRequest(idText));
            && GetProductById(env, created.store, ProductIdRequest(idText)) == created.result
            && deleted.result == Success(ProductDeletedResponse(DeletedMessage(request.name)))
            && Contains(deleted.result.value.message, request.name)
            && deleted.store == store
            && GetProductById(env, deleted.store, ProductIdRequest(idText)).Failure?
            && GetProductById(env, deleted.store, ProductIdRequest(idText)).error.code == NotFound
  {
  }

  /** The client's sequence with the identifier text create answered with:
      when `Guid.TryParse` accepts `Guid.ToString()`'s output, getting by that
      text reads the product back as created, deleting by it names the product
      and restores the store, and a last get answers `NotFound`. */
  lemma CreateThenUseReturnedId(env: Env, store: Store, freshId: Guid, request: CreateProductRequest)
    requires GuidTextRoundTrips(env)
    requires freshId !in store
    requires CreateProduct(env, store, freshId, request).result.Success?
    ensures var created := CreateProduct(env, store, freshId, request);
            var idRequest := ProductIdRequest(created.result.value.id);
            var deleted := DeleteProduct(env, created.store, idRequest);
            && GetProductById(env, created.store, idRequest) == created.result
            && deleted.result == Success(ProductDeletedResponse(DeletedMessage(request.name)))
            && deleted.store == store
            && GetProductById(env, deleted.store, idRequest).Failure?
            && GetProductById(env, deleted.store, idRequest).error.code == NotFound
  {
    var created := CreateProduct(env, store, freshId, request);
    CreateResponseMirrorsRequest(env, store, freshId, request);
    assert env.parseGuid(env.formatGuid(freshId)) == Some(freshId);
    CreateGetDeleteGet(env, store, freshId, request, created.result.value.id);
  }
}
