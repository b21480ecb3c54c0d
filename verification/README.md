# Product CRUD service — a Dafny model

This project models the request-handling layer of a gRPC service that
creates, reads, updates and deletes `Product` records (the
`CrudProductServiceImpl` handlers and the `Product` entity they work on),
and proves properties of that model with Dafny.

The persisted table is an abstract store, `map<Guid, Product>`. Every
handler is a pure function from the store and a request to the reply the
caller sees and the store afterwards (`Reply`), except `GetProductById`,
which only reads and returns a result, and `GetProducts`, a method that
walks the store in an unspecified order. Failures are RPC statuses
(`InvalidArgument`, `NotFound`, `Internal`) with a message. The body of each
handler's try block produces either a value or a `Fault`: an `RpcException`
raised on purpose (`Raised`) or any other exception (`Thrown`); `Rpc.Catch`
models the two catch clauses.

The library calls the handlers make are parameters, collected in
`Platform.Env`: `Guid.TryParse` and `Guid.ToString`, `decimal.Parse` (a
partial function whose failure carries the exception's message) and
`decimal.ToString`, `ToString` of the wire category enumeration,
`Enum.TryParse` and `Enum.GetName`. Nothing is assumed about their
grammars. The identifier the database generates on insert is a parameter of
`CreateProduct` that is not yet in the store.

Files: `results.dfy` (Option/Result/Outcome), `text.dfy` (substring
containment), `product.dfy` (the entity), `rpc.dfy` (statuses and the catch
clauses), `platform.dfy` (library calls and wire messages), `service.dfy`
(the handlers), `properties.dfy` (properties relating several calls).

## Behaviour of note

- Field validation only checks that the price text is non-empty. A
  non-empty price that does not parse fails later, in `decimal.Parse`, and
  the catch-all turns that into `Internal` ("Unexpected error: ..."), not
  `InvalidArgument`. See `CreateUnparseablePriceIsInternal` and
  `UpdateUnparseablePriceIsInternal`.
- `CreateProduct` and `UpdateProduct` save the row before they shape the
  response. `Enum.TryParse` also accepts numeric text, so a category number
  with no enumeration name passes validation. `Enum.GetName` then returns
  null, and assigning null to the response's string field throws. The
  caller gets `Internal`, but the row has already been written. See
  `CreateCommitsThenFails` and `UpdateCommitsThenFails`.
- `Product.cs` declares no five-field constructor and no `Update` method,
  although the service calls both. Both are modelled from their call sites
  (`Entities.FromDetails`, `Entities.Update`). The identifier is left at its
  default until the row is inserted, and update overwrites all five
  non-identifier fields.

## Model

| member | source | states |
|---|---|---|
| Entities.EmptyProduct | src/StockApi/StockApi/Domain/Entities/Product.cs:7-16 | the parameterless constructor leaves name and description as the empty string and every other field at its default |
| Entities.Construct | src/StockApi/StockApi/Domain/Entities/Product.cs:18-26 | the full constructor stores identifier, name, description, price, category and quantity verbatim |
| Entities.EmptyIsConstructOfDefaults | src/StockApi/StockApi/Domain/Entities/Product.cs:7-26 | the parameterless constructor equals the full constructor applied to every field's default |
| Entities.ConstructFromFields | src/StockApi/StockApi/Domain/Entities/Product.cs:18-26 | constructing from a product's six fields gives back that product: the constructor loses nothing |
| Entities.EntityEnforcesNoInvariant | src/StockApi/StockApi/Domain/Entities/Product.cs:12-26 | an empty name, empty description and negative quantity are representable; the entity checks nothing |
| Entities.FromDetails | src/StockApi/StockApi/Grpc/Services/CrudProductServiceImpl.cs:43-50 | the five-field constructor used by create keeps the given fields and leaves the identifier at its default |
| Entities.Update | src/StockApi/StockApi/Grpc/Services/CrudProductServiceImpl.cs:64-69 | update keeps the identifier and replaces all five other fields together |
| Entities.UpdateForgetsPreviousFields | src/StockApi/StockApi/Grpc/Services/CrudProductServiceImpl.cs:64-69 | no old field value survives an update: two products with the same identifier become equal |
| Rpc.Catch | src/StockApi/StockApi/Grpc/Services/CrudProductServiceImpl.cs:34-40 | an RpcException's status passes unchanged; any other exception becomes Internal whose detail contains its message; a non-Internal status can only come from an RpcException |
| Rpc.CatchAll | src/StockApi/StockApi/Grpc/Services/CrudProductServiceImpl.cs:23-41 | the try/catch keeps a successful value and maps a failure through the catch clauses |
| Rpc.InternalOnlyFromThrownOrRaisedInternal | src/StockApi/StockApi/Grpc/Services/CrudProductServiceImpl.cs:34-40 | an Internal status comes from a non-RpcException or from a raised Internal status |
| CrudProductService.ExecuteInputValidation | src/StockApi/StockApi/Grpc/Services/CrudProductServiceImpl.cs:147-163 | passes exactly when name, description and price text are non-empty, quantity is non-negative and the category is recognised; otherwise InvalidArgument with the message of the first failing check in that order |
| CrudProductService.ConvertToProductResponse | src/StockApi/StockApi/Grpc/Services/CrudProductServiceImpl.cs:165-176 | fails exactly when the category has no enumeration name; otherwise the response carries the product's name, description and quantity and the formatted identifier, price and category name |
| CrudProductService.GetProductFromDbById | src/StockApi/StockApi/Grpc/Services/CrudProductServiceImpl.cs:178-186 | returns the stored row when the identifier is present, otherwise NotFound whose message contains the identifier's text |
| CrudProductService.CreateProduct | src/StockApi/StockApi/Grpc/Services/CrudProductServiceImpl.cs:21-51 | keeps every existing row; adds the fresh row exactly when validation passes and the price parses, holding the request's fields; succeeds exactly when, in addition, the category has a name, and then reports the stored row; other failures leave the store unchanged |
| CrudProductService.UpdateProduct | src/StockApi/StockApi/Grpc/Services/CrudProductServiceImpl.cs:54-84 | keeps the store's keys and every other row; succeeds exactly when the identifier is well formed, fields are valid, the row exists, the price parses and the category has a name; the row is overwritten (identifier kept, all five fields replaced) exactly when every check before the save passes, even if the response then fails, and otherwise the store is unchanged; on success the response reports the saved row; a malformed identifier gives InvalidArgument |
| CrudProductService.GetProductById | src/StockApi/StockApi/Grpc/Services/CrudProductServiceImpl.cs:86-105 | succeeds exactly for a well-formed identifier of a present row whose category has a name, reporting that row; malformed identifier gives InvalidArgument, absent row NotFound with the identifier, unnamed category Internal |
| CrudProductService.GetProducts | src/StockApi/StockApi/Grpc/Services/CrudProductServiceImpl.cs:107-120 | succeeds exactly when every stored category has a name, and then returns one response per stored row, in a duplicate-free order covering every key; otherwise the uncaught exception |
| CrudProductService.DeleteProduct | src/StockApi/StockApi/Grpc/Services/CrudProductServiceImpl.cs:122-144 | succeeds exactly when the identifier is well formed and present, then removes exactly that row and answers "Product {name} excluded with success."; any failure leaves the store unchanged |
| CrudProductProperties.QuantityRejectedExactlyWhenNegative | src/StockApi/StockApi/Grpc/Services/CrudProductServiceImpl.cs:158-159 | with the earlier checks passing, the quantity error occurs exactly for negative quantities; zero and positive quantities behave alike |
| CrudProductProperties.CreateInvalidArgumentIffValidationFails | src/StockApi/StockApi/Grpc/Services/CrudProductServiceImpl.cs:25 | create answers InvalidArgument exactly when validation fails, with the validation's status, and the store untouched |
| CrudProductProperties.MalformedIdRejected | src/StockApi/StockApi/Grpc/Services/CrudProductServiceImpl.cs:58-59 | update, get and delete refuse a malformed identifier with "The product Id is invalid." and leave the store unchanged |
| CrudProductProperties.AbsentIdNotFound | src/StockApi/StockApi/Grpc/Services/CrudProductServiceImpl.cs:178-186 | a well-formed absent identifier gives NotFound naming it from get and delete, store unchanged |
| CrudProductProperties.UpdateAbsentIdNotFound | src/StockApi/StockApi/Grpc/Services/CrudProductServiceImpl.cs:58-62 | with valid fields, update of a well-formed absent identifier gives NotFound naming it, store unchanged |
| CrudProductProperties.UpdateInvalidArgumentIffValidationFails | src/StockApi/StockApi/Grpc/Services/CrudProductServiceImpl.cs:58-62 | for any well-formed identifier, present or not, failed validation is update's answer with the store untouched; an InvalidArgument answer means validation failed |
| CrudProductProperties.UpdateValidatesBeforeLookup | src/StockApi/StockApi/Grpc/Services/CrudProductServiceImpl.cs:61-62 | for an absent identifier, invalid fields give InvalidArgument with a validation message rather than NotFound |
| CrudProductProperties.UpdateLooksUpBeforeParsingPrice | src/StockApi/StockApi/Grpc/Services/CrudProductServiceImpl.cs:62-67 | for an absent identifier and valid fields, an unparseable price gives NotFound rather than Internal |
| CrudProductProperties.CreateUnparseablePriceIsInternal | src/StockApi/StockApi/Grpc/Services/CrudProductServiceImpl.cs:25-48 | in create, a non-empty unparseable price passes validation and ends in Internal "Unexpected error: " plus the parse message, store unchanged |
| CrudProductProperties.UpdateUnparseablePriceIsInternal | src/StockApi/StockApi/Grpc/Services/CrudProductServiceImpl.cs:58-82 | in update of an existing row, a non-empty unparseable price ends in Internal "Unexpected error: " plus the parse message, store unchanged |
| CrudProductProperties.CreateInternalCauses | src/StockApi/StockApi/Grpc/Services/CrudProductServiceImpl.cs:23-41 | create's Internal has only two causes: the price did not parse or the category has no name |
| CrudProductProperties.CreateCommitsThenFails | src/StockApi/StockApi/Grpc/Services/CrudProductServiceImpl.cs:29-32 | a recognised but unnamed category makes create answer Internal after the row is inserted |
| CrudProductProperties.UpdateCommitsThenFails | src/StockApi/StockApi/Grpc/Services/CrudProductServiceImpl.cs:64-74 | a recognised but unnamed category makes update answer Internal after the overwritten row is saved |
| CrudProductProperties.CreateResponseMirrorsRequest | src/StockApi/StockApi/Grpc/Services/CrudProductServiceImpl.cs:27-32 | a successful create answers with the submitted name, description and quantity, the generated identifier, the parsed price formatted and the category's name |
| CrudProductProperties.UpdateResponseMirrorsRequest | src/StockApi/StockApi/Grpc/Services/CrudProductServiceImpl.cs:64-74 | a successful update answers with the request's five fields and the row's identifier |
| CrudProductProperties.HandlersPreserveWellFormed | src/StockApi/StockApi/Grpc/Services/CrudProductServiceImpl.cs:29-31 | create, update and delete keep every row under its own identifier |
| CrudProductProperties.CreateThenGet | src/StockApi/StockApi/Grpc/Services/CrudProductServiceImpl.cs:86-95 | after a successful create, get by the new identifier returns the create's response |
| CrudProductProperties.DeleteThenGetNotFound | src/StockApi/StockApi/Grpc/Services/CrudProductServiceImpl.cs:129-134 | after a successful delete, get and a second delete of the same identifier give NotFound |
| CrudProductProperties.CreateGetDeleteGet | src/StockApi/StockApi/Grpc/Services/CrudProductServiceImpl.cs:21-144 | create, get, delete, get: the product reads back as created, delete names it and restores the store exactly, the last get is NotFound |
| CrudProductProperties.CreateThenUseReturnedId | src/StockApi/StockApi/Grpc/Services/CrudProductServiceImpl.cs:21-144 | with Guid.TryParse accepting Guid.ToString() output, get and delete by the identifier text create answered with read the product back, remove it and restore the store, after which get is NotFound |

## Left out

- Storage faults: `SaveChangesAsync`, `AddAsync` and the queries are assumed to succeed atomically on one row; a database error, which the catch-all would turn into `Internal`, is not modelled.
- Entity Framework change tracking, SQLite, `ToListAsync` and `AppDbContext.cs`: replaced by the abstract map.
- async/await and concurrent requests: each handler is one atomic step on the store; there is no cross-request logic.
- `Program.cs`: host bootstrap, dependency wiring, schema creation and migration.
- The grammars of `Guid.TryParse`, `decimal.Parse`, `Enum.TryParse` and the output of `Guid.ToString`, `decimal.ToString` and `Enum.GetName` are abstract functions. Price text is parsed with the invariant culture and formatted with the current culture, so no price text round trip is claimed.
- The concrete messages of library exceptions (the parse failure, the null assignment) are abstract strings.
- CrudProductService.GetProducts: the status the RPC framework reports for the exception that escapes this handler is outside the model; the result is that raw exception.
- CrudProductService.CreateProduct: requires the generated identifier to be absent from the store, the guarantee of the database's identifier generation; a collision is not modelled.
- The generated protobuf types are plain records; the category on the wire is its 32-bit enumeration number.
- CrudProductProperties.CreateThenGet: the map hands back a stored `Decimal` with its scale unchanged, so create and a later get format the same price text only under that assumption; a store that normalises decimals on the way in or out (SQLite keeps them as text in its own format) can make get answer "10.0" where create answered "10".
- CrudProductProperties.CreateGetDeleteGet: equal price text from create and the following get rests on the same exact-decimal store assumption.
- CrudProductProperties.CreateThenUseReturnedId: equal price text from create and the following get rests on the same exact-decimal store assumption.
