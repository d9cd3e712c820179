# HotelListing data-access and error-translation core, in Dafny

This project models the small control layer of the HotelListing web API:

- the generic repository `GenericRepository<T>`: CRUD over one table, a
  null-key short-circuit, a projecting lookup that fails with a typed
  not-found error, read-then-write delete and patch update, and the
  count-then-slice paged read wrapped in a `PagedResult`;
- the countries repository's `GetDetails(id)`: the detail projection of one
  country with its hotels included, or a not-found error;
- the exception middleware: a run-next-or-translate wrapper whose
  `HandleExceptionAsync` maps `NotFoundException` to 404 / "Not Found",
  `BadRequestException` to 400 / "Bad Request" and anything else to
  500 / "Failure", carries the message through unchanged and always answers
  with `application/json`;
- the paging request object `QueryParameters`, whose `PageSize` starts at 15.
  The `PageSize` property is modelled by its backing field `pageSize`, which
  `SetPageSize` writes and the paged read reads, as the getter returns it.

The database is replaced by an in-memory table (module `Store`): a sequence of
rows `Entity(id, data)` in store order, whose keys are unique (the primary-key
constraint, `Valid()`). FindAsync, Remove and Update become `Find`, `Without`
and `Replace` over that sequence, and key generation becomes "some key not yet
present". AutoMapper becomes function parameters: `toEntity: S -> T` for
`Map<T>(source)`, `project: Entity<T> -> R` for `ProjectTo`/`Map<TResult>`
(it sees the stored key, so a projection made after an insert can carry the
generated id), and `merge: (S, T) -> T` for the in-place `Map(source, entity)`.
The repository is a class whose mutating operations (`Add`, `AddMapped`,
`Delete`, `Update`, `UpdateMapped`) reassign the table field under
`modifies this`, and whose queries (`Get`, `GetProjected`, `Exists`,
`GetAll`, `GetAllProjected`, `GetPage`) are functions reading it.
Thrown exceptions become `Result`/`Outcome` values whose error is either
`NotFound(subject, key)`, with `key` either `IntKey(id)` or `NoKeyProvided`,
or `ConcurrencyConflict(subject, id)`, the store's failure when `Update`
finds no row to overwrite.
`GetDetails` is a pure function over two tables of the same store, countries
and hotels, whose rows are `Entity(id, data)` like every other table: a
country's key is its row's key, and a hotel's data carries the foreign key
`countryId`. The middleware's classification is a function; its
`HandleExceptionAsync` and `InvokeAsync` are methods that write the fields of
an `HttpResponse` object.

Modules: `Outcomes` (results and failures), `Store` (the table),
`Models` (`QueryParameters`, `PagedResult`), `GenericRepo`,
`CountriesRepo`, `Middleware`, and `Scenarios` (seeded-store examples).

Points where the code does less than its names suggest: `GetAsync<TResult>(null)` does call `FindAsync`, which finds
nothing for a null key, so the not-found error with "No Key Provided" comes
from that empty lookup; `GetDetails` filters the projected detail rows on
their `Id`, not the entities; `UpdateAsync<TSource>` does not check the
source's id against `id` (that check is commented out), so it never raises a
bad-request error.

## Model

| member | source | states |
|---|---|---|
| `GenericRepo.GenericRepository.constructor` | HotelListing.API.Core/Repository/GenericRepository.cs:16-20 | builds a repository over a table with unique keys and the entity type's name |
| `GenericRepo.GenericRepository.Get` | HotelListing.API.Core/Repository/GenericRepository.cs:103-111 | a null id gives null; otherwise the result is present exactly when a row has that key and is then that row |
| `GenericRepo.GenericRepository.Exists` | HotelListing.API.Core/Repository/GenericRepository.cs:80-84 | never fails; true exactly when the key is in the table |
| `GenericRepo.GenericRepository.GetProjected` | HotelListing.API.Core/Repository/GenericRepository.cs:86-96 | a null id fails with `NotFound(typeName, NoKeyProvided)`, an absent key with `NotFound(typeName, IntKey(id))`, a present key yields the projection of that row |
| `GenericRepo.GenericRepository.GetAll` | HotelListing.API.Core/Repository/GenericRepository.cs:98-101 | the listing has as many rows as the table, every listed row is what the key lookup returns for its key, and every key that exists is listed; with unique keys each row is thus listed exactly once |
| `GenericRepo.GenericRepository.GetAllProjected` | HotelListing.API.Core/Repository/GenericRepository.cs:22-27 | same length and same order as `GetAll`, each element the projection of the row at that position |
| `GenericRepo.GenericRepository.GetPage` | HotelListing.API.Core/Repository/GenericRepository.cs:29-45 | `TotalCount` is the table size whatever the paging inputs; `Items` has `max(0, min(PageSize, N - StartIndex))` elements, the projections of the rows from `StartIndex` on; `PageNumber` and `RecordNumber` echo the request; `Items` never exceed `RecordNumber` |
| `GenericRepo.GenericRepository.Add` | HotelListing.API.Core/Repository/GenericRepository.cs:48-53 | appends exactly one row holding the entity under a key not present before, returns it, leaves the other rows unchanged, and the new key is then found |
| `GenericRepo.GenericRepository.AddMapped` | HotelListing.API.Core/Repository/GenericRepository.cs:55-63 | stores `toEntity(source)` under a fresh key after the unchanged old rows and returns the projection of the stored row, which is what a later projected lookup of the new key returns |
| `GenericRepo.GenericRepository.Delete` | HotelListing.API.Core/Repository/GenericRepository.cs:65-78 | fails with `NotFound(typeName, IntKey(id))` exactly when the key is absent, then changing nothing; otherwise removes exactly that row, keeps every other row in order, and the key no longer exists |
| `GenericRepo.GenericRepository.Update` | HotelListing.API.Core/Repository/GenericRepository.cs:113-117 | the row with the entity's key is overwritten and no other row changes; with no such row the store's save fails and the table is unchanged |
| `GenericRepo.GenericRepository.UpdateMapped` | HotelListing.API.Core/Repository/GenericRepository.cs:119-136 | fails with `NotFound(typeName, IntKey(id))` exactly when the key is absent, then changing nothing; otherwise the row keyed `id` becomes `merge(source, old)` and no other row changes |
| `Store.Ids` | HotelListing.API.Core/Repository/GenericRepository.cs:110 | the keys of the table: every row's key is in it and every member is some row's key |
| `Store.IndexOf` | HotelListing.API.Core/Repository/GenericRepository.cs:110 | absent exactly when no row has the key; otherwise the position of the first row with it |
| `Store.Find` | HotelListing.API.Core/Repository/GenericRepository.cs:110 | the primary-key lookup: present exactly when the key is in the table, and then the row with that key |
| `Store.Without` | HotelListing.API.Core/Repository/GenericRepository.cs:76 | removal by key: unchanged when the key is absent, one row shorter when present, never adds a row |
| `Store.WithoutKeepsOthers` | HotelListing.API.Core/Repository/GenericRepository.cs:76 | with unique keys, removal equals the reference filter keeping every row with another key, in order |
| `Store.OthersMembers` | HotelListing.API.Core/Repository/GenericRepository.cs:76 | the reference filter keeps a row exactly when it was in the table with another key |
| `Store.OthersOfAbsent` | HotelListing.API.Core/Repository/GenericRepository.cs:76 | filtering out a key no row has keeps the whole table |
| `Store.WithoutProperties` | HotelListing.API.Core/Repository/GenericRepository.cs:76-77 | after removal keys stay unique, the removed key is gone, and a row remains exactly when its key differs |
| `Store.Replace` | HotelListing.API.Core/Repository/GenericRepository.cs:133-135 | same length and keys; with unique keys the row keyed `id` gets the new data and every other row is unchanged; nothing changes for an absent key |
| `Store.ReplaceKeepsIds` | HotelListing.API.Core/Repository/GenericRepository.cs:115 | updating in place keeps the set of keys and their uniqueness |
| `Store.AppendKeepsUnique` | HotelListing.API.Core/Repository/GenericRepository.cs:50 | inserting a row under a fresh key keeps keys unique and adds exactly that key |
| `Store.FreshKey` | HotelListing.API.Core/Repository/GenericRepository.cs:50-51 | a key larger than every key present, hence not present |
| `Store.Skip` | HotelListing.API.Core/Repository/GenericRepository.cs:34 | `Skip(n)` has `N - n` elements (none when `n > N`), element `i` being element `n + i` of the input |
| `Store.Take` | HotelListing.API.Core/Repository/GenericRepository.cs:35 | `Take(n)` has `min(n, N)` elements, the first ones of the input in order |
| `Store.MapSeq` | HotelListing.API.Core/Repository/GenericRepository.cs:36 | the projection of a sequence: same length, element `i` projected from element `i` |
| `CountriesRepo.HotelsOf` | HotelListing.API.Core/Repository/CountriesRepository.cs:24 | the included hotel collection holds exactly the hotels whose `countryId` is the country's key, at most as many as the table has, and each of them once when hotel keys are unique |
| `CountriesRepo.Detail` | HotelListing.API.Core/Repository/CountriesRepository.cs:24-25 | the projected detail carries the country's key, name and short name, and one projected hotel per hotel of that country, in the order `HotelsOf` defines (the table's) |
| `CountriesRepo.FirstWithId` | HotelListing.API.Core/Repository/CountriesRepository.cs:26 | none exactly when no element has the id; otherwise the first element with it |
| `CountriesRepo.GetDetails` | HotelListing.API.Core/Repository/CountriesRepository.cs:22-34 | fails with `NotFound("GetDetails", IntKey(id))` exactly when no country has key `id`; otherwise returns the detail (its hotels included) of the first country with that key, whose id is `id` |
| `CountriesRepo.GetDetailsOfCountry` | HotelListing.API.Core/Repository/CountriesRepository.cs:24-26 | with unique country keys the result is the detail of the country keyed `id`, and its hotels are the projections of that country's hotels, in the order `HotelsOf` defines (the table's) |
| `CountriesRepo.DetailListsCountryHotels` | HotelListing.API.Core/Repository/CountriesRepository.cs:24 | every hotel of the requested country appears projected in the detail, and every listed entry is the projection of one of its hotels |
| `Middleware.Classify` | HotelListing.API.Core/Middleware/ExceptionMiddleware.cs:46-60 | the status is one of 404, 400, 500 and the `ErrorType` one of "Not Found", "Bad Request", "Failure" |
| `Middleware.ClassifyKinds` | HotelListing.API.Core/Middleware/ExceptionMiddleware.cs:37-59 | a `NotFoundException` yields 404 "Not Found", a `BadRequestException` 400 "Bad Request", any other exception the initial 500 "Failure" |
| `Middleware.ClassifyClientOrServer` | HotelListing.API.Core/Middleware/ExceptionMiddleware.cs:37-59 | the two domain exceptions, and only they, are answered with a client-error (4xx) status; any other exception, and only it, with a server-error (5xx) status and `ErrorType` "Failure" |
| `Middleware.ClassifyIsInjective` | HotelListing.API.Core/Middleware/ExceptionMiddleware.cs:46-60 | the status alone, and the `ErrorType` alone, tell the three kinds apart |
| `Middleware.DetailsOf` | HotelListing.API.Core/Middleware/ExceptionMiddleware.cs:39-44 | the body's `ErrorMessage` is the exception's message whatever its kind, and its `ErrorType` is the classified one |
| `Middleware.ToException` | HotelListing.API.Core/Repository/GenericRepository.cs:71 | a repository not-found failure surfaces as a `NotFoundException`, the store's concurrency failure as another exception, message unchanged |
| `Middleware.RepositoryFailureStatus` | HotelListing.API.Core/Middleware/ExceptionMiddleware.cs:48-59 | a repository not-found failure ends as 404 "Not Found", a concurrency failure as 500 "Failure" |
| `Middleware.HttpResponse.constructor` | HotelListing.API.Core/Middleware/ExceptionMiddleware.cs:20 | the response of the `HttpContext` handed to the middleware, before anything writes to it: no content type, status 200, empty body |
| `Middleware.HandleException` | HotelListing.API.Core/Middleware/ExceptionMiddleware.cs:34-70 | the response gets content type `application/json`, the classified status, and one more body record holding the classified `ErrorType` and the message |
| `Middleware.Invoke` | HotelListing.API.Core/Middleware/ExceptionMiddleware.cs:20-32 | when the next handler completes the response is unchanged; when it throws, the exception is handled there and the response carries the classified status and body |
| `Models.QueryParameters.constructor` | HotelListing.API.Core/Models/QueryParameters.cs:5-7 | a fresh object has `PageSize` 15 and `StartIndex`, `PageNumber` 0 |
| `Models.QueryParameters.SetPageSize` | HotelListing.API.Core/Models/QueryParameters.cs:9-19 | `PageSize` then reads back the value written, unclamped; `StartIndex` and `PageNumber` are unchanged |
| `Models.QueryParameters.SetStartIndex` | HotelListing.API.Core/Models/QueryParameters.cs:6 | `StartIndex` reads back the value written; the other two are unchanged |
| `Models.QueryParameters.SetPageNumber` | HotelListing.API.Core/Models/QueryParameters.cs:7 | `PageNumber` reads back the value written; the other two are unchanged |
| `Scenarios.SeedCountryRows` | HotelListing.API/Data/HotelListingDbContext.cs:17-37 | the seeded countries as a table of three rows with unique keys 1, 2 and 3 |
| `Scenarios.SeedHotelRows` | HotelListing.API/Data/HotelListingDbContext.cs:40-66 | the seeded hotels as a table of three rows with unique keys, in countries 1, 3 and 2 |
| `Scenarios.SeededCaymanHotels` | HotelListing.API/Data/HotelListingDbContext.cs:40-66 | of the seeded hotels only Comfort Suites belongs to Cayman Island (country 3) |
| `Scenarios.SeededDetailsScenario` | HotelListing.API.Core/Repository/CountriesRepository.cs:22-34 | `GetDetails(3)` over the seeded tables is the Cayman Island detail listing only Comfort Suites |
| `Scenarios.SeededDetailsMissing` | HotelListing.API.Core/Repository/CountriesRepository.cs:28-31 | `GetDetails(4)` over the seeded tables fails with `NotFound("GetDetails", IntKey(4))` |
| `Scenarios.SeededPagingScenario` | HotelListing.API.Core/Repository/GenericRepository.cs:29-45 | StartIndex 0, PageSize 2, PageNumber 1 over the three seeded countries gives two items (Jamaica, Bahamas), a total of 3 and page number 1 |
| `Scenarios.GetDetailsOnEmptyStore` | HotelListing.API.Core/Repository/CountriesRepository.cs:28-31 | `GetDetails(999)` on an empty store fails with `NotFound("GetDetails", IntKey(999))` |
| `Scenarios.BadRequestScenario` | HotelListing.API.Core/Middleware/ExceptionMiddleware.cs:53-56 | a bad-request exception "Invalid Id used in request" yields 400, `application/json` and the record ("Bad Request", "Invalid Id used in request") |
| `Scenarios.AddDeleteScenario` | HotelListing.API.Core/Repository/GenericRepository.cs:65-84 | a freshly added row exists, no longer exists after its deletion, and a second deletion fails with not-found |

## Left out

- The database engine (EF Core on SQL Server): the context, `SaveChangesAsync`, change tracking, retry-on-failure and batch settings are replaced by the in-memory table; each mutating operation changes the table once, standing for its single save.
- Key generation: the store's identity column is modelled by `Store.FreshKey`; contracts only promise a key not already present. Inserting an entity whose key is already set is not modelled.
- Store order without `OrderBy` is the order of the table sequence; new rows are appended at its end.
- Async/await, the request path and the `logger.LogError` call: operations are ordinary sequential calls and logging is dropped.
- AutoMapper is a foreign library: its conversions are uninterpreted function parameters, and projection being pushed into the SQL query is not modelled.
- GenericRepo.GenericRepository.UpdateMapped: does not state that entity fields the mapper does not map are preserved, because the merge is an opaque parameter; a merge that rewrites the key is not modelled (the key is kept apart from the merged fields).
- GenericRepo.GenericRepository.Update: EF's treatment of an entity whose key is still the default (it is inserted instead) is not modelled; an absent key is modelled as the store's concurrency failure.
- GenericRepo.GenericRepository.GetPage: requires `StartIndex >= 0` and `PageSize >= 0`, because what the store does with negative skip or take values is decided by EF Core and SQL Server, which are not part of this model; a row count beyond the 32-bit `int` range is not modelled.
- Concurrency: the staleness between the count and the slice of the paged read, and the delete-delete race, need concurrent requests, which the sequential model does not have.
- JSON serialisation of the error body (`ErrorDeatils.ToString` via Newtonsoft) and the middleware's own `ToString` override: the body is modelled as the `(ErrorType, ErrorMessage)` record.
- Writing a response whose headers were already sent by the next handler is not modelled.
- The `NotFoundException` and `BadRequestException` classes are not part of this model: their message formats are parameters (`Middleware.ToException`).
- The `CountryDto` and `HotelDto` classes are not part of this model: `CountryDto` is taken to carry the country's `Id`, `Name`, `ShortName` and its hotels, as AutoMapper's same-name convention fills them, and the hotel projection is a parameter. The hotel `Rating` (a double) is dropped.
- `Program.cs` (dependency and configuration wiring), the controllers, the migration and the database context are outside this model, except the seeded countries and hotels, reused in `Scenarios`.
