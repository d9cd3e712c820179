/** Client-side scenarios over the seeded store, proved from the contracts
    of the repository and middleware alone. */
module Scenarios {
  import opened Outcomes
  import opened Store
  import opened Models
  import opened GenericRepo
  import opened CountriesRepo
  import opened Middleware

  /** The three countries the database is seeded with, as rows of the
      countries table. */
  function SeedCountryRows(): (rows: seq<Entity<Country>>)
    ensures UniqueIds(rows) && |rows| == 3
    ensures forall i :: 0 <= i < 3 ==> rows[i].id == i + 1
  {
    [Entity(1, Country("Jamaica", "JM")), Entity(2, Country("Bahamas", "BS")),
     Entity(3, Country("Cayman Island", "CI"))]
  }

  /** The three hotels the database is seeded with (their ratings dropped). */
  function SeedHotelRows(): (rows: seq<Entity<Hotel>>)
    ensures UniqueIds(rows) && |rows| == 3
    ensures rows[0].data.countryId == 1 && rows[1].data.countryId == 3 && rows[2].data.countryId == 2
  {
    [Entity(1, Hotel("Sandals Resort and Spa", "Negril", 1)),
     Entity(2, Hotel("Comfort Suites", "George Town", 3)),
     Entity(3, Hotel("Grand Palladium", "Nassua", 2))]
  }

  /** Of the seeded hotels, only Comfort Suites is in Cayman Island. */
  lemma SeededCaymanHotels()
    ensures HotelsOf(SeedHotelRows(), 3) == [SeedHotelRows()[1]]
  {
    var hotels := SeedHotelRows();
    assert hotels[2..][1..] == hotels[3..];
    assert HotelsOf(hotels[2..], 3) == [];
    assert hotels[1..][1..] == hotels[2..];
    assert HotelsOf(hotels[1..], 3) == [hotels[1]];
  }

  /** `GetDetails(3)` over the seeded tables: the Cayman Island detail, whose
      only hotel is Comfort Suites. */
  lemma SeededDetailsScenario()
    ensures GetDetails(SeedCountryRows(), SeedHotelRows(), 3, (h: Entity<Hotel>) => h.data.name)
         == Ok(CountryDto(3, "Cayman Island", "CI", ["Comfort Suites"]))
  {
    var countries, hotels := SeedCountryRows(), SeedHotelRows();
    var name := (h: Entity<Hotel>) => h.data.name;
    assert countries[2].id == 3;
    GetDetailsOfCountry(countries, hotels, 3, name);
    SeededCaymanHotels();
    var d := Detail(countries[2], hotels, name);
    assert d.hotels == ["Comfort Suites"];
  }

  /** `GetDetails(4)` over the seeded tables fails with not-found: no seeded
      country has key 4. */
  lemma SeededDetailsMissing<H>(hotelDto: Entity<Hotel> -> H)
    ensures GetDetails(SeedCountryRows(), SeedHotelRows(), 4, hotelDto) == Err(NotFound("GetDetails", IntKey(4)))
  {
  }

  /** `GetAllAsync<GetCountryDto>` with StartIndex 0, PageSize 2 and
      PageNumber 1 over the three seeded countries: two items, a total of
      three, page number one. */
  method SeededPagingScenario() returns (page: PagedResult<string>)
    ensures |page.items| == 2 && page.totalCount == 3
    ensures page.pageNumber == 1 && page.recordNumber == 2
    ensures page.items == ["Jamaica", "Bahamas"]
  {
    var repository := new GenericRepository<Country>("Country", SeedCountryRows());
    var q := new QueryParameters();
    q.SetPageSize(2);
    q.SetPageNumber(1);
    page := repository.GetPage(q, (e: Entity<Country>) => e.data.name);
    assert page.items[0] == "Jamaica" && page.items[1] == "Bahamas";
  }

  /** `GetDetails(999)` on an empty store fails with not-found naming
      "GetDetails" and the key 999. */
  lemma GetDetailsOnEmptyStore<H>(hotelDto: Entity<Hotel> -> H)
    ensures GetDetails([], [], 999, hotelDto) == Err(NotFound("GetDetails", IntKey(999)))
  {
  }

  /** A `BadRequestException("Invalid Id used in request")` reaching the
      middleware yields 400, JSON, and the "Bad Request" record. */
  method BadRequestScenario() returns (status: int, contentType: string, body: seq<ErrorDetails>)
    ensures status == 400 && contentType == "application/json"
    ensures body == [ErrorDetails("Bad Request", "Invalid Id used in request")]
  {
    var response := new HttpResponse();
    Invoke(response, Threw(Exception(BadRequestException, "Invalid Id used in request")));
    status, contentType, body := response.statusCode, response.contentType, response.body;
  }

  /** A row added to a table is found by `Exists`, and is no longer found
      after it is deleted; deleting it again fails with not-found. */
  method AddDeleteScenario<T>(data: T) returns (before: bool, after: bool, again: Outcome)
    ensures before && !after
    ensures again.Fail? && again.error.NotFound? && again.error.subject == "Hotel"
  {
    var repository := new GenericRepository<T>("Hotel", []);
    var stored := repository.Add(data);
    before := repository.Exists(stored.id);
    var first := repository.Delete(stored.id);
    after := repository.Exists(stored.id);
    again := repository.Delete(stored.id);
  }
}
