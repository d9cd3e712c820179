/** `CountriesRepository.GetDetails`: one read-only query over the countries
    table with each country's hotels included, projected to the detail
    representation and filtered on the projected id. Both tables are rows of
    the generic store, so the key of a country or hotel is its row's key. */
module CountriesRepo {
  import opened Outcomes
  import opened Store

  /** The `Country` entity's fields other than its key. */
  datatype Country = Country(name: string, shortName: string)

  /** The `Hotel` entity's fields other than its key; `countryId` is the
      foreign key to its country. */
  datatype Hotel = Hotel(name: string, address: string, countryId: int)

  /** The detail representation `CountryDto`: the country's own fields, copied
      by name, and its hotels, each projected to the hotel representation. */
  datatype CountryDto<H> = CountryDto(id: int, name: string, shortName: string, hotels: seq<H>)

  /** `nameof(GetDetails)`, the subject of its not-found error. */
  const GetDetailsSubject := "GetDetails"

  /** The navigation collection `Country.Hotels`: the hotels whose foreign key
      is `countryId`, in store order, each listed once when the hotel keys are
      unique. */
  function HotelsOf(hotels: seq<Entity<Hotel>>, countryId: int): (r: seq<Entity<Hotel>>)
    ensures forall h :: h in r <==> h in hotels && h.data.countryId == countryId
    ensures |r| <= |hotels|
    ensures UniqueIds(hotels) ==> UniqueIds(r)
  {
    if hotels == [] then []
    else
      var rest := HotelsOf(hotels[1..], countryId);
      if hotels[0].data.countryId == countryId then
        assert UniqueIds(hotels) ==> UniqueIds([hotels[0]] + rest) by {
          if UniqueIds(hotels) {
            TailKeepsUnique(hotels);
            forall j | 0 <= j < |rest| ensures rest[j].id != hotels[0].id {
              var k :| 0 <= k < |hotels[1..]| && hotels[1..][k] == rest[j];
              assert hotels[1..][k] == hotels[k + 1];
            }
          }
        }
        [hotels[0]] + rest
      else
        assert UniqueIds(hotels) ==> UniqueIds(rest) by {
          if UniqueIds(hotels) { TailKeepsUnique(hotels); }
        }
        rest
  }

  /** The projection of one country, with its included hotels, to the detail
      representation: its key, name and short name copied, and one projected
      hotel per hotel of that country, in store order. */
  function Detail<H>(c: Entity<Country>, hotels: seq<Entity<Hotel>>, hotelDto: Entity<Hotel> -> H)
    : (d: CountryDto<H>)
    ensures d.id == c.id && d.name == c.data.name && d.shortName == c.data.shortName
    ensures |d.hotels| == |HotelsOf(hotels, c.id)|
    ensures forall i :: 0 <= i < |d.hotels| ==> d.hotels[i] == hotelDto(HotelsOf(hotels, c.id)[i])
  {
    CountryDto(c.id, c.data.name, c.data.shortName, MapSeq(hotelDto, HotelsOf(hotels, c.id)))
  }

  /** `FirstOrDefaultAsync(q => q.Id == id)` over the projected rows. */
  function FirstWithId<H>(dtos: seq<CountryDto<H>>, id: int): (r: Option<CountryDto<H>>)
    ensures r.None? <==> forall i :: 0 <= i < |dtos| ==> dtos[i].id != id
    ensures r.Some? ==>
      exists i :: 0 <= i < |dtos| && dtos[i] == r.value && dtos[i].id == id &&
                  forall j :: 0 <= j < i ==> dtos[j].id != id
  {
    if dtos == [] then None
    else if dtos[0].id == id then Some(dtos[0])
    else FirstWithId(dtos[1..], id)
  }

  /** `GetDetails(id)`: the detail of the country keyed `id`, with its hotels,
      or `NotFound("GetDetails", id)` when no country has that key. Reads the
      two tables and changes neither. */
  function GetDetails<H>(countries: seq<Entity<Country>>, hotels: seq<Entity<Hotel>>, id: int,
                         hotelDto: Entity<Hotel> -> H)
    : (r: Result<CountryDto<H>>)
    ensures r.Err? <==> id !in Ids(countries)
    ensures r.Err? ==> r.error == NotFound(GetDetailsSubject, IntKey(id))
    ensures r.Ok? ==> r.value.id == id
    ensures r.Ok? ==>
      exists i :: 0 <= i < |countries| && countries[i].id == id &&
                  (forall j :: 0 <= j < i ==> countries[j].id != id) &&
                  r.value == Detail(countries[i], hotels, hotelDto)
  {
    var dtos := MapSeq(c => Detail(c, hotels, hotelDto), countries);
    match FirstWithId(dtos, id)
    case None => Err(NotFound(GetDetailsSubject, IntKey(id)))
    case Some(dto) => Ok(dto)
  }

  /** With unique country keys, the detail returned is that of THE country
      keyed `id`, which the primary-key lookup finds, and its hotel list holds
      exactly the projections of the hotels whose `countryId` is `id`, in
      store order. */
  lemma GetDetailsOfCountry<H>(countries: seq<Entity<Country>>, hotels: seq<Entity<Hotel>>, id: int,
                               hotelDto: Entity<Hotel> -> H)
    requires UniqueIds(countries) && id in Ids(countries)
    ensures GetDetails(countries, hotels, id, hotelDto) == Ok(Detail(Find(countries, id).value, hotels, hotelDto))
    ensures GetDetails(countries, hotels, id, hotelDto).value.hotels == MapSeq(hotelDto, HotelsOf(hotels, id))
  {
  }

  /** Each hotel of the requested country appears, projected, in the detail
      returned, and each entry of that list is the projection of one of them. */
  lemma DetailListsCountryHotels<H>(countries: seq<Entity<Country>>, hotels: seq<Entity<Hotel>>, id: int,
                                    hotelDto: Entity<Hotel> -> H)
    requires GetDetails(countries, hotels, id, hotelDto).Ok?
    ensures forall h :: h in hotels && h.data.countryId == id ==>
      hotelDto(h) in GetDetails(countries, hotels, id, hotelDto).value.hotels
    ensures forall x :: x in GetDetails(countries, hotels, id, hotelDto).value.hotels ==>
      exists h :: h in hotels && h.data.countryId == id && x == hotelDto(h)
  {
  }
}
