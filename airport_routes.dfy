/** The airport directory of `server/routes/airportRoutes.js`: a constant
    table and three read-only queries over it. */
module AirportRoutes {

  import opened Replies
  import opened Text
  import Sequences

  datatype Airport = Airport(code: string, name: string, city: string, country: string, address: string)

  /** The directory, in table order. */
  const Table: seq<Airport> := [
      Airport("JFK", "John F. Kennedy International Airport", "New York", "USA", "JFK Airport, Queens, NY 11430, USA"),
      Airport("LAX", "Los Angeles International Airport", "Los Angeles", "USA", "LAX Airport, Los Angeles, CA 90045, USA"),
      Airport("ORD", "O'Hare International Airport", "Chicago", "USA", "ORD Airport, Chicago, IL 60666, USA"),
      Airport("ATL", "Hartsfield-Jackson Atlanta International Airport", "Atlanta", "USA", "ATL Airport, Atlanta, GA 30320, USA"),
      Airport("DFW", "Dallas/Fort Worth International Airport", "Dallas", "USA", "DFW Airport, Dallas, TX 75261, USA"),
      Airport("DEN", "Denver International Airport", "Denver", "USA", "DEN Airport, Denver, CO 80249, USA"),
      Airport("SFO", "San Francisco International Airport", "San Francisco", "USA", "SFO Airport, San Francisco, CA 94128, USA"),
      Airport("SEA", "Seattle-Tacoma International Airport", "Seattle", "USA", "SEA Airport, Seattle, WA 98158, USA"),
      Airport("LAS", "McCarran International Airport", "Las Vegas", "USA", "LAS Airport, Las Vegas, NV 89119, USA"),
      Airport("MCO", "Orlando International Airport", "Orlando", "USA", "MCO Airport, Orlando, FL 32827, USA"),
      Airport("MIA", "Miami International Airport", "Miami", "USA", "MIA Airport, Miami, FL 33126, USA"),
      Airport("BOS", "Logan International Airport", "Boston", "USA", "BOS Airport, Boston, MA 02128, USA"),
      Airport("PHX", "Phoenix Sky Harbor International Airport", "Phoenix", "USA", "PHX Airport, Phoenix, AZ 85034, USA"),
      Airport("IAH", "George Bush Intercontinental Airport", "Houston", "USA", "IAH Airport, Houston, TX 77032, USA"),
      Airport("LHR", "Heathrow Airport", "London", "UK", "Heathrow Airport, London TW6, UK"),
      Airport("CDG", "Charles de Gaulle Airport", "Paris", "France", "CDG Airport, 95700 Roissy-en-France, France"),
      Airport("FRA", "Frankfurt Airport", "Frankfurt", "Germany", "Frankfurt Airport, 60547 Frankfurt am Main, Germany"),
      Airport("AMS", "Amsterdam Airport Schiphol", "Amsterdam", "Netherlands", "Schiphol Airport, 1118 CP Schiphol, Netherlands"),
      Airport("NRT", "Narita International Airport", "Tokyo", "Japan", "Narita Airport, Chiba 282-0004, Japan"),
      Airport("ICN", "Incheon International Airport", "Seoul", "South Korea", "Incheon Airport, Jung-gu, Incheon, South Korea"),
      Airport("SIN", "Singapore Changi Airport", "Singapore", "Singapore", "Changi Airport, Singapore 819663"),
      Airport("HKG", "Hong Kong International Airport", "Hong Kong", "Hong Kong", "Hong Kong International Airport, Hong Kong"),
      Airport("DXB", "Dubai International Airport", "Dubai", "UAE", "Dubai International Airport, Dubai, UAE"),
      Airport("YYZ", "Toronto Pearson International Airport", "Toronto", "Canada", "Toronto Pearson Airport, Mississauga, ON L5P 1B2, Canada"),
      Airport("YVR", "Vancouver International Airport", "Vancouver", "Canada", "Vancouver Airport, Richmond, BC V7B 0A1, Canada"),
      Airport("SYD", "Sydney Kingsford Smith Airport", "Sydney", "Australia", "Sydney Airport, Mascot NSW 2020, Australia"),
      Airport("MEL", "Melbourne Airport", "Melbourne", "Australia", "Melbourne Airport, Tullamarine VIC 3045, Australia"),
      Airport("DEL", "Indira Gandhi International Airport", "Delhi", "India", "IGI Airport, New Delhi, Delhi 110037, India"),
      Airport("BOM", "Chhatrapati Shivaji Maharaj International Airport", "Mumbai", "India", "Mumbai Airport, Andheri East, Mumbai, Maharashtra 400099, India"),
      Airport("BLR", "Kempegowda International Airport", "Bangalore", "India", "Bangalore Airport, Devanahalli, Karnataka 560300, India"),
      Airport("MAA", "Chennai International Airport", "Chennai", "India", "Chennai Airport, Meenambakkam, Chennai, Tamil Nadu 600027, India"),
      Airport("HYD", "Rajiv Gandhi International Airport", "Hyderabad", "India", "Hyderabad Airport, Shamshabad, Telangana 501218, India"),
      Airport("CCU", "Netaji Subhas Chandra Bose International Airport", "Kolkata", "India", "Kolkata Airport, Dum Dum, West Bengal 700052, India"),
      Airport("GOI", "Goa International Airport", "Goa", "India", "Goa Airport, Dabolim, Goa 403801, India"),
      Airport("COK", "Cochin International Airport", "Kochi", "India", "Cochin Airport, Nedumbassery, Kerala 683111, India")
    ]

  /** The search filter of `GET /`: the lower-cased term occurs in the
      lower-cased name, city or code. */
  predicate MatchesSearch(a: Airport, term: string) {
    var t := ToLower(term);
    Includes(ToLower(a.name), t) || Includes(ToLower(a.city), t) || Includes(ToLower(a.code), t)
  }

  function SearchFilter(term: string): Airport -> bool {
    a => MatchesSearch(a, term)
  }

  /** The country filter: equal countries, ignoring case. */
  predicate InCountry(a: Airport, country: string) {
    ToLower(a.country) == ToLower(country)
  }

  function CountryFilter(country: string): Airport -> bool {
    a => InCountry(a, country)
  }

  /** An airport passes each filter whose query parameter is given and non-empty. */
  predicate Wanted(a: Airport, search: Option<string>, country: Option<string>) {
    && (Given(search) ==> MatchesSearch(a, search.value))
    && (Given(country) ==> InCountry(a, country.value))
  }

  /** `GET /?search=&country=`: the search filter, then the country filter,
      each applied only when its query parameter is given and non-empty. */
  function ListAirports(airports: seq<Airport>, search: Option<string>, country: Option<string>): (r: seq<Airport>)
    ensures Sequences.IsSubsequence(r, airports)
    ensures forall a :: a in r <==> a in airports && Wanted(a, search, country)
    ensures forall a :: multiset(r)[a] == if Wanted(a, search, country) then multiset(airports)[a] else 0
  {
    var found := if Given(search) then Sequences.Filter(SearchFilter(search.value), airports) else airports;
    Sequences.SubsequenceReflexive(airports);
    if Given(country) then
      var r := Sequences.Filter(CountryFilter(country.value), found);
      forall a | a in r ensures a in airports {
        Sequences.SubsequenceMembers(found, airports, a);
      }
      Sequences.SubsequenceTransitive(r, found, airports);
      r
    else found
  }

  /** With neither parameter, `GET /` answers the whole table in table order. */
  lemma ListAllAirports(airports: seq<Airport>, search: Option<string>, country: Option<string>)
    requires !Given(search) && !Given(country)
    ensures ListAirports(airports, search, country) == airports
  {
  }

  /** Applying the country filter before the search filter gives the same list. */
  lemma ListAirportsFilterOrder(airports: seq<Airport>, search: string, country: string)
    requires search != "" && country != ""
    ensures ListAirports(airports, Some(search), Some(country))
         == Sequences.Filter(SearchFilter(search), Sequences.Filter(CountryFilter(country), airports))
  {
    Sequences.FiltersCommute(SearchFilter(search), CountryFilter(country), airports);
  }

  /** `GET /:code`: the first airport whose code equals `code` ignoring case. */
  function AirportByCode(airports: seq<Airport>, code: string): (r: Reply<Airport>)
    ensures r.Ok? ==> r.value in airports && ToLower(r.value.code) == ToLower(code)
    ensures r.Ok? ==>
      exists i :: 0 <= i < |airports| && airports[i] == r.value &&
        forall j :: 0 <= j < i ==> ToLower(airports[j].code) != ToLower(code)
    ensures r.Fail? <==> forall a :: a in airports ==> ToLower(a.code) != ToLower(code)
    ensures r.Fail? ==> r == Fail(404, "Airport not found")
  {
    match Sequences.FindFirst((a: Airport) => ToLower(a.code) == ToLower(code), airports)
    case Some(i) => Ok(airports[i])
    case None => Fail(404, "Airport not found")
  }

  /** `GET /country/:country`: the airports of one country, ignoring case. */
  function AirportsInCountry(airports: seq<Airport>, country: string): (r: seq<Airport>)
    ensures Sequences.IsSubsequence(r, airports)
    ensures forall a :: a in r <==> a in airports && InCountry(a, country)
    ensures forall a :: multiset(r)[a] == if InCountry(a, country) then multiset(airports)[a] else 0
  {
    Sequences.Filter(CountryFilter(country), airports)
  }

  /** A country route answers exactly what the country-only query answers; a
      route parameter is never empty. */
  lemma AirportsInCountryAsQuery(airports: seq<Airport>, country: string)
    requires country != ""
    ensures AirportsInCountry(airports, country) == ListAirports(airports, None, Some(country))
  {
  }

  /** No two airports share a code, even ignoring case. */
  predicate DistinctCodes(airports: seq<Airport>) {
    forall i, j :: 0 <= i < j < |airports| ==> ToLower(airports[i].code) != ToLower(airports[j].code)
  }

  /** Every code in the table is three capital letters. */
  predicate IsUpperCode(code: string) {
    |code| == 3 && forall i :: 0 <= i < 3 ==> 'A' <= code[i] <= 'Z'
  }

  lemma LowerCodesInjective(a: string, b: string)
    requires IsUpperCode(a) && IsUpperCode(b) && a != b
    ensures ToLower(a) != ToLower(b)
  {
    var i :| 0 <= i < 3 && a[i] != b[i];
    assert ToLower(a)[i] != ToLower(b)[i];
  }

  lemma TableCodesUpperFront()
    ensures forall i :: 0 <= i < 18 ==> IsUpperCode(Table[i].code)
  {
  }

  lemma TableCodesUpperBack()
    ensures forall i :: 18 <= i < |Table| ==> IsUpperCode(Table[i].code)
  {
  }

  // The codes of the table are pairwise distinct, checked in bands of five
  // first indices to keep each proof small.
  lemma TableCodesDistinctFrom0()
    ensures forall i, j :: 0 <= i < 5 && i < j < |Table| ==> Table[i].code != Table[j].code
  {
  }

  lemma TableCodesDistinctFrom5()
    ensures forall i, j :: 5 <= i < 10 && i < j < |Table| ==> Table[i].code != Table[j].code
  {
  }

  lemma TableCodesDistinctFrom10()
    ensures forall i, j :: 10 <= i < 15 && i < j < |Table| ==> Table[i].code != Table[j].code
  {
  }

  lemma TableCodesDistinctFrom15()
    ensures forall i, j :: 15 <= i < 20 && i < j < |Table| ==> Table[i].code != Table[j].code
  {
  }

  lemma TableCodesDistinctFrom20()
    ensures forall i, j :: 20 <= i < 25 && i < j < |Table| ==> Table[i].code != Table[j].code
  {
  }

  lemma TableCodesDistinctFrom25()
    ensures forall i, j :: 25 <= i < 30 && i < j < |Table| ==> Table[i].code != Table[j].code
  {
  }

  lemma TableCodesDistinctFrom30()
    ensures forall i, j :: 30 <= i < |Table| && i < j < |Table| ==> Table[i].code != Table[j].code
  {
  }

  /** No two airports of the table share a code, even ignoring case, so a code
      lookup is unambiguous. */
  lemma CodesDistinct()
    ensures DistinctCodes(Table)
  {
    TableCodesUpperFront();
    TableCodesUpperBack();
    TableCodesDistinctFrom0();
    TableCodesDistinctFrom5();
    TableCodesDistinctFrom10();
    TableCodesDistinctFrom15();
    TableCodesDistinctFrom20();
    TableCodesDistinctFrom25();
    TableCodesDistinctFrom30();
    forall i, j | 0 <= i < j < |Table|
      ensures ToLower(Table[i].code) != ToLower(Table[j].code)
    {
      LowerCodesInjective(Table[i].code, Table[j].code);
    }
  }

  /** Hence the airport `GET /:code` answers is the only one with that code. */
  lemma AirportByCodeUnique(airports: seq<Airport>, code: string, a: Airport)
    requires DistinctCodes(airports)
    requires AirportByCode(airports, code) == Ok(a)
    ensures forall b :: b in airports && ToLower(b.code) == ToLower(code) ==> b == a
  {
  }
}
