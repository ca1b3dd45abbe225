/** The search pipeline of findCafes (script.js:52-63): the empty-query guard,
    place resolution by searchPlace (script.js:8-18) and the café lookup of
    getCafes (script.js:21-36). The two web services are parameters: `geocode`
    gives the candidates the geocoder returns for a query, `overpass` the
    elements the point-of-interest service returns around a location. */
module PlaceSearch {
  import opened Wrappers
  import opened CafeRecords

  /** A resolved place. */
  datatype Location = Location(lat: real, lon: real)

  /** A request the pipeline makes of a web service, in the order it makes them. */
  datatype Lookup = GeocodeLookup(query: string) | CafeLookup(around: Location)

  /** How a search ends: with one of its two early returns, or with the cafés found. */
  datatype Outcome = EmptyQuery | PlaceNotFound | Found(location: Location, cafes: seq<Cafe>)

  /** The outcome of one search together with the lookups it made. */
  datatype Run = Run(outcome: Outcome, lookups: seq<Lookup>)

  /** searchPlace: the first candidate the geocoder returned, or None when it returned none. */
  function SearchPlace(candidates: seq<Location>): (r: Option<Location>)
    ensures r.Some? <==> |candidates| > 0
    ensures r.Some? ==> r.value == candidates[0]
  {
    if |candidates| > 0 then Some(candidates[0]) else None
  }

  /** getCafes: the records mapped from the elements found around `at`. */
  function GetCafes(at: Location, overpass: Location -> seq<Element>): (cs: seq<Cafe>)
    ensures cs == MapCafes(overpass(at))
    ensures |cs| == |overpass(at)|
    ensures forall i :: 0 <= i < |cs| ==> cs[i].lat == overpass(at)[i].lat && cs[i].lon == overpass(at)[i].lon
    ensures forall i :: 0 <= i < |cs| ==> cs[i].photo == PlaceholderPhoto && cs[i].name != "" && cs[i].rating != ""
  {
    MapCafes(overpass(at))
  }

  /** The steps of findCafes up to the point where the cards are dealt. */
  function Search(query: string, geocode: string -> seq<Location>, overpass: Location -> seq<Element>): (r: Run)
    ensures r.lookups == [] <==> query == ""
    ensures query == "" ==> r.outcome == EmptyQuery
    ensures query != "" ==> r.lookups[0] == GeocodeLookup(query)
    ensures r.outcome == PlaceNotFound <==> query != "" && geocode(query) == []
    ensures r.outcome == PlaceNotFound ==> r.lookups == [GeocodeLookup(query)]
    ensures r.outcome.Found? <==> query != "" && geocode(query) != []
    ensures r.outcome.Found? ==>
      && r.outcome.location == geocode(query)[0]
      && r.lookups == [GeocodeLookup(query), CafeLookup(r.outcome.location)]
      && r.outcome.cafes == MapCafes(overpass(r.outcome.location))
  {
    if query == "" then
      Run(EmptyQuery, [])
    else
      match SearchPlace(geocode(query))
      case None => Run(PlaceNotFound, [GeocodeLookup(query)])
      case Some(location) =>
        Run(Found(location, GetCafes(location, overpass)), [GeocodeLookup(query), CafeLookup(location)])
  }

  /** A café lookup happens only once a place has been resolved. */
  lemma CafeLookupNeedsPlace(query: string, geocode: string -> seq<Location>,
                              overpass: Location -> seq<Element>, at: Location)
    requires CafeLookup(at) in Search(query, geocode, overpass).lookups
    ensures query != "" && |geocode(query)| > 0 && at == geocode(query)[0]
  {
  }

  /** One search that finds one café: the record carries the café's own name and the default rating. */
  lemma OneCafeNearby()
    ensures
      var r := Search("Koramangala", _ => [Location(12.9352, 77.6146)],
                      _ => [Element(12.9360, 77.6150, Tags(Some("Third Wave Coffee"), None))]);
      && r.outcome == Found(Location(12.9352, 77.6146),
                            [Cafe("Third Wave Coffee", 12.9360, 77.6150, NoRating, PlaceholderPhoto)])
      && |r.lookups| == 2
  {
  }
}
