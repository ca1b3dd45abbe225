/** The café record the page works with, and the mapping that getCafes applies
    to the elements of a point-of-interest response (script.js:30-36). */
module CafeRecords {
  import opened Wrappers

  /** A café as getCafes builds it, as a card shows it and as the saved list stores it. */
  datatype Cafe = Cafe(name: string, lat: real, lon: real, rating: string, photo: string)

  /** The tags of a raw element; a tag the element does not carry is None. */
  datatype Tags = Tags(name: Option<string>, rating: Option<string>)

  /** One node of the point-of-interest response: its coordinates and its tags. */
  datatype Element = Element(lat: real, lon: real, tags: Tags)

  const UnnamedCafe: string := "Unnamed Café"
  const NoRating: string := "N/A"
  const PlaceholderPhoto: string := "https://via.placeholder.com/250x150?text=Cafe"

  /** JavaScript truthiness of a tag value: a missing tag and the empty string are falsy. */
  predicate Truthy(tag: Option<string>)
  {
    tag.Some? && tag.value != ""
  }

  /** The value of `tag || fallback`. */
  function OrElse(tag: Option<string>, fallback: string): (r: string)
    ensures Truthy(tag) ==> r == tag.value
    ensures r == fallback || (tag == Some(r) && r != "")
  {
    if Truthy(tag) then tag.value else fallback
  }

  /** The record built for one element. */
  function ToCafe(e: Element): (c: Cafe)
    ensures c.name == (if Truthy(e.tags.name) then e.tags.name.value else UnnamedCafe)
    ensures c.rating == (if Truthy(e.tags.rating) then e.tags.rating.value else NoRating)
    ensures c.lat == e.lat && c.lon == e.lon && c.photo == PlaceholderPhoto
    ensures c.name != "" && c.rating != ""
  {
    Cafe(OrElse(e.tags.name, UnnamedCafe), e.lat, e.lon, OrElse(e.tags.rating, NoRating), PlaceholderPhoto)
  }

  /** `data.elements.map(...)`: one record per element, in the same order. */
  function MapCafes(es: seq<Element>): (cs: seq<Cafe>)
    ensures |cs| == |es|
    ensures forall i :: 0 <= i < |es| ==> cs[i] == ToCafe(es[i])
    ensures forall i :: 0 <= i < |es| ==>
      && cs[i].name == (if Truthy(es[i].tags.name) then es[i].tags.name.value else UnnamedCafe)
      && cs[i].rating == (if Truthy(es[i].tags.rating) then es[i].tags.rating.value else NoRating)
      && cs[i].lat == es[i].lat && cs[i].lon == es[i].lon
      && cs[i].photo == PlaceholderPhoto
  {
    if es == [] then [] else [ToCafe(es[0])] + MapCafes(es[1..])
  }
}
