/** The ".cards" panel: the swipeable deck that displayCards deals
    (script.js:75-119), the swipe transitions on it, the saved list that
    showSaved puts in its place (script.js:137-157), and findCafes, which deals
    a new deck once a search succeeds (script.js:52-66). */
module CardDeck {
  import opened Wrappers
  import opened CafeRecords
  import opened SavedCafes
  import opened PlaceSearch

  /** A swipeable card. `id` is the index the café had when the deck was dealt;
      `zIndex` is its stacking value and `distance` the text getDistance gave. */
  datatype Card = Card(id: nat, cafe: Cafe, zIndex: int, distance: string)

  /** What the panel shows besides swipeable cards. */
  datatype Listing = NoListing | NothingSaved | SavedList(cafes: seq<Cafe>)

  /** The deck's invariant: cards appear in dealing order and each is stacked at `200 - id`. */
  predicate Stacked(cards: seq<Card>)
  {
    && (forall k :: 0 <= k < |cards| ==> cards[k].zIndex == 200 - cards[k].id)
    && (forall j, k :: 0 <= j < k < |cards| ==> cards[j].id < cards[k].id)
  }

  /** The deck displayCards deals for `cafes` seen from `user`; `getDistance` is the
      haversine text of script.js:40-50, taken as given. */
  function Dealt(cafes: seq<Cafe>, user: Location, getDistance: (real, real, real, real) -> string): (cards: seq<Card>)
    ensures |cards| == |cafes| && Stacked(cards)
    ensures forall i :: 0 <= i < |cards| ==>
      && cards[i].id == i && cards[i].zIndex == 200 - i && cards[i].cafe == cafes[i]
      && cards[i].distance == getDistance(user.lat, user.lon, cafes[i].lat, cafes[i].lon)
  {
    seq(|cafes|, i requires 0 <= i < |cafes| =>
      Card(i, cafes[i], 200 - i, getDistance(user.lat, user.lon, cafes[i].lat, cafes[i].lon)))
  }

  /** A stacked deck is drawn front to back: stacking values strictly decrease along it. */
  lemma StackedFrontToBack(cards: seq<Card>, j: nat, k: nat)
    requires Stacked(cards) && j < k < |cards|
    ensures cards[j].zIndex > cards[k].zIndex
  {
  }

  /** The card with this id, if it is still on the panel. */
  function CardWithId(cards: seq<Card>, id: nat): (r: Option<Card>)
    ensures r.Some? ==> r.value.id == id && exists k :: 0 <= k < |cards| && cards[k] == r.value
    ensures r.None? ==> forall k :: 0 <= k < |cards| ==> cards[k].id != id
  {
    if cards == [] then None
    else if cards[0].id == id then Some(cards[0])
    else CardWithId(cards[1..], id)
  }

  /** The deck once the card with this id is gone (`wrapper.remove()`). */
  function Remove(cards: seq<Card>, id: nat): (r: seq<Card>)
    ensures |r| <= |cards|
    ensures forall k :: 0 <= k < |r| ==> r[k].id != id
  {
    if cards == [] then []
    else if cards[0].id == id then Remove(cards[1..], id)
    else [cards[0]] + Remove(cards[1..], id)
  }

  /** Removing an id that no card carries changes nothing. */
  lemma {:induction false} RemoveAbsent(cards: seq<Card>, id: nat)
    requires forall k :: 0 <= k < |cards| ==> cards[k].id != id
    ensures Remove(cards, id) == cards
  {
    if cards != [] {
      RemoveAbsent(cards[1..], id);
    }
  }

  /** Removing the card at position `k` takes out exactly that card; the others keep their order. */
  lemma {:induction false} RemoveAt(cards: seq<Card>, k: nat)
    requires Stacked(cards) && k < |cards|
    ensures Remove(cards, cards[k].id) == cards[..k] + cards[k + 1..]
  {
    var id := cards[k].id;
    var tail := cards[1..];
    if k == 0 {
      RemoveAbsent(tail, id);
    } else {
      assert Stacked(tail) by {
        forall j, m | 0 <= j < m < |tail| ensures tail[j].id < tail[m].id {
          assert tail[j] == cards[j + 1] && tail[m] == cards[m + 1];
        }
      }
      assert tail[k - 1] == cards[k];
      RemoveAt(tail, k - 1);
      assert cards[..k] == [cards[0]] + tail[..k - 1];
      assert cards[k + 1..] == tail[k..];
    }
  }

  /** Swiping a card away keeps the rest of the deck in dealing order and stacking. */
  lemma {:induction false} RemoveKeepsStacked(cards: seq<Card>, id: nat)
    requires Stacked(cards)
    ensures Stacked(Remove(cards, id))
  {
    if k :| 0 <= k < |cards| && cards[k].id == id {
      RemoveAt(cards, k);
      var r := cards[..k] + cards[k + 1..];
      forall j | 0 <= j < |r| ensures r[j] == cards[if j < k then j else j + 1] {
      }
    } else {
      RemoveAbsent(cards, id);
    }
  }

  /** A card swiped away is no longer on the panel, so a later swipe on it finds nothing to save. */
  lemma RemovedCardIsGone(cards: seq<Card>, id: nat)
    ensures CardWithId(Remove(cards, id), id) == None
  {
  }

  /** The panel (`document.querySelector(".cards")`). */
  class Panel {
    var cards: seq<Card>
    var listing: Listing

    ghost predicate Valid()
      reads this
    {
      Stacked(cards)
    }

    constructor ()
      ensures Valid() && cards == [] && listing == NoListing
    {
      cards := [];
      listing := NoListing;
    }

    /** displayCards: clear the panel, then append one wrapper per café, in order. */
    method DisplayCards(cafes: seq<Cafe>, user: Location, getDistance: (real, real, real, real) -> string)
      modifies this
      ensures Valid()
      ensures cards == Dealt(cafes, user, getDistance) && listing == NoListing
    {
      cards := [];
      listing := NoListing;
      var i := 0;
      while i < |cafes|
        invariant 0 <= i <= |cafes|
        invariant |cards| == i && listing == NoListing
        invariant forall k :: 0 <= k < i ==> cards[k] == Dealt(cafes, user, getDistance)[k]
      {
        var distance := getDistance(user.lat, user.lon, cafes[i].lat, cafes[i].lon);
        cards := cards + [Card(i, cafes[i], 200 - i, distance)];
        i := i + 1;
      }
    }

    /** Swipe left on card `id`: the card leaves the panel; the saved list is not touched. */
    method SwipeLeft(id: nat)
      requires Valid()
      modifies this
      ensures Valid()
      ensures cards == Remove(old(cards), id) && listing == old(listing)
    {
      RemoveKeepsStacked(cards, id);
      cards := Remove(cards, id);
    }

    /** Swipe right on card `id`: its café is saved, then the card leaves the panel
        whatever the save reported. A card no longer on the panel receives no gesture. */
    method SwipeRight(id: nat, store: SavedStore) returns (outcome: Option<SaveOutcome>)
      requires Valid()
      modifies this, store
      ensures Valid()
      ensures cards == Remove(old(cards), id) && listing == old(listing)
      ensures CardWithId(old(cards), id).None? ==> outcome == None && store.entry == old(store.entry)
      ensures CardWithId(old(cards), id).Some? ==>
        var cafe := CardWithId(old(cards), id).value.cafe;
        && outcome == Some(OutcomeOf(old(store.Stored()), cafe))
        && store.Stored() == SavedAfter(old(store.Stored()), cafe)
    {
      var card := CardWithId(cards, id);
      if card.Some? {
        var saved := store.Save(card.value.cafe);
        outcome := Some(saved);
      } else {
        outcome := None;
      }
      RemoveKeepsStacked(cards, id);
      cards := Remove(cards, id);
    }

    /** showSaved: clear the panel and list the stored cafés, or say that none are saved. */
    method ShowSaved(store: SavedStore)
      modifies this
      ensures Valid() && cards == []
      ensures listing == if store.Stored() == [] then NothingSaved else SavedList(store.Stored())
    {
      cards := [];
      var saved := store.Stored();
      if |saved| == 0 {
        listing := NothingSaved;
      } else {
        listing := SavedList(saved);
      }
    }

    /** findCafes: search, and deal the cafés found; an empty query or an unknown
        place returns early and leaves the panel as it was. */
    method FindCafes(query: string, geocode: string -> seq<Location>, overpass: Location -> seq<Element>,
                     getDistance: (real, real, real, real) -> string) returns (outcome: Outcome)
      requires Valid()
      modifies this
      ensures Valid()
      ensures outcome == Search(query, geocode, overpass).outcome
      ensures outcome.Found? ==> cards == Dealt(outcome.cafes, outcome.location, getDistance) && listing == NoListing
      ensures !outcome.Found? ==> cards == old(cards) && listing == old(listing)
    {
      var run := Search(query, geocode, overpass);
      outcome := run.outcome;
      if outcome.Found? {
        DisplayCards(outcome.cafes, outcome.location, getDistance);
      }
    }
  }
}
