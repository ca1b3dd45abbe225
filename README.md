# Café finder: saved list, record mapping, search guards and card deck

This project models the logic of the café finder page script (`script.js`) and proves properties of it in Dafny. The page searches for a place, fetches nearby cafés, shows them as a deck of swipeable cards, and keeps "liked" cafés in local storage. The model covers these parts:

- **Café records** (`cafe_records.dfy`, module `CafeRecords`). getCafes turns each point-of-interest element into a record. The name falls back to `"Unnamed Café"` and the rating to `"N/A"` when the tag is falsy. A falsy tag is either a missing tag or the empty string. The coordinates are copied unchanged and the photo is a fixed placeholder URL.
- **Saved cafés** (`saved_cafes.dfy`, module `SavedCafes`). `SavedStore` holds the one local-storage entry `"savedCafes"`, which may be missing. A missing entry reads as the empty list. `Save` appends a café only when no stored café has the same name, compared with exact `===`. It reports `Saved` or `AlreadySaved`. The pure functions `SavedAfter` and `OutcomeOf` specify `Save`, and the lemmas about them state the properties: append at the end, no change on a name already present, names stay pairwise distinct, saving twice equals saving once, and same-name places collide.
- **Search** (`place_search.dfy`, module `PlaceSearch`). `Search` is findCafes up to the point where cards are dealt. An empty query returns before any lookup. A whitespace-only query is not empty, because only `""` is falsy. searchPlace takes the first geocoder candidate or reports that the place was not found. A place that is not found stops the pipeline before any café lookup. The two web services are function parameters, and the run records the lookups it made, in order.
- **Card panel** (`card_deck.dfy`, module `CardDeck`). `Panel` is the `.cards` container. `DisplayCards` clears it and deals one card per café. Card `i` gets stacking value `200 - i`, so stacking strictly decreases front to back. `SwipeLeft` removes a card and leaves the saved list alone. `SwipeRight` saves the card's café and then removes the card, whatever the save reported. `ShowSaved` replaces the deck with the stored list, or with the "nothing saved" notice when the list is empty. `FindCafes` runs `Search` and deals a new deck whenever the place resolves, even with no cafés, in which case the panel ends up empty.

Three behaviours of the code worth stating:

- A corrupt stored string is not read as empty. `JSON.parse` throws at script.js:125 and nothing catches it, so the model has no corrupt state.
- On the search path the panel is cleared only inside displayCards (script.js:77), after the café results arrive. An empty query or an unknown place leaves the previous cards on screen.
- Elements are not filtered for missing coordinates (script.js:30-36). The point-of-interest service returns nodes, and nodes always carry coordinates.

## Model

| member | source | states |
|---|---|---|
| `CafeRecords.OrElse` | script.js:31 | the or-default of a tag: a truthy tag's own value, otherwise the fallback; the result is the fallback or a non-empty tag value |
| `CafeRecords.ToCafe` | script.js:30-36 | one element's record: name is the tag if truthy else "Unnamed Café", rating the tag if truthy else "N/A", lat and lon copied, fixed photo; name and rating are never empty |
| `CafeRecords.MapCafes` | script.js:30-36 | the mapped list has the elements' length and order, and each record's fields follow its element as stated for ToCafe |
| `SavedCafes.SavedAfter` | script.js:127-133 | a save never shrinks the list: the old list is a prefix of the new one, which is at most one longer; the list stays the same exactly when some entry already has the café's exact name |
| `SavedCafes.OutcomeOf` | script.js:127-133 | a save reports AlreadySaved exactly when it leaves the stored list unchanged, and Saved otherwise |
| `SavedCafes.FindByName` | script.js:127 | `find` by name: returns nothing exactly when no stored café has that name, otherwise the first stored café with that name |
| `SavedCafes.SaveAbsentAppends` | script.js:127-130 | a café whose name is absent is saved: the list grows by exactly one, earlier entries are unchanged and in place, and the café is last |
| `SavedCafes.SavePresentKeeps` | script.js:127-133 | a café whose name is present leaves the list exactly as it was and reports AlreadySaved |
| `SavedCafes.SavedAfterHasName` | script.js:127-129 | after a save, whatever it reported, some stored café has the saved café's name |
| `SavedCafes.SaveKeepsNamesDistinct` | script.js:127-129 | if stored names are pairwise distinct before a save, they still are afterwards |
| `SavedCafes.SaveTwiceIsSaveOnce` | script.js:127-133 | saving the same café twice gives the same list as saving it once, and the second save reports AlreadySaved |
| `SavedCafes.SameNameCollides` | script.js:127 | the key is the name alone: a different place with a stored name is not saved |
| `SavedCafes.SaveIntoEmpty` | script.js:125-129 | saving into an empty store gives a one-element list and reports Saved |
| `SavedCafes.SavedStore.Stored` | script.js:125 | the stored list, with a missing entry read as the empty list |
| `SavedCafes.SavedStore.Save` | script.js:123-134 | the new stored list and the outcome are SavedAfter and OutcomeOf of the old list; the entry is written back only on Saved and left as it was on AlreadySaved; distinct names are preserved |
| `PlaceSearch.SearchPlace` | script.js:12-17 | the first candidate when there is one, not-found exactly when there are none |
| `PlaceSearch.GetCafes` | script.js:21-36 | the records are MapCafes of the elements returned around the location: same length and order, the element's coordinates, the name and rating defaults and the fixed photo |
| `PlaceSearch.Search` | script.js:52-63 | an empty query ends with EmptyQuery and no lookup; otherwise the geocoder is asked first; not-found ends after that one lookup; otherwise the café lookup is at the first candidate and the cafés are the mapped elements |
| `PlaceSearch.CafeLookupNeedsPlace` | script.js:59-63 | a café lookup happens only for a non-empty query whose place resolved, at its first candidate |
| `PlaceSearch.OneCafeNearby` | script.js:52-66 | one resolved place and one café with a name and no rating give one record with that name and rating "N/A" |
| `CardDeck.Dealt` | script.js:79-88 | the dealt deck has one card per café in order; card i has id i, stacking value 200 - i, the café, and getDistance from the user's location |
| `CardDeck.StackedFrontToBack` | script.js:82 | along a dealt deck, stacking values strictly decrease |
| `CardDeck.CardWithId` | script.js:106-113 | the card a gesture lands on, found exactly when a card with that id is still on the panel |
| `CardDeck.Remove` | script.js:110 | after removal no card carries the removed id and the deck is no longer than before |
| `CardDeck.RemoveAbsent` | script.js:110 | removing a card no longer on the panel changes nothing |
| `CardDeck.RemoveAt` | script.js:110 | removing the card at position k takes out exactly that card; the rest keep their order |
| `CardDeck.RemoveKeepsStacked` | script.js:107-117 | after a swipe the deck is still in dealing order with stacking value 200 - id |
| `CardDeck.RemovedCardIsGone` | script.js:110-116 | a swiped-away card cannot be found again, so a later swipe on it saves nothing |
| `CardDeck.Panel.DisplayCards` | script.js:75-103 | clears the panel and deals exactly Dealt(cafes, user, getDistance), keeping the deck invariant |
| `CardDeck.Panel.SwipeLeft` | script.js:107-111 | the card with that id leaves the deck; the saved list is not in the method's frame |
| `CardDeck.Panel.SwipeRight` | script.js:112-117 | a card on the panel has its café saved (new list SavedAfter, outcome OutcomeOf) and is removed whatever the outcome; a card not on the panel changes nothing |
| `CardDeck.Panel.ShowSaved` | script.js:137-157 | clears the deck and shows the stored list, or the "nothing saved" notice when it is empty |
| `CardDeck.Panel.FindCafes` | script.js:52-66 | the outcome is Search's; cafés found are dealt with the resolved place as the user's location; an early return leaves the panel as it was |

## Left out

- getDistance (script.js:40-50) is not modelled. It is haversine trigonometry on floating point with a `toFixed(2)` string result, so it is a function parameter of `Dealt`, `DisplayCards` and `FindCafes`.
- The HTTP requests to the geocoder and the point-of-interest service are not modelled. URL and query building, `encodeURIComponent` and the 1500 m radius are left out too. Their results are function parameters. A rejected fetch or a malformed response makes findCafes throw, and the model has no such path.
- Coordinates are plain real numbers. The geocoder returns them as strings, and JavaScript arithmetic coerces them; that coercion is not modelled.
- An element without a `tags` object would make getCafes throw. Every element in the model carries tags.
- The map calls are UI only and are left out: tile layer, `setView` and markers (script.js:2-5, 62, 68-72).
- Other UI output is left out: DOM and `innerHTML` building, the text of the alerts, and the directions link.
- Gesture recognition and the fade-out CSS are left out. Removal is immediate: the model drops the 100 ms `setTimeout` delay, and with it the short window in which a fading card could still receive a second swipe.
- The `JSON.stringify`/`JSON.parse` round trips are not modelled. One is on the swiped café, the other on the stored list. On these records they are the identity, so the store holds the list directly.
- Overlapping searches are not modelled. The page has no guard against a second search starting before the first one finishes.
