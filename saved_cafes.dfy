/** The saved-cafés list kept under the "savedCafes" key of local storage, and
    saveCafe, which appends a café unless one with the same name is already there
    (script.js:123-134, read again by showSaved at script.js:141). */
module SavedCafes {
  import opened Wrappers
  import opened CafeRecords

  /** What saveCafe reports to the user. */
  datatype SaveOutcome = Saved | AlreadySaved

  /** Some entry of `s` carries exactly this name (JavaScript `===` on strings). */
  predicate HasName(s: seq<Cafe>, name: string)
  {
    exists i :: 0 <= i < |s| && s[i].name == name
  }

  /** No two entries of `s` share a name. */
  predicate DistinctNames(s: seq<Cafe>)
  {
    forall i, j :: 0 <= i < j < |s| ==> s[i].name != s[j].name
  }

  /** The stored list after saving `c` into `s`: the key is the name alone. */
  function SavedAfter(s: seq<Cafe>, c: Cafe): (r: seq<Cafe>)
    ensures s <= r && |r| <= |s| + 1
    ensures r == s <==> HasName(s, c.name)
  {
    if HasName(s, c.name) then s else s + [c]
  }

  /** What saving `c` into `s` reports. */
  function OutcomeOf(s: seq<Cafe>, c: Cafe): (o: SaveOutcome)
    ensures o == AlreadySaved <==> SavedAfter(s, c) == s
  {
    if HasName(s, c.name) then AlreadySaved else Saved
  }

  /** `saved.find(c => c.name === name)`: the first entry with that name, if any. */
  method FindByName(saved: seq<Cafe>, name: string) returns (found: Option<Cafe>)
    ensures found.None? <==> !HasName(saved, name)
    ensures found.Some? ==> exists i :: 0 <= i < |saved| && saved[i] == found.value
                                        && saved[i].name == name && !HasName(saved[..i], name)
  {
    var i := 0;
    while i < |saved|
      invariant 0 <= i <= |saved|
      invariant !HasName(saved[..i], name)
    {
      if saved[i].name == name {
        return Some(saved[i]);
      }
      i := i + 1;
    }
    return None;
  }

  lemma SaveAbsentAppends(s: seq<Cafe>, c: Cafe)
    requires !HasName(s, c.name)
    ensures OutcomeOf(s, c) == Saved
    ensures |SavedAfter(s, c)| == |s| + 1
    ensures SavedAfter(s, c)[..|s|] == s && SavedAfter(s, c)[|s|] == c
  {
  }

  lemma SavePresentKeeps(s: seq<Cafe>, c: Cafe)
    requires HasName(s, c.name)
    ensures OutcomeOf(s, c) == AlreadySaved
    ensures SavedAfter(s, c) == s
  {
  }

  /** After a save, whatever it reported, the list holds an entry with the café's name. */
  lemma {:induction false} SavedAfterHasName(s: seq<Cafe>, c: Cafe)
    ensures HasName(SavedAfter(s, c), c.name)
  {
    if !HasName(s, c.name) {
      assert SavedAfter(s, c)[|s|] == c;
    }
  }

  lemma {:induction false} SaveKeepsNamesDistinct(s: seq<Cafe>, c: Cafe)
    requires DistinctNames(s)
    ensures DistinctNames(SavedAfter(s, c))
  {
    if !HasName(s, c.name) {
      var r := s + [c];
      forall i, j | 0 <= i < j < |r| ensures r[i].name != r[j].name {
        if j == |s| {
          assert r[i] == s[i];
        }
      }
    }
  }

  /** Saving the same café twice leaves the list as saving it once, and the second save reports AlreadySaved. */
  lemma {:induction false} SaveTwiceIsSaveOnce(s: seq<Cafe>, c: Cafe)
    ensures SavedAfter(SavedAfter(s, c), c) == SavedAfter(s, c)
    ensures OutcomeOf(SavedAfter(s, c), c) == AlreadySaved
  {
    SavedAfterHasName(s, c);
  }

  /** Two different places that share a name collide: the second is not saved. */
  lemma {:induction false} SameNameCollides(a: Cafe, b: Cafe)
    requires a.name == b.name
    ensures SavedAfter([a], b) == [a] && OutcomeOf([a], b) == AlreadySaved
  {
    assert [a][0].name == b.name;
  }

  /** A missing entry reads as the empty list, so the first save gives a one-element list. */
  lemma SaveIntoEmpty(c: Cafe)
    ensures SavedAfter([], c) == [c] && OutcomeOf([], c) == Saved
  {
  }

  /** The browser's local storage, reduced to the one entry this page uses. */
  class SavedStore {
    /** The "savedCafes" entry; None while the key has never been written. */
    var entry: Option<seq<Cafe>>

    /** A store holding whatever an earlier session persisted, or nothing. */
    constructor (persisted: Option<seq<Cafe>>)
      ensures entry == persisted
    {
      entry := persisted;
    }

    /** `JSON.parse(localStorage.getItem("savedCafes") || "[]")`. */
    function Stored(): (s: seq<Cafe>)
      reads this
      ensures entry.None? ==> s == []
      ensures entry.Some? ==> s == entry.value
    {
      if entry.Some? then entry.value else []
    }

    /** saveCafe: append the café and write the list back, unless its name is already stored. */
    method Save(cafe: Cafe) returns (outcome: SaveOutcome)
      modifies this
      ensures Stored() == SavedAfter(old(Stored()), cafe)
      ensures outcome == OutcomeOf(old(Stored()), cafe)
      ensures outcome == Saved ==> entry == Some(old(Stored()) + [cafe])
      ensures outcome == AlreadySaved ==> entry == old(entry)
      ensures DistinctNames(old(Stored())) ==> DistinctNames(Stored())
    {
      var saved := Stored();
      var found := FindByName(saved, cafe.name);
      if found.None? {
        saved := saved + [cafe];
        entry := Some(saved);
        outcome := Saved;
      } else {
        outcome := AlreadySaved;
      }
      if DistinctNames(old(Stored())) {
        SaveKeepsNamesDistinct(old(Stored()), cafe);
      }
    }
  }
}
