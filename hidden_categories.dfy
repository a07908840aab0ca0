/** The settings screen where a parent hides categories from the child's
    board. The screen loads the current profile's stored list; pressing a
    category hides it or shows it again, updates the screen's list and stores
    that list, serialised, on the profile. The "custom" category cannot be
    hidden. The stored text is parsed and then used as a list without a type
    check, so the screen keeps the parsed value as a `Json`. */
module HiddenCategories {
  import opened Wrappers
  import opened Seqs
  import opened Strings
  import opened Json
  import opened Schema
  import opened Store

  const CUSTOM_CATEGORY: string := "custom"

  /** The toggle on a list of ids: remove every occurrence when present,
      otherwise append at the end. */
  function Toggle(hidden: seq<string>, id: string): (r: seq<string>)
  {
    if id in hidden then Filter(hidden, (x: string) => x != id) else hidden + [id]
  }

  /** The handler on the value the screen actually holds. For an array it
      is `Toggle` with `===` on the items; a string has `includes` (a
      substring test) but no `filter`, and spreads into its characters; any
      other value throws a TypeError, written `None`. */
  function ToggleValue(hidden: Json, id: string): (r: Option<Json>)
    ensures hidden.JArr? ==> r.Some? && r.value.JArr?
    ensures !hidden.JArr? && !hidden.JStr? ==> r.None?
  {
    match hidden
    case JArr(items) =>
      if JStr(id) in items then Some(JArr(Filter(items, (x: Json) => x != JStr(id))))
      else Some(JArr(items + [JStr(id)]))
    case JStr(s) =>
      if Contains(s, id) then None
      else Some(JArr(seq(|s|, i requires 0 <= i < |s| => JStr([s[i]])) + [JStr(id)]))
    case _ => None
  }

  // ---------------------------------------------------------------
  // Properties of the toggle

  /** After a toggle the id is hidden exactly when it was not before, and
      every other id keeps its state. */
  lemma ToggleFlips(hidden: seq<string>, id: string, other: string)
    requires other != id
    ensures id in Toggle(hidden, id) <==> id !in hidden
    ensures other in Toggle(hidden, id) <==> other in hidden
  {
    FilterMember(hidden, (x: string) => x != id, id);
    FilterMember(hidden, (x: string) => x != id, other);
  }

  /** Showing a category again removes every occurrence of it and keeps the
      other ids in their order; hiding one appends it at the end. */
  lemma ToggleShape(hidden: seq<string>, id: string)
    ensures id in hidden ==> Toggle(hidden, id) == Filter(hidden, (x: string) => x != id) && id !in Toggle(hidden, id)
    ensures id !in hidden ==> Toggle(hidden, id) == hidden + [id]
  {
    FilterMember(hidden, (x: string) => x != id, id);
  }

  /** A toggle keeps a list free of duplicates. */
  lemma ToggleNoDuplicates(hidden: seq<string>, id: string)
    requires NoDuplicates(hidden)
    ensures NoDuplicates(Toggle(hidden, id))
  {
    if id in hidden {
      FilterNoDuplicates(hidden, (x: string) => x != id);
    }
  }

  /** Toggling twice restores the list when the id was not hidden, and for a
      duplicate-free list restores the set of hidden ids in any case (a
      category shown and hidden again moves to the end). */
  lemma {:induction false} ToggleTwice(hidden: seq<string>, id: string)
    ensures id !in hidden ==> Toggle(Toggle(hidden, id), id) == hidden
    ensures NoDuplicates(hidden) ==> NoDuplicates(Toggle(Toggle(hidden, id), id))
    ensures forall x :: x in Toggle(Toggle(hidden, id), id) <==> x in hidden
  {
    var p := (x: string) => x != id;
    if id !in hidden {
      assert id in hidden + [id];
      FilterAppend(hidden, [id], p);
      FilterAll(hidden, p);
      assert Filter([id], p) == [];
      assert hidden + [] == hidden;
    } else {
      FilterMember(hidden, p, id);
      forall x ensures x in Filter(hidden, p) <==> x in hidden && x != id {
        FilterMember(hidden, p, x);
      }
    }
    if NoDuplicates(hidden) {
      ToggleNoDuplicates(hidden, id);
      ToggleNoDuplicates(Toggle(hidden, id), id);
    }
  }

  /** On a stored list of strings the handler is the toggle. */
  lemma ToggleValueOfList(hidden: seq<string>, id: string)
    ensures ToggleValue(StringArray(hidden), id) == Some(StringArray(Toggle(hidden, id)))
  {
    var items := StringArray(hidden).items;
    assert JStr(id) in items <==> id in hidden by {
      if JStr(id) in items {
        var k :| 0 <= k < |items| && items[k] == JStr(id);
        assert hidden[k] == id;
      }
      if id in hidden {
        var k :| 0 <= k < |hidden| && hidden[k] == id;
        assert items[k] == JStr(id);
      }
    }
    if id in hidden {
      var q := (x: Json) => x != JStr(id);
      var p := (x: string) => x != id;
      FilterOfStrings(hidden, id, q, p);
    } else {
      assert items + [JStr(id)] == StringArray(hidden + [id]).items;
    }
  }

  lemma {:induction false} FilterOfStrings(hidden: seq<string>, id: string, q: Json -> bool, p: string -> bool)
    requires forall x :: q(x) == (x != JStr(id))
    requires forall x :: p(x) == (x != id)
    ensures Filter(StringArray(hidden).items, q) == StringArray(Filter(hidden, p)).items
    decreases |hidden|
  {
    if hidden != [] {
      FilterOfStrings(hidden[1..], id, q, p);
      assert StringArray(hidden).items[1..] == StringArray(hidden[1..]).items;
      assert StringArray(hidden).items[0] == JStr(hidden[0]);
      var r := Filter(hidden[1..], p);
      if p(hidden[0]) {
        assert StringArray([hidden[0]] + r).items == [JStr(hidden[0])] + StringArray(r).items;
      }
    }
  }

  /** What the screen reads back after storing a value is that value. */
  lemma StoredValueReadsBack(env: JsonEnv, v: Json)
    requires StringifyRoundTrips(env, v)
    ensures ParseHidden(env, Some(env.stringify(v))) == v
  {
  }

  // ---------------------------------------------------------------
  // The screen

  /** The screen's state: the loaded profile's id (`null` until a profile is
      loaded) and the list it shows as hidden. */
  class HiddenCategoriesScreen {
    var profileId: Option<nat>
    var hidden: Json

    constructor()
      ensures profileId.None? && hidden == JArr([])
    {
      profileId := None;
      hidden := JArr([]);
    }

    /** `loadProfile`: with no profile nothing changes; otherwise the
        profile's id and its parsed list, `[]` for a missing or unparseable
        value. */
    method LoadProfile(env: JsonEnv, store: LocalStore)
      modifies this
      ensures old(store.GetUserProfile()).None? ==> profileId == old(profileId) && hidden == old(hidden)
      ensures old(store.GetUserProfile()).Some? ==>
        var p := old(store.GetUserProfile()).value;
        profileId == Some(p.id) && hidden == ParseHidden(env, p.hiddenCategories)
    {
      var profile := store.GetUserProfile();
      if profile.Some? {
        profileId := Some(profile.value.id);
        hidden := ParseHidden(env, profile.value.hiddenCategories);
      }
    }

    /** `handleToggleCategory(categoryId)`. Without a loaded profile, or for
        "custom", nothing happens; when the handler throws nothing changes
        either. Otherwise the screen shows the toggled value and the profile
        stores it, so that the current profile's list reads back as it. */
    method HandleToggleCategory(env: JsonEnv, store: LocalStore, categoryId: string) returns (thrown: bool)
      requires store.Valid()
      modifies this`hidden, store`profiles, store`clock
      ensures store.Valid()
      ensures (profileId.None? || profileId.value == 0 || categoryId == CUSTOM_CATEGORY) ==>
        !thrown && hidden == old(hidden) && store.profiles == old(store.profiles) && store.clock == old(store.clock)
      ensures profileId.Some? && profileId.value != 0 && categoryId != CUSTOM_CATEGORY ==>
        (thrown <==> ToggleValue(old(hidden), categoryId).None?) &&
        (thrown ==> hidden == old(hidden) && store.profiles == old(store.profiles) && store.clock == old(store.clock)) &&
        (!thrown ==>
          && hidden == ToggleValue(old(hidden), categoryId).value
          && store.profiles == UpdateProfiles(old(store.profiles), profileId.value, HiddenPatch(env.stringify(hidden)), old(store.clock))
          && store.clock == old(store.clock) + 1)
      ensures !thrown && StringifyRoundTrips(env, hidden) && profileId.Some? && profileId.value != 0 && categoryId != CUSTOM_CATEGORY &&
              old(store.profiles) != [] &&
              profileId.value == old(store.profiles)[|old(store.profiles)| - 1].id ==>
        store.GetHiddenCategories(env) == hidden
    {
      thrown := false;
      if profileId.None? || profileId.value == 0 || categoryId == CUSTOM_CATEGORY {
        return;
      }
      var newHidden := ToggleValue(hidden, categoryId);
      if newHidden.None? {
        thrown := true;
        return;
      }
      hidden := newHidden.value;
      PersistHidden(env, store, profileId.value, hidden);
    }
  }

  /** `updateUserProfile(profileId, { hiddenCategories: JSON.stringify(v) })`. */
  method PersistHidden(env: JsonEnv, store: LocalStore, profileId: nat, v: Json)
    requires store.Valid()
    modifies store`profiles, store`clock
    ensures store.Valid()
    ensures store.profiles == UpdateProfiles(old(store.profiles), profileId, HiddenPatch(env.stringify(v)), old(store.clock))
    ensures store.clock == old(store.clock) + 1
    ensures StringifyRoundTrips(env, v) && old(store.profiles) != [] &&
            profileId == old(store.profiles)[|old(store.profiles)| - 1].id ==>
      store.GetHiddenCategories(env) == v
  {
    var _ := store.UpdateUserProfile(profileId, HiddenPatch(env.stringify(v)));
    if StringifyRoundTrips(env, v) && store.profiles != [] {
      LatestProfileIsLast(store.profiles, store.nextProfileId, store.clock);
      StoredValueReadsBack(env, v);
    }
  }
}
