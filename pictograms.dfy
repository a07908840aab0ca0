/** The bundled pictogram catalog: each category's list (only the transport
    list is bundled so far), the whole catalog flattened in category order
    with each entry tagged by its category, the favorites drawn from it and
    the lookup of one pictogram. The transport JSON file is an input: its
    `pictograms` list, or `None` when loading it throws. */
module Pictograms {
  import opened Wrappers
  import opened Seqs
  import opened Categories

  const TRANSPORT_ID: string := "transport"

  datatype Phrase = Phrase(emoji: Option<string>, text: string)
  datatype PictogramTranslation = PictogramTranslation(labelText: string, phrases: seq<Phrase>)
  datatype Pictogram = Pictogram(id: string, category: string, image: string, translations: map<string, PictogramTranslation>)

  /** A catalog entry with the id of the category it was loaded for. */
  datatype Tagged = Tagged(picto: Pictogram, categoryId: string)

  /** `loadPictograms(categoryId)`: the transport list for "transport", `[]`
      for every other category and when loading fails. */
  function LoadPictograms(transport: Option<seq<Pictogram>>, categoryId: string): (r: seq<Pictogram>)
  {
    if categoryId == TRANSPORT_ID && transport.Some? then transport.value else []
  }

  function TagAll(ps: seq<Pictogram>, categoryId: string): (r: seq<Tagged>)
    ensures |r| == |ps|
    ensures forall i :: 0 <= i < |ps| ==> r[i] == Tagged(ps[i], categoryId)
  {
    seq(|ps|, i requires 0 <= i < |ps| => Tagged(ps[i], categoryId))
  }

  /** The lists of the given categories, one after the other, tagged. */
  function Flatten(transport: Option<seq<Pictogram>>, cats: seq<Category>): seq<Tagged>
    decreases |cats|
  {
    if cats == [] then []
    else
      var c := cats[|cats| - 1];
      Flatten(transport, cats[..|cats| - 1]) + TagAll(LoadPictograms(transport, c.id), c.id)
  }

  /** The sum of the lengths of the categories' lists. */
  function TotalCount(transport: Option<seq<Pictogram>>, cats: seq<Category>): nat
    decreases |cats|
  {
    if cats == [] then 0
    else TotalCount(transport, cats[..|cats| - 1]) + |LoadPictograms(transport, cats[|cats| - 1].id)|
  }

  function IdIn(ids: seq<string>): Tagged -> bool {
    (t: Tagged) => t.picto.id in ids
  }

  /** `loadFavoritePictograms(favoriteIds)`. */
  function FavoritePictograms(transport: Option<seq<Pictogram>>, favoriteIds: seq<string>): seq<Tagged> {
    Filter(Flatten(transport, CATEGORIES), IdIn(favoriteIds))
  }

  function HasId(id: string): Pictogram -> bool {
    (p: Pictogram) => p.id == id
  }

  /** `getPictogram(categoryId, pictogramId)`: the first entry of that
      category's list with the id, or `null`. */
  function GetPictogram(transport: Option<seq<Pictogram>>, categoryId: string, pictogramId: string): (r: Option<Pictogram>)
  {
    var ps := LoadPictograms(transport, categoryId);
    match FirstIndex(ps, HasId(pictogramId))
    case None => None
    case Some(k) => Some(ps[k])
  }

  // ---------------------------------------------------------------
  // Properties

  /** Only "transport" has a list; loading it is the bundled list, or `[]`
      when it fails. */
  lemma LoadPictogramsCases(transport: Option<seq<Pictogram>>, categoryId: string)
    ensures categoryId != TRANSPORT_ID ==> LoadPictograms(transport, categoryId) == []
    ensures transport.None? ==> LoadPictograms(transport, categoryId) == []
    ensures categoryId == TRANSPORT_ID && transport.Some? ==> LoadPictograms(transport, categoryId) == transport.value
  {
  }

  /** The flattened catalog is as long as all lists together. */
  lemma {:induction false} FlattenLength(transport: Option<seq<Pictogram>>, cats: seq<Category>)
    ensures |Flatten(transport, cats)| == TotalCount(transport, cats)
    decreases |cats|
  {
    if cats != [] {
      FlattenLength(transport, cats[..|cats| - 1]);
    }
  }

  /** Every entry of the flattened catalog is a bundled transport pictogram
      tagged with "transport", since no other category has a list. */
  lemma {:induction false} FlattenFromTransport(transport: Option<seq<Pictogram>>, cats: seq<Category>)
    ensures forall t :: t in Flatten(transport, cats) ==>
      t.categoryId == TRANSPORT_ID && transport.Some? && t.picto in transport.value
    decreases |cats|
  {
    if cats != [] {
      var init := cats[..|cats| - 1];
      FlattenFromTransport(transport, init);
      var c := cats[|cats| - 1];
      var ps := LoadPictograms(transport, c.id);
      assert Flatten(transport, cats) == Flatten(transport, init) + TagAll(ps, c.id);
      forall t | t in TagAll(ps, c.id)
        ensures t.categoryId == TRANSPORT_ID && transport.Some? && t.picto in transport.value
      {
        var k :| 0 <= k < |ps| && TagAll(ps, c.id)[k] == t;
        assert ps == transport.value;
      }
    }
  }

  /** Each category's entries are tagged with that category and appear after
      those of the categories before it. */
  lemma FlattenSnoc(transport: Option<seq<Pictogram>>, cats: seq<Category>, c: Category)
    ensures Flatten(transport, cats + [c]) == Flatten(transport, cats) + TagAll(LoadPictograms(transport, c.id), c.id)
  {
    assert (cats + [c])[..|cats|] == cats;
  }

  /** A favorite is kept exactly when it is in the catalog and its id is one
      of the favorite ids, and the kept entries stay in catalog order. */
  lemma FavoritesKept(transport: Option<seq<Pictogram>>, favoriteIds: seq<string>, t: Tagged)
    ensures t in FavoritePictograms(transport, favoriteIds) <==>
      t in Flatten(transport, CATEGORIES) && t.picto.id in favoriteIds
    ensures forall k :: 0 <= k < |FavoritePictograms(transport, favoriteIds)| ==>
      FavoritePictograms(transport, favoriteIds)[k].picto.id in favoriteIds
  {
    FilterMember(Flatten(transport, CATEGORIES), IdIn(favoriteIds), t);
  }

  /** The lookup finds the first entry of the category's list with that id,
      and finds nothing exactly when no entry has it. */
  lemma GetPictogramFirst(transport: Option<seq<Pictogram>>, categoryId: string, pictogramId: string)
    ensures var ps := LoadPictograms(transport, categoryId);
      match GetPictogram(transport, categoryId, pictogramId)
      case None => forall k :: 0 <= k < |ps| ==> ps[k].id != pictogramId
      case Some(p) =>
        p.id == pictogramId &&
        exists k :: 0 <= k < |ps| && ps[k] == p && (forall m :: 0 <= m < k ==> ps[m].id != pictogramId)
  {
    var ps := LoadPictograms(transport, categoryId);
    match FirstIndex(ps, HasId(pictogramId))
    case None =>
    case Some(k) =>
      assert ps[k].id == pictogramId;
  }

  // ---------------------------------------------------------------
  // The loading loop

  /** `loadAllPictograms()`. */
  method LoadAllPictograms(transport: Option<seq<Pictogram>>) returns (all: seq<Tagged>)
    ensures all == Flatten(transport, CATEGORIES)
  {
    all := LoadCategories(transport, CATEGORIES);
  }

  /** The loop over the categories, each list pushed entry by entry. */
  method LoadCategories(transport: Option<seq<Pictogram>>, cats: seq<Category>) returns (all: seq<Tagged>)
    ensures all == Flatten(transport, cats)
  {
    all := [];
    var i := 0;
    while i < |cats|
      invariant 0 <= i <= |cats|
      invariant all == Flatten(transport, cats[..i])
    {
      var category := cats[i];
      var pictograms := LoadPictograms(transport, category.id);
      all := PushTagged(all, pictograms, category.id);
      FlattenSnoc(transport, cats[..i], category);
      assert cats[..i + 1] == cats[..i] + [category];
      i := i + 1;
    }
    assert cats[..|cats|] == cats;
  }

  /** `pictograms.forEach(p => all.push({ ...p, categoryId }))`. */
  method PushTagged(all: seq<Tagged>, ps: seq<Pictogram>, categoryId: string) returns (r: seq<Tagged>)
    ensures r == all + TagAll(ps, categoryId)
  {
    r := all;
    var j := 0;
    while j < |ps|
      invariant 0 <= j <= |ps|
      invariant r == all + TagAll(ps[..j], categoryId)
    {
      r := r + [Tagged(ps[j], categoryId)];
      assert TagAll(ps[..j + 1], categoryId) == TagAll(ps[..j], categoryId) + [Tagged(ps[j], categoryId)];
      j := j + 1;
    }
    assert ps[..|ps|] == ps;
  }
}
