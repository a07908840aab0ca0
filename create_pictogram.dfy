/** The two-step flow that makes a custom pictogram from a photo: first the
    picture is taken or picked, then it is named and created. Creating
    converts the picture to WebP, copies it under `custom_pictograms/` in the
    document directory with a name built from the current time and a random
    suffix, inserts the row and opens the new pictogram's page. The clock,
    the random number, the pickers and the image conversion are inputs. */
module CreatePictogram {
  import opened Wrappers
  import opened Strings
  import opened Schema
  import opened Store

  const MAX_NAME_LENGTH: nat := 50
  const ID_PREFIX: string := "custom_"
  const IMAGE_DIR: string := "custom_pictograms/"
  const FILE_PREFIX: string := "picto_"
  const WEBP: string := ".webp"
  const ROUTE_PREFIX: string := "/pictogram/custom/"

  datatype FlowStep = Choose | Name

  /** Where the screen sends the user. */
  datatype Navigation = Stay | Back | Replace(route: string)

  /** What a camera or gallery request gives: permission refused, the picker
      closed, a picture, or an error from the picker. */
  datatype PickResult = Refused | PickCanceled | Picked(uri: string) | PickError

  predicate IsBase36(c: char) { '0' <= c <= '9' || 'a' <= c <= 'z' }

  /** `Math.random().toString(36)`: "0" or "0." followed by base-36 digits. */
  predicate RandomText(t: string) {
    t == "0" || (|t| >= 2 && t[..2] == "0." && forall i :: 2 <= i < |t| ==> IsBase36(t[i]))
  }

  /** `.substring(2, 8)` of that text. */
  function RandomSuffix(t: string): (r: string)
    ensures |r| <= 6
  {
    JsSubstring(t, 2, 8)
  }

  function CustomId(timestamp: nat, suffix: string): string {
    ID_PREFIX + NatToString(timestamp) + "_" + suffix
  }

  function FileName(timestamp: nat, suffix: string): string {
    FILE_PREFIX + NatToString(timestamp) + "_" + suffix + WEBP
  }

  /** The path stored on the row, relative to the document directory. */
  function ImagePath(timestamp: nat, suffix: string): string {
    IMAGE_DIR + FileName(timestamp, suffix)
  }

  /** The row `handleCreate` inserts. */
  function NewPictogram(timestamp: nat, suffix: string, name: string): NewCustomPictogram {
    NewCustomPictogram(CustomId(timestamp, suffix), Trim(name), ImagePath(timestamp, suffix), Some(DEFAULT_CATEGORY))
  }

  /** The name field after the user types: cut at 50 characters. */
  function CappedName(typed: string): string {
    if |typed| <= MAX_NAME_LENGTH then typed else typed[..MAX_NAME_LENGTH]
  }

  // ---------------------------------------------------------------
  // Properties of the names

  /** The suffix has at most six characters, all base-36 digits. */
  lemma SuffixIsBase36(t: string)
    requires RandomText(t)
    ensures |RandomSuffix(t)| <= 6
    ensures forall i :: 0 <= i < |RandomSuffix(t)| ==> IsBase36(RandomSuffix(t)[i])
  {
    if |t| >= 2 {
      var e := if |t| < 8 then |t| else 8;
      assert RandomSuffix(t) == t[2..e];
    }
  }

  /** The stored path is the id's timestamp and suffix inside the picture
      file name: both are made from the same two values. */
  lemma PathMatchesId(timestamp: nat, suffix: string)
    ensures var id := CustomId(timestamp, suffix);
      |id| >= |ID_PREFIX| && id[..|ID_PREFIX|] == ID_PREFIX &&
      ImagePath(timestamp, suffix) == IMAGE_DIR + FILE_PREFIX + id[|ID_PREFIX|..] + WEBP
    ensures EndsWith(ImagePath(timestamp, suffix), WEBP)
  {
    var id := CustomId(timestamp, suffix);
    assert id == ID_PREFIX + (NatToString(timestamp) + "_" + suffix);
    assert id[|ID_PREFIX|..] == NatToString(timestamp) + "_" + suffix;
    var p := ImagePath(timestamp, suffix);
    assert p == (IMAGE_DIR + FILE_PREFIX + NatToString(timestamp) + "_" + suffix) + WEBP;
  }

  lemma PrefixCancel(p: string, x: string, y: string)
    requires p + x == p + y
    ensures x == y
  {
    assert x == (p + x)[|p|..];
    assert y == (p + y)[|p|..];
  }

  lemma DigitsHaveNoUnderscore(d: string)
    requires AllDigits(d)
    ensures '_' !in d
  {
  }

  /** Text split at the first separator: the parts before it and after it
      are determined. */
  lemma SplitAtSeparator(a: string, x: string, b: string, y: string, sep: char)
    requires sep !in a && sep !in b
    requires a + [sep] + x == b + [sep] + y
    ensures a == b && x == y
  {
    BeforeFirstNoSep(a, sep, x);
    BeforeFirstNoSep(b, sep, y);
    assert x == (a + [sep] + x)[|a| + 1..];
    assert y == (b + [sep] + y)[|b| + 1..];
  }

  /** Different times or suffixes give different ids: the timestamp is read
      back up to the first '_'. */
  lemma CustomIdInjective(t1: nat, s1: string, t2: nat, s2: string)
    requires CustomId(t1, s1) == CustomId(t2, s2)
    ensures t1 == t2 && s1 == s2
  {
    var a, b := NatToString(t1), NatToString(t2);
    assert CustomId(t1, s1) == ID_PREFIX + (a + ['_'] + s1);
    assert CustomId(t2, s2) == ID_PREFIX + (b + ['_'] + s2);
    PrefixCancel(ID_PREFIX, a + ['_'] + s1, b + ['_'] + s2);
    DigitsHaveNoUnderscore(a);
    DigitsHaveNoUnderscore(b);
    SplitAtSeparator(a, s1, b, s2, '_');
    NatToStringInjective(t1, t2);
  }

  /** The inserted row carries the name trimmed, blank exactly when the
      typed name is white space. */
  lemma NewPictogramShape(timestamp: nat, suffix: string, name: string)
    ensures Trim(NewPictogram(timestamp, suffix, name).name) == NewPictogram(timestamp, suffix, name).name
    ensures NewPictogram(timestamp, suffix, name).name == [] <==> AllSpaces(name)
  {
    TrimIdempotent(name);
    TrimEmptyIffAllSpaces(name);
  }

  lemma CappedNameIsPrefix(typed: string)
    ensures |CappedName(typed)| <= MAX_NAME_LENGTH && CappedName(typed) == typed[..|CappedName(typed)|]
    ensures |typed| <= MAX_NAME_LENGTH ==> CappedName(typed) == typed
  {
  }

  // ---------------------------------------------------------------
  // The screen

  class CreatePictogramScreen {
    var step: FlowStep
    var selectedImage: Option<string>
    var pictogramName: string
    var isSaving: bool
    var navigation: Navigation

    constructor()
      ensures step == Choose && selectedImage.None? && pictogramName == "" && !isSaving && navigation == Stay
    {
      step := Choose;
      selectedImage := None;
      pictogramName := "";
      isSaving := false;
      navigation := Stay;
    }

    /** `handleTakePhoto` / `handleChooseFromGallery`: a picture moves the
        flow to naming it; anything else leaves the screen as it is. */
    method HandlePick(result: PickResult)
      modifies this`selectedImage, this`step
      ensures result.Picked? ==> selectedImage == Some(result.uri) && step == Name
      ensures !result.Picked? ==> selectedImage == old(selectedImage) && step == old(step)
    {
      if result.Picked? {
        selectedImage := Some(result.uri);
        step := Name;
      }
    }

    method ChangeName(typed: string)
      modifies this`pictogramName
      ensures pictogramName == CappedName(typed) && |pictogramName| <= MAX_NAME_LENGTH
    {
      pictogramName := CappedName(typed);
    }

    /** `handleBack`: from naming back to choosing, with picture and name
        cleared; from choosing, off the screen. */
    method HandleBack()
      modifies this`step, this`selectedImage, this`pictogramName, this`navigation
      ensures old(step) == Name ==>
        step == Choose && selectedImage.None? && pictogramName == "" && navigation == old(navigation)
      ensures old(step) == Choose ==>
        navigation == Back && step == old(step) && selectedImage == old(selectedImage) && pictogramName == old(pictogramName)
    {
      if step == Name {
        step := Choose;
        selectedImage := None;
        pictogramName := "";
      } else {
        navigation := Back;
      }
    }

    /** `handleCreate(now, randomText)`. Without a picture or with a blank
        name nothing happens. Otherwise the converted picture is copied to
        the stored path, the row is inserted and the new pictogram's page
        replaces the screen. A failing conversion stops before the copy, a
        failing copy before the insert, and a failing insert (an id already
        taken) after the copy, so the copied file stays. */
    method HandleCreate(store: LocalStore, now: nat, randomText: string, convertFails: bool, copyFails: bool)
      returns (created: Option<CustomPictogram>)
      requires store.Valid() && !isSaving
      modifies this`isSaving, this`navigation, store`images, store`pictograms, store`nextPictogramId, store`clock
      ensures store.Valid() && !isSaving
      ensures selectedImage.None? || Trim(pictogramName) == [] || convertFails || copyFails ==>
        created.None? && navigation == old(navigation) && store.images == old(store.images) &&
        store.pictograms == old(store.pictograms) && store.nextPictogramId == old(store.nextPictogramId) &&
        store.clock == old(store.clock)
      ensures selectedImage.Some? && Trim(pictogramName) != [] && !convertFails && !copyFails ==>
        var suffix := RandomSuffix(randomText);
        var n := NewPictogram(now, suffix, pictogramName);
        && store.images == old(store.images) + {ImagePath(now, suffix)}
        && store.clock == old(store.clock) + 1
        && (created.None? <==> PictogramById(old(store.pictograms), n.customId).Some?)
        && (created.None? ==> navigation == old(navigation) && store.pictograms == old(store.pictograms)
                              && store.nextPictogramId == old(store.nextPictogramId))
        && (created.Some? ==>
              created.value == PictogramRow(old(store.nextPictogramId), old(store.clock), n) &&
              store.pictograms == old(store.pictograms) + [created.value] &&
              navigation == Replace(ROUTE_PREFIX + n.customId))
    {
      created := None;
      if selectedImage.None? || Trim(pictogramName) == [] {
        return;
      }
      isSaving := true;
      var suffix := RandomSuffix(randomText);
      if !convertFails && !copyFails {
        var n := NewPictogram(now, suffix, pictogramName);
        created := SavePictogram(store, n);
        if created.Some? {
          navigation := Replace(ROUTE_PREFIX + n.customId);
        }
      }
      isSaving := false;
    }
  }

  /** The copy of the converted picture to the row's path, then the insert. */
  method SavePictogram(store: LocalStore, n: NewCustomPictogram) returns (created: Option<CustomPictogram>)
    requires store.Valid()
    modifies store`images, store`pictograms, store`nextPictogramId, store`clock
    ensures store.Valid()
    ensures store.images == old(store.images) + {n.imagePath}
    ensures created.None? <==> PictogramById(old(store.pictograms), n.customId).Some?
    ensures created.None? ==> store.pictograms == old(store.pictograms) && store.nextPictogramId == old(store.nextPictogramId)
    ensures created.Some? ==> store.nextPictogramId == old(store.nextPictogramId) + 1
    ensures store.clock == old(store.clock) + 1
    ensures created.Some? ==>
      created.value == PictogramRow(old(store.nextPictogramId), old(store.clock), n) &&
      store.pictograms == old(store.pictograms) + [created.value]
  {
    store.CopyImage(n.imagePath);
    var r := store.CreateCustomPictogram(n);
    created := if r.Ok? then Some(r.value) else None;
  }
}
