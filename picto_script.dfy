/** The offline script that points catalog entries at their WebP pictures.
    For a category it lists the `.webp` files of the category's picture
    folder, keys them by a normalised name, and rewrites the `image` of every
    entry of the category's JSON file whose normalised id has a picture and
    whose image is not already a `.webp` path. The folder listing and the
    parsed JSON file are inputs; the new file content is an output. */
module PictoScript {
  import opened Wrappers
  import opened Strings
  import opened Seqs
  import opened Pictograms

  const WEBP: string := ".webp"
  const PICTOS_PREFIX: string := "assets/pictos/"

  predicate IsSeparator(c: char) { c == '-' || c == '_' }

  function KeepChar(): char -> bool {
    (c: char) => !IsSeparator(c)
  }

  /** `normalizeId`: lower case, with every '-' and '_' removed. */
  function NormalizeId(id: string): string {
    Filter(Lower(id), KeepChar())
  }

  /** A picture file: its name, the name with the first ".webp" removed,
      and that normalised. */
  datatype WebpFile = WebpFile(filename: string, basename: string, normalized: string)

  function WebpFileOf(file: string): WebpFile {
    var base := ReplaceFirst(file, WEBP, "");
    WebpFile(file, base, NormalizeId(base))
  }

  function IsWebp(): string -> bool {
    (file: string) => EndsWith(file, WEBP)
  }

  /** `getWebpFilesForCategory`: `None` is a missing folder. */
  function WebpFiles(listing: Option<seq<string>>): seq<WebpFile> {
    match listing
    case None => []
    case Some(files) => Map(Filter(files, IsWebp()), WebpFileOf)
  }

  /** `webpMap`: each normalised name to its file, a later file replacing an
      earlier one with the same name. */
  function WebpMap(files: seq<WebpFile>): map<string, string>
    decreases |files|
  {
    if files == [] then map[]
    else
      var f := files[|files| - 1];
      WebpMap(files[..|files| - 1])[f.normalized := f.filename]
  }

  function WebpPath(category: string, filename: string): string {
    PICTOS_PREFIX + category + "/" + filename
  }

  /** The entry has a picture (a truthy file name) and its image is not a
      `.webp` path yet. */
  predicate Rewrites(p: Pictogram, webpMap: map<string, string>) {
    var n := NormalizeId(p.id);
    n in webpMap && webpMap[n] != [] && !Contains(p.image, WEBP)
  }

  function UpdateEntry(p: Pictogram, category: string, webpMap: map<string, string>): Pictogram {
    if Rewrites(p, webpMap) then p.(image := WebpPath(category, webpMap[NormalizeId(p.id)])) else p
  }

  function UpdateEntries(ps: seq<Pictogram>, category: string, webpMap: map<string, string>): (r: seq<Pictogram>)
    ensures |r| == |ps| && forall i :: 0 <= i < |ps| ==> r[i] == UpdateEntry(ps[i], category, webpMap)
  {
    seq(|ps|, i requires 0 <= i < |ps| => UpdateEntry(ps[i], category, webpMap))
  }

  /** `updatedCount` after the loop. */
  function CountRewrites(ps: seq<Pictogram>, webpMap: map<string, string>): nat
    decreases |ps|
  {
    if ps == [] then 0
    else CountRewrites(ps[..|ps| - 1], webpMap) + (if Rewrites(ps[|ps| - 1], webpMap) then 1 else 0)
  }

  /** The parsed JSON file of a category: its `pictograms` when that is an
      array. */
  datatype CategoryJson = CategoryJson(pictograms: Option<seq<Pictogram>>)

  datatype UpdateResult = UpdateResult(updated: nat, total: nat)

  /** `data.pictograms?.length || 0`. */
  function Total(data: CategoryJson): nat {
    if data.pictograms.Some? then |data.pictograms.value| else 0
  }

  /** `updateCategoryJson(category)`: the counts, and the content written back
      (`None` when nothing is written). */
  function UpdateCategory(category: string, file: Option<CategoryJson>, listing: Option<seq<string>>): (UpdateResult, Option<CategoryJson>) {
    match file
    case None => (UpdateResult(0, 0), None)
    case Some(data) =>
      var files := WebpFiles(listing);
      if files == [] then (UpdateResult(0, Total(data)), None)
      else
        var m := WebpMap(files);
        match data.pictograms
        case None => (UpdateResult(0, 0), Some(data))
        case Some(ps) => (UpdateResult(CountRewrites(ps, m), |ps|), Some(CategoryJson(Some(UpdateEntries(ps, category, m)))))
  }

  // ---------------------------------------------------------------
  // Names

  /** Normalising twice is normalising once, and the result has no '-' or
      '_' and no ASCII capital. */
  lemma NormalizeIdIdempotent(id: string)
    ensures NormalizeId(NormalizeId(id)) == NormalizeId(id)
    ensures forall i :: 0 <= i < |NormalizeId(id)| ==> !IsSeparator(NormalizeId(id)[i]) && !('A' <= NormalizeId(id)[i] <= 'Z')
  {
    var low := Lower(id);
    var n := Filter(low, KeepChar());
    forall i | 0 <= i < |n| ensures LowerChar(n[i]) == n[i] && !('A' <= n[i] <= 'Z') {
      FilterMember(low, KeepChar(), n[i]);
      var k :| 0 <= k < |low| && low[k] == n[i];
      LowerCharIdempotent(id[k]);
    }
    assert Lower(n) == n;
    FilterAll(n, KeepChar());
  }

  /** Ids that differ only in case of ASCII letters or in '-' and '_' are
      matched to the same picture. */
  lemma NormalizeIgnoresSeparators(a: string, b: string)
    requires Filter(a, KeepChar()) == Filter(b, KeepChar())
    ensures NormalizeId(a) == NormalizeId(b)
  {
    LowerFilterCommutes(a);
    LowerFilterCommutes(b);
  }

  /** Lower-casing never makes or removes a separator. */
  lemma {:induction false} LowerFilterCommutes(s: string)
    ensures Filter(Lower(s), KeepChar()) == Lower(Filter(s, KeepChar()))
    decreases |s|
  {
    if s != [] {
      LowerFilterCommutes(s[1..]);
      assert Lower(s)[1..] == Lower(s[1..]);
      assert IsSeparator(LowerChar(s[0])) == IsSeparator(s[0]);
      var rest := Filter(s[1..], KeepChar());
      if !IsSeparator(s[0]) {
        assert Lower([s[0]] + rest) == [LowerChar(s[0])] + Lower(rest);
      }
    }
  }

  /** Exactly the `.webp` files of the folder are kept. */
  lemma WebpFilesShape(listing: Option<seq<string>>)
    ensures forall f :: f in WebpFiles(listing) ==> EndsWith(f.filename, WEBP) && f == WebpFileOf(f.filename)
    ensures listing.Some? ==> forall file :: file in listing.value && EndsWith(file, WEBP) ==> WebpFileOf(file) in WebpFiles(listing)
  {
    if listing.Some? {
      var kept := Filter(listing.value, IsWebp());
      forall f | f in WebpFiles(listing) ensures EndsWith(f.filename, WEBP) && f == WebpFileOf(f.filename) {
        var k :| 0 <= k < |kept| && WebpFiles(listing)[k] == f;
      }
      forall file | file in listing.value && EndsWith(file, WEBP) ensures WebpFileOf(file) in WebpFiles(listing) {
        FilterMember(listing.value, IsWebp(), file);
        var k :| 0 <= k < |kept| && kept[k] == file;
        assert WebpFiles(listing)[k] == WebpFileOf(file);
      }
    }
  }

  /** A file whose only ".webp" is its suffix has as basename its name
      without the suffix. */
  lemma BasenameDropsSuffix(stem: string)
    requires IndexOf(stem + WEBP, WEBP) == Some(|stem|)
    ensures WebpFileOf(stem + WEBP).basename == stem
  {
    RemoveSuffixOccurrence(stem, WEBP);
  }

  // ---------------------------------------------------------------
  // The picture map

  /** A name is in the map exactly when some file has it, and it maps to the
      last such file. */
  lemma {:induction false} WebpMapLaterWins(files: seq<WebpFile>, name: string)
    ensures name in WebpMap(files) <==> exists i :: 0 <= i < |files| && files[i].normalized == name
    ensures forall j :: (0 <= j < |files| && files[j].normalized == name &&
      (forall l :: j < l < |files| ==> files[l].normalized != name)) ==> WebpMap(files)[name] == files[j].filename
    decreases |files|
  {
    if files != [] {
      var init := files[..|files| - 1];
      var last := files[|files| - 1];
      WebpMapLaterWins(init, name);
      if (exists i :: 0 <= i < |init| && init[i].normalized == name) {
        var i :| 0 <= i < |init| && init[i].normalized == name;
        assert files[i] == init[i];
      }
      if last.normalized != name {
        forall i | 0 <= i < |files| && files[i].normalized == name ensures i < |init| && init[i].normalized == name {
          assert i != |files| - 1;
        }
      }
      forall j | 0 <= j < |files| && files[j].normalized == name &&
        (forall l :: j < l < |files| ==> files[l].normalized != name)
        ensures WebpMap(files)[name] == files[j].filename
      {
        if j < |init| {
          assert last.normalized != name;
          assert init[j] == files[j];
        }
      }
    }
  }

  /** Every picture in the map is a `.webp` file. */
  lemma {:induction false} WebpMapValues(files: seq<WebpFile>)
    requires forall i :: 0 <= i < |files| ==> EndsWith(files[i].filename, WEBP)
    ensures forall k :: k in WebpMap(files) ==> EndsWith(WebpMap(files)[k], WEBP)
    decreases |files|
  {
    if files != [] {
      WebpMapValues(files[..|files| - 1]);
    }
  }

  // ---------------------------------------------------------------
  // The rewrite

  /** An entry changes only in its image, and only when it has a picture and
      no `.webp` image yet; the new image is the picture's path. */
  lemma UpdateEntryShape(p: Pictogram, category: string, webpMap: map<string, string>)
    ensures UpdateEntry(p, category, webpMap).(image := p.image) == p
    ensures UpdateEntry(p, category, webpMap) != p ==> Rewrites(p, webpMap)
    ensures Rewrites(p, webpMap) ==>
      UpdateEntry(p, category, webpMap).image == WebpPath(category, webpMap[NormalizeId(p.id)])
  {
  }

  /** The count is the number of rewritten entries, so at most their total. */
  lemma {:induction false} CountIsRewritten(ps: seq<Pictogram>, webpMap: map<string, string>)
    ensures CountRewrites(ps, webpMap) == |Filter(ps, (p: Pictogram) => Rewrites(p, webpMap))|
    ensures CountRewrites(ps, webpMap) <= |ps|
    decreases |ps|
  {
    if ps != [] {
      var init := ps[..|ps| - 1];
      var last := ps[|ps| - 1];
      CountIsRewritten(init, webpMap);
      assert ps == init + [last];
      FilterAppend(init, [last], (p: Pictogram) => Rewrites(p, webpMap));
    }
  }

  /** With `.webp` pictures, a rewritten entry is not rewritten again: a
      second pass changes nothing and counts zero. */
  lemma {:induction false} SecondPassNoop(ps: seq<Pictogram>, category: string, webpMap: map<string, string>)
    requires forall k :: k in webpMap ==> EndsWith(webpMap[k], WEBP)
    ensures UpdateEntries(UpdateEntries(ps, category, webpMap), category, webpMap) == UpdateEntries(ps, category, webpMap)
    ensures CountRewrites(UpdateEntries(ps, category, webpMap), webpMap) == 0
    decreases |ps|
  {
    var once := UpdateEntries(ps, category, webpMap);
    forall i | 0 <= i < |ps| ensures !Rewrites(once[i], webpMap) {
      if Rewrites(ps[i], webpMap) {
        var path := WebpPath(category, webpMap[NormalizeId(ps[i].id)]);
        assert path == (PICTOS_PREFIX + category + "/") + webpMap[NormalizeId(ps[i].id)];
        EndsWithContains(webpMap[NormalizeId(ps[i].id)], WEBP);
        ContainsAppend(PICTOS_PREFIX + category + "/", webpMap[NormalizeId(ps[i].id)], WEBP);
      }
    }
    NoRewritesCountZero(once, webpMap);
  }

  lemma {:induction false} NoRewritesCountZero(ps: seq<Pictogram>, webpMap: map<string, string>)
    requires forall i :: 0 <= i < |ps| ==> !Rewrites(ps[i], webpMap)
    ensures CountRewrites(ps, webpMap) == 0
    decreases |ps|
  {
    if ps != [] {
      NoRewritesCountZero(ps[..|ps| - 1], webpMap);
    }
  }

  /** A missing file gives zero counts and writes nothing; a folder without
      pictures gives the file's total, no update and no write; otherwise the
      update count never exceeds the total and running the script again on
      what it wrote updates nothing and writes the same content. */
  lemma UpdateCategoryProperties(category: string, file: Option<CategoryJson>, listing: Option<seq<string>>)
    ensures file.None? ==> UpdateCategory(category, file, listing) == (UpdateResult(0, 0), None)
    ensures file.Some? && WebpFiles(listing) == [] ==>
      UpdateCategory(category, file, listing) == (UpdateResult(0, Total(file.value)), None)
    ensures UpdateCategory(category, file, listing).0.updated <= UpdateCategory(category, file, listing).0.total
    ensures UpdateCategory(category, file, listing).1.Some? ==>
      var again := UpdateCategory(category, UpdateCategory(category, file, listing).1, listing);
      again.0.updated == 0 && again.1 == UpdateCategory(category, file, listing).1
  {
    if file.Some? && file.value.pictograms.Some? && WebpFiles(listing) != [] {
      var ps := file.value.pictograms.value;
      var files := WebpFiles(listing);
      var m := WebpMap(files);
      CountIsRewritten(ps, m);
      WebpFilesShape(listing);
      assert forall i :: 0 <= i < |files| ==> EndsWith(files[i].filename, WEBP) by {
        forall i | 0 <= i < |files| ensures EndsWith(files[i].filename, WEBP) {
          assert files[i] in files;
        }
      }
      WebpMapValues(files);
      SecondPassNoop(ps, category, m);
    }
  }

  // ---------------------------------------------------------------
  // The loops

  /** The loop that fills `webpMap`. */
  method BuildWebpMap(files: seq<WebpFile>) returns (webpMap: map<string, string>)
    ensures webpMap == WebpMap(files)
  {
    webpMap := map[];
    var i := 0;
    while i < |files|
      invariant 0 <= i <= |files|
      invariant webpMap == WebpMap(files[..i])
    {
      var file := files[i];
      webpMap := webpMap[file.normalized := file.filename];
      assert files[..i + 1][..i] == files[..i];
      i := i + 1;
    }
    assert files[..|files|] == files;
  }

  /** The loop over the entries, rewriting images in place and counting. */
  method UpdatePictograms(ps: seq<Pictogram>, category: string, webpMap: map<string, string>)
    returns (out: seq<Pictogram>, updatedCount: nat)
    ensures out == UpdateEntries(ps, category, webpMap)
    ensures updatedCount == CountRewrites(ps, webpMap)
  {
    out := ps;
    updatedCount := 0;
    var i := 0;
    while i < |ps|
      invariant 0 <= i <= |ps| && |out| == |ps|
      invariant forall k :: 0 <= k < i ==> out[k] == UpdateEntry(ps[k], category, webpMap)
      invariant forall k :: i <= k < |ps| ==> out[k] == ps[k]
      invariant updatedCount == CountRewrites(ps[..i], webpMap)
    {
      var picto := out[i];
      var normalizedId := NormalizeId(picto.id);
      if normalizedId in webpMap && webpMap[normalizedId] != [] {
        var webpPath := WebpPath(category, webpMap[normalizedId]);
        if !Contains(picto.image, WEBP) {
          out := out[i := picto.(image := webpPath)];
          updatedCount := updatedCount + 1;
        }
      }
      assert ps[..i + 1][..i] == ps[..i];
      i := i + 1;
    }
    assert ps[..|ps|] == ps;
  }

  /** `updateCategoryJson(category)` on the parsed file and the listing. */
  method UpdateCategoryJson(category: string, file: Option<CategoryJson>, listing: Option<seq<string>>)
    returns (result: UpdateResult, written: Option<CategoryJson>)
    ensures (result, written) == UpdateCategory(category, file, listing)
  {
    if file.None? {
      return UpdateResult(0, 0), None;
    }
    var data := file.value;
    var webpFiles := WebpFiles(listing);
    if webpFiles == [] {
      return UpdateResult(0, Total(data)), None;
    }
    var webpMap := BuildWebpMap(webpFiles);
    if data.pictograms.None? {
      return UpdateResult(0, 0), Some(data);
    }
    var pictograms, updatedCount := UpdatePictograms(data.pictograms.value, category, webpMap);
    result := UpdateResult(updatedCount, |pictograms|);
    written := Some(CategoryJson(Some(pictograms)));
  }
}
