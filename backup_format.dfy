/** The backup document: its constants and error keys, the file-name time
    stamp, the structure check, the version gate, the document export
    builds, the checks import runs before touching the store, and the
    decoding of the records it replays. */
module BackupFormat {
  import opened Wrappers
  import opened Strings
  import opened Seqs
  import opened Json
  import opened Schema

  const BACKUP_VERSION: string := "1.0.0"
  const APP_VERSION: string := "1.0.0"

  const ERROR_INVALID: string := "backup.error_invalid"
  const ERROR_CORRUPTED: string := "backup.error_corrupted"
  const ERROR_VERSION: string := "backup.error_version"
  const ERROR_NO_DATA: string := "backup.error_no_data"

  /** `new BackupError(key)`: an error whose message is a translation key
      and whose name is "BackupError". */
  datatype BackupError = BackupError(message: string) {
    const name: string := "BackupError"
  }

  /** What an awaited step can throw. */
  datatype Thrown = Raised(error: BackupError) | TypeError | AbortError | OtherError

  /** The outer `catch` of `exportBackup`: a BackupError is rethrown and
      anything else becomes `error_corrupted`. */
  function ExportCatch(t: Thrown): (e: BackupError)
    ensures t.Raised? ==> e == t.error
    ensures !t.Raised? ==> e == BackupError(ERROR_CORRUPTED)
  {
    if t.Raised? then t.error else BackupError(ERROR_CORRUPTED)
  }

  /** The outer `catch` of `importBackup`: a BackupError is rethrown, an
      AbortError returns normally (`Pass`), anything else becomes
      `error_corrupted`. */
  function ImportCatch(t: Thrown): (o: Outcome<BackupError>)
    ensures o == Pass <==> t.AbortError?
    ensures t.Raised? ==> o == Fail(t.error)
    ensures t.TypeError? || t.OtherError? ==> o == Fail(BackupError(ERROR_CORRUPTED))
  {
    match t
    case Raised(e) => Fail(e)
    case AbortError => Pass
    case _ => Fail(BackupError(ERROR_CORRUPTED))
  }

  // ---------------------------------------------------------------
  // File name time stamp

  /** The local date and time `new Date()` reads; `month` is the 0-based
      value of `getMonth()`. */
  datatype LocalTime = LocalTime(year: nat, month: nat, day: nat, hours: nat, minutes: nat, seconds: nat)

  predicate InRange(t: LocalTime) {
    t.month < 12 && 1 <= t.day <= 31 && t.hours < 24 && t.minutes < 60 && t.seconds < 60
  }

  /** `String(n).padStart(2, "0")`. */
  function Pad2(n: nat): (r: string)
    ensures n < 100 ==> |r| == 2 && AllDigits(r) && DigitsValue(r) == n
  {
    var r := PadStart2(NatToString(n));
    assert n < 100 ==> |r| == 2 && AllDigits(r) && DigitsValue(r) == n by {
      if n < 100 { Pad2Value(n); }
    }
    r
  }

  lemma Pad2Value(n: nat)
    requires n < 100
    ensures var r := PadStart2(NatToString(n)); |r| == 2 && AllDigits(r) && DigitsValue(r) == n
  {
    var d := NatToString(n);
    DigitsValueOfNatToString(n);
    if n < 10 {
      assert d == [DigitChar(n)];
      DigitsValueLeadingZero(d);
      assert PadStart2(d) == "0" + d;
    } else {
      assert NatToString(n / 10) == [DigitChar(n / 10)];
    }
  }

  /** The two characters of `r` at `i` are decimal digits that read as `v`. */
  predicate TwoDigitField(r: string, i: nat, v: nat) {
    i + 2 <= |r| && AllDigits(r[i..i + 2]) && DigitsValue(r[i..i + 2]) == v
  }

  /** `formatTimestamp()`: `YYYY-MM-DD-HHmmss` in local time: the year, a
      dash, the 1-based month, a dash, the day, a dash, then hours, minutes
      and seconds, each field two digits. */
  function FormatTimestamp(t: LocalTime): (r: string)
    ensures InRange(t) ==> |r| == |NatToString(t.year)| + 13
    ensures InRange(t) ==>
      var n := |NatToString(t.year)|;
      && r[..n] == NatToString(t.year)
      && r[n] == '-' && r[n + 3] == '-' && r[n + 6] == '-'
      && TwoDigitField(r, n + 1, t.month + 1) && TwoDigitField(r, n + 4, t.day)
      && TwoDigitField(r, n + 7, t.hours) && TwoDigitField(r, n + 9, t.minutes) && TwoDigitField(r, n + 11, t.seconds)
  {
    var r := NatToString(t.year) + ("-" + (Pad2(t.month + 1) + ("-" + (Pad2(t.day) + ("-"
      + (Pad2(t.hours) + (Pad2(t.minutes) + Pad2(t.seconds))))))));
    assert InRange(t) ==> TimestampLaidOut(t, r) by {
      if InRange(t) { TimestampLayout(t); }
    }
    r
  }

  ghost predicate TimestampLaidOut(t: LocalTime, r: string) {
    var n := |NatToString(t.year)|;
    && |r| == n + 13
    && r[..n] == NatToString(t.year)
    && r[n] == '-' && r[n + 3] == '-' && r[n + 6] == '-'
    && TwoDigitField(r, n + 1, t.month + 1) && TwoDigitField(r, n + 4, t.day)
    && TwoDigitField(r, n + 7, t.hours) && TwoDigitField(r, n + 9, t.minutes) && TwoDigitField(r, n + 11, t.seconds)
  }

  lemma TimestampLayout(t: LocalTime)
    requires InRange(t)
    ensures TimestampLaidOut(t, NatToString(t.year) + ("-" + (Pad2(t.month + 1) + ("-" + (Pad2(t.day) + ("-"
      + (Pad2(t.hours) + (Pad2(t.minutes) + Pad2(t.seconds)))))))))
  {
    StampSlices(NatToString(t.year), Pad2(t.month + 1), Pad2(t.day), Pad2(t.hours), Pad2(t.minutes), Pad2(t.seconds));
  }

  /** Where each part of `y-m-d-hic` sits, for two-character fields. */
  lemma StampSlices(y: string, m: string, d: string, h: string, i: string, c: string)
    requires |m| == 2 && |d| == 2 && |h| == 2 && |i| == 2 && |c| == 2
    ensures var r := y + ("-" + (m + ("-" + (d + ("-" + (h + (i + c)))))));
      var n := |y|;
      && |r| == n + 13 && r[..n] == y
      && r[n] == '-' && r[n + 3] == '-' && r[n + 6] == '-'
      && r[n + 1..n + 3] == m && r[n + 4..n + 6] == d
      && r[n + 7..n + 9] == h && r[n + 9..n + 11] == i && r[n + 11..n + 13] == c
  {
    var tail := "-" + (m + ("-" + (d + ("-" + (h + (i + c))))));
    var r := y + tail;
    var n := |y|;
    assert r[..n] == y;
    assert tail[1..3] == m && tail[3] == '-';
    assert tail[4..6] == d && tail[6] == '-';
    assert tail[7..9] == h && tail[9..11] == i && tail[11..13] == c;
    assert r[n + 1..n + 3] == tail[1..3];
    assert r[n + 4..n + 6] == tail[4..6];
    assert r[n + 7..n + 9] == tail[7..9];
    assert r[n + 9..n + 11] == tail[9..11];
    assert r[n + 11..n + 13] == tail[11..13];
  }

  /** Distinct moments give distinct time stamps, so two exports never pick
      the same file name. */
  lemma FormatTimestampInjective(a: LocalTime, b: LocalTime)
    requires InRange(a) && InRange(b)
    requires FormatTimestamp(a) == FormatTimestamp(b)
    ensures a == b
  {
    var ya, yb := NatToString(a.year), NatToString(b.year);
    assert |ya| == |yb|;
    SplitEqual(ya, FormatTimestamp(a)[|ya|..], yb, FormatTimestamp(b)[|yb|..]);
    NatToStringInjective(a.year, b.year);
    var ma, mb := Pad2(a.month + 1), Pad2(b.month + 1);
    var da, db := Pad2(a.day), Pad2(b.day);
    var ha, hb := Pad2(a.hours), Pad2(b.hours);
    var ia, ib := Pad2(a.minutes), Pad2(b.minutes);
    var sa, sb := Pad2(a.seconds), Pad2(b.seconds);
    SplitEqual(ya, "-" + (ma + ("-" + (da + ("-" + (ha + (ia + sa)))))), yb, "-" + (mb + ("-" + (db + ("-" + (hb + (ib + sb)))))));
    SplitEqual("-", ma + ("-" + (da + ("-" + (ha + (ia + sa))))), "-", mb + ("-" + (db + ("-" + (hb + (ib + sb))))));
    SplitEqual(ma, "-" + (da + ("-" + (ha + (ia + sa)))), mb, "-" + (db + ("-" + (hb + (ib + sb)))));
    SplitEqual("-", da + ("-" + (ha + (ia + sa))), "-", db + ("-" + (hb + (ib + sb))));
    SplitEqual(da, "-" + (ha + (ia + sa)), db, "-" + (hb + (ib + sb)));
    SplitEqual("-", ha + (ia + sa), "-", hb + (ib + sb));
    SplitEqual(ha, ia + sa, hb, ib + sb);
    SplitEqual(ia, sa, ib, sb);
  }

  /** Equal concatenations whose first parts have the same length have equal parts. */
  lemma SplitEqual(x: string, y: string, x': string, y': string)
    requires x + y == x' + y' && |x| == |x'|
    ensures x == x' && y == y'
  {
    assert x == (x + y)[..|x|] && x' == (x' + y')[..|x|];
    assert y == (x + y)[|x|..] && y' == (x' + y')[|x|..];
  }

  // ---------------------------------------------------------------
  // Version gate

  /** `parseInt(v.split(".")[0], 10)`, `None` for NaN. */
  function Major(v: string): Option<int> {
    ParseInt(BeforeFirst(v, '.'))
  }

  /** `isVersionCompatible(v)`: same major version as BACKUP_VERSION. */
  predicate IsVersionCompatible(v: string) {
    Major(v) == Major(BACKUP_VERSION)
  }

  /** `parseInt` of a plain decimal numeral reads the numeral's value. */
  lemma ParseNumeral(n: nat, rest: string)
    ensures Major(NatToString(n) + "." + rest) == Some(n as int)
  {
    var d := NatToString(n);
    assert '.' !in d by {
      forall i | 0 <= i < |d| ensures d[i] != '.' { assert IsDigit(d[i]); }
    }
    assert d + "." + rest == d + ['.'] + rest;
    BeforeFirstNoSep(d, '.', rest);
    ParseDigits(d);
    DigitsValueOfNatToString(n);
  }

  /** `parseInt` of a non-empty run of digits is the value of the digits. */
  lemma ParseDigits(d: string)
    requires d != [] && AllDigits(d)
    ensures ParseInt(d) == Some(DigitsValue(d) as int)
  {
    assert IsDigit(d[0]);
    assert TrimStart(d) == d;
    assert SignStripped(d) == d;
    DigitPrefixOfDigits(d, []);
    assert d + [] == d;
  }

  /** The current major version is 1. */
  lemma CurrentMajor()
    ensures Major(BACKUP_VERSION) == Some(1)
  {
    assert BACKUP_VERSION == NatToString(1) + "." + "0.0";
    ParseNumeral(1, "0.0");
  }

  /** A numeral major version is accepted exactly when it is 1: "1.9.9" is
      accepted, "2.0.0" and "0.9.0" are not. */
  lemma VersionGate(n: nat, rest: string)
    ensures IsVersionCompatible(NatToString(n) + "." + rest) <==> n == 1
  {
    CurrentMajor();
    ParseNumeral(n, rest);
  }

  // ---------------------------------------------------------------
  // Structure check

  /** `!v || typeof v !== "string"` does not throw. */
  predicate NonEmptyString(v: JsValue) {
    Truthy(v) && IsString(v)
  }

  /** `validateBackupStructure(backup)` on a parsed document. Reading a
      property of `null` throws a TypeError; every other failed test throws
      `error_invalid`. */
  function ValidateBackupStructure(backup: Json): (r: Outcome<Thrown>)
    ensures r == Pass <==> WellFormed(backup)
    ensures r.Fail? ==> r.error == if backup.JNull? then TypeError else Raised(BackupError(ERROR_INVALID))
  {
    if backup.JNull? then Fail(TypeError)
    else
      var invalid := Fail(Raised(BackupError(ERROR_INVALID)));
      ObjectCheck(Member(backup, "data"));
      if !NonEmptyString(Member(backup, "version")) then invalid
      else if !NonEmptyString(Member(backup, "checksum")) then invalid
      else if !Truthy(Member(backup, "data")) || !IsObjectType(Member(backup, "data")) then invalid
      else
        var data := Member(backup, "data").value;
        var phrases := Member(data, "customPhrases");
        ObjectCheck(phrases);
        if !IsArray(Member(data, "favorites")) then invalid
        else if !Truthy(phrases) || !IsObjectType(phrases) then invalid
        else if !IsArray(Member(phrases.value, "fr")) || !IsArray(Member(phrases.value, "en")) then invalid
        else
          var profile := Member(data, "userProfile");
          if !(profile == Some(JNull)) && !IsObjectType(profile) then invalid
          else Pass
  }

  /** The documents the structure check accepts, stated on their fields: a
      non-empty string version and checksum, a data object with a favorites
      array, a customPhrases object holding fr and en arrays, and a
      userProfile that is present and null, an array or an object. */
  predicate WellFormed(b: Json) {
    && b.JObj?
    && "version" in b.fields && b.fields["version"].JStr? && b.fields["version"].s != []
    && "checksum" in b.fields && b.fields["checksum"].JStr? && b.fields["checksum"].s != []
    && "data" in b.fields && b.fields["data"].JObj?
    && var d := b.fields["data"].fields;
       && "favorites" in d && d["favorites"].JArr?
       && "customPhrases" in d && d["customPhrases"].JObj?
       && "fr" in d["customPhrases"].fields && d["customPhrases"].fields["fr"].JArr?
       && "en" in d["customPhrases"].fields && d["customPhrases"].fields["en"].JArr?
       && "userProfile" in d
       && (d["userProfile"].JNull? || d["userProfile"].JArr? || d["userProfile"].JObj?)
  }

  // Accessors for an accepted document.

  function DataOf(b: Json): map<string, Json>
    requires WellFormed(b)
  {
    b.fields["data"].fields
  }

  function ProfileOf(b: Json): Json
    requires WellFormed(b)
  {
    DataOf(b)["userProfile"]
  }

  function FavoritesOf(b: Json): seq<Json>
    requires WellFormed(b)
  {
    DataOf(b)["favorites"].items
  }

  function PhraseItemsOf(b: Json, language: string): seq<Json>
    requires WellFormed(b) && (language == "fr" || language == "en")
  {
    DataOf(b)["customPhrases"].fields[language].items
  }

  // ---------------------------------------------------------------
  // Export

  function OptionalString(o: Option<string>): Json {
    if o.Some? then JStr(o.value) else JNull
  }

  /** The id and timestamps every row carries. */
  function StampFields(id: nat, createdAt: nat, updatedAt: nat): (r: map<string, Json>)
    ensures r.Keys == STRIPPED
  {
    map["id" := JNum(id as real), "createdAt" := JNum(createdAt as real), "updatedAt" := JNum(updatedAt as real)]
  }

  /** The other columns of a profile row. */
  function ProfileColumns(p: UserProfile): map<string, Json> {
    map[
      "name" := JStr(p.name),
      "language" := JStr(p.language),
      "ttsSpeed" := JNum(p.ttsSpeed),
      "ttsVoiceId" := OptionalString(p.ttsVoiceId),
      "pinCode" := OptionalString(p.pinCode),
      "hiddenCategories" := OptionalString(p.hiddenCategories)]
  }

  /** A profile row as `JSON` sees it. */
  function ProfileJson(p: UserProfile): Json {
    JObj(ProfileColumns(p) + StampFields(p.id, p.createdAt, p.updatedAt))
  }

  function PhraseColumns(p: CustomPhrase): map<string, Json> {
    map[
      "pictogramId" := JStr(p.pictogramId),
      "text" := JStr(p.text),
      "emoji" := OptionalString(p.emoji),
      "language" := JStr(p.language)]
  }

  function PhraseJson(p: CustomPhrase): Json {
    JObj(PhraseColumns(p) + StampFields(p.id, p.createdAt, p.updatedAt))
  }

  /** Dropping id and timestamps leaves the other columns. */
  lemma StripStamps(cols: map<string, Json>, id: nat, createdAt: nat, updatedAt: nat)
    requires forall k :: k in cols ==> k !in STRIPPED
    ensures Without(cols + StampFields(id, createdAt, updatedAt), STRIPPED) == cols
  {
  }

  function PhrasesJson(s: seq<CustomPhrase>): (r: Json)
    ensures r.JArr? && |r.items| == |s|
    ensures forall i :: 0 <= i < |s| ==> r.items[i] == PhraseJson(s[i])
  {
    JArr(seq(|s|, i requires 0 <= i < |s| => PhraseJson(s[i])))
  }

  /** The `data` member: profile, favorites and the fr and en phrases;
      custom pictograms are not exported. */
  function DataJson(profile: UserProfile, favorites: seq<string>, fr: seq<CustomPhrase>, en: seq<CustomPhrase>): Json {
    JObj(map[
      "userProfile" := ProfileJson(profile),
      "favorites" := StringArray(favorites),
      "customPhrases" := JObj(map["fr" := PhrasesJson(fr), "en" := PhrasesJson(en)])])
  }

  /** The SHA-256 of `JSON.stringify(data)`: the checksum covers the data
      member alone. */
  function Checksum(env: JsonEnv, data: Json): string {
    env.sha256(env.stringify(data))
  }

  /** The document `exportBackup` writes (before pretty printing). */
  function ExportDocument(env: JsonEnv, profile: UserProfile, favorites: seq<string>,
                          fr: seq<CustomPhrase>, en: seq<CustomPhrase>, timestamp: string): Json
  {
    var data := DataJson(profile, favorites, fr, en);
    JObj(map[
      "version" := JStr(BACKUP_VERSION),
      "appVersion" := JStr(APP_VERSION),
      "timestamp" := JStr(timestamp),
      "data" := data,
      "checksum" := JStr(Checksum(env, data))])
  }

  /** `pexy-backup-<YYYY-MM-DD-HHmmss>.json`. */
  function BackupFileName(t: LocalTime): (r: string)
    ensures EndsWith(r, ".json")
  {
    var r := "pexy-backup-" + FormatTimestamp(t) + ".json";
    assert r[|r| - 5..] == ".json";
    r
  }

  // ---------------------------------------------------------------
  // Import checks

  /** Steps 3 to 6 of `importBackup`: parse, structure, checksum, version,
      in that order; the first that fails decides what is thrown. */
  function CheckBackup(env: JsonEnv, content: string): (r: Result<Json, Thrown>)
    ensures r.Ok? <==>
      && env.parse(content).Some?
      && var b := env.parse(content).value;
         && WellFormed(b)
         && Checksum(env, b.fields["data"]) == b.fields["checksum"].s
         && IsVersionCompatible(b.fields["version"].s)
    ensures r.Ok? ==> r.value == env.parse(content).value
    ensures env.parse(content).None? ==> r == Err(Raised(BackupError(ERROR_CORRUPTED)))
    ensures env.parse(content).Some? && !WellFormed(env.parse(content).value) ==>
      r == Err(ValidateBackupStructure(env.parse(content).value).error)
    ensures r.Err? && r.error == Raised(BackupError(ERROR_VERSION)) ==>
      var b := env.parse(content).value; WellFormed(b) && Checksum(env, b.fields["data"]) == b.fields["checksum"].s
  {
    match env.parse(content)
    case None => Err(Raised(BackupError(ERROR_CORRUPTED)))
    case Some(backup) =>
      match ValidateBackupStructure(backup)
      case Fail(t) => Err(t)
      case Pass =>
        if Checksum(env, backup.fields["data"]) != backup.fields["checksum"].s then
          Err(Raised(BackupError(ERROR_CORRUPTED)))
        else if !IsVersionCompatible(backup.fields["version"].s) then
          Err(Raised(BackupError(ERROR_VERSION)))
        else Ok(backup)
  }

  /** What a written document relies on from the collaborators to pass
      import's checks: its indented text parses back to it, and its
      checksum is not the empty string (a hex SHA-256 digest has 64
      characters). */
  predicate ReadsBack(env: JsonEnv, doc: Json) {
    && PrettyRoundTrips(env, doc)
    && doc.JObj? && "checksum" in doc.fields && doc.fields["checksum"] != JStr([])
  }

  /** Collaborators exist under which an exported document reads back. */
  lemma ReadsBackMeetable(profile: UserProfile, favorites: seq<string>,
                          fr: seq<CustomPhrase>, en: seq<CustomPhrase>, timestamp: string)
    ensures exists env :: ReadsBack(env, ExportDocument(env, profile, favorites, fr, en, timestamp))
  {
    var env0 := JsonEnv((j: Json) => "{}", (j: Json) => "{}", (t: string) => None, (t: string) => "0");
    var doc := ExportDocument(env0, profile, favorites, fr, en, timestamp);
    var env := env0.(parse := (t: string) => Some(doc));
    assert ExportDocument(env, profile, favorites, fr, en, timestamp) == doc;
    assert ReadsBack(env, doc);
  }

  /** A document export wrote passes every check import runs. */
  lemma ExportPassesChecks(env: JsonEnv, profile: UserProfile, favorites: seq<string>,
                           fr: seq<CustomPhrase>, en: seq<CustomPhrase>, timestamp: string)
    requires ReadsBack(env, ExportDocument(env, profile, favorites, fr, en, timestamp))
    ensures var doc := ExportDocument(env, profile, favorites, fr, en, timestamp);
      CheckBackup(env, env.pretty(doc)) == Ok(doc)
  {
    var doc := ExportDocument(env, profile, favorites, fr, en, timestamp);
    var data := DataJson(profile, favorites, fr, en);
    assert env.parse(env.pretty(doc)) == Some(doc);
    assert Checksum(env, data) != [];
    assert WellFormed(doc);
    CurrentMajor();
  }

  // ---------------------------------------------------------------
  // Restore: decoding the records that are replayed

  /** The keys `const { id, createdAt, updatedAt, ...rest } = record` drops. */
  const STRIPPED: set<string> := {"id", "createdAt", "updatedAt"}

  /** A NOT NULL column without a default: the key must hold a string. */
  function RequiredString(f: map<string, Json>, k: string): (r: Option<string>)
    ensures r.Some? <==> k in f && f[k].JStr?
    ensures r.Some? ==> f[k] == JStr(r.value)
  {
    if k in f && f[k].JStr? then Some(f[k].s) else None
  }

  /** A NOT NULL column with a default: a missing key takes the default
      (`Some(None)`), a string is stored, `null` or any other value fails. */
  function DefaultedString(f: map<string, Json>, k: string): (r: Option<Option<string>>)
    ensures r == Some(None) <==> k !in f
    ensures r.Some? && r.value.Some? <==> k in f && f[k].JStr?
    ensures r.Some? && r.value.Some? ==> f[k] == JStr(r.value.value)
  {
    if k !in f then Some(None) else if f[k].JStr? then Some(Some(f[k].s)) else None
  }

  function DefaultedNumber(f: map<string, Json>, k: string): (r: Option<Option<real>>)
    ensures r == Some(None) <==> k !in f
    ensures r.Some? && r.value.Some? <==> k in f && f[k].JNum?
    ensures r.Some? && r.value.Some? ==> f[k] == JNum(r.value.value)
  {
    if k !in f then Some(None) else if f[k].JNum? then Some(Some(f[k].n)) else None
  }

  /** A nullable column: a missing key or `null` stores NULL. */
  function NullableString(f: map<string, Json>, k: string): (r: Option<Option<string>>)
    ensures r == Some(None) <==> k !in f || f[k].JNull?
    ensures r.Some? && r.value.Some? <==> k in f && f[k].JStr?
    ensures r.Some? && r.value.Some? ==> f[k] == JStr(r.value.value)
  {
    if k !in f || f[k].JNull? then Some(None) else if f[k].JStr? then Some(Some(f[k].s)) else None
  }

  /** What `createUserProfile(profileData)` inserts for a stored profile
      object, `None` when the insert fails (a missing or non-string name, an
      explicit null in a NOT NULL column, or a value of the wrong type). */
  function DecodeProfile(v: Json): (r: Option<NewUserProfile>)
    ensures r.Some? ==> v.JObj? && "name" in v.fields && v.fields["name"] == JStr(r.value.name)
  {
    if !v.JObj? then None
    else
      var f := Without(v.fields, STRIPPED);
      match (RequiredString(f, "name"), DefaultedString(f, "language"), DefaultedNumber(f, "ttsSpeed"),
             NullableString(f, "ttsVoiceId"), NullableString(f, "pinCode"), NullableString(f, "hiddenCategories"))
      case (Some(name), Some(language), Some(speed), Some(voice), Some(pin), Some(hidden)) =>
        Some(NewUserProfile(name, language, speed, voice, pin, hidden))
      case _ => None
  }

  /** What `addCustomPhrase(phraseData)` inserts for a stored phrase. */
  function DecodePhrase(v: Json): (r: Option<NewCustomPhrase>)
    ensures r.Some? ==> v.JObj? && "pictogramId" in v.fields && v.fields["pictogramId"] == JStr(r.value.pictogramId)
    ensures r.Some? ==> "text" in v.fields && v.fields["text"] == JStr(r.value.text)
  {
    if !v.JObj? then None
    else
      var f := Without(v.fields, STRIPPED);
      match (RequiredString(f, "pictogramId"), RequiredString(f, "text"),
             NullableString(f, "emoji"), DefaultedString(f, "language"))
      case (Some(pictogramId), Some(text), Some(emoji), Some(language)) =>
        Some(NewCustomPhrase(pictogramId, text, emoji, language))
      case _ => None
  }

  /** The phrases replayed from a list: every item up to the first that
      cannot be inserted (that one throws and ends the import). */
  function DecodedPrefix(items: seq<Json>): (r: seq<NewCustomPhrase>)
    ensures |r| <= |items|
  {
    DecodedWhile(items, DecodePhrase)
  }

  /** The values `decode` gives for the items of a list, up to the first
      item it refuses. */
  function DecodedWhile<T>(items: seq<Json>, decode: Json -> Option<T>): (r: seq<T>)
    ensures |r| <= |items|
  {
    if items == [] || decode(items[0]).None? then []
    else [decode(items[0]).value] + DecodedWhile(items[1..], decode)
  }


  predicate AllDecodable(items: seq<Json>) {
    |DecodedPrefix(items)| == |items|
  }

  /** The string items of the favorites array, in order; any other item
      makes `addFavorite` fail, which it swallows. */
  function StringItems(items: seq<Json>): (r: seq<string>)
    ensures |r| <= |items|
    ensures forall x :: x in r <==> JStr(x) in items
  {
    if items == [] then []
    else
      var rest := StringItems(items[1..]);
      assert forall x :: JStr(x) in items <==> JStr(x) == items[0] || JStr(x) in items[1..];
      if items[0].JStr? then [items[0].s] + rest else rest
  }

  lemma StringItemsOfStringArray(ids: seq<string>)
    ensures StringItems(StringArray(ids).items) == ids
    decreases |ids|
  {
    if ids != [] {
      assert StringArray(ids).items[1..] == StringArray(ids[1..]).items;
      StringItemsOfStringArray(ids[1..]);
    }
  }

  lemma StringItemsSnoc(items: seq<Json>, i: nat)
    requires i < |items|
    ensures StringItems(items[..i + 1]) == StringItems(items[..i]) + (if items[i].JStr? then [items[i].s] else [])
    decreases i
  {
    if i > 0 {
      assert items[..i + 1][1..] == items[1..][..i];
      assert items[..i][1..] == items[1..][..i - 1];
      StringItemsSnoc(items[1..], i - 1);
    } else {
      assert items[..1][1..] == [];
    }
  }

  /** Behind a fully decodable list, decoding goes on with what follows. */
  lemma {:induction false} DecodedWhileAppend<T>(a: seq<Json>, b: seq<Json>, decode: Json -> Option<T>)
    requires |DecodedWhile(a, decode)| == |a|
    ensures DecodedWhile(a + b, decode) == DecodedWhile(a, decode) + DecodedWhile(b, decode)
    decreases |a|
  {
    if a == [] {
      assert a + b == b;
    } else {
      assert (a + b)[0] == a[0] && (a + b)[1..] == a[1..] + b;
      DecodedWhileAppend(a[1..], b, decode);
      var d := [decode(a[0]).value];
      assert d + (DecodedWhile(a[1..], decode) + DecodedWhile(b, decode)) == (d + DecodedWhile(a[1..], decode)) + DecodedWhile(b, decode);
    }
  }

  lemma DecodedPrefixAppend(a: seq<Json>, b: seq<Json>)
    requires AllDecodable(a)
    ensures DecodedPrefix(a + b) == DecodedPrefix(a) + DecodedPrefix(b)
  {
    DecodedWhileAppend(a, b, DecodePhrase);
  }


  lemma DecodedPrefixSnoc(items: seq<Json>, i: nat)
    requires i < |items| && |DecodedPrefix(items[..i])| == i
    ensures DecodePhrase(items[i]).Some? ==> DecodedPrefix(items[..i + 1]) == DecodedPrefix(items[..i]) + [DecodePhrase(items[i]).value]
    ensures DecodedPrefix(items) == DecodedPrefix(items[..i]) + DecodedPrefix(items[i..])
  {
    assert items[..i + 1] == items[..i] + [items[i]];
    assert items == items[..i] + items[i..];
    DecodedPrefixAppend(items[..i], [items[i]]);
    DecodedPrefixAppend(items[..i], items[i..]);
    assert [items[i]][1..] == [];
  }

  /** Stripping id and timestamps and decoding gives back the content of
      the row that was exported. */
  lemma ProfileRoundTrip(p: UserProfile)
    ensures DecodeProfile(ProfileJson(p)) == Some(ProfileContent(p))
  {
    var cols := ProfileColumns(p);
    assert cols.Keys == {"name", "language", "ttsSpeed", "ttsVoiceId", "pinCode", "hiddenCategories"};
    StripStamps(cols, p.id, p.createdAt, p.updatedAt);
  }

  lemma PhraseRoundTrip(p: CustomPhrase)
    ensures DecodePhrase(PhraseJson(p)) == Some(PhraseContent(p))
  {
    var cols := PhraseColumns(p);
    assert cols.Keys == {"pictogramId", "text", "emoji", "language"};
    StripStamps(cols, p.id, p.createdAt, p.updatedAt);
  }

  lemma PhrasesRoundTrip(s: seq<CustomPhrase>)
    ensures DecodedPrefix(PhrasesJson(s).items) == Map(s, PhraseContent)
  {
    var items := PhrasesJson(s).items;
    forall i | 0 <= i < |s| ensures DecodePhrase(items[i]) == Some(Map(s, PhraseContent)[i]) {
      PhraseRoundTrip(s[i]);
    }
    AllItemsDecode(items, Map(s, PhraseContent));
  }

  /** A list whose every item decodes is replayed in full. */
  lemma {:induction false} AllItemsDecode(items: seq<Json>, c: seq<NewCustomPhrase>)
    requires |items| == |c|
    requires forall i :: 0 <= i < |items| ==> DecodePhrase(items[i]) == Some(c[i])
    ensures DecodedPrefix(items) == c
    decreases |items|
  {
    if items != [] {
      assert DecodePhrase(items[0]) == Some(c[0]);
      AllItemsDecode(items[1..], c[1..]);
      assert c == [c[0]] + c[1..];
    }
  }

  /** What import restores from an exported document: the profile's
      content, the favorites in document order, and the content of every fr
      and then en phrase. */
  lemma ExportRestoreRoundTrip(env: JsonEnv, profile: UserProfile, favorites: seq<string>,
                               fr: seq<CustomPhrase>, en: seq<CustomPhrase>, timestamp: string)
    requires ReadsBack(env, ExportDocument(env, profile, favorites, fr, en, timestamp))
    ensures var doc := ExportDocument(env, profile, favorites, fr, en, timestamp);
      && CheckBackup(env, env.pretty(doc)) == Ok(doc)
      && Truthy(Some(ProfileOf(doc)))
      && DecodeProfile(ProfileOf(doc)) == Some(ProfileContent(profile))
      && StringItems(FavoritesOf(doc)) == favorites
      && DecodedPrefix(PhraseItemsOf(doc, "fr")) == Map(fr, PhraseContent)
      && DecodedPrefix(PhraseItemsOf(doc, "en")) == Map(en, PhraseContent)
  {
    ExportPassesChecks(env, profile, favorites, fr, en, timestamp);
    ExportDocumentParts(env, profile, favorites, fr, en, timestamp);
    ProfileRoundTrip(profile);
    StringItemsOfStringArray(favorites);
    PhrasesRoundTrip(fr);
    PhrasesRoundTrip(en);
  }

  /** Where the records sit in an exported document. */
  lemma ExportDocumentParts(env: JsonEnv, profile: UserProfile, favorites: seq<string>,
                            fr: seq<CustomPhrase>, en: seq<CustomPhrase>, timestamp: string)
    requires Checksum(env, DataJson(profile, favorites, fr, en)) != []
    ensures var doc := ExportDocument(env, profile, favorites, fr, en, timestamp);
      && WellFormed(doc)
      && ProfileOf(doc) == ProfileJson(profile)
      && FavoritesOf(doc) == StringArray(favorites).items
      && PhraseItemsOf(doc, "fr") == PhrasesJson(fr).items
      && PhraseItemsOf(doc, "en") == PhrasesJson(en).items
  {
    var doc := ExportDocument(env, profile, favorites, fr, en, timestamp);
    assert DataOf(doc) == DataJson(profile, favorites, fr, en).fields;
  }
}
