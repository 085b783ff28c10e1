/** The save store's data and rules (SaveManager.cs), stated on values: the saved
    records and their JSON form, the default save, the two save files, and what
    each store operation does to the data and to the files. The `SaveManagers`
    module runs these rules on a `SaveManager` object. */
module SaveData {
  import opened Common
  import opened CharacterMaps

  // ---------------------------------------------------------------------------
  // Records

  /** `CharacterMapSaveData`: which item is unlocked or equipped for which
      category. It is a class without an `Equals` override, so `List.Contains`
      compares instances by reference; here `x in list` does the same. The source
      never reassigns its fields. */
  class CharacterMapSaveData {
    const name: string
    const characterMapType: CharacterMapType

    constructor (name: string, characterMapType: CharacterMapType)
      ensures this.name == name && this.characterMapType == characterMapType
    {
      this.name := name;
      this.characterMapType := characterMapType;
    }
  }

  /** `ColorData`: the palette index chosen for one category. */
  datatype ColorData = ColorData(mapType: CharacterMapType, colorIndex: Int32)

  /** `GameSaveData`. The two record lists hold references, so one record object
      may sit in both. */
  datatype GameSaveData = GameSaveData(
    currency: Int32,
    unlockedCharacterMaps: seq<CharacterMapSaveData>,
    currentCharacterMaps: seq<CharacterMapSaveData>,
    colorSelections: seq<ColorData>)

  // ---------------------------------------------------------------------------
  // The JSON form: the same fields, as values

  datatype StoredMap = StoredMap(name: string, characterMapType: CharacterMapType)

  datatype StoredSave = StoredSave(
    currency: Int32,
    unlockedCharacterMaps: seq<StoredMap>,
    currentCharacterMaps: seq<StoredMap>,
    colorSelections: seq<ColorData>)

  function Stored(recs: seq<CharacterMapSaveData>): (r: seq<StoredMap>)
    ensures |r| == |recs|
    ensures forall i :: 0 <= i < |recs| ==> r[i] == StoredMap(recs[i].name, recs[i].characterMapType)
  {
    seq(|recs|, i requires 0 <= i < |recs| => StoredMap(recs[i].name, recs[i].characterMapType))
  }

  /** What `JsonUtility.ToJson` writes for the data: every field by value;
      which records were the same object is not kept. */
  function ValueOf(d: GameSaveData): StoredSave {
    StoredSave(d.currency, Stored(d.unlockedCharacterMaps), Stored(d.currentCharacterMaps), d.colorSelections)
  }

  /** A save file's contents: a well-formed JSON document, bytes that cannot be
      read or parsed, or nothing at all (a zero-length file). */
  datatype SaveFile = Json(save: StoredSave) | Unreadable | Empty

  /** What reading a file and parsing its text gives: the data, null, or an exception. */
  datatype Parsed = Data(save: StoredSave) | Null | Fails

  function ToJson(d: GameSaveData): SaveFile {
    Json(ValueOf(d))
  }

  /** `File.ReadAllText` followed by `JsonUtility.FromJson`: a JSON document parses
      to its data, and bytes that cannot be read or parsed throw. An empty text
      does not throw: `JsonUtility.FromJson` returns null for it. */
  function FromJson(f: SaveFile): Parsed {
    match f
    case Json(s) => Data(s)
    case Unreadable => Fails
    case Empty => Null
  }

  /** The data a parse that did not throw yields: None for null. */
  function ParsedData(p: Parsed): Option<StoredSave>
    requires !p.Fails?
  {
    if p.Data? then Some(p.save) else None
  }

  /** The codec assumption the model rests on: what `JsonUtility.ToJson` writes,
      `JsonUtility.FromJson` parses back to the data's value; only which records
      were the same object is lost. */
  lemma JsonRoundTrip(d: GameSaveData)
    ensures FromJson(ToJson(d)) == Data(ValueOf(d))
  {
  }

  /** No object sits in both record lists: true of every save parsed from JSON. */
  ghost predicate ListsShareNoRecord(d: GameSaveData) {
    forall i, j :: 0 <= i < |d.unlockedCharacterMaps| && 0 <= j < |d.currentCharacterMaps|
      ==> d.unlockedCharacterMaps[i] != d.currentCharacterMaps[j]
  }

  // ---------------------------------------------------------------------------
  // Categories covered

  /** How many entries of `types` are `t`. */
  function CountType(types: seq<CharacterMapType>, t: CharacterMapType): nat {
    if types == [] then 0 else (if types[0] == t then 1 else 0) + CountType(types[1..], t)
  }

  /** Exactly one entry per category, and none for the `none` sentinel. */
  ghost predicate OnePerCategory(types: seq<CharacterMapType>) {
    forall t :: CountType(types, t) == if t == none then 0 else 1
  }

  function MapTypes(recs: seq<StoredMap>): (r: seq<CharacterMapType>)
    ensures |r| == |recs| && forall i :: 0 <= i < |recs| ==> r[i] == recs[i].characterMapType
  {
    seq(|recs|, i requires 0 <= i < |recs| => recs[i].characterMapType)
  }

  function RecordTypes(recs: seq<CharacterMapSaveData>): (r: seq<CharacterMapType>)
    ensures |r| == |recs| && forall i :: 0 <= i < |recs| ==> r[i] == recs[i].characterMapType
  {
    seq(|recs|, i requires 0 <= i < |recs| => recs[i].characterMapType)
  }

  function ColorTypes(cs: seq<ColorData>): (r: seq<CharacterMapType>)
    ensures |r| == |cs| && forall i :: 0 <= i < |cs| ==> r[i] == cs[i].mapType
  {
    seq(|cs|, i requires 0 <= i < |cs| => cs[i].mapType)
  }

  // ---------------------------------------------------------------------------
  // The default save (the `GameSaveData` constructor)

  const StartingCurrency: Int32 := 100000

  /** The eight default items, in the constructor's order. */
  const DefaultMaps: seq<StoredMap> := [
    StoredMap("CharacterMap_Cheek_V1", cheeks),
    StoredMap("CharacterMap_Eye_V1", eyes),
    StoredMap("CharacterMap_Hair_V1", hair),
    StoredMap("CharacterMap_Leg_V1", legs),
    StoredMap("CharacterMap_Mouth_V1", mouth),
    StoredMap("CharacterMap_Shoes_V1", feet),
    StoredMap("CharacterMap_Torso_V1", torso),
    StoredMap("CharacterMap_Skin_V1", skin)
  ]

  /** One selection with index 0 for each of the first `n` categories of `types`
      other than `none`, in order. */
  function DefaultColors(types: seq<CharacterMapType>, n: nat): seq<ColorData>
    requires n <= |types|
  {
    if n == 0 then []
    else DefaultColors(types, n - 1) + (if types[n - 1] == none then [] else [ColorData(types[n - 1], 0)])
  }

  /** The value of a freshly constructed `GameSaveData`. */
  function DefaultSave(): StoredSave {
    StoredSave(StartingCurrency, DefaultMaps, DefaultMaps, DefaultColors(AllTypes, |AllTypes|))
  }

  lemma {:induction false} DefaultColorsFacts(types: seq<CharacterMapType>, n: nat)
    requires n <= |types|
    ensures forall t :: CountType(ColorTypes(DefaultColors(types, n)), t) == if t == none then 0 else CountType(types[..n], t)
    ensures forall c :: c in DefaultColors(types, n) ==> c.colorIndex == 0
  {
    if n > 0 {
      DefaultColorsFacts(types, n - 1);
      var rest := DefaultColors(types, n - 1);
      var last := if types[n - 1] == none then [] else [ColorData(types[n - 1], 0)];
      assert ColorTypes(rest + last) == ColorTypes(rest) + ColorTypes(last);
      assert types[..n] == types[..n - 1] + [types[n - 1]];
      forall t ensures CountType(ColorTypes(rest + last), t) == if t == none then 0 else CountType(types[..n], t) {
        CountAppend(ColorTypes(rest), ColorTypes(last), t);
        CountAppend(types[..n - 1], [types[n - 1]], t);
      }
    }
  }

  lemma {:induction false} CountAppend(a: seq<CharacterMapType>, b: seq<CharacterMapType>, t: CharacterMapType)
    ensures CountType(a + b, t) == CountType(a, t) + CountType(b, t)
    decreases |a|
  {
    if a != [] {
      assert (a + b)[0] == a[0];
      assert (a + b)[1..] == a[1..] + b;
      CountAppend(a[1..], b, t);
    } else {
      assert a + b == b;
    }
  }

  /** A fresh save: currency 100000, the eight default items each unlocked and
      equipped, one equipped item and one colour selection (index 0) for every
      category except `none`. */
  lemma DefaultSaveFacts()
    ensures DefaultSave().currency == 100000
    ensures |DefaultSave().unlockedCharacterMaps| == 8
    ensures DefaultSave().currentCharacterMaps == DefaultSave().unlockedCharacterMaps
    ensures OnePerCategory(MapTypes(DefaultSave().currentCharacterMaps))
    ensures OnePerCategory(ColorTypes(DefaultSave().colorSelections))
    ensures forall c :: c in DefaultSave().colorSelections ==> c.colorIndex == 0
    ensures DefaultSave().currentCharacterMaps[2] == StoredMap("CharacterMap_Hair_V1", hair)
  {
    assert MapTypes(DefaultMaps) == [cheeks, eyes, hair, legs, mouth, feet, torso, skin];
    DefaultColorsFacts(AllTypes, |AllTypes|);
    assert AllTypes[..|AllTypes|] == AllTypes;
    forall t ensures CountType(MapTypes(DefaultMaps), t) == if t == none then 0 else 1 {
      CountDefaultTypes(t);
    }
    forall t ensures CountType(ColorTypes(DefaultColors(AllTypes, |AllTypes|)), t) == if t == none then 0 else 1 {
      CountAllTypes(t);
    }
  }

  lemma CountDefaultTypes(t: CharacterMapType)
    ensures CountType([cheeks, eyes, hair, legs, mouth, feet, torso, skin], t) == if t == none then 0 else 1
  {
    var types := [cheeks, eyes, hair, legs, mouth, feet, torso, skin];
    forall i, j | 0 <= i < j < |types| ensures types[i] != types[j] {
      assert Ordinal(types[i]) != Ordinal(types[j]);
    }
    CountLiteral(types, t);
  }

  lemma CountAllTypes(t: CharacterMapType)
    ensures CountType(AllTypes, t) == 1
  {
    AllTypesClosed();
    CountLiteral(AllTypes, t);
  }

  /** Counting in a list of distinct categories: one if present, zero if not. */
  lemma {:induction false} CountLiteral(types: seq<CharacterMapType>, t: CharacterMapType)
    requires forall i, j :: 0 <= i < j < |types| ==> types[i] != types[j]
    ensures CountType(types, t) == if t in types then 1 else 0
    decreases |types|
  {
    if types != [] {
      CountLiteral(types[1..], t);
      if types[0] == t {
        assert t !in types[1..];
      }
    }
  }

  // ---------------------------------------------------------------------------
  // The two save files

  /** The primary file and its backup; None when the file does not exist. */
  datatype Disk = Disk(primary: Option<SaveFile>, backup: Option<SaveFile>)

  /** How the file system behaves during one `SaveData`: `File.Copy` throws; the
      primary cannot be opened for writing; the write stops half-way and leaves
      bytes that do not parse; or the write empties the file and fails before any
      text is written. */
  datatype IoFault = NoFault | CopyFails | OpenFails | TornWrite | TruncatedWrite

  /** `SaveData` for the owner: when the primary exists, copy it over the backup,
      then write the data as the primary. An exception ends the sequence and is
      swallowed; what the earlier steps did stays done. */
  function Persist(disk: Disk, s: StoredSave, fault: IoFault): Disk {
    if disk.primary.Some? && fault == CopyFails then disk
    else
      var backup := if disk.primary.Some? then disk.primary else disk.backup;
      match fault
      case OpenFails => Disk(disk.primary, backup)
      case TornWrite => Disk(Some(Unreadable), backup)
      case TruncatedWrite => Disk(Some(Empty), backup)
      case _ => Disk(Some(Json(s)), backup)
  }

  /** Where `LoadData` takes the data from. */
  datatype LoadSource = FromPrimary | FromBackup | FreshDefault

  /** `LoadData` for the owner: the primary if it exists and parsing it does not
      throw; only if it throws, the backup if that exists and does not throw;
      otherwise a new default. */
  function LoadDataSource(disk: Disk): LoadSource {
    match disk.primary
    case None => FreshDefault
    case Some(f) =>
      if !FromJson(f).Fails? then FromPrimary
      else if disk.backup.Some? && !FromJson(disk.backup.value).Fails? then FromBackup
      else FreshDefault
  }

  /** What `LoadData` returns for the owner: None (null) when the file it reads
      parses to null. */
  function LoadDataValue(disk: Disk): Option<StoredSave> {
    match LoadDataSource(disk)
    case FromPrimary => ParsedData(FromJson(disk.primary.value))
    case FromBackup => ParsedData(FromJson(disk.backup.value))
    case FreshDefault => Some(DefaultSave())
  }

  /** `LoadOrCreateSave` for the owner: with a primary file, whatever `LoadData`
      gives, files untouched; without one, a default save that is persisted. */
  function LoadOrCreateDisk(disk: Disk, fault: IoFault): Disk {
    if disk.primary.Some? then disk else Persist(disk, DefaultSave(), fault)
  }

  /** Round trip: what a successful save writes is what the next load reads. */
  lemma SaveThenLoad(disk: Disk, s: StoredSave, fault: IoFault)
    ensures LoadDataSource(Persist(disk, s, NoFault)) == FromPrimary
    ensures LoadDataValue(Persist(disk, s, NoFault)) == Some(s)
    ensures LoadOrCreateDisk(Persist(disk, s, NoFault), fault) == Persist(disk, s, NoFault)
  {
  }

  /** Backup rotation: after two successful saves of s1 then s2, the backup holds s1
      and the primary s2. */
  lemma BackupRotation(disk: Disk, s1: StoredSave, s2: StoredSave)
    ensures Persist(Persist(disk, s1, NoFault), s2, NoFault) == Disk(Some(Json(s2)), Some(Json(s1)))
  {
  }

  /** Corruption recovery: an unparsable primary with a readable backup loads the
      backup, and the files are left as they are. */
  lemma UnreadablePrimaryLoadsBackup(disk: Disk, fault: IoFault)
    requires disk.primary == Some(Unreadable) && disk.backup.Some? && disk.backup.value.Json?
    ensures LoadDataSource(disk) == FromBackup
    ensures LoadDataValue(disk) == Some(disk.backup.value.save)
    ensures LoadOrCreateDisk(disk, fault) == disk
  {
  }

  /** With nothing readable, the load yields a default save, and (as written, not as
      the documented design says) that default is not persisted. */
  lemma NothingReadableLoadsDefault(disk: Disk, fault: IoFault)
    requires disk.primary == Some(Unreadable)
    requires disk.backup.None? || disk.backup == Some(Unreadable)
    ensures LoadDataValue(disk) == Some(DefaultSave())
    ensures LoadOrCreateDisk(disk, fault) == disk
  {
  }

  /** An empty primary parses to null without an exception, so the backup is never
      consulted, whatever it holds: the load yields no data. */
  lemma EmptyPrimaryHidesBackup(disk: Disk, fault: IoFault)
    requires disk.primary == Some(Empty)
    ensures LoadDataSource(disk) == FromPrimary
    ensures LoadDataValue(disk) == None
    ensures LoadOrCreateDisk(disk, fault) == disk
  {
  }

  /** Behind an unparsable primary, an empty backup also yields no data. */
  lemma EmptyBackupLoadsNothing(disk: Disk)
    requires disk.primary == Some(Unreadable) && disk.backup == Some(Empty)
    ensures LoadDataSource(disk) == FromBackup && LoadDataValue(disk) == None
  {
  }

  /** First start: no primary file; a default save is created and written. */
  lemma FirstStartPersistsDefault(disk: Disk)
    requires disk.primary.None?
    ensures LoadDataValue(disk) == Some(DefaultSave())
    ensures LoadOrCreateDisk(disk, NoFault).primary == Some(Json(DefaultSave()))
  {
  }

  /** One save over a good primary: the next load yields the new data if nothing
      failed; the previous data if the copy, the open or the write failed with
      bytes left behind; and no data at all if the write left the file empty. */
  lemma FailedSaveKeepsLastGood(disk: Disk, previous: StoredSave, s: StoredSave, fault: IoFault)
    requires disk.primary == Some(Json(previous))
    ensures LoadDataValue(Persist(disk, s, fault)) ==
      if fault == NoFault then Some(s) else if fault == TruncatedWrite then None else Some(previous)
  {
  }

  /** Against the design's promise that the backup always holds the last good
      state: a save after a torn write copies the unparsable primary over the good
      backup, and a second torn write then loses everything. */
  lemma TornWritesCanLoseTheSave(previous: StoredSave, s1: StoredSave, s2: StoredSave)
    ensures var disk := Persist(Persist(Disk(Some(Json(previous)), None), s1, TornWrite), s2, TornWrite);
      disk == Disk(Some(Unreadable), Some(Unreadable)) && LoadDataValue(disk) == Some(DefaultSave())
  {
  }

  /** A single truncated write loses the save although the backup holds the
      previous one: the empty primary hides it. */
  lemma TruncatedWriteHidesGoodBackup(previous: StoredSave, s: StoredSave)
    ensures var disk := Persist(Disk(Some(Json(previous)), None), s, TruncatedWrite);
      disk == Disk(Some(Empty), Some(Json(previous))) && LoadDataValue(disk) == None
  {
  }

  // ---------------------------------------------------------------------------
  // Queries

  /** `IsMapUnlocked`: some unlocked record has that name, whatever its category. */
  predicate IsUnlocked(d: GameSaveData, name: string) {
    exists i :: 0 <= i < |d.unlockedCharacterMaps| && d.unlockedCharacterMaps[i].name == name
  }

  /** The index of the first record of category `t`: LINQ `Where(...).First()`. */
  function FirstOfType(recs: seq<CharacterMapSaveData>, t: CharacterMapType): (r: Option<nat>)
    ensures r.Some? ==> r.value < |recs| && recs[r.value].characterMapType == t
    ensures r.Some? ==> forall k :: 0 <= k < r.value ==> recs[k].characterMapType != t
    ensures r.None? <==> forall k :: 0 <= k < |recs| ==> recs[k].characterMapType != t
    decreases |recs|
  {
    if recs == [] then None
    else if recs[0].characterMapType == t then Some(0)
    else match FirstOfType(recs[1..], t)
      case None => None
      case Some(k) => Some(k + 1)
  }

  /** `GetSelectedMapByBodyType`: the name of the first equipped record of that
      category; `First()` throws when there is none. */
  function SelectedMapName(d: GameSaveData, t: CharacterMapType): (r: Outcome<string>)
    ensures r.Threw? <==> forall k :: 0 <= k < |d.currentCharacterMaps| ==> d.currentCharacterMaps[k].characterMapType != t
    ensures r.Threw? ==> r.failure == InvalidOperation
    ensures r.Returned? ==>
              exists k :: 0 <= k < |d.currentCharacterMaps| &&
                d.currentCharacterMaps[k].characterMapType == t && d.currentCharacterMaps[k].name == r.value
  {
    match FirstOfType(d.currentCharacterMaps, t)
    case None => Threw(InvalidOperation)
    case Some(k) => Returned(d.currentCharacterMaps[k].name)
  }

  /** The index of the first colour selection of category `t`. */
  function FirstColorOfType(cs: seq<ColorData>, t: CharacterMapType): (r: Option<nat>)
    ensures r.Some? ==> r.value < |cs| && cs[r.value].mapType == t
    ensures r.Some? ==> forall k :: 0 <= k < r.value ==> cs[k].mapType != t
    ensures r.None? <==> forall k :: 0 <= k < |cs| ==> cs[k].mapType != t
    decreases |cs|
  {
    if cs == [] then None
    else if cs[0].mapType == t then Some(0)
    else match FirstColorOfType(cs[1..], t)
      case None => None
      case Some(k) => Some(k + 1)
  }

  /** `GetSavedColorIndexByCharmapType`: the index of the first selection of that
      category; `First()` throws when there is none. */
  function SavedColorIndex(d: GameSaveData, t: CharacterMapType): (r: Outcome<Int32>)
    ensures r.Threw? <==> forall k :: 0 <= k < |d.colorSelections| ==> d.colorSelections[k].mapType != t
    ensures r.Threw? ==> r.failure == InvalidOperation
    ensures r.Returned? ==>
              exists k :: 0 <= k < |d.colorSelections| &&
                d.colorSelections[k].mapType == t && d.colorSelections[k].colorIndex == r.value
  {
    match FirstColorOfType(d.colorSelections, t)
    case None => Threw(InvalidOperation)
    case Some(k) => Returned(d.colorSelections[k].colorIndex)
  }

  /** The index of the first unlocked record with that name: `TryToEquipMap`'s search. */
  function FirstNamed(recs: seq<CharacterMapSaveData>, name: string): (r: Option<nat>)
    ensures r.Some? ==> r.value < |recs| && recs[r.value].name == name
  {
    FirstNamedFrom(recs, name, 0)
  }

  /** The index of the first record with that name at or after `i`. */
  function FirstNamedFrom(recs: seq<CharacterMapSaveData>, name: string, i: nat): (r: Option<nat>)
    requires i <= |recs|
    ensures r.Some? ==> i <= r.value < |recs| && recs[r.value].name == name
    decreases |recs| - i
  {
    if i == |recs| then None
    else if recs[i].name == name then Some(i)
    else FirstNamedFrom(recs, name, i + 1)
  }

  /** The search finds the earliest record with the name, and fails only when no
      record has it. */
  lemma FirstNamedFacts(recs: seq<CharacterMapSaveData>, name: string)
    ensures FirstNamed(recs, name).Some? ==> forall k :: 0 <= k < FirstNamed(recs, name).value ==> recs[k].name != name
    ensures FirstNamed(recs, name).None? <==> forall k :: 0 <= k < |recs| ==> recs[k].name != name
  {
    FirstNamedFromFacts(recs, name, 0);
  }

  lemma {:induction false} FirstNamedFromFacts(recs: seq<CharacterMapSaveData>, name: string, i: nat)
    requires i <= |recs|
    ensures FirstNamedFrom(recs, name, i).Some? ==> forall k :: i <= k < FirstNamedFrom(recs, name, i).value ==> recs[k].name != name
    ensures FirstNamedFrom(recs, name, i).None? <==> forall k :: i <= k < |recs| ==> recs[k].name != name
    decreases |recs| - i
  {
    if i < |recs| && recs[i].name != name {
      FirstNamedFromFacts(recs, name, i + 1);
    }
  }

  // ---------------------------------------------------------------------------
  // Store operations, on the owner's data and files

  datatype OwnerState = OwnerState(data: GameSaveData, disk: Disk)

  /** `ReplaceCharacterMap`: every equipped entry of the record's category becomes
      the record. */
  function ReplaceByType(equipped: seq<CharacterMapSaveData>, rec: CharacterMapSaveData): seq<CharacterMapSaveData> {
    seq(|equipped|, i requires 0 <= i < |equipped| =>
      if equipped[i].characterMapType == rec.characterMapType then rec else equipped[i])
  }

  /** Replacing keeps the length and the category of every slot, changes only the
      entries of the record's category, and changes nothing when none has it. */
  lemma ReplaceByTypeFacts(equipped: seq<CharacterMapSaveData>, rec: CharacterMapSaveData)
    ensures |ReplaceByType(equipped, rec)| == |equipped|
    ensures RecordTypes(ReplaceByType(equipped, rec)) == RecordTypes(equipped)
    ensures forall i :: (0 <= i < |equipped| && equipped[i].characterMapType != rec.characterMapType
      ==> ReplaceByType(equipped, rec)[i] == equipped[i])
    ensures (forall i :: 0 <= i < |equipped| ==> equipped[i].characterMapType != rec.characterMapType)
      ==> ReplaceByType(equipped, rec) == equipped
  {
  }

  /** After replacing, the record is what `GetSelectedMapByBodyType` reports for its
      category, provided that category had an equipped entry. */
  lemma ReplaceThenSelected(d: GameSaveData, rec: CharacterMapSaveData)
    requires exists k :: 0 <= k < |d.currentCharacterMaps| && d.currentCharacterMaps[k].characterMapType == rec.characterMapType
    ensures SelectedMapName(d.(currentCharacterMaps := ReplaceByType(d.currentCharacterMaps, rec)), rec.characterMapType)
         == Returned(rec.name)
  {
    var e := ReplaceByType(d.currentCharacterMaps, rec);
    var j :| 0 <= j < |d.currentCharacterMaps| && d.currentCharacterMaps[j].characterMapType == rec.characterMapType;
    assert e[j].characterMapType == rec.characterMapType;
    var k := FirstOfType(e, rec.characterMapType).value;
    assert e[k] == rec;
  }

  /** `TryToBuyMap`, given the catalogue lookup `entry` and the record `rec` it
      allocates once the price is affordable. */
  function Buy(s: OwnerState, entry: Option<CharacterMap>, rec: CharacterMapSaveData?, fault: IoFault)
    : (OwnerState, Outcome<Option<CharacterMap>>)
    requires entry.Some? && s.data.currency >= entry.value.price ==> rec != null
  {
    if entry.None? then (s, Threw(NullReference))
    else if s.data.currency < entry.value.price then (s, Returned(None))
    else if rec in s.data.unlockedCharacterMaps then (s, Returned(None))
    else
      var d := s.data.(
        currency := Sub32(s.data.currency, entry.value.price),
        unlockedCharacterMaps := s.data.unlockedCharacterMaps + [rec],
        currentCharacterMaps := ReplaceByType(s.data.currentCharacterMaps, rec));
      (OwnerState(d, Persist(s.disk, ValueOf(d), fault)), Returned(entry))
  }

  /** An item missing from the catalogue makes the purchase throw (null `price`),
      changing nothing. */
  lemma BuyUnknownItem(s: OwnerState, rec: CharacterMapSaveData?, fault: IoFault)
    ensures Buy(s, None, rec, fault) == (s, Threw(NullReference))
  {
  }

  /** Affordability: with less currency than the price the purchase returns null and
      changes neither the data nor the files. */
  lemma BuyUnaffordable(s: OwnerState, entry: CharacterMap, rec: CharacterMapSaveData?, fault: IoFault)
    requires s.data.currency < entry.price
    ensures Buy(s, Some(entry), rec, fault) == (s, Returned(None))
  {
  }

  /** A successful purchase of a new record: currency drops by exactly the price
      (and so stays non-negative for a non-negative price), the record is appended
      to the unlocked list, becomes the equipped entry of its category, and the
      result is saved. */
  lemma BuySucceeds(s: OwnerState, entry: CharacterMap, rec: CharacterMapSaveData, fault: IoFault)
    requires 0 <= entry.price <= s.data.currency
    requires rec !in s.data.unlockedCharacterMaps
    requires exists k :: 0 <= k < |s.data.currentCharacterMaps| && s.data.currentCharacterMaps[k].characterMapType == rec.characterMapType
    ensures var (s', r) := Buy(s, Some(entry), rec, fault);
      && r == Returned(Some(entry))
      && s'.data.currency == s.data.currency - entry.price >= 0
      && s'.data.unlockedCharacterMaps == s.data.unlockedCharacterMaps + [rec]
      && IsUnlocked(s'.data, rec.name)
      && SelectedMapName(s'.data, rec.characterMapType) == Returned(rec.name)
      && s'.data.colorSelections == s.data.colorSelections
      && s'.disk == Persist(s.disk, ValueOf(s'.data), fault)
  {
    var d' := Buy(s, Some(entry), rec, fault).0.data;
    assert d'.unlockedCharacterMaps[|s.data.unlockedCharacterMaps|] == rec;
    ReplaceThenSelected(s.data, rec);
  }

  /** The "already unlocked" guard compares references, and a purchase always
      tests a record it has just allocated: buying an item whose name and category
      are already unlocked is not rejected; it is charged again and the unlocked
      list gets a second record of equal value. */
  lemma RepeatPurchaseNotRejected(s: OwnerState, entry: CharacterMap, rec: CharacterMapSaveData, i: nat, fault: IoFault)
    requires 0 <= entry.price <= s.data.currency
    requires i < |s.data.unlockedCharacterMaps| && rec !in s.data.unlockedCharacterMaps
    requires s.data.unlockedCharacterMaps[i].name == rec.name
    requires s.data.unlockedCharacterMaps[i].characterMapType == rec.characterMapType
    ensures var (s', r) := Buy(s, Some(entry), rec, fault);
      && r == Returned(Some(entry))
      && s'.data.currency == s.data.currency - entry.price
      && |s'.data.unlockedCharacterMaps| == |s.data.unlockedCharacterMaps| + 1
      && Stored(s'.data.unlockedCharacterMaps)[i] == Stored(s'.data.unlockedCharacterMaps)[|s.data.unlockedCharacterMaps|]
  {
    var d' := Buy(s, Some(entry), rec, fault).0.data;
    assert d'.unlockedCharacterMaps[i] == s.data.unlockedCharacterMaps[i];
    assert d'.unlockedCharacterMaps[|s.data.unlockedCharacterMaps|] == rec;
  }

  /** `TryToEquipMap`, given the catalogue lookup `entry`: equips the first unlocked
      record with that name, whatever its category, unless that very object is
      already equipped. The result is the lookup, null or not. */
  function Equip(s: OwnerState, entry: Option<CharacterMap>, name: string, fault: IoFault)
    : (OwnerState, Outcome<Option<CharacterMap>>)
  {
    match FirstNamed(s.data.unlockedCharacterMaps, name)
    case None => (s, Returned(None))
    case Some(k) =>
      var rec := s.data.unlockedCharacterMaps[k];
      if rec in s.data.currentCharacterMaps then (s, Returned(None))
      else
        var d := s.data.(currentCharacterMaps := ReplaceByType(s.data.currentCharacterMaps, rec));
        (OwnerState(d, Persist(s.disk, ValueOf(d), fault)), Returned(entry))
  }

  /** Unlock before equip: equipping a name no unlocked record has returns null and
      changes nothing. */
  lemma EquipNotUnlocked(s: OwnerState, entry: Option<CharacterMap>, name: string, fault: IoFault)
    requires !IsUnlocked(s.data, name)
    ensures Equip(s, entry, name, fault) == (s, Returned(None))
  {
    FirstNamedFacts(s.data.unlockedCharacterMaps, name);
  }

  /** Equipping an unlocked name equips the first unlocked record of that name in
      its own category and saves, unless that same object is already equipped, in
      which case nothing changes and nothing is saved. */
  lemma EquipUnlocked(s: OwnerState, entry: Option<CharacterMap>, name: string, fault: IoFault)
    requires IsUnlocked(s.data, name)
    ensures FirstNamed(s.data.unlockedCharacterMaps, name).Some?
    ensures var k := FirstNamed(s.data.unlockedCharacterMaps, name).value;
      var rec := s.data.unlockedCharacterMaps[k];
      var (s', r) := Equip(s, entry, name, fault);
      && rec.name == name
      && (rec in s.data.currentCharacterMaps ==> s' == s && r == Returned(None))
      && (rec !in s.data.currentCharacterMaps ==>
            && r == Returned(entry)
            && s'.data == s.data.(currentCharacterMaps := ReplaceByType(s.data.currentCharacterMaps, rec))
            && s'.disk == Persist(s.disk, ValueOf(s'.data), fault))
  {
    FirstNamedFacts(s.data.unlockedCharacterMaps, name);
  }

  /** On a fresh default save, where each default record object is in both lists,
      equipping a default item is the no-op "already equipped" case. */
  lemma EquipOnSharedRecordsIsNoOp(s: OwnerState, entry: Option<CharacterMap>, name: string, fault: IoFault)
    requires s.data.currentCharacterMaps == s.data.unlockedCharacterMaps
    ensures Equip(s, entry, name, fault) == (s, Returned(None))
  {
  }

  /** After a reload the lists share no object, so the "already equipped" guard
      never fires: re-equipping the equipped item saves again and returns the lookup. */
  lemma EquipAfterReloadNeverNoOp(s: OwnerState, entry: Option<CharacterMap>, name: string, fault: IoFault)
    requires ListsShareNoRecord(s.data) && IsUnlocked(s.data, name)
    ensures var (s', r) := Equip(s, entry, name, fault);
      r == Returned(entry) && s'.disk == Persist(s.disk, ValueOf(s'.data), fault)
  {
    FirstNamedFacts(s.data.unlockedCharacterMaps, name);
    var k := FirstNamed(s.data.unlockedCharacterMaps, name).value;
    var rec := s.data.unlockedCharacterMaps[k];
    assert rec !in s.data.currentCharacterMaps;
  }

  /** `SaveColor`'s change to the selections: the first selection of the category
      takes the new index. None when there is no such selection (`FirstOrDefault`
      gives null and the assignment throws). */
  function SetColorIndex(cs: seq<ColorData>, t: CharacterMapType, index: Int32): Option<seq<ColorData>> {
    match FirstColorOfType(cs, t)
    case None => None
    case Some(k) => Some(cs[k := cs[k].(colorIndex := index)])
  }

  /** Saving a colour and reading it back gives the saved index; no other selection
      changes, and the categories covered stay the same. */
  lemma SetColorThenGet(d: GameSaveData, t: CharacterMapType, index: Int32)
    requires exists k :: 0 <= k < |d.colorSelections| && d.colorSelections[k].mapType == t
    ensures SetColorIndex(d.colorSelections, t, index).Some?
    ensures var cs := SetColorIndex(d.colorSelections, t, index).value;
      && SavedColorIndex(d.(colorSelections := cs), t) == Returned(index)
      && ColorTypes(cs) == ColorTypes(d.colorSelections)
      && forall u :: u != t ==> SavedColorIndex(d.(colorSelections := cs), u) == SavedColorIndex(d, u)
  {
    var k := FirstColorOfType(d.colorSelections, t).value;
    var cs := SetColorIndex(d.colorSelections, t, index).value;
    assert FirstColorOfType(cs, t) == Some(k) by {
      FirstColorSameTypes(d.colorSelections, cs, t);
    }
    forall u | u != t ensures SavedColorIndex(d.(colorSelections := cs), u) == SavedColorIndex(d, u) {
      FirstColorSameTypes(d.colorSelections, cs, u);
    }
  }

  /** Two selection lists with the same categories agree on where each category first appears. */
  lemma {:induction false} FirstColorSameTypes(a: seq<ColorData>, b: seq<ColorData>, t: CharacterMapType)
    requires ColorTypes(a) == ColorTypes(b)
    ensures FirstColorOfType(a, t) == FirstColorOfType(b, t)
    decreases |a|
  {
    if a != [] {
      assert a[0].mapType == ColorTypes(a)[0] == ColorTypes(b)[0] == b[0].mapType;
      assert ColorTypes(a[1..]) == ColorTypes(a)[1..];
      assert ColorTypes(b[1..]) == ColorTypes(b)[1..];
      FirstColorSameTypes(a[1..], b[1..], t);
    }
  }

  /** The default save has no selection for `none`: saving a colour for it throws. */
  lemma SetColorOfNoneOnDefaultThrows(index: Int32)
    ensures SetColorIndex(DefaultSave().colorSelections, none, index) == None
  {
    DefaultSaveFacts();
    var cs := DefaultSave().colorSelections;
    if FirstColorOfType(cs, none).Some? {
      var k := FirstColorOfType(cs, none).value;
      assert cs[k] in cs;
      CountPositive(ColorTypes(cs), k);
    }
  }

  lemma {:induction false} CountPositive(types: seq<CharacterMapType>, k: nat)
    requires k < |types|
    ensures CountType(types, types[k]) > 0
    decreases |types|
  {
    if k > 0 {
      assert types[1..][k - 1] == types[k];
      CountPositive(types[1..], k - 1);
    }
  }

  // ---------------------------------------------------------------------------
  // Building data objects

  /** The `GameSaveData` constructor: eight new default records, each put in both
      lists, and one colour selection per category except `none`. */
  method NewGameSaveData() returns (d: GameSaveData)
    ensures ValueOf(d) == DefaultSave()
    ensures d.currentCharacterMaps == d.unlockedCharacterMaps
    ensures forall r :: r in d.unlockedCharacterMaps ==> fresh(r)
  {
    var recs := NewRecords(DefaultMaps);
    var colors := DefaultColorSelections();
    d := GameSaveData(StartingCurrency, recs, recs, colors);
  }

  /** The constructor's loop over the categories in declaration order, skipping `none`. */
  method DefaultColorSelections() returns (colors: seq<ColorData>)
    ensures colors == DefaultColors(AllTypes, |AllTypes|)
  {
    colors := [];
    for i := 0 to |AllTypes|
      invariant colors == DefaultColors(AllTypes, i)
    {
      if AllTypes[i] != none {
        colors := colors + [ColorData(AllTypes[i], 0)];
      }
    }
  }

  /** `JsonUtility.FromJson`: a new data object whose every record is a new object. */
  method Materialize(s: StoredSave) returns (d: GameSaveData)
    ensures ValueOf(d) == s
    ensures forall r :: r in d.unlockedCharacterMaps ==> fresh(r)
    ensures forall r :: r in d.currentCharacterMaps ==> fresh(r)
    ensures ListsShareNoRecord(d)
  {
    var unlocked := NewRecords(s.unlockedCharacterMaps);
    var current := NewRecords(s.currentCharacterMaps);
    forall i, j | 0 <= i < |unlocked| && 0 <= j < |current| ensures unlocked[i] != current[j] {
      assert unlocked[i] in unlocked && current[j] in current;
    }
    d := GameSaveData(s.currency, unlocked, current, s.colorSelections);
  }

  method NewRecords(stored: seq<StoredMap>) returns (recs: seq<CharacterMapSaveData>)
    ensures Stored(recs) == stored
    ensures forall r :: r in recs ==> fresh(r)
  {
    recs := [];
    for i := 0 to |stored|
      invariant Stored(recs) == stored[..i]
      invariant forall r :: r in recs ==> fresh(r)
    {
      var r := new CharacterMapSaveData(stored[i].name, stored[i].characterMapType);
      recs := recs + [r];
    }
    assert stored[..|stored|] == stored;
  }
}
