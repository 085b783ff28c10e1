/** The `SaveManager` component: the local player's save data, the two save files,
    and the buy/equip/colour operations the inventory calls (SaveManager.cs). The
    rules themselves are stated on values in module `SaveData`; each method here
    is proved to follow them. */
module SaveManagers {
  import opened Common
  import opened CharacterMaps
  import opened Catalog
  import opened SaveData

  class SaveManager {
    /** `PlayerIsOwner()`: whether this instance belongs to the local player. */
    const isOwner: bool
    /** The process-wide catalogue `_allCharacterMaps`. */
    const catalog: CharacterMapCatalog
    /** `_currentGameData`, taken to start as null (None). It stays null on an
        instance that is not the owner's, and on the owner's when the file
        `LoadData` read parsed to null. */
    var current: Option<GameSaveData>
    /** The primary and backup save files under the persistent data path. */
    var disk: Disk

    /** Starting from null data, only the owner comes to hold data, and the owner
        lacks it only when an existing file parses to null, which
        `LoadOrCreateSave` then reads again and again. */
    ghost predicate Valid()
      reads this, catalog
    {
      && catalog.Valid()
      && (current.Some? ==> isOwner)
      && (isOwner && current.None? ==> disk.primary.Some? && LoadDataValue(disk).None?)
    }

    /** The owner's data and files, as the value-level rules see them. */
    ghost function State(): OwnerState
      reads this
      requires current.Some?
    {
      OwnerState(current.value, disk)
    }

    /** `InitializeWithCustomPlayer`: remember whether the player is the owner, fill
        the catalogue from the engine's resources (`loaded`), then load or create the
        save. */
    constructor InitializeWithCustomPlayer(isOwner: bool, catalog: CharacterMapCatalog, disk: Disk,
                                           loaded: seq<CharacterMap>, fault: IoFault)
      requires catalog.Valid()
      modifies catalog
      ensures Valid() && this.isOwner == isOwner && this.catalog == catalog
      ensures catalog.entries == if isOwner && old(catalog.entries) == [] then Deduplicated(loaded) else old(catalog.entries)
      ensures isOwner ==> (current.Some? <==> LoadDataValue(disk).Some?)
      ensures isOwner && current.Some? ==> ValueOf(current.value) == LoadDataValue(disk).value
      ensures isOwner && LoadDataSource(disk) == FreshDefault ==>
        current.value.currentCharacterMaps == current.value.unlockedCharacterMaps
      ensures isOwner && LoadDataSource(disk) != FreshDefault && current.Some? ==> ListsShareNoRecord(current.value)
      ensures this.disk == if isOwner then LoadOrCreateDisk(disk, fault) else disk
    {
      this.isOwner := isOwner;
      this.catalog := catalog;
      this.current := None;
      this.disk := disk;
      new;
      catalog.LoadAllCharacterMaps(isOwner, loaded);
      LoadOrCreateSave(fault);
    }

    /** The getter `CurrentGameData`: when the data is null it runs
        `LoadOrCreateSave` once more. That retry reads the same files, which still
        parse to null, so the getter changes nothing and returns what the field
        holds. */
    method CurrentGameData(fault: IoFault) returns (d: Option<GameSaveData>)
      requires Valid()
      modifies this
      ensures Valid() && current == old(current) && disk == old(disk)
      ensures d == current
    {
      if current.None? {
        LoadOrCreateSave(fault);
      }
      d := current;
    }

    /** `SaveData`: for the owner, rotate the primary into the backup and write the
        data (`Persist`); for anyone else, nothing. Every caller has read the data
        first. */
    method SaveData(fault: IoFault)
      requires Valid() && (isOwner ==> current.Some?)
      modifies this
      ensures Valid() && current == old(current)
      ensures disk == if isOwner then Persist(old(disk), ValueOf(current.value), fault) else old(disk)
    {
      if !isOwner {
        return;
      }
      var s := ValueOf(current.value);
      if disk.primary.Some? {
        if fault == CopyFails {
          return;
        }
        disk := disk.(backup := disk.primary);
      }
      match fault {
        case OpenFails =>
        case TornWrite => disk := disk.(primary := Some(Unreadable));
        case TruncatedWrite => disk := disk.(primary := Some(Empty));
        case _ => disk := disk.(primary := Some(Json(s)));
      }
    }

    /** `LoadData`: null for a non-owner; otherwise the primary's data, or the
        backup's if reading the primary throws, or a new default. A file that parses
        to null gives null. Parsed data consists of new objects, so its two lists
        share no record; the new default puts the same records in both. */
    method LoadData() returns (d: Option<GameSaveData>)
      ensures !isOwner ==> d.None?
      ensures isOwner ==> (d.Some? <==> LoadDataValue(disk).Some?)
      ensures d.Some? ==> ValueOf(d.value) == LoadDataValue(disk).value
      ensures d.Some? ==> forall r :: r in d.value.unlockedCharacterMaps ==> fresh(r)
      ensures d.Some? ==> forall r :: r in d.value.currentCharacterMaps ==> fresh(r)
      ensures d.Some? && LoadDataSource(disk) != FreshDefault ==> ListsShareNoRecord(d.value)
      ensures d.Some? && LoadDataSource(disk) == FreshDefault ==>
        d.value.currentCharacterMaps == d.value.unlockedCharacterMaps
    {
      if !isOwner {
        return None;
      }
      var source := LoadDataSource(disk);
      if source == FreshDefault {
        var data := NewGameSaveData();
        return Some(data);
      }
      var file := if source == FromPrimary then disk.primary.value else disk.backup.value;
      if FromJson(file).Data? {
        var data := Materialize(FromJson(file).save);
        d := Some(data);
      } else {
        d := None;
      }
    }

    /** `LoadOrCreateSave`: with a primary file, take whatever `LoadData` gives and
        write nothing; without one, `CreateNewSave`. */
    method LoadOrCreateSave(fault: IoFault)
      requires catalog.Valid() && (current.Some? ==> isOwner)
      modifies this
      ensures Valid()
      ensures !isOwner ==> current == old(current) && disk == old(disk)
      ensures isOwner ==> (current.Some? <==> LoadDataValue(old(disk)).Some?)
      ensures isOwner && current.Some? ==> ValueOf(current.value) == LoadDataValue(old(disk)).value
      ensures isOwner && LoadDataSource(old(disk)) == FreshDefault ==>
        current.value.currentCharacterMaps == current.value.unlockedCharacterMaps
      ensures isOwner && LoadDataSource(old(disk)) != FreshDefault && current.Some? ==> ListsShareNoRecord(current.value)
      ensures isOwner ==> disk == LoadOrCreateDisk(old(disk), fault)
    {
      if !isOwner {
        return;
      }
      if disk.primary.Some? {
        current := LoadData();
      } else {
        CreateNewSave(fault);
      }
    }

    /** `CreateNewSave`: for the owner, new default data, saved at once. */
    method CreateNewSave(fault: IoFault)
      requires catalog.Valid() && (current.Some? ==> isOwner)
      modifies this
      ensures Valid()
      ensures !isOwner ==> current == old(current) && disk == old(disk)
      ensures isOwner ==> current.Some? && ValueOf(current.value) == DefaultSave()
      ensures isOwner ==> current.value.currentCharacterMaps == current.value.unlockedCharacterMaps
      ensures isOwner ==> disk == Persist(old(disk), DefaultSave(), fault)
    {
      if !isOwner {
        return;
      }
      var d := NewGameSaveData();
      current := Some(d);
      SaveData(fault);
    }

    /** `IsMapUnlocked`: whether some unlocked record has that name, whatever its
        category. A non-owner has no data and the access throws. */
    method IsMapUnlocked(name: string) returns (r: Outcome<bool>)
      requires Valid()
      ensures current.None? ==> r == Threw(NullReference)
      ensures current.Some? ==> r.Returned? && (r.value <==> IsUnlocked(current.value, name))
    {
      if current.None? {
        return Threw(NullReference);
      }
      var unlocked := current.value.unlockedCharacterMaps;
      for i := 0 to |unlocked|
        invariant forall k :: 0 <= k < i ==> unlocked[k].name != name
      {
        if unlocked[i].name == name {
          return Returned(true);
        }
      }
      r := Returned(false);
    }

    /** `GetSelectedMapByBodyType`: the name of the first equipped record of that
        category; throws when none is equipped or when there is no data. */
    method GetSelectedMapByBodyType(t: CharacterMapType) returns (r: Outcome<string>)
      requires Valid()
      ensures r == if current.Some? then SelectedMapName(current.value, t) else Threw(NullReference)
    {
      if current.None? {
        return Threw(NullReference);
      }
      r := SelectedMapName(current.value, t);
    }

    /** `GetSavedColorIndexByCharmapType`: the index of the first colour selection of
        that category; throws when there is none or when there is no data. */
    method GetSavedColorIndexByCharmapType(t: CharacterMapType) returns (r: Outcome<Int32>)
      requires Valid()
      ensures r == if current.Some? then SavedColorIndex(current.value, t) else Threw(NullReference)
    {
      if current.None? {
        return Threw(NullReference);
      }
      r := SavedColorIndex(current.value, t);
    }

    /** `ReplaceCharacterMap`: in the equipped list, every entry of the record's
        category becomes the record. */
    method ReplaceCharacterMap(rec: CharacterMapSaveData) returns (r: Outcome<()>)
      requires Valid()
      modifies this
      ensures Valid() && disk == old(disk)
      ensures old(current).None? ==> r == Threw(NullReference) && current == old(current)
      ensures old(current).Some? ==> r == Returned(())
      ensures old(current).Some? ==> current == Some(old(current.value).(currentCharacterMaps := ReplaceByType(old(current.value.currentCharacterMaps), rec)))
    {
      if current.None? {
        return Threw(NullReference);
      }
      var equipped := current.value.currentCharacterMaps;
      ghost var original := equipped;
      for i := 0 to |equipped|
        invariant |equipped| == |original|
        invariant forall k :: 0 <= k < i ==> equipped[k] == ReplaceByType(original, rec)[k]
        invariant forall k :: i <= k < |equipped| ==> equipped[k] == original[k]
      {
        if equipped[i].characterMapType == rec.characterMapType {
          equipped := equipped[i := rec];
        }
      }
      assert equipped == ReplaceByType(original, rec);
      current := Some(current.value.(currentCharacterMaps := equipped));
      r := Returned(());
    }

    /** `TryToBuyMap`: look the item up by name and category; throw if it is missing;
        return null if it is unaffordable; otherwise allocate a new record and, since
        that new object is never already in the unlocked list, charge the price,
        unlock and equip it, and save. `rec` is the record allocated, if any. */
    method TryToBuyMap(name: string, t: CharacterMapType, fault: IoFault)
      returns (r: Outcome<Option<CharacterMap>>, ghost rec: CharacterMapSaveData?)
      requires Valid()
      modifies this
      ensures Valid()
      ensures old(current).None? ==> r == Threw(NullReference) && current == old(current) && disk == old(disk)
      ensures current.Some? <==> old(current).Some?
      ensures rec != null ==> fresh(rec) && rec.name == name && rec.characterMapType == t
      ensures (old(current).Some? && FindLast(catalog.entries, name, Some(t)).Some? &&
               old(current.value.currency) >= FindLast(catalog.entries, name, Some(t)).value.price) ==> rec != null
      ensures old(current).Some? ==> (State(), r) == Buy(old(State()), FindLast(catalog.entries, name, Some(t)), rec, fault)
    {
      rec := null;
      var entry := catalog.GetCharacterMapOfType(name, t);
      if current.None? {
        r := Threw(NullReference);
        return;
      }
      if entry.None? {
        r := Threw(NullReference);
        return;
      }
      if current.value.currency < entry.value.price {
        r := Returned(None);
        return;
      }
      var saved := new CharacterMapSaveData(name, t);
      rec := saved;
      if saved !in current.value.unlockedCharacterMaps {
        var d := current.value;
        current := Some(d.(currency := Sub32(d.currency, entry.value.price),
                           unlockedCharacterMaps := d.unlockedCharacterMaps + [saved]));
        var _ := ReplaceCharacterMap(saved);
        SaveData(fault);
        r := Returned(entry);
        return;
      }
      r := Returned(None);
    }

    /** `TryToEquipMap`: find the first unlocked record with that name (its category
        is not compared); return null if there is none or if that object is already
        equipped; otherwise equip it in its category, save, and return the catalogue
        lookup by name and category, which may be null. */
    method TryToEquipMap(name: string, t: CharacterMapType, fault: IoFault) returns (r: Outcome<Option<CharacterMap>>)
      requires Valid()
      modifies this
      ensures Valid()
      ensures old(current).None? ==> r == Threw(NullReference) && current == old(current) && disk == old(disk)
      ensures current.Some? <==> old(current).Some?
      ensures old(current).Some? ==> (State(), r) == Equip(old(State()), FindLast(catalog.entries, name, Some(t)), name, fault)
    {
      var entry := catalog.GetCharacterMapOfType(name, t);
      if current.None? {
        return Threw(NullReference);
      }
      var unlocked := current.value.unlockedCharacterMaps;
      var found: Option<nat> := None;
      var i := 0;
      while i < |unlocked|
        invariant 0 <= i <= |unlocked|
        invariant found.None? ==> FirstNamedFrom(unlocked, name, i) == FirstNamed(unlocked, name)
        invariant found.Some? ==> found == FirstNamed(unlocked, name)
      {
        if unlocked[i].name == name {
          found := Some(i);
          break;
        }
        i := i + 1;
      }
      if found.None? {
        return Returned(None);
      }
      var saved := unlocked[found.value];
      if saved in unlocked {
        if saved !in current.value.currentCharacterMaps {
          var _ := ReplaceCharacterMap(saved);
          SaveData(fault);
          return Returned(entry);
        }
      }
      r := Returned(None);
    }

    /** `SaveColor`: the first selection of the category takes the new index (the
        loop that follows puts that same object back in its own slot), then the data
        is saved. Throws, saving nothing, when there is no data or no selection of
        that category. */
    method SaveColor(t: CharacterMapType, index: Int32, fault: IoFault) returns (r: Outcome<()>)
      requires Valid()
      modifies this
      ensures Valid()
      ensures old(current).None? ==> r == Threw(NullReference) && current == old(current) && disk == old(disk)
      ensures current.Some? <==> old(current).Some?
      ensures old(current).Some? ==> match SetColorIndex(old(current.value.colorSelections), t, index)
        case None => r == Threw(NullReference) && current == old(current) && disk == old(disk)
        case Some(cs) =>
          && r == Returned(())
          && current == Some(old(current.value).(colorSelections := cs))
          && disk == Persist(old(disk), ValueOf(current.value), fault)
    {
      if current.None? {
        return Threw(NullReference);
      }
      var colors := current.value.colorSelections;
      var found: Option<nat> := None;
      var i := 0;
      while i < |colors|
        invariant 0 <= i <= |colors|
        invariant found.None? ==> forall k :: 0 <= k < i ==> colors[k].mapType != t
        invariant found.Some? ==> found == FirstColorOfType(colors, t)
      {
        if colors[i].mapType == t {
          found := Some(i);
          break;
        }
        i := i + 1;
      }
      if found.None? {
        return Threw(NullReference);
      }
      var k := found.value;
      current := Some(current.value.(colorSelections := colors[k := colors[k].(colorIndex := index)]));
      SaveData(fault);
      r := Returned(());
    }
  }
}
