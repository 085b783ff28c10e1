# Character customisation core of Saku-Test, in Dafny

This project models the part of the Saku-Test Unity game that keeps a player's
customisation consistent and durable, and proves properties of that model. The
customisation is the item ("character map") equipped for each body part and the
colour chosen for each body part. The modelled parts are:

- **The item catalogue** (`catalog.dfy`, module `Catalog`). This is
  `SaveManager._allCharacterMaps`, a dictionary from an item definition's name to
  the definition. It is filled once, by the owner, from the engine's resources,
  and read by name, or by name and category. The categories and the definition
  record are in `character_map.dfy` (module `CharacterMaps`).
- **The save store.** `save_data.dfy` (module `SaveData`) states the rules on
  values:
  - the saved records and their JSON form;
  - the default save built by the `GameSaveData` constructor;
  - the primary and backup save files, and what `SaveData` and `LoadData` do to
    them, including every way file I/O can fail;
  - the purchase, equip and colour rules.

  `save_manager.dfy` (module `SaveManagers`) is the `SaveManager` component: a
  class whose methods change the owner's data and files. Each method is proved
  to follow those rules.
- **The replicated variables** (`replication.dfy`, module `Replication`). This
  is the single-writer rule behind a server-written `NetworkVariable`:
  - the server's copy is authoritative;
  - a client's write becomes a server RPC;
  - every change the server makes is queued for every client.

  The module proves that every peer converges on the server's value.
- **The two changers** of a body part. `network_mesh_changer.dfy` holds the
  replicated item name and `network_color_changer.dfy` the replicated colour.
  Both act on the body part's renderer on each peer (`rendering.dfy`).
- **The resolver** (`character_map_resolver.dfy`, module
  `CharacterMapResolvers`). It routes an item or a colour to the changers of the
  first slot of its category. It rebuilds the local player's look from the save
  data: the meshes first, then the colours.
- **The join-code gate** of `NetworkLobbyManager` (`join_code.dfy`, module
  `JoinCodes`). A client trims and upper-cases the typed code, then checks it
  against `^[6789BCDFGHJKLMNPQRTWbcdfghjklmnpqrtw]{6,12}$` before it asks the
  relay to join.

Things the source does that the model makes explicit:

- Reference semantics. `CharacterMapSaveData` is a C# class without `Equals`, so
  `List.Contains` compares object identity. It is a Dafny class here, and the
  "already unlocked" and "already equipped" guards compare references, as they
  do in the source.
- Exceptions. A null access, LINQ `First()` on an empty selection, or a bad
  list index becomes `Outcome.Threw(...)`.
- Arithmetic. C#'s unchecked 32-bit subtraction is `Common.Sub32`.
- The owner check. `PlayerIsOwner()` is a constant `isOwner` of each
  `SaveManager` object, and `_currentGameData` starts as null. Under those two
  choices only the owner's instance ever holds data; the owner too has none when
  its save file parses to null (see "Empty save file" below). The source only
  ever initialises the owner's instance; see "## Left out" for what that leaves
  unmodelled.

Where the code and the documented design disagree, the model follows the code. Each
disagreement is proved as a lemma:

- **Nothing readable.** With a primary file that cannot be read and no readable
  backup, the load yields a default save but does not write it
  (`SaveData.NothingReadableLoadsDefault`). The design says the default is
  persisted.
- **Repeat purchase.** `TryToBuyMap` tests a record object it has just
  allocated, so buying an item that is already unlocked is not rejected. It is
  charged again and recorded twice (`SaveData.RepeatPurchaseNotRejected`).
- **Equip after a reload.** Parsed data shares no record object between the
  unlocked and equipped lists. After a reload, equipping the equipped item is
  therefore never a no-op: it saves again
  (`SaveData.EquipAfterReloadNeverNoOp`).
- **Equip ignores the category.** `TryToEquipMap` finds the unlocked record by
  name alone and never compares the category (`SaveData.EquipUnlocked`).
- **Backup overwrite.** Saving after a write that left the primary unreadable
  copies the unreadable primary over a good backup. The backup then no longer
  holds the last good state (`SaveData.TornWritesCanLoseTheSave`).
- **Empty save file.** `JsonUtility.FromJson` returns null for an empty text
  instead of throwing, so an empty primary (left by a write that truncated the
  file and then failed) is taken as the load's result and the backup is never
  consulted. The owner then has no data: the getter's retry reads the same file,
  and every later access throws (`SaveData.EmptyPrimaryHidesBackup`,
  `SaveData.TruncatedWriteHidesGoodBackup`,
  `SaveManagers.SaveManager.CurrentGameData`). The design says a corrupt primary
  falls back to the backup.

## Model

| member | source | states |
|---|---|---|
| Common.Sub32 | Assets/_Project/Scripting/Scripts/Managers/SaveManager.cs:145 | `currency -= price` on C# `int`: the result equals the true difference modulo 2^32, and equals it exactly when it fits in 32 bits |
| Common.AffordableSubtraction | Assets/_Project/Scripting/Scripts/Managers/SaveManager.cs:138-145 | once the price is non-negative and within the balance, the deduction never wraps and leaves a balance between 0 and the old balance |
| CharacterMaps.Ordinal | Assets/_Project/Scripting/Scripts/CharacterMap/CharacterMap.cs:19-30 | each category's position in the enum declaration, with the enumeration listing that category at that position |
| CharacterMaps.AllTypesClosed | Assets/_Project/Scripting/Scripts/CharacterMap/CharacterMap.cs:19-30 | the enumeration has nine distinct values, `none` first, and lists every category |
| CharacterMaps.NewCharacterMap | Assets/_Project/Scripting/Scripts/CharacterMap/CharacterMap.cs:4-17 | a new definition has category `none`, price 100, and no id or mesh |
| Catalog.AddOneUnique | Assets/_Project/Scripting/Scripts/Managers/SaveManager.cs:54-56 | adding a definition under a name that is not yet a key keeps the dictionary keys unique |
| Catalog.AddNew | Assets/_Project/Scripting/Scripts/Managers/SaveManager.cs:52-58 | defines the loading loop over the resources (properties in `AddNewUnique`, `AddNewExtends`, `AddNewCovers`, `AddNewFirstWins`; no ensures) |
| Catalog.Deduplicated | Assets/_Project/Scripting/Scripts/Managers/SaveManager.cs:44-60 | defines the catalogue loaded into an empty dictionary (properties in `DeduplicatedFacts`; no ensures) |
| Catalog.AddNewUnique | Assets/_Project/Scripting/Scripts/Managers/SaveManager.cs:52-58 | the loading loop keeps the keys unique |
| Catalog.AddNewExtends | Assets/_Project/Scripting/Scripts/Managers/SaveManager.cs:52-58 | the loading loop keeps the existing entries in place and adds only loaded definitions |
| Catalog.AddNewCovers | Assets/_Project/Scripting/Scripts/Managers/SaveManager.cs:52-58 | every loaded name ends up a key |
| Catalog.AddNewFirstWins | Assets/_Project/Scripting/Scripts/Managers/SaveManager.cs:52-58 | of several loaded definitions with one name, the first is kept |
| Catalog.DeduplicatedFacts | Assets/_Project/Scripting/Scripts/Managers/SaveManager.cs:44-60 | loading into an empty dictionary gives unique keys, only loaded definitions, every loaded name, and each name's first definition |
| Catalog.FindLast | Assets/_Project/Scripting/Scripts/Managers/SaveManager.cs:203-235 | the lookup succeeds exactly when some definition matches the name (and the category, when one is given), and returns a matching definition from the catalogue |
| Catalog.FindUnique | Assets/_Project/Scripting/Scripts/Managers/SaveManager.cs:203-235 | with unique keys, looking up a definition's name returns that definition (if its category matches), whatever the enumeration order |
| Catalog.CharacterMapCatalog.constructor | Assets/_Project/Scripting/Scripts/Managers/SaveManager.cs:12 | the static dictionary starts empty |
| Catalog.CharacterMapCatalog.LoadAllCharacterMaps | Assets/_Project/Scripting/Scripts/Managers/SaveManager.cs:44-60 | only the owner loads, and only into an empty catalogue; the result is the deduplicated resource list, and the keys stay unique |
| Catalog.CharacterMapCatalog.GetCharacterMap | Assets/_Project/Scripting/Scripts/Managers/SaveManager.cs:223-235 | by name: null exactly when no definition has the name, otherwise a definition with that name |
| Catalog.CharacterMapCatalog.GetCharacterMapOfType | Assets/_Project/Scripting/Scripts/Managers/SaveManager.cs:203-218 | by name and category: null exactly when no definition has both, otherwise one that does |
| Catalog.CharacterMapCatalog.Find | Assets/_Project/Scripting/Scripts/Managers/SaveManager.cs:207-216 | the shared loop of both overloads keeps the last definition that passes both filters |
| SaveData.CharacterMapSaveData.constructor | Assets/_Project/Scripting/Scripts/Managers/SaveManager.cs:396-406 | a new record holds the given name and category |
| SaveData.Stored | Assets/_Project/Scripting/Scripts/Managers/SaveManager.cs:287 | the JSON form of a record list keeps each record's name and category, in order |
| SaveData.JsonRoundTrip | Assets/_Project/Scripting/Scripts/Managers/SaveManager.cs:287-316 | the codec assumption (proved by construction of `ToJson`/`FromJson`, not from Unity's code): parsing what `ToJson` wrote gives back the data's value; only object identity is lost |
| SaveData.FromJson | Assets/_Project/Scripting/Scripts/Managers/SaveManager.cs:313-316 | parsing a file: a JSON document gives its data, unreadable bytes throw, and an empty text gives null without an exception (defines the three outcomes; no ensures) |
| SaveData.DefaultColorsFacts | Assets/_Project/Scripting/Scripts/Managers/SaveManager.cs:385-391 | the colour loop's selections cover each visited category except `none` exactly as often as it is visited, all with index 0 |
| SaveData.DefaultSaveFacts | Assets/_Project/Scripting/Scripts/Managers/SaveManager.cs:361-392 | a fresh save: currency 100000; eight default items, each unlocked and equipped; exactly one equipped item and one colour selection (index 0) per category except `none`; hair's item is `CharacterMap_Hair_V1` |
| SaveData.CountDefaultTypes | Assets/_Project/Scripting/Scripts/Managers/SaveManager.cs:368-377 | the eight default records cover each category except `none` exactly once |
| SaveData.SaveThenLoad | Assets/_Project/Scripting/Scripts/Managers/SaveManager.cs:273-341 | round trip: after a successful save, the next load reads the primary and yields exactly what was saved, and load-or-create leaves the files alone |
| SaveData.BackupRotation | Assets/_Project/Scripting/Scripts/Managers/SaveManager.cs:282-288 | after two successful saves of s1 then s2, the backup holds s1 and the primary s2 |
| SaveData.UnreadablePrimaryLoadsBackup | Assets/_Project/Scripting/Scripts/Managers/SaveManager.cs:319-331 | an unreadable primary with a readable backup loads the backup's data, and the files are not touched |
| SaveData.NothingReadableLoadsDefault | Assets/_Project/Scripting/Scripts/Managers/SaveManager.cs:339-340 | with neither file readable, the load yields the default save, and no file is written |
| SaveData.FirstStartPersistsDefault | Assets/_Project/Scripting/Scripts/Managers/SaveManager.cs:67-93 | with no primary file, the load value is the default save, and when nothing fails the default is written as the primary |
| SaveData.FailedSaveKeepsLastGood | Assets/_Project/Scripting/Scripts/Managers/SaveManager.cs:273-299 | after one save over a good primary, the next load yields the new data if the save succeeded, the previous data if the copy, the open or a torn write failed, and no data if the write left the primary empty |
| SaveData.TornWritesCanLoseTheSave | Assets/_Project/Scripting/Scripts/Managers/SaveManager.cs:282-288 | two torn writes in a row leave both files unreadable, and the next load falls back to the default save |
| SaveData.EmptyPrimaryHidesBackup | Assets/_Project/Scripting/Scripts/Managers/SaveManager.cs:313-317 | an empty primary parses to null without throwing, so the load takes it (never the backup, whatever the backup holds), yields no data, and no file is written |
| SaveData.EmptyBackupLoadsNothing | Assets/_Project/Scripting/Scripts/Managers/SaveManager.cs:319-331 | behind an unreadable primary, an empty backup is taken and yields no data |
| SaveData.TruncatedWriteHidesGoodBackup | Assets/_Project/Scripting/Scripts/Managers/SaveManager.cs:282-288 | one write that empties the primary and fails leaves the previous save in the backup, yet the next load yields no data |
| SaveData.Persist | Assets/_Project/Scripting/Scripts/Managers/SaveManager.cs:273-299 | defines what one `SaveData` does to the two files under each I/O fault (its properties are `SaveThenLoad`, `BackupRotation`, `FailedSaveKeepsLastGood`, `TornWritesCanLoseTheSave`, `TruncatedWriteHidesGoodBackup`; no ensures) |
| SaveData.LoadDataSource | Assets/_Project/Scripting/Scripts/Managers/SaveManager.cs:304-341 | defines which file `LoadData` takes: the primary unless parsing it throws, then the backup unless that is missing or throws, else a new default (properties in the file lemmas above; no ensures) |
| SaveData.LoadDataValue | Assets/_Project/Scripting/Scripts/Managers/SaveManager.cs:304-341 | defines what `LoadData` returns for the owner, None when the chosen file parses to null (properties in the file lemmas above; no ensures) |
| SaveData.LoadOrCreateDisk | Assets/_Project/Scripting/Scripts/Managers/SaveManager.cs:67-93 | defines the files after load-or-create: untouched when a primary exists, else a persisted default (properties in `SaveThenLoad`, `FirstStartPersistsDefault` and the lemmas above; no ensures) |
| SaveData.FirstOfType | Assets/_Project/Scripting/Scripts/Managers/SaveManager.cs:127 | `Where(...).First()` on the equipped list: the earliest record of the category, or none exactly when no record has it |
| SaveData.SelectedMapName | Assets/_Project/Scripting/Scripts/Managers/SaveManager.cs:124-129 | throws `InvalidOperation` exactly when no equipped record has the category; otherwise returns the name of an equipped record of that category |
| SaveData.FirstColorOfType | Assets/_Project/Scripting/Scripts/Managers/SaveManager.cs:244 | the earliest colour selection of the category, or none exactly when there is none |
| SaveData.SavedColorIndex | Assets/_Project/Scripting/Scripts/Managers/SaveManager.cs:242-246 | throws `InvalidOperation` exactly when no selection has the category; otherwise returns the index of a selection of that category |
| SaveData.FirstNamed | Assets/_Project/Scripting/Scripts/Managers/SaveManager.cs:163-170 | the search loop of `TryToEquipMap` finds an unlocked record with that name |
| SaveData.FirstNamedFacts | Assets/_Project/Scripting/Scripts/Managers/SaveManager.cs:163-170 | the record found is the earliest with that name, and the search fails only when no record has the name |
| SaveData.ReplaceByTypeFacts | Assets/_Project/Scripting/Scripts/Managers/SaveManager.cs:191-198 | replacing keeps the length and each slot's category, leaves slots of other categories alone, and changes nothing when no slot has the category |
| SaveData.ReplaceThenSelected | Assets/_Project/Scripting/Scripts/Managers/SaveManager.cs:191-198 | after a replace, `GetSelectedMapByBodyType` reports the new record's name for its category |
| SaveData.ReplaceByType | Assets/_Project/Scripting/Scripts/Managers/SaveManager.cs:191-198 | defines the equipped list after a replace (properties in `ReplaceByTypeFacts`, `ReplaceThenSelected`; no ensures) |
| SaveData.BuyUnknownItem | Assets/_Project/Scripting/Scripts/Managers/SaveManager.cs:136-138 | buying an item the catalogue lacks throws a null reference and changes neither data nor files |
| SaveData.Buy | Assets/_Project/Scripting/Scripts/Managers/SaveManager.cs:134-153 | defines the owner's data, files and result after a purchase (properties in `BuyUnknownItem`, `BuyUnaffordable`, `BuySucceeds`, `RepeatPurchaseNotRejected`; no ensures) |
| SaveData.BuyUnaffordable | Assets/_Project/Scripting/Scripts/Managers/SaveManager.cs:138-139 | with less currency than the price, the purchase returns null and changes neither data nor files |
| SaveData.BuySucceeds | Assets/_Project/Scripting/Scripts/Managers/SaveManager.cs:141-149 | a purchase of an affordable item whose category has an equipped entry: currency drops by exactly the price and stays non-negative; the record is appended to the unlocked list and becomes its category's equipped item; colours are kept; the data is saved |
| SaveData.RepeatPurchaseNotRejected | Assets/_Project/Scripting/Scripts/Managers/SaveManager.cs:141-146 | buying an already-unlocked name and category again is charged, and appends a second record of equal value |
| SaveData.EquipNotUnlocked | Assets/_Project/Scripting/Scripts/Managers/SaveManager.cs:163-173 | equipping a name no unlocked record has returns null and changes nothing |
| SaveData.Equip | Assets/_Project/Scripting/Scripts/Managers/SaveManager.cs:158-186 | defines the owner's data, files and result after an equip (properties in `EquipNotUnlocked`, `EquipUnlocked`, `EquipOnSharedRecordsIsNoOp`, `EquipAfterReloadNeverNoOp`; no ensures) |
| SaveData.EquipUnlocked | Assets/_Project/Scripting/Scripts/Managers/SaveManager.cs:158-186 | equipping an unlocked name equips the first record with that name, in that record's category, and saves; if that object is already equipped, nothing changes and nothing is saved |
| SaveData.EquipOnSharedRecordsIsNoOp | Assets/_Project/Scripting/Scripts/Managers/SaveManager.cs:175-185 | when the equipped list is the unlocked list (a fresh default save), equipping is always a no-op that returns null |
| SaveData.EquipAfterReloadNeverNoOp | Assets/_Project/Scripting/Scripts/Managers/SaveManager.cs:175-182 | when the lists share no object (parsed data), equipping any unlocked name returns the lookup and saves |
| SaveData.SetColorThenGet | Assets/_Project/Scripting/Scripts/Managers/SaveManager.cs:251-266 | saving a colour and reading it back gives the saved index; other categories' indices and the categories covered are unchanged |
| SaveData.SetColorIndex | Assets/_Project/Scripting/Scripts/Managers/SaveManager.cs:251-266 | defines the colour list after `SaveColor`, None when no selection has the category (properties in `SetColorThenGet`, `SetColorOfNoneOnDefaultThrows`; no ensures) |
| SaveData.SetColorOfNoneOnDefaultThrows | Assets/_Project/Scripting/Scripts/Managers/SaveManager.cs:253-254 | on the default save there is no selection for `none`, so saving a colour for it throws |
| SaveData.NewGameSaveData | Assets/_Project/Scripting/Scripts/Managers/SaveManager.cs:361-392 | the constructor builds data whose value is the default save; both lists hold the same new record objects |
| SaveData.DefaultColorSelections | Assets/_Project/Scripting/Scripts/Managers/SaveManager.cs:385-391 | the constructor's colour loop over the enum, skipping `none`, builds the default colour selections |
| SaveData.Materialize | Assets/_Project/Scripting/Scripts/Managers/SaveManager.cs:316 | parsing builds data with the stored value, from new record objects; the two lists share no record |
| SaveManagers.SaveManager.InitializeWithCustomPlayer | Assets/_Project/Scripting/Scripts/Managers/SaveManager.cs:34-39 | initialising fills the catalogue (owner only, if empty); the owner then holds data exactly when the load value is not null, with that value; a fresh default puts the same records in both lists, and loaded data shares none; the files are as load-or-create leaves them |
| SaveManagers.SaveManager.SaveData | Assets/_Project/Scripting/Scripts/Managers/SaveManager.cs:273-299 | for the owner holding data, the files become `Persist` of the data under the given I/O fault; a non-owner writes nothing; the data is never changed |
| SaveManagers.SaveManager.CurrentGameData | Assets/_Project/Scripting/Scripts/Managers/SaveManager.cs:17-25 | the getter returns the field, and its retry through `LoadOrCreateSave` changes neither data nor files, so data that loaded as null stays null |
| SaveManagers.SaveManager.LoadData | Assets/_Project/Scripting/Scripts/Managers/SaveManager.cs:304-341 | null for a non-owner; for the owner, data exactly when the load value is not null, with that value (the primary's, else the backup's, else the default); parsed data is new objects whose lists share no record, and the new default puts the same records in both lists |
| SaveManagers.SaveManager.LoadOrCreateSave | Assets/_Project/Scripting/Scripts/Managers/SaveManager.cs:67-82 | the owner ends with data exactly when the load value is not null, with that value; a fresh default shares its records between the lists, and loaded data shares none; the files change only when there was no primary file (a default is then saved); a non-owner changes nothing |
| SaveManagers.SaveManager.CreateNewSave | Assets/_Project/Scripting/Scripts/Managers/SaveManager.cs:87-93 | the owner's data becomes the default save, with each record in both lists, and it is saved |
| SaveManagers.SaveManager.IsMapUnlocked | Assets/_Project/Scripting/Scripts/Managers/SaveManager.cs:109-119 | true exactly when some unlocked record has the name, whatever its category; throws without data |
| SaveManagers.SaveManager.GetSelectedMapByBodyType | Assets/_Project/Scripting/Scripts/Managers/SaveManager.cs:124-129 | the first equipped name of the category (see `SelectedMapName`); throws without data |
| SaveManagers.SaveManager.GetSavedColorIndexByCharmapType | Assets/_Project/Scripting/Scripts/Managers/SaveManager.cs:242-246 | the first saved index of the category (see `SavedColorIndex`); throws without data |
| SaveManagers.SaveManager.ReplaceCharacterMap | Assets/_Project/Scripting/Scripts/Managers/SaveManager.cs:191-198 | every equipped entry of the record's category becomes the record, and nothing else changes |
| SaveManagers.SaveManager.TryToBuyMap | Assets/_Project/Scripting/Scripts/Managers/SaveManager.cs:134-153 | the owner's data, files and result follow `Buy` with the catalogue lookup by name and category; an affordable purchase allocates a new record; a non-owner throws and changes nothing |
| SaveManagers.SaveManager.TryToEquipMap | Assets/_Project/Scripting/Scripts/Managers/SaveManager.cs:158-186 | the owner's data, files and result follow `Equip` with the catalogue lookup; a non-owner throws and changes nothing |
| SaveManagers.SaveManager.SaveColor | Assets/_Project/Scripting/Scripts/Managers/SaveManager.cs:251-266 | the first selection of the category takes the new index and the data is saved; with no such selection or no data it throws and nothing changes |
| Replication.Start | Assets/_Project/Scripting/Scripts/Network/NetworkMeshChanger.cs:7 | a new variable holds its initial value on every peer, with nothing pending |
| Replication.ServerSet | Assets/_Project/Scripting/Scripts/Network/NetworkMeshChanger.cs:80-83 | defines a server write: the server's copy changes at once and the new value is queued for every client, unless it equals the current value (properties in `ServerSetConverges`; no ensures) |
| Replication.Request | Assets/_Project/Scripting/Scripts/Network/NetworkMeshChanger.cs:84-87 | defines a client write: a request is queued for the server (properties in `RequestChangesNoCopy`; no ensures) |
| Replication.Serve | Assets/_Project/Scripting/Scripts/Network/NetworkMeshChanger.cs:61-65 | defines the server running the oldest request (properties in `ServeConverges`, `ServeAllLastWins`; no ensures) |
| Replication.Deliver | Assets/_Project/Scripting/Scripts/Network/NetworkMeshChanger.cs:31-34 | defines a client receiving its next queued change (properties in `DeliverConverges`, `DeliverAllConverges`; no ensures) |
| Replication.ServerSetConverges | Assets/_Project/Scripting/Scripts/Network/NetworkMeshChanger.cs:80-83 | a server write takes effect on the server at once, leaves clients' copies for later delivery, and keeps every peer converging on it |
| Replication.RequestChangesNoCopy | Assets/_Project/Scripting/Scripts/Network/NetworkMeshChanger.cs:84-87 | a client's write only queues a request: no copy changes, not even the writer's |
| Replication.ServeConverges | Assets/_Project/Scripting/Scripts/Network/NetworkMeshChanger.cs:61-65 | running the oldest request makes it the server's value, whoever sent it |
| Replication.DeliverConverges | Assets/_Project/Scripting/Scripts/Network/NetworkMeshChanger.cs:13-17 | delivering one change to a client keeps every peer converging and leaves the server's copy alone |
| Replication.DeliverAllConverges | Assets/_Project/Scripting/Scripts/Network/NetworkMeshChanger.cs:13-17 | once everything queued for a client is delivered, its copy equals the server's |
| Replication.ServeAllLastWins | Assets/_Project/Scripting/Scripts/Network/NetworkMeshChanger.cs:61-65 | after all pending requests are run, the server holds the newest request and every peer still converges on it |
| Rendering.SkinnedMeshRenderer.constructor | Assets/_Project/Scripting/Scripts/Network/NetworkMeshChanger.cs:8 | a renderer shows the mesh, material and override colour it was given |
| NetworkMeshChangers.ApplyMapMissAndColor | Assets/_Project/Scripting/Scripts/Network/NetworkMeshChanger.cs:39-55 | applying a name the catalogue lacks changes nothing, and no apply changes the override colour |
| NetworkMeshChangers.ApplyMapView | Assets/_Project/Scripting/Scripts/Network/NetworkMeshChanger.cs:39-55 | defines the renderer after `ApplyMap` on one peer's catalogue (properties in `ApplyMapMissAndColor`, `ApplyMapShowsDefinition`, `ApplyMapLastWins`; no ensures) |
| NetworkMeshChangers.ApplyMapShowsDefinition | Assets/_Project/Scripting/Scripts/Network/NetworkMeshChanger.cs:43-50 | applying the name of a definition that has a mesh shows that definition's mesh and material |
| NetworkMeshChangers.ApplyMapLastWins | Assets/_Project/Scripting/Scripts/Network/NetworkMeshChanger.cs:39-55 | the last successful apply decides the mesh and material, and applying the same name twice is the same as once |
| NetworkMeshChangers.NetworkMeshChanger.Spawn | Assets/_Project/Scripting/Scripts/Network/NetworkMeshChanger.cs:7-17 | every peer's copy of the name starts empty, with no request pending |
| NetworkMeshChangers.NetworkMeshChanger.ApplyMap | Assets/_Project/Scripting/Scripts/Network/NetworkMeshChanger.cs:39-55 | the peer's renderer ends up as `ApplyMapView` of what it showed, looked up in that peer's own catalogue |
| NetworkMeshChangers.NetworkMeshChanger.SetOnServer | Assets/_Project/Scripting/Scripts/Network/NetworkMeshChanger.cs:31-34 | a server write updates the channel; the server's renderer applies the name only when the value changed |
| NetworkMeshChangers.NetworkMeshChanger.ChangeMesh | Assets/_Project/Scripting/Scripts/Network/NetworkMeshChanger.cs:70-88 | an empty name changes nothing; on the server the name is written and applied; on a client it becomes a request and no copy changes; peers keep converging |
| NetworkMeshChangers.NetworkMeshChanger.ChangeMapServerRpc | Assets/_Project/Scripting/Scripts/Network/NetworkMeshChanger.cs:61-65 | the server runs the oldest request, whoever sent it, and applies it if it changes the name |
| NetworkMeshChangers.NetworkMeshChanger.OnMapChanged | Assets/_Project/Scripting/Scripts/Network/NetworkMeshChanger.cs:31-34 | a client receives the next change and applies the new name to its renderer |
| NetworkMeshChangers.NetworkMeshChanger.Start | Assets/_Project/Scripting/Scripts/Network/NetworkMeshChanger.cs:19-25 | a late joiner applies the current name, unless it is empty |
| NetworkColorChangers.ApplyColorView | Assets/_Project/Scripting/Scripts/Network/NetworkColorChanger.cs:35-38 | the change handler sets the override colour and keeps the mesh and material |
| NetworkColorChangers.ApplyCurrentColorView | Assets/_Project/Scripting/Scripts/Network/NetworkColorChanger.cs:24-30 | `ApplyCurrentColor` applies the colour unless it is `default(Color)`, in which case nothing changes |
| NetworkColorChangers.ApplyColorLastWins | Assets/_Project/Scripting/Scripts/Network/NetworkColorChanger.cs:35-38 | the last colour applied wins, and applying a colour is idempotent |
| NetworkColorChangers.NetworkColorChanger.Spawn | Assets/_Project/Scripting/Scripts/Network/NetworkColorChanger.cs:7-14 | every peer's copy of the colour starts as `default(Color)`, with no request pending |
| NetworkColorChangers.NetworkColorChanger.SetOnServer | Assets/_Project/Scripting/Scripts/Network/NetworkColorChanger.cs:47-50 | a server write updates the channel; the server's renderer takes the colour only when the value changed |
| NetworkColorChangers.NetworkColorChanger.ChangeColor | Assets/_Project/Scripting/Scripts/Network/NetworkColorChanger.cs:45-55 | no colour is refused; on the server it is written and applied; on a client it becomes a request and no copy changes |
| NetworkColorChangers.NetworkColorChanger.ChangeColorServerRpc | Assets/_Project/Scripting/Scripts/Network/NetworkColorChanger.cs:61-65 | the server runs the oldest request, whoever sent it |
| NetworkColorChangers.NetworkColorChanger.OnColorChanged | Assets/_Project/Scripting/Scripts/Network/NetworkColorChanger.cs:35-38 | a client receives the next change and sets its renderer's override colour |
| NetworkColorChangers.NetworkColorChanger.Start | Assets/_Project/Scripting/Scripts/Network/NetworkColorChanger.cs:15-30 | a late joiner applies the current colour unless it is the default |
| CharacterMapResolvers.FirstSlot | Assets/_Project/Scripting/Scripts/CharacterMap/CharacterMapResolver.cs:68 | `_slots.Where(...).First()`: a slot of the category |
| CharacterMapResolvers.FirstSlotFacts | Assets/_Project/Scripting/Scripts/CharacterMap/CharacterMapResolver.cs:68 | the slot found is the earliest of its category, and the search fails only when no slot has the category |
| CharacterMapResolvers.MeshItems | Assets/_Project/Scripting/Scripts/CharacterMap/CharacterMapResolver.cs:57-60 | the mesh pass visits the equipped records' (category, name) pairs in list order |
| CharacterMapResolvers.MeshCallsOntoAppends | Assets/_Project/Scripting/Scripts/CharacterMap/CharacterMapResolver.cs:57-60 | routing only appends to what a changer had already received |
| CharacterMapResolvers.FirstUnrouted | Assets/_Project/Scripting/Scripts/CharacterMap/CharacterMapResolver.cs:57-60 | the mesh pass stops at an item whose category has no slot, or at the end |
| CharacterMapResolvers.FirstUnroutedFacts | Assets/_Project/Scripting/Scripts/CharacterMap/CharacterMapResolver.cs:57-60 | every item before the stopping point has a slot |
| CharacterMapResolvers.ColorStepFailure | Assets/_Project/Scripting/Scripts/CharacterMap/CharacterMapResolver.cs:37 | applying one saved colour succeeds exactly when there is a palette, the index is inside it, and the category has a slot |
| CharacterMapResolvers.FirstColorFailure | Assets/_Project/Scripting/Scripts/CharacterMap/CharacterMapResolver.cs:35-38 | the colour pass stops at a selection that throws, or at the end |
| CharacterMapResolvers.FirstColorFailureFacts | Assets/_Project/Scripting/Scripts/CharacterMap/CharacterMapResolver.cs:35-38 | no selection before the stopping point throws |
| CharacterMapResolvers.ColorCallsOntoAppends | Assets/_Project/Scripting/Scripts/CharacterMap/CharacterMapResolver.cs:35-38 | routing colours only appends to what a changer had already received |
| CharacterMapResolvers.ColorSurvivesMapChange | Assets/_Project/Scripting/Scripts/Network/NetworkMeshChanger.cs:47-49 | a colour applied to a body part survives a later change of its item |
| CharacterMapResolvers.MeshStepReachesOneChanger | Assets/_Project/Scripting/Scripts/CharacterMap/CharacterMapResolver.cs:66-71 | one item reaches at most one changer: two changers that both receive it are the same |
| CharacterMapResolvers.MeshCallsCount | Assets/_Project/Scripting/Scripts/CharacterMap/CharacterMapResolver.cs:66-71 | a changer receives at most one name per item routed, and a changer outside the slots receives nothing |
| CharacterMapResolvers.MeshCallsPerCategory | Assets/_Project/Scripting/Scripts/CharacterMap/CharacterMapResolver.cs:55-71 | with one slot per category and a different changer in each, a slot's changer receives exactly the names of its category's items, in order |
| CharacterMapResolvers.ColorCallsPerCategory | Assets/_Project/Scripting/Scripts/CharacterMap/CharacterMapResolver.cs:33-49 | with one slot per category and a different colour changer in each, until the colour pass stops a slot's changer receives exactly the palette colours of its category's selections, in order |
| CharacterMapResolvers.MeshPassCompletes | Assets/_Project/Scripting/Scripts/CharacterMap/CharacterMapResolver.cs:55-61 | the mesh pass completes exactly when every equipped record's category has a slot, and then routes every record |
| CharacterMapResolvers.ColorPassCompletes | Assets/_Project/Scripting/Scripts/CharacterMap/CharacterMapResolver.cs:33-39 | the colour pass completes exactly when every saved selection has its index inside a palette and its category in a slot (so with no palette, any selection makes it throw) |
| CharacterMapResolvers.CharacterMapResolver.constructor | Assets/_Project/Scripting/Scripts/CharacterMap/CharacterMapResolver.cs:6-18 | a resolver over its slots, with no inventory palette and no cached slot yet |
| CharacterMapResolvers.CharacterMapResolver.ApplyCharactermapByCharacterMapType | Assets/_Project/Scripting/Scripts/CharacterMap/CharacterMapResolver.cs:66-71 | only the first slot of the category gets `ChangeMesh(name)`, and it becomes the cached slot; with no such slot it throws `InvalidOperation`, no changer is called and the cached slot is kept |
| CharacterMapResolvers.CharacterMapResolver.ApplyColorByCharacterMapType | Assets/_Project/Scripting/Scripts/CharacterMap/CharacterMapResolver.cs:44-49 | only the first slot of the category gets `ChangeColor(c)`, and it becomes the cached slot; with no such slot it throws `InvalidOperation`, no changer is called and the cached slot is kept |
| CharacterMapResolvers.CharacterMapResolver.FindSlot | Assets/_Project/Scripting/Scripts/CharacterMap/CharacterMapResolver.cs:46 | the slot search loop finds the earliest slot of the category |
| CharacterMapResolvers.CharacterMapResolver.ApplyMeshes | Assets/_Project/Scripting/Scripts/CharacterMap/CharacterMapResolver.cs:57-60 | items are applied in order up to the first one without a slot, where the loop throws; each changer receives exactly the routed names, and no colour changer is called |
| CharacterMapResolvers.CharacterMapResolver.InitializeCharacterMeshes | Assets/_Project/Scripting/Scripts/CharacterMap/CharacterMapResolver.cs:55-61 | the result and every mesh changer's calls follow the mesh pass over the save data; it throws when there is no data |
| CharacterMapResolvers.CharacterMapResolver.ApplySelection | Assets/_Project/Scripting/Scripts/CharacterMap/CharacterMapResolver.cs:37 | one pass of the colour loop: throws exactly as `ColorStepFailure` says (no palette, index outside it, no slot), calling no changer then; otherwise the first slot of the category receives the palette colour at the index |
| CharacterMapResolvers.CharacterMapResolver.ApplyColors | Assets/_Project/Scripting/Scripts/CharacterMap/CharacterMapResolver.cs:35-38 | selections are applied in order up to the first that throws, with that selection's exception; each colour changer receives exactly the routed colours |
| CharacterMapResolvers.CharacterMapResolver.InitializeCharacterColors | Assets/_Project/Scripting/Scripts/CharacterMap/CharacterMapResolver.cs:33-39 | the result and every colour changer's calls follow the colour pass over the save data; it throws when there is no data |
| CharacterMapResolvers.CharacterMapResolver.InitializeWithCustomPlayer | Assets/_Project/Scripting/Scripts/CharacterMap/CharacterMapResolver.cs:21-27 | the palette is kept, the mesh pass runs, and the colour pass runs only if the mesh pass did not throw |
| JoinCodes.TrimFacts | Assets/_Project/Scripting/Scripts/Network/NetworkLobbyManager.cs:141 | `Trim` keeps a middle part of its input, drops only white space on either side, and keeps no white space at its ends |
| JoinCodes.TrimSurrounded | Assets/_Project/Scripting/Scripts/Network/NetworkLobbyManager.cs:141 | white space around a text with no white space at its ends is exactly what `Trim` removes |
| JoinCodes.Trim | Assets/_Project/Scripting/Scripts/Network/NetworkLobbyManager.cs:141 | defines `string.Trim()` on the field's text (properties in `TrimFacts`, `TrimSurrounded`; no ensures) |
| JoinCodes.ToUpperChar | Assets/_Project/Scripting/Scripts/Network/NetworkLobbyManager.cs:141 | ASCII lower-case letters move to upper case, and every other character is unchanged |
| JoinCodes.ToUpper | Assets/_Project/Scripting/Scripts/Network/NetworkLobbyManager.cs:141 | upper-casing keeps the length and maps each character |
| JoinCodes.ValidateJoinCode | Assets/_Project/Scripting/Scripts/Network/NetworkLobbyManager.cs:304-319 | accepted exactly when the pattern matches; an empty code is refused with "Please enter a join code", and any other non-matching code with "Invalid join code format" |
| JoinCodes.UpperAllowed | Assets/_Project/Scripting/Scripts/Network/NetworkLobbyManager.cs:28 | the class holds both cases of each of its letters, so upper-casing keeps a character in it or out of it |
| JoinCodes.NormalizedHasNoFinalNewline | Assets/_Project/Scripting/Scripts/Network/NetworkLobbyManager.cs:139-143 | a trimmed code never ends with a line feed, so on it the pattern means exactly "6 to 12 class characters" |
| JoinCodes.ExcludedNotAllowed | Assets/_Project/Scripting/Scripts/Network/NetworkLobbyManager.cs:28 | vowels, S, V, X, Y, Z and the digits 0-5 are not in the class |
| JoinCodes.StartClientJoinsIff | Assets/_Project/Scripting/Scripts/Network/NetworkLobbyManager.cs:139-143 | the client goes on to the relay exactly when the normalised code has 6 to 12 characters, each a digit 6-9 or an upper-case consonant of the class, and it passes that code on |
| JoinCodes.BlankInputRefused | Assets/_Project/Scripting/Scripts/Network/NetworkLobbyManager.cs:306-310 | an empty or all-white-space field is refused with "Please enter a join code" |
| JoinCodes.PaddedLowerCaseAccepted | Assets/_Project/Scripting/Scripts/Network/NetworkLobbyManager.cs:139-143 | a valid body in any case, padded with white space, joins with its upper-case form |
| JoinCodes.ForbiddenCharacterRefused | Assets/_Project/Scripting/Scripts/Network/NetworkLobbyManager.cs:311-315 | a code containing, after trimming, any character outside the class, in either case, is refused with "Invalid join code format" |
| JoinCodes.PatternEdges | Assets/_Project/Scripting/Scripts/Network/NetworkLobbyManager.cs:296-299 | the bare pattern accepts 6 characters, lower case, and a body followed by one line feed; it refuses 5 and 13 characters, two line feeds, and a leading line feed |
| JoinCodes.IsValidJoinCode | Assets/_Project/Scripting/Scripts/Network/NetworkLobbyManager.cs:296-299 | defines `Regex.IsMatch` with the pattern, whose `$` also matches before one final line feed (properties in `PatternEdges`, `NormalizedHasNoFinalNewline`; no ensures) |
| JoinCodes.StartClient | Assets/_Project/Scripting/Scripts/Network/NetworkLobbyManager.cs:139-143 | defines the gate at the start of `StartClient` (properties in `StartClientJoinsIff`, `BlankInputRefused`, `PaddedLowerCaseAccepted`, `ForbiddenCharacterRefused`; no ensures) |

## Left out

- Player.cs, the inventory UI and its buttons, the joystick and the `Initializer` base class are not part of this model. The inventory enters only as the palette `uICharacterInventory.colors`, which is None when the initializer is not the inventory.
- Relay allocation, session start and the rest of `NetworkLobbyManager` are left out, since they are network I/O. Only the join-code gate at the start of `StartClient` is modelled.
- The JSON text is not modelled. `JsonUtility` is a codec whose round trip on the saved fields is assumed (`SaveData.JsonRoundTrip`, true by construction of `ToJson`/`FromJson`). A file is well-formed data, unreadable, or empty; that `JsonUtility.FromJson` returns null without throwing for an empty text is also an assumption about Unity.
- File-system calls (`File.Exists`, `File.Copy`, `File.WriteAllText`, `File.ReadAllText`) are modelled by the `Disk` value. An `IoFault` parameter names the step that fails. The file paths, `PlayerPrefs` and `Debug.Log` are left out.
- The getter `CurrentGameData` is `SaveManagers.SaveManager.CurrentGameData`. The other methods read the field directly; since the getter's retry changes nothing, the result is the same. A null access is `Threw(NullReference)`.
- The non-owner branches of `SaveManagers.SaveManager` (`!isOwner`) model the `!PlayerIsOwner()` guards of a manager initialised with a player that is not the owner, which the source never does: `Player` calls `InitializeWithCustomPlayer` only when `IsOwner`. A manager that was never initialised has a null player, so its guarded methods (`SaveData`, `LoadData`, `LoadOrCreateSave`, `CreateNewSave`) throw inside `PlayerIsOwner()` instead of returning; that manager is not modelled. The initial value of `_currentGameData` is taken to be null: the instance Unity's serializer may place in that public field of a `[Serializable]` class is not modelled, so the model does not capture a non-owner whose getter returns such data and whose queries do not throw. No caller queries a non-owner's manager.
- SaveManagers.SaveManager.SaveData: requires that the owner holds data, as every caller in the source has read it first; what a direct call with null data would write is not modelled.
- `FixedString64Bytes` is left out. It holds at most 61 bytes of UTF-8; a longer name throws when collection checks are enabled and is otherwise truncated. The model treats names as unbounded strings.
- The float channels of `Color` are reals. The operators `==` and `!=` are compared exactly here, not with Unity's approximate equality.
- `NetworkVariable` delivery is per change. Netcode may merge several changes into one delivery; the model does not capture that. Sessions, ownership and spawning other than the initial spawn are left out.
- The slot fields `targetRenderer` and `materialIndex`, and the definition field `materialOffset`, are never read by the modelled code and are omitted.
- `ColorData` is modelled as a value, not as a class. `SaveColor` mutates the first matching object in place and then writes that same object back into its own slot. The resulting list is the same as the value update modelled here.
- The catalogue is an object passed to the save manager and to the changers, not a static field. A mesh changer holds one catalogue per peer (`NetworkMeshChanger.catalogs`), since each process has its own static dictionary, filled only when that process's own player initialises its save manager as owner. Whether two peers' catalogues agree is left open; a peer whose catalogue lacks a name keeps its old mesh.
- JoinCodes.ToUpperChar: upper-cases ASCII letters only. No other character upper-cases into the class (`ı` becomes the excluded `I` and `ſ` the excluded `S`), so validation is the same either way.
- JoinCodes.ValidateJoinCode: a null code is treated as an empty one.
- CharacterMapResolvers.CharacterMapResolver.ApplyColors: a selection that throws sends nothing to any changer; the pass stops there, as in the source.
- CharacterMapResolvers.CharacterMapResolver: the set of objects the changers may modify is a ghost field `targets` fixed at construction, so the model assumes the slots and their renderers are not reassigned.
