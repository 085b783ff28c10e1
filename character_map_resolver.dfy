/** `CharacterMapResolver`: routes an item name or a colour for a category to the
    changers bound to that category, and rebuilds the local player's look from the
    save data (CharacterMapResolver.cs). */
module CharacterMapResolvers {
  import opened Common
  import opened CharacterMaps
  import opened Catalog
  import opened SaveData
  import opened SaveManagers
  import opened Rendering
  import opened NetworkMeshChangers
  import opened NetworkColorChangers

  /** `CharacterMapSlot`: the mesh changer and colour changer of one category. Its
      `targetRenderer` and `materialIndex` fields are never read and are omitted. */
  datatype CharacterMapSlot = CharacterMapSlot(
    slotType: CharacterMapType,
    skinnedMeshChanger: NetworkMeshChanger,
    colorChanger: NetworkColorChanger)

  /** The index of the first slot of category `t`: LINQ `Where(...).First()`. */
  function FirstSlot(slots: seq<CharacterMapSlot>, t: CharacterMapType): (r: Option<nat>)
    ensures r.Some? ==> r.value < |slots| && slots[r.value].slotType == t
  {
    FirstSlotFrom(slots, t, 0)
  }

  /** The index of the first slot of category `t` at or after `i`. */
  function FirstSlotFrom(slots: seq<CharacterMapSlot>, t: CharacterMapType, i: nat): (r: Option<nat>)
    requires i <= |slots|
    ensures r.Some? ==> i <= r.value < |slots| && slots[r.value].slotType == t
    decreases |slots| - i
  {
    if i == |slots| then None
    else if slots[i].slotType == t then Some(i)
    else FirstSlotFrom(slots, t, i + 1)
  }

  /** `First()` finds the earliest slot of the category, and fails only when no slot
      has it. */
  lemma FirstSlotFacts(slots: seq<CharacterMapSlot>, t: CharacterMapType)
    ensures FirstSlot(slots, t).Some? ==> forall k :: 0 <= k < FirstSlot(slots, t).value ==> slots[k].slotType != t
    ensures FirstSlot(slots, t).None? <==> forall k :: 0 <= k < |slots| ==> slots[k].slotType != t
  {
    FirstSlotFromFacts(slots, t, 0);
  }

  lemma {:induction false} FirstSlotFromFacts(slots: seq<CharacterMapSlot>, t: CharacterMapType, i: nat)
    requires i <= |slots|
    ensures FirstSlotFrom(slots, t, i).Some? ==> forall k :: i <= k < FirstSlotFrom(slots, t, i).value ==> slots[k].slotType != t
    ensures FirstSlotFrom(slots, t, i).None? <==> forall k :: i <= k < |slots| ==> slots[k].slotType != t
    decreases |slots| - i
  {
    if i < |slots| && slots[i].slotType != t {
      FirstSlotFromFacts(slots, t, i + 1);
    }
  }

  /** The (category, name) pairs of the equipped records, in list order. */
  function MeshItems(recs: seq<CharacterMapSaveData>): (r: seq<(CharacterMapType, string)>)
    ensures |r| == |recs|
    ensures forall i :: 0 <= i < |recs| ==> r[i] == (recs[i].characterMapType, recs[i].name)
  {
    seq(|recs|, i requires 0 <= i < |recs| => (recs[i].characterMapType, recs[i].name))
  }

  /** What routing one item sends to `changer`: the item's name if `changer` belongs
      to the first slot of the item's category, otherwise nothing. */
  function MeshStep(slots: seq<CharacterMapSlot>, t: CharacterMapType, name: string, changer: NetworkMeshChanger): seq<string> {
    match FirstSlot(slots, t)
    case Some(i) => if slots[i].skinnedMeshChanger == changer then [name] else []
    case None => []
  }

  /** The names that routing the first `n` items in order passes to `changer`. */
  function MeshCalls(slots: seq<CharacterMapSlot>, items: seq<(CharacterMapType, string)>, n: nat, changer: NetworkMeshChanger)
    : seq<string>
    requires n <= |items|
  {
    MeshCallsOnto([], slots, items, n, changer)
  }

  /** `log` followed by the names that routing the first `n` items passes to
      `changer`. */
  function MeshCallsOnto(log: seq<string>, slots: seq<CharacterMapSlot>, items: seq<(CharacterMapType, string)>, n: nat,
                         changer: NetworkMeshChanger): seq<string>
    requires n <= |items|
  {
    if n == 0 then log else MeshCallsOnto(log, slots, items, n - 1, changer) + MeshStep(slots, items[n - 1].0, items[n - 1].1, changer)
  }

  /** Routing appends to whatever `changer` had already received. */
  lemma {:induction false} MeshCallsOntoAppends(log: seq<string>, slots: seq<CharacterMapSlot>, items: seq<(CharacterMapType, string)>,
                                                n: nat, changer: NetworkMeshChanger)
    requires n <= |items|
    ensures MeshCallsOnto(log, slots, items, n, changer) == log + MeshCalls(slots, items, n, changer)
    decreases n
  {
    if n > 0 {
      MeshCallsOntoAppends(log, slots, items, n - 1, changer);
      MeshCallsOntoAppends([], slots, items, n - 1, changer);
    }
  }

  /** What routing one colour sends to `changer`. */
  function ColorStep(slots: seq<CharacterMapSlot>, t: CharacterMapType, c: Color, changer: NetworkColorChanger): seq<Color> {
    match FirstSlot(slots, t)
    case Some(i) => if slots[i].colorChanger == changer then [c] else []
    case None => []
  }

  /** Where the mesh pass stops: the first item whose category has no slot, or the
      end of the list. */
  function FirstUnrouted(slots: seq<CharacterMapSlot>, items: seq<(CharacterMapType, string)>): (k: nat)
    ensures k <= |items|
    ensures k < |items| ==> FirstSlot(slots, items[k].0).None?
  {
    FirstUnroutedFrom(slots, items, 0)
  }

  function FirstUnroutedFrom(slots: seq<CharacterMapSlot>, items: seq<(CharacterMapType, string)>, i: nat): (k: nat)
    requires i <= |items|
    ensures i <= k <= |items|
    ensures k < |items| ==> FirstSlot(slots, items[k].0).None?
    decreases |items| - i
  {
    if i == |items| then i
    else if FirstSlot(slots, items[i].0).None? then i
    else FirstUnroutedFrom(slots, items, i + 1)
  }

  /** Every item before the stopping point has a slot. */
  lemma FirstUnroutedFacts(slots: seq<CharacterMapSlot>, items: seq<(CharacterMapType, string)>)
    ensures forall j :: 0 <= j < FirstUnrouted(slots, items) ==> FirstSlot(slots, items[j].0).Some?
  {
    FirstUnroutedFromFacts(slots, items, 0);
  }

  lemma {:induction false} FirstUnroutedFromFacts(slots: seq<CharacterMapSlot>, items: seq<(CharacterMapType, string)>, i: nat)
    requires i <= |items|
    ensures forall j :: i <= j < FirstUnroutedFrom(slots, items, i) ==> FirstSlot(slots, items[j].0).Some?
    decreases |items| - i
  {
    if i < |items| && FirstSlot(slots, items[i].0).Some? {
      FirstUnroutedFromFacts(slots, items, i + 1);
    }
  }

  /** Why applying one saved colour throws, if it does: no palette (null
      inventory), an index outside the palette, or no slot for the category. The
      palette is indexed before the slot is looked up. */
  function ColorStepFailure(slots: seq<CharacterMapSlot>, palette: Option<seq<Color>>, sel: ColorData): (r: Option<Failure>)
    ensures r.None? <==> palette.Some? && 0 <= sel.colorIndex < |palette.value| && FirstSlot(slots, sel.mapType).Some?
  {
    if palette.None? then Some(NullReference)
    else if !(0 <= sel.colorIndex < |palette.value|) then Some(ArgumentOutOfRange)
    else if FirstSlot(slots, sel.mapType).None? then Some(InvalidOperation)
    else None
  }

  /** Where the colour pass stops: the first selection that throws, or the end. */
  function FirstColorFailure(slots: seq<CharacterMapSlot>, palette: Option<seq<Color>>, sels: seq<ColorData>): (k: nat)
    ensures k <= |sels|
    ensures k < |sels| ==> ColorStepFailure(slots, palette, sels[k]).Some?
  {
    FirstColorFailureFrom(slots, palette, sels, 0)
  }

  function FirstColorFailureFrom(slots: seq<CharacterMapSlot>, palette: Option<seq<Color>>, sels: seq<ColorData>, i: nat): (k: nat)
    requires i <= |sels|
    ensures i <= k <= |sels|
    ensures k < |sels| ==> ColorStepFailure(slots, palette, sels[k]).Some?
    decreases |sels| - i
  {
    if i == |sels| then i
    else if ColorStepFailure(slots, palette, sels[i]).Some? then i
    else FirstColorFailureFrom(slots, palette, sels, i + 1)
  }

  /** No selection before the stopping point throws. */
  lemma FirstColorFailureFacts(slots: seq<CharacterMapSlot>, palette: Option<seq<Color>>, sels: seq<ColorData>)
    ensures forall j :: 0 <= j < FirstColorFailure(slots, palette, sels) ==> ColorStepFailure(slots, palette, sels[j]).None?
  {
    FirstColorFailureFromFacts(slots, palette, sels, 0);
  }

  lemma {:induction false} FirstColorFailureFromFacts(slots: seq<CharacterMapSlot>, palette: Option<seq<Color>>, sels: seq<ColorData>, i: nat)
    requires i <= |sels|
    ensures forall j :: i <= j < FirstColorFailureFrom(slots, palette, sels, i) ==> ColorStepFailure(slots, palette, sels[j]).None?
    decreases |sels| - i
  {
    if i < |sels| && ColorStepFailure(slots, palette, sels[i]).None? {
      FirstColorFailureFromFacts(slots, palette, sels, i + 1);
    }
  }

  /** What routing one saved selection sends to `changer`: its palette colour, if
      `changer` belongs to the first slot of its category. A selection that throws
      sends nothing. */
  function SelectionStep(slots: seq<CharacterMapSlot>, palette: Option<seq<Color>>, sel: ColorData,
                         changer: NetworkColorChanger): seq<Color> {
    if ColorStepFailure(slots, palette, sel).Some? then []
    else ColorStep(slots, sel.mapType, palette.value[sel.colorIndex], changer)
  }

  /** The colours that routing the first `n` selections in order passes to
      `changer`. */
  function ColorCalls(slots: seq<CharacterMapSlot>, palette: Option<seq<Color>>, sels: seq<ColorData>, n: nat,
                      changer: NetworkColorChanger): seq<Color>
    requires n <= |sels|
  {
    ColorCallsOnto([], slots, palette, sels, n, changer)
  }

  /** `log` followed by the colours that routing the first `n` selections passes to
      `changer`. */
  function ColorCallsOnto(log: seq<Color>, slots: seq<CharacterMapSlot>, palette: Option<seq<Color>>, sels: seq<ColorData>,
                          n: nat, changer: NetworkColorChanger): seq<Color>
    requires n <= |sels|
  {
    if n == 0 then log
    else ColorCallsOnto(log, slots, palette, sels, n - 1, changer) + SelectionStep(slots, palette, sels[n - 1], changer)
  }

  /** Routing appends to whatever `changer` had already received. */
  lemma {:induction false} ColorCallsOntoAppends(log: seq<Color>, slots: seq<CharacterMapSlot>, palette: Option<seq<Color>>,
                                                 sels: seq<ColorData>, n: nat, changer: NetworkColorChanger)
    requires n <= |sels|
    ensures ColorCallsOnto(log, slots, palette, sels, n, changer) == log + ColorCalls(slots, palette, sels, n, changer)
    decreases n
  {
    if n > 0 {
      ColorCallsOntoAppends(log, slots, palette, sels, n - 1, changer);
      ColorCallsOntoAppends([], slots, palette, sels, n - 1, changer);
    }
  }

  /** Every changer of every slot is ready for a call from `peer`. */
  ghost predicate Ready(slots: seq<CharacterMapSlot>, peer: nat)
    reads set i | 0 <= i < |slots| :: slots[i].skinnedMeshChanger
    reads set i | 0 <= i < |slots| :: slots[i].colorChanger
  {
    forall i :: 0 <= i < |slots| ==>
      && slots[i].skinnedMeshChanger.Valid() && peer < |slots[i].skinnedMeshChanger.renderers|
      && slots[i].colorChanger.Valid() && peer < |slots[i].colorChanger.renderers|
  }

  /** What calls into the slots' changers may change: the changers and their
      renderers on the server. */
  function Targets(slots: seq<CharacterMapSlot>): set<object> {
    (set i | 0 <= i < |slots| :: slots[i].skinnedMeshChanger as object)
    + (set i | 0 <= i < |slots| :: slots[i].colorChanger as object)
    + (set i | 0 <= i < |slots| && |slots[i].skinnedMeshChanger.renderers| > 0 :: slots[i].skinnedMeshChanger.renderers[0] as object)
    + (set i | 0 <= i < |slots| && |slots[i].colorChanger.renderers| > 0 :: slots[i].colorChanger.renderers[0] as object)
  }

  /** How the mesh pass over the save data ends. */
  function MeshPass(slots: seq<CharacterMapSlot>, data: Option<GameSaveData>): Outcome<()> {
    match data
    case None => Threw(NullReference)
    case Some(d) =>
      var items := MeshItems(d.currentCharacterMaps);
      if FirstUnrouted(slots, items) < |items| then Threw(InvalidOperation) else Returned(())
  }

  /** The names the mesh pass passes to `changer`: the routed records before the
      pass stops. */
  function MeshPassCalls(slots: seq<CharacterMapSlot>, data: Option<GameSaveData>, changer: NetworkMeshChanger): seq<string> {
    match data
    case None => []
    case Some(d) =>
      var items := MeshItems(d.currentCharacterMaps);
      MeshCalls(slots, items, FirstUnrouted(slots, items), changer)
  }

  /** How the colour pass over the save data ends. */
  function ColorPass(slots: seq<CharacterMapSlot>, palette: Option<seq<Color>>, data: Option<GameSaveData>): Outcome<()> {
    match data
    case None => Threw(NullReference)
    case Some(d) =>
      var sels := d.colorSelections;
      var k := FirstColorFailure(slots, palette, sels);
      if k < |sels| then Threw(ColorStepFailure(slots, palette, sels[k]).value) else Returned(())
  }

  /** The colours the colour pass passes to `changer`: the routed selections before
      the pass stops. */
  function ColorPassCalls(slots: seq<CharacterMapSlot>, palette: Option<seq<Color>>, data: Option<GameSaveData>,
                          changer: NetworkColorChanger): seq<Color> {
    match data
    case None => []
    case Some(d) =>
      var sels := d.colorSelections;
      ColorCalls(slots, palette, sels, FirstColorFailure(slots, palette, sels), changer)
  }

  /** A colour applied to a renderer survives a later change of its item: the mesh
      changer carries the override colour onto the new material. */
  lemma ColorSurvivesMapChange(v: RendererView, c: Color, entries: seq<CharacterMap>, name: string)
    ensures ApplyMapView(ApplyColorView(v, c), entries, name).overrideColor == c
  {
    ApplyMapMissAndColor(ApplyColorView(v, c), entries, name);
  }

  /** One item reaches at most one changer: the first slot of its category. */
  lemma MeshStepReachesOneChanger(slots: seq<CharacterMapSlot>, t: CharacterMapType, name: string,
                                  c1: NetworkMeshChanger, c2: NetworkMeshChanger)
    requires MeshStep(slots, t, name, c1) != [] && MeshStep(slots, t, name, c2) != []
    ensures c1 == c2
  {
  }

  /** A changer receives at most one name per item routed, and a changer outside
      the slots receives nothing. */
  lemma {:induction false} MeshCallsCount(slots: seq<CharacterMapSlot>, items: seq<(CharacterMapType, string)>, n: nat,
                                          changer: NetworkMeshChanger)
    requires n <= |items|
    ensures |MeshCalls(slots, items, n, changer)| <= n
    ensures (forall i :: 0 <= i < |slots| ==> slots[i].skinnedMeshChanger != changer) ==> MeshCalls(slots, items, n, changer) == []
  {
    if n > 0 {
      MeshCallsCount(slots, items, n - 1, changer);
    }
  }

  /** The names of the first `n` items that are of category `t`, in order. */
  function NamesOfType(items: seq<(CharacterMapType, string)>, n: nat, t: CharacterMapType): seq<string>
    requires n <= |items|
  {
    if n == 0 then []
    else NamesOfType(items, n - 1, t) + (if items[n - 1].0 == t then [items[n - 1].1] else [])
  }

  /** With one slot per category and a different mesh changer in each, the changer of
      slot `i` receives exactly the names of the items of its category, in order. */
  lemma {:induction false} MeshCallsPerCategory(slots: seq<CharacterMapSlot>, items: seq<(CharacterMapType, string)>, n: nat, i: nat)
    requires n <= |items| && i < |slots|
    requires forall a, b :: 0 <= a < b < |slots| ==> slots[a].skinnedMeshChanger != slots[b].skinnedMeshChanger
    requires forall a, b :: 0 <= a < b < |slots| ==> slots[a].slotType != slots[b].slotType
    ensures MeshCalls(slots, items, n, slots[i].skinnedMeshChanger) == NamesOfType(items, n, slots[i].slotType)
  {
    if n > 0 {
      MeshCallsPerCategory(slots, items, n - 1, i);
      var last := items[n - 1];
      FirstSlotFacts(slots, last.0);
      match FirstSlot(slots, last.0)
      case Some(j) =>
        assert slots[j].skinnedMeshChanger == slots[i].skinnedMeshChanger <==> j == i;
      case None =>
        assert last.0 != slots[i].slotType;
    }
  }

  /** The palette colours chosen by the first `n` selections of category `t`, in
      order. */
  function PaletteColorsOfType(palette: seq<Color>, sels: seq<ColorData>, n: nat, t: CharacterMapType): seq<Color>
    requires n <= |sels|
  {
    if n == 0 then []
    else
      var sel := sels[n - 1];
      PaletteColorsOfType(palette, sels, n - 1, t) +
        (if sel.mapType == t && 0 <= sel.colorIndex < |palette| then [palette[sel.colorIndex]] else [])
  }

  /** With one slot per category and a different colour changer in each, until the
      colour pass stops, the changer of slot `i` receives exactly the palette colours
      of the selections of its category, in order. */
  lemma {:induction false} ColorCallsPerCategory(slots: seq<CharacterMapSlot>, palette: seq<Color>, sels: seq<ColorData>,
                                                 n: nat, i: nat)
    requires n <= FirstColorFailure(slots, Some(palette), sels) && i < |slots|
    requires forall a, b :: 0 <= a < b < |slots| ==> slots[a].colorChanger != slots[b].colorChanger
    requires forall a, b :: 0 <= a < b < |slots| ==> slots[a].slotType != slots[b].slotType
    ensures ColorCalls(slots, Some(palette), sels, n, slots[i].colorChanger) == PaletteColorsOfType(palette, sels, n, slots[i].slotType)
  {
    if n > 0 {
      ColorCallsPerCategory(slots, palette, sels, n - 1, i);
      FirstColorFailureFacts(slots, Some(palette), sels);
      var last := sels[n - 1];
      assert ColorStepFailure(slots, Some(palette), last).None?;
      FirstSlotFacts(slots, last.mapType);
      var j := FirstSlot(slots, last.mapType).value;
      assert slots[j].colorChanger == slots[i].colorChanger <==> j == i;
    }
  }

  /** The mesh pass completes exactly when every equipped record's category has a
      slot; it then routes every record. */
  lemma MeshPassCompletes(slots: seq<CharacterMapSlot>, d: GameSaveData)
    ensures MeshPass(slots, Some(d)).Returned? <==>
      forall j :: 0 <= j < |d.currentCharacterMaps| ==> FirstSlot(slots, d.currentCharacterMaps[j].characterMapType).Some?
    ensures MeshPass(slots, Some(d)).Returned? ==>
      forall c :: MeshPassCalls(slots, Some(d), c) == MeshCalls(slots, MeshItems(d.currentCharacterMaps), |d.currentCharacterMaps|, c)
  {
    var items := MeshItems(d.currentCharacterMaps);
    var k := FirstUnrouted(slots, items);
    FirstUnroutedFacts(slots, items);
    if k < |items| {
      assert FirstSlot(slots, d.currentCharacterMaps[k].characterMapType).None?;
    }
  }

  /** The colour pass completes exactly when there is a palette, every saved index is
      inside it and every saved category has a slot. */
  lemma ColorPassCompletes(slots: seq<CharacterMapSlot>, palette: Option<seq<Color>>, d: GameSaveData)
    ensures ColorPass(slots, palette, Some(d)).Returned? <==>
      forall j :: 0 <= j < |d.colorSelections| ==>
        palette.Some? && 0 <= d.colorSelections[j].colorIndex < |palette.value| && FirstSlot(slots, d.colorSelections[j].mapType).Some?
  {
    var k := FirstColorFailure(slots, palette, d.colorSelections);
    FirstColorFailureFacts(slots, palette, d.colorSelections);
    if k < |d.colorSelections| {
      assert ColorStepFailure(slots, palette, d.colorSelections[k]).Some?;
    }
  }

  class CharacterMapResolver {
    /** `_slots`. */
    const slots: seq<CharacterMapSlot>
    /** The local player's `SaveManager`. */
    const saveManager: SaveManager
    /** The peer this resolver runs on. */
    const localPeer: nat
    /** `uICharacterInventory.colors`; None when the initializer passed in is not
        the inventory. */
    var palette: Option<seq<Color>>
    /** `cachedSlot`; the cached changers are this slot's own. */
    var cachedSlot: Option<CharacterMapSlot>
    /** What calls into the slots' changers may change. */
    ghost const targets: set<object>

    /** `targets` holds every slot's changers and their server-side renderers, and
        not the save manager. */
    ghost predicate Owns() {
      && saveManager !in targets
      && forall i :: 0 <= i < |slots| ==>
        && slots[i].skinnedMeshChanger in targets && slots[i].colorChanger in targets
        && (|slots[i].skinnedMeshChanger.renderers| > 0 ==> slots[i].skinnedMeshChanger.renderers[0] in targets)
        && (|slots[i].colorChanger.renderers| > 0 ==> slots[i].colorChanger.renderers[0] in targets)
    }

    constructor (slots: seq<CharacterMapSlot>, saveManager: SaveManager, localPeer: nat)
      ensures this.slots == slots && this.saveManager == saveManager && this.localPeer == localPeer
      ensures palette.None? && cachedSlot.None?
      ensures targets == Targets(slots) && Owns()
    {
      this.slots := slots;
      this.saveManager := saveManager;
      this.localPeer := localPeer;
      palette := None;
      cachedSlot := None;
      targets := Targets(slots);
    }

    /** `ApplyCharactermapByCharacterMapType`: the first slot of category `t` gets
        `ChangeMesh(name)`; with no such slot, `First()` throws and no changer is
        called. */
    method ApplyCharactermapByCharacterMapType(t: CharacterMapType, name: string) returns (r: Outcome<()>)
      requires Ready(slots, localPeer) && Owns()
      modifies this, targets
      ensures Ready(slots, localPeer) && palette == old(palette)
      ensures r == if FirstSlot(slots, t).Some? then Returned(()) else Threw(InvalidOperation)
      ensures FirstSlot(slots, t).Some? ==> cachedSlot == Some(slots[FirstSlot(slots, t).value])
      ensures FirstSlot(slots, t).None? ==> cachedSlot == old(cachedSlot)
      ensures forall i :: 0 <= i < |slots| ==>
        slots[i].skinnedMeshChanger.calls == old(slots[i].skinnedMeshChanger.calls) + MeshStep(slots, t, name, slots[i].skinnedMeshChanger)
      ensures forall i :: 0 <= i < |slots| ==> slots[i].colorChanger.calls == old(slots[i].colorChanger.calls)
    {
      var found := FindSlot(t);
      if found.None? {
        return Threw(InvalidOperation);
      }
      var slot := slots[found.value];
      cachedSlot := Some(slot);
      var changer := slot.skinnedMeshChanger;
      label before:
      changer.ChangeMesh(localPeer, name);
      forall i | 0 <= i < |slots|
        ensures slots[i].skinnedMeshChanger.Valid() && slots[i].colorChanger.Valid()
        ensures slots[i].skinnedMeshChanger.calls == old(slots[i].skinnedMeshChanger.calls) + MeshStep(slots, t, name, slots[i].skinnedMeshChanger)
      {
        if slots[i].skinnedMeshChanger != changer {
          assert unchanged@before(slots[i].skinnedMeshChanger);
        }
      }
      r := Returned(());
    }

    /** `ApplyColorByCharacterMapType`: the first slot of category `t` gets
        `ChangeColor(c)`; with no such slot, `First()` throws and no changer is
        called. */
    method ApplyColorByCharacterMapType(t: CharacterMapType, c: Color) returns (r: Outcome<()>)
      requires Ready(slots, localPeer) && Owns()
      modifies this, targets
      ensures Ready(slots, localPeer) && palette == old(palette)
      ensures r == if FirstSlot(slots, t).Some? then Returned(()) else Threw(InvalidOperation)
      ensures FirstSlot(slots, t).Some? ==> cachedSlot == Some(slots[FirstSlot(slots, t).value])
      ensures FirstSlot(slots, t).None? ==> cachedSlot == old(cachedSlot)
      ensures forall i :: 0 <= i < |slots| ==>
        slots[i].colorChanger.calls == old(slots[i].colorChanger.calls) + ColorStep(slots, t, c, slots[i].colorChanger)
      ensures forall i :: 0 <= i < |slots| ==> slots[i].skinnedMeshChanger.calls == old(slots[i].skinnedMeshChanger.calls)
    {
      var found := FindSlot(t);
      if found.None? {
        return Threw(InvalidOperation);
      }
      var slot := slots[found.value];
      cachedSlot := Some(slot);
      var changer := slot.colorChanger;
      label before:
      changer.ChangeColor(localPeer, c);
      forall i | 0 <= i < |slots|
        ensures slots[i].skinnedMeshChanger.Valid() && slots[i].colorChanger.Valid()
        ensures slots[i].colorChanger.calls == old(slots[i].colorChanger.calls) + ColorStep(slots, t, c, slots[i].colorChanger)
      {
        if slots[i].colorChanger != changer {
          assert unchanged@before(slots[i].colorChanger);
        }
      }
      r := Returned(());
    }

    /** The slot search of both apply methods. */
    method FindSlot(t: CharacterMapType) returns (r: Option<nat>)
      ensures r == FirstSlot(slots, t)
    {
      for i := 0 to |slots|
        invariant FirstSlotFrom(slots, t, i) == FirstSlot(slots, t)
      {
        if slots[i].slotType == t {
          return Some(i);
        }
      }
      r := None;
    }

    /** The loop of `InitializeCharacterMeshes`: each item, in order, is applied by
        its category; the loop ends at the first item whose category has no slot. */
    method ApplyMeshes(items: seq<(CharacterMapType, string)>) returns (r: Outcome<()>)
      requires Ready(slots, localPeer) && Owns()
      modifies this, targets
      ensures Ready(slots, localPeer) && palette == old(palette)
      ensures r == if FirstUnrouted(slots, items) < |items| then Threw(InvalidOperation) else Returned(())
      ensures forall i :: 0 <= i < |slots| ==>
        slots[i].skinnedMeshChanger.calls == MeshCallsOnto(old(slots[i].skinnedMeshChanger.calls), slots, items, FirstUnrouted(slots, items), slots[i].skinnedMeshChanger)
      ensures forall i :: 0 <= i < |slots| ==> slots[i].colorChanger.calls == old(slots[i].colorChanger.calls)
    {
      ghost var stop := FirstUnrouted(slots, items);
      r := Returned(());
      for k := 0 to |items|
        invariant Ready(slots, localPeer) && palette == old(palette) && r == Returned(())
        invariant FirstUnroutedFrom(slots, items, k) == stop
        invariant forall i :: 0 <= i < |slots| ==>
          && slots[i].colorChanger.calls == old(slots[i].colorChanger.calls)
          && slots[i].skinnedMeshChanger.calls == MeshCallsOnto(old(slots[i].skinnedMeshChanger.calls), slots, items, k, slots[i].skinnedMeshChanger)
      {
        var (t, name) := items[k];
        r := ApplyCharactermapByCharacterMapType(t, name);
        if r.Threw? {
          assert stop == k;
          break;
        }
        assert k < stop;
        forall i | 0 <= i < |slots|
          ensures slots[i].skinnedMeshChanger.calls == MeshCallsOnto(old(slots[i].skinnedMeshChanger.calls), slots, items, k + 1, slots[i].skinnedMeshChanger)
        {
        }
      }
    }

    /** `InitializeCharacterMeshes`: the equipped records of the save data, in list
        order, are applied by category; reading the save data throws when there is
        none. */
    method InitializeCharacterMeshes() returns (r: Outcome<()>)
      requires Ready(slots, localPeer) && Owns()
      modifies this, targets
      ensures Ready(slots, localPeer) && palette == old(palette)
      ensures r == MeshPass(slots, old(saveManager.current))
      ensures forall i :: 0 <= i < |slots| ==>
        slots[i].skinnedMeshChanger.calls == old(slots[i].skinnedMeshChanger.calls) + MeshPassCalls(slots, old(saveManager.current), slots[i].skinnedMeshChanger)
      ensures forall i :: 0 <= i < |slots| ==> slots[i].colorChanger.calls == old(slots[i].colorChanger.calls)
    {
      var data := saveManager.current;
      if data.None? {
        return Threw(NullReference);
      }
      var items := MeshItems(data.value.currentCharacterMaps);
      ghost var stop := FirstUnrouted(slots, items);
      r := ApplyMeshes(items);
      forall i | 0 <= i < |slots|
        ensures slots[i].skinnedMeshChanger.calls == old(slots[i].skinnedMeshChanger.calls) + MeshCalls(slots, items, stop, slots[i].skinnedMeshChanger)
      {
        MeshCallsOntoAppends(old(slots[i].skinnedMeshChanger.calls), slots, items, stop, slots[i].skinnedMeshChanger);
      }
    }

    /** One pass of the colour loop: the palette colour at the selection's index is
        applied by its category. A missing palette or an index outside it throws
        before any changer is called. */
    method ApplySelection(sel: ColorData) returns (r: Outcome<()>)
      requires Ready(slots, localPeer) && Owns()
      modifies this, targets
      ensures Ready(slots, localPeer) && palette == old(palette)
      ensures r == if ColorStepFailure(slots, palette, sel).Some? then Threw(ColorStepFailure(slots, palette, sel).value) else Returned(())
      ensures forall i :: 0 <= i < |slots| ==>
        slots[i].colorChanger.calls == old(slots[i].colorChanger.calls) + SelectionStep(slots, palette, sel, slots[i].colorChanger)
      ensures r.Threw? ==> forall i :: 0 <= i < |slots| ==> slots[i].colorChanger.calls == old(slots[i].colorChanger.calls)
      ensures forall i :: 0 <= i < |slots| ==> slots[i].skinnedMeshChanger.calls == old(slots[i].skinnedMeshChanger.calls)
    {
      if palette.None? {
        return Threw(NullReference);
      }
      if !(0 <= sel.colorIndex < |palette.value|) {
        return Threw(ArgumentOutOfRange);
      }
      r := ApplyColorByCharacterMapType(sel.mapType, palette.value[sel.colorIndex]);
    }

    /** The loop of `InitializeCharacterColors`: each selection, in order, is applied
        by its category with the palette colour at its index; the loop ends at the
        first selection that throws. */
    method ApplyColors(sels: seq<ColorData>) returns (r: Outcome<()>)
      requires Ready(slots, localPeer) && Owns()
      modifies this, targets
      ensures Ready(slots, localPeer) && palette == old(palette)
      ensures r == if FirstColorFailure(slots, palette, sels) < |sels|
                   then Threw(ColorStepFailure(slots, palette, sels[FirstColorFailure(slots, palette, sels)]).value)
                   else Returned(())
      ensures forall i :: 0 <= i < |slots| ==>
        slots[i].colorChanger.calls == ColorCallsOnto(old(slots[i].colorChanger.calls), slots, palette, sels, FirstColorFailure(slots, palette, sels), slots[i].colorChanger)
      ensures forall i :: 0 <= i < |slots| ==> slots[i].skinnedMeshChanger.calls == old(slots[i].skinnedMeshChanger.calls)
    {
      ghost var stop := FirstColorFailure(slots, palette, sels);
      r := Returned(());
      for k := 0 to |sels|
        invariant Ready(slots, localPeer) && palette == old(palette) && r == Returned(())
        invariant FirstColorFailureFrom(slots, palette, sels, k) == stop
        invariant forall i :: 0 <= i < |slots| ==>
          && slots[i].skinnedMeshChanger.calls == old(slots[i].skinnedMeshChanger.calls)
          && slots[i].colorChanger.calls == ColorCallsOnto(old(slots[i].colorChanger.calls), slots, palette, sels, k, slots[i].colorChanger)
      {
        label head:
        r := ApplySelection(sels[k]);
        if r.Threw? {
          assert stop == k;
          break;
        }
        assert k < stop;
        forall i | 0 <= i < |slots|
          ensures slots[i].colorChanger.calls == ColorCallsOnto(old(slots[i].colorChanger.calls), slots, palette, sels, k + 1, slots[i].colorChanger)
        {
          assert slots[i].colorChanger.calls == old@head(slots[i].colorChanger.calls) + SelectionStep(slots, palette, sels[k], slots[i].colorChanger);
        }
      }
    }

    /** `InitializeCharacterColors`: the saved colour selections, in list order, are
        applied by category; reading the save data throws when there is none. */
    method InitializeCharacterColors() returns (r: Outcome<()>)
      requires Ready(slots, localPeer) && Owns()
      modifies this, targets
      ensures Ready(slots, localPeer) && palette == old(palette)
      ensures r == ColorPass(slots, palette, old(saveManager.current))
      ensures forall i :: 0 <= i < |slots| ==>
        slots[i].colorChanger.calls == old(slots[i].colorChanger.calls) + ColorPassCalls(slots, palette, old(saveManager.current), slots[i].colorChanger)
      ensures forall i :: 0 <= i < |slots| ==> slots[i].skinnedMeshChanger.calls == old(slots[i].skinnedMeshChanger.calls)
    {
      var data := saveManager.current;
      if data.None? {
        return Threw(NullReference);
      }
      var sels := data.value.colorSelections;
      ghost var stop := FirstColorFailure(slots, palette, sels);
      r := ApplyColors(sels);
      forall i | 0 <= i < |slots|
        ensures slots[i].colorChanger.calls == old(slots[i].colorChanger.calls) + ColorCalls(slots, palette, sels, stop, slots[i].colorChanger)
      {
        ColorCallsOntoAppends(old(slots[i].colorChanger.calls), slots, palette, sels, stop, slots[i].colorChanger);
      }
    }

    /** `InitializeWithCustomPlayer`: keep the inventory's palette (None when the
        initializer is not the inventory), then apply the saved meshes, then, only if
        that pass completed, the saved colours. */
    method InitializeWithCustomPlayer(inventoryPalette: Option<seq<Color>>) returns (r: Outcome<()>)
      requires Ready(slots, localPeer) && Owns()
      modifies this, targets
      ensures Ready(slots, localPeer) && palette == inventoryPalette
      ensures r == if MeshPass(slots, old(saveManager.current)).Threw? then MeshPass(slots, old(saveManager.current))
                   else ColorPass(slots, inventoryPalette, old(saveManager.current))
      ensures forall i :: 0 <= i < |slots| ==>
        slots[i].skinnedMeshChanger.calls == old(slots[i].skinnedMeshChanger.calls) + MeshPassCalls(slots, old(saveManager.current), slots[i].skinnedMeshChanger)
      ensures forall i :: 0 <= i < |slots| ==>
        slots[i].colorChanger.calls == old(slots[i].colorChanger.calls) +
          if MeshPass(slots, old(saveManager.current)).Threw? then []
          else ColorPassCalls(slots, inventoryPalette, old(saveManager.current), slots[i].colorChanger)
    {
      ghost var data := saveManager.current;
      palette := inventoryPalette;
      r := InitializeCharacterMeshes();
      if r.Threw? {
        return;
      }
      assert saveManager.current == data;
      r := InitializeCharacterColors();
    }
  }
}
