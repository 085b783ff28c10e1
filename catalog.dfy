/** The process-wide catalogue of item definitions, `SaveManager._allCharacterMaps`:
    a dictionary from a definition's name to the definition, filled once from the
    engine's resources and read by name (SaveManager.cs). */
module Catalog {
  import opened Common
  import opened CharacterMaps

  /** Some definition in `entries` is called `name`. */
  predicate HasName(entries: seq<CharacterMap>, name: string) {
    exists i :: 0 <= i < |entries| && entries[i].name == name
  }

  /** Dictionary keys are unique: no two definitions share a name. */
  ghost predicate UniqueNames(entries: seq<CharacterMap>) {
    forall i, j :: 0 <= i < j < |entries| ==> entries[i].name != entries[j].name
  }

  /** Adds each of `rest`, in order, unless its name is already a key, as the loading
      loop of `LoadAllCharacterMaps` does with `ContainsKey` and `Add`. */
  function AddNew(acc: seq<CharacterMap>, rest: seq<CharacterMap>): seq<CharacterMap>
    decreases |rest|
  {
    if rest == [] then acc
    else AddNew(if HasName(acc, rest[0].name) then acc else acc + [rest[0]], rest[1..])
  }

  /** The catalogue that loading `loaded` into an empty dictionary builds. */
  function Deduplicated(loaded: seq<CharacterMap>): seq<CharacterMap> {
    AddNew([], loaded)
  }

  /** Adding a definition under a new name keeps the keys unique. */
  lemma AddOneUnique(acc: seq<CharacterMap>, m: CharacterMap)
    requires UniqueNames(acc) && !HasName(acc, m.name)
    ensures UniqueNames(acc + [m])
  {
    forall i, j | 0 <= i < j < |acc| + 1 ensures (acc + [m])[i].name != (acc + [m])[j].name {
      if j == |acc| {
        assert (acc + [m])[i] == acc[i];
      }
    }
  }

  /** One step of the loading loop. */
  function AddStep(acc: seq<CharacterMap>, m: CharacterMap): seq<CharacterMap> {
    if HasName(acc, m.name) then acc else acc + [m]
  }

  lemma AddNewUnfold(acc: seq<CharacterMap>, rest: seq<CharacterMap>)
    requires rest != []
    ensures AddNew(acc, rest) == AddNew(AddStep(acc, rest[0]), rest[1..])
  {
  }

  /** Loading keeps the keys unique. */
  lemma {:induction false} AddNewUnique(acc: seq<CharacterMap>, rest: seq<CharacterMap>)
    requires UniqueNames(acc)
    ensures UniqueNames(AddNew(acc, rest))
    decreases |rest|
  {
    if rest != [] {
      if !HasName(acc, rest[0].name) {
        AddOneUnique(acc, rest[0]);
      }
      AddNewUnique(AddStep(acc, rest[0]), rest[1..]);
    }
  }

  /** Loading keeps what was there and adds only loaded definitions. */
  lemma {:induction false} AddNewExtends(acc: seq<CharacterMap>, rest: seq<CharacterMap>)
    ensures var r := AddNew(acc, rest);
      |acc| <= |r| && r[..|acc|] == acc && forall k :: |acc| <= k < |r| ==> r[k] in rest
    decreases |rest|
  {
    if rest != [] {
      var acc' := AddStep(acc, rest[0]);
      AddNewExtends(acc', rest[1..]);
      var r := AddNew(acc, rest);
      assert r[..|acc'|] == acc';
      assert r[..|acc|] == acc'[..|acc|];
      forall k | |acc| <= k < |r| ensures r[k] in rest {
        if k >= |acc'| {
          assert r[k] in rest[1..];
        } else {
          assert r[k] == acc'[k];
        }
      }
    }
  }

  /** Every loaded name ends up a key. */
  lemma {:induction false} AddNewCovers(acc: seq<CharacterMap>, rest: seq<CharacterMap>, m: CharacterMap)
    requires m in rest || HasName(acc, m.name)
    ensures HasName(AddNew(acc, rest), m.name)
    decreases |rest|
  {
    if rest == [] {
    } else {
      var acc' := AddStep(acc, rest[0]);
      AddNewExtends(acc', rest[1..]);
      var r := AddNew(acc, rest);
      assert HasName(acc', rest[0].name) by {
        if !HasName(acc, rest[0].name) {
          assert acc'[|acc|] == rest[0];
        }
      }
      assert HasName(acc, m.name) ==> HasName(acc', m.name) by {
        if HasName(acc, m.name) {
          var i :| 0 <= i < |acc| && acc[i].name == m.name;
          assert acc'[i] == acc[i];
        }
      }
      if HasName(acc', m.name) {
        var i :| 0 <= i < |acc'| && acc'[i].name == m.name;
        assert r[..|acc'|][i] == r[i];
      } else {
        assert m in rest[1..];
        AddNewCovers(acc', rest[1..], m);
      }
    }
  }

  /** Of several loaded definitions with one name, the first one is the one kept. */
  lemma {:induction false} AddNewFirstWins(acc: seq<CharacterMap>, rest: seq<CharacterMap>, i: nat)
    requires i < |rest| && !HasName(acc, rest[i].name)
    requires forall k :: 0 <= k < i ==> rest[k].name != rest[i].name
    ensures rest[i] in AddNew(acc, rest)
    decreases |rest|
  {
    var acc' := AddStep(acc, rest[0]);
    AddNewExtends(acc', rest[1..]);
    if i == 0 {
      assert acc'[|acc|] == rest[0];
      assert AddNew(acc, rest)[..|acc'|][|acc|] == rest[0];
    } else {
      assert !HasName(acc', rest[i].name);
      assert rest[1..][i - 1] == rest[i];
      AddNewFirstWins(acc', rest[1..], i - 1);
    }
  }

  /** What loading into an empty dictionary yields: unique keys, only loaded
      definitions, every loaded name, and for each name its first definition. */
  lemma DeduplicatedFacts(loaded: seq<CharacterMap>)
    ensures UniqueNames(Deduplicated(loaded))
    ensures forall m :: m in Deduplicated(loaded) ==> m in loaded
    ensures forall m :: m in loaded ==> HasName(Deduplicated(loaded), m.name)
    ensures forall i :: 0 <= i < |loaded| && (forall k :: 0 <= k < i ==> loaded[k].name != loaded[i].name)
              ==> loaded[i] in Deduplicated(loaded)
  {
    AddNewUnique([], loaded);
    AddNewExtends([], loaded);
    forall m | m in loaded ensures HasName(Deduplicated(loaded), m.name) {
      AddNewCovers([], loaded, m);
    }
    forall i | 0 <= i < |loaded| && (forall k :: 0 <= k < i ==> loaded[k].name != loaded[i].name)
      ensures loaded[i] in Deduplicated(loaded)
    {
      AddNewFirstWins([], loaded, i);
    }
  }

  /** `GetCharacterMap`'s filter: the name matches, and so does the category when one is given. */
  predicate Matches(m: CharacterMap, name: string, t: Option<CharacterMapType>) {
    m.name == name && (t.None? || m.characterMapType == t.value)
  }

  /** The search `GetCharacterMap` performs: visit every definition, keep the last match. */
  function FindLast(entries: seq<CharacterMap>, name: string, t: Option<CharacterMapType>): (r: Option<CharacterMap>)
    ensures r.Some? <==> exists i :: 0 <= i < |entries| && Matches(entries[i], name, t)
    ensures r.Some? ==> r.value in entries && Matches(r.value, name, t)
    decreases |entries|
  {
    if entries == [] then None
    else
      var last := entries[|entries| - 1];
      if Matches(last, name, t) then Some(last)
      else
        var r := FindLast(entries[..|entries| - 1], name, t);
        assert forall i :: 0 <= i < |entries| - 1 ==> entries[..|entries| - 1][i] == entries[i];
        r
  }

  /** With unique keys the search result is THE definition of that name, whatever
      order the dictionary enumerates its values in. */
  lemma {:induction false} FindUnique(entries: seq<CharacterMap>, i: nat, t: Option<CharacterMapType>)
    requires UniqueNames(entries) && i < |entries|
    ensures FindLast(entries, entries[i].name, t)
         == (if t.None? || entries[i].characterMapType == t.value then Some(entries[i]) else None)
    decreases |entries|
  {
    var name := entries[i].name;
    var last := entries[|entries| - 1];
    if i == |entries| - 1 {
      var init := entries[..|entries| - 1];
      assert forall k :: 0 <= k < |init| ==> init[k].name != name;
    } else {
      assert last.name != name;
      FindUnique(entries[..|entries| - 1], i, t);
    }
  }

  /** `SaveManager._allCharacterMaps`; `entries` holds the dictionary's values in
      insertion order, each one's key being its name. */
  class CharacterMapCatalog {
    var entries: seq<CharacterMap>

    ghost predicate Valid()
      reads this
    {
      UniqueNames(entries)
    }

    /** The static initialiser: an empty dictionary. */
    constructor ()
      ensures Valid() && entries == []
    {
      entries := [];
    }

    /** Fills the catalogue from the engine's resources (`loaded`), but only for the
        owner and only while it is still empty; definitions whose name is already a
        key are skipped. */
    method LoadAllCharacterMaps(isOwner: bool, loaded: seq<CharacterMap>)
      requires Valid()
      modifies this
      ensures Valid()
      ensures entries == if isOwner && old(entries) == [] then Deduplicated(loaded) else old(entries)
    {
      if !isOwner {
        return;
      }
      if |entries| == 0 {
        var i := 0;
        while i < |loaded|
          invariant 0 <= i <= |loaded|
          invariant UniqueNames(entries)
          invariant AddNew(entries, loaded[i..]) == Deduplicated(loaded)
        {
          assert loaded[i..][1..] == loaded[i + 1..];
          AddNewUnfold(entries, loaded[i..]);
          if !HasName(entries, loaded[i].name) {
            AddOneUnique(entries, loaded[i]);
            entries := entries + [loaded[i]];
          }
          i := i + 1;
        }
      }
    }

    /** `GetCharacterMap(mapName)`: the definition called `name`, or null. */
    method GetCharacterMap(name: string) returns (r: Option<CharacterMap>)
      ensures r == FindLast(entries, name, None)
      ensures r.Some? <==> HasName(entries, name)
      ensures r.Some? ==> r.value in entries && r.value.name == name
    {
      r := Find(name, None);
    }

    /** `GetCharacterMap(mapName, characterMapType)`: the definition called `name`
        if it belongs to category `t`, or null. */
    method GetCharacterMapOfType(name: string, t: CharacterMapType) returns (r: Option<CharacterMap>)
      ensures r == FindLast(entries, name, Some(t))
      ensures r.Some? <==> exists i :: 0 <= i < |entries| && entries[i].name == name && entries[i].characterMapType == t
      ensures r.Some? ==> r.value in entries && r.value.name == name && r.value.characterMapType == t
    {
      r := Find(name, Some(t));
    }

    /** The shared loop of both overloads. */
    method Find(name: string, t: Option<CharacterMapType>) returns (r: Option<CharacterMap>)
      ensures r == FindLast(entries, name, t)
    {
      r := None;
      for i := 0 to |entries|
        invariant r == FindLast(entries[..i], name, t)
      {
        assert entries[..i + 1][..i] == entries[..i];
        if t.Some? && entries[i].characterMapType != t.value {
          continue;
        }
        if entries[i].name != name {
          continue;
        }
        r := Some(entries[i]);
      }
      assert entries[..|entries|] == entries;
    }
  }
}
