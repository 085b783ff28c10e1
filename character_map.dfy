/** The shared vocabulary of the customisation system: the body-part categories
    and the definition of one customisation item (CharacterMap.cs). */
module CharacterMaps {
  import opened Common

  /** `CharacterMapType`, with the source's own constructor names and order. */
  datatype CharacterMapType = none | hair | eyes | cheeks | mouth | torso | legs | feet | skin

  /** The values in declaration order, as `Enum.GetValues` enumerates them. */
  const AllTypes: seq<CharacterMapType> := [none, hair, eyes, cheeks, mouth, torso, legs, feet, skin]

  /** The position of a category in the declaration. */
  function Ordinal(t: CharacterMapType): (n: nat)
    ensures n < |AllTypes| && AllTypes[n] == t
  {
    match t
    case none => 0
    case hair => 1
    case eyes => 2
    case cheeks => 3
    case mouth => 4
    case torso => 5
    case legs => 6
    case feet => 7
    case skin => 8
  }

  /** The enumeration is closed: nine values, each listed once, `none` first. */
  lemma AllTypesClosed()
    ensures |AllTypes| == 9 && AllTypes[0] == none
    ensures forall i, j :: 0 <= i < j < |AllTypes| ==> AllTypes[i] != AllTypes[j]
    ensures forall t: CharacterMapType :: t in AllTypes
  {
    forall t: CharacterMapType ensures t in AllTypes {
      assert AllTypes[Ordinal(t)] == t;
    }
  }

  /** Opaque handles to the engine's mesh and material assets. */
  type MeshRef = nat
  type MaterialRef = nat

  /** A customisation item definition (a ScriptableObject asset). `name` is the
      asset's name, the catalogue key; `mesh` may be unset (null). */
  datatype CharacterMap = CharacterMap(
    name: string,
    characterMapType: CharacterMapType,
    id: Option<string>,
    price: Int32,
    material: MaterialRef,
    mesh: Option<MeshRef>)

  /** A freshly created definition: the field initialisers of CharacterMap.cs. */
  function NewCharacterMap(name: string, material: MaterialRef): (m: CharacterMap)
    ensures m.name == name && m.material == material
    ensures m.characterMapType == none
    ensures m.price == 100
    ensures m.id == None && m.mesh == None
  {
    CharacterMap(name, none, None, 100, material, None)
  }
}
