/** The part of the engine's renderer that the customisation touches: a body part's
    mesh, its material, and that material's `_OverrideColor` property. */
module Rendering {
  import opened Common
  import opened CharacterMaps

  /** `UnityEngine.Color`: four float channels. */
  datatype Color = Color(r: real, g: real, b: real, a: real)

  /** `default(Color)`, the initial value of a colour `NetworkVariable`. */
  const DefaultColor: Color := Color(0.0, 0.0, 0.0, 0.0)

  /** What a renderer shows. */
  datatype RendererView = RendererView(mesh: Option<MeshRef>, material: MaterialRef, overrideColor: Color)

  /** A `SkinnedMeshRenderer` on one peer. The mesh changer and the colour changer of
      a body part hold the same renderer, so each sees what the other did. */
  class SkinnedMeshRenderer {
    var sharedMesh: Option<MeshRef>
    var material: MaterialRef
    var overrideColor: Color

    constructor (mesh: Option<MeshRef>, material: MaterialRef, overrideColor: Color)
      ensures View() == RendererView(mesh, material, overrideColor)
    {
      this.sharedMesh := mesh;
      this.material := material;
      this.overrideColor := overrideColor;
    }

    function View(): RendererView
      reads this
    {
      RendererView(sharedMesh, material, overrideColor)
    }
  }
}
