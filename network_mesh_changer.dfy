/** `NetworkMeshChanger`: a body part's replicated item name. The server's copy is
    authoritative; every peer that sees the name change puts that item's mesh and
    material on its own renderer (NetworkMeshChanger.cs). */
module NetworkMeshChangers {
  import opened Common
  import opened CharacterMaps
  import opened Catalog
  import opened Rendering
  import opened Replication

  /** `ApplyMap` on a renderer: an empty name is ignored; a name the catalogue lacks,
      or whose definition has no mesh, leaves the renderer as it is (a warning is
      logged); otherwise the renderer takes the definition's mesh and material and
      carries its previous override colour onto the new material. */
  function ApplyMapView(v: RendererView, entries: seq<CharacterMap>, name: string): RendererView {
    if name == "" then v
    else match FindLast(entries, name, None)
      case Some(m) =>
        if m.mesh.Some? then RendererView(m.mesh, m.material, v.overrideColor) else v
      case None => v
  }

  /** An item missing from the catalogue changes nothing, and no apply ever changes
      the override colour. */
  lemma ApplyMapMissAndColor(v: RendererView, entries: seq<CharacterMap>, name: string)
    ensures !HasName(entries, name) ==> ApplyMapView(v, entries, name) == v
    ensures ApplyMapView(v, entries, name).overrideColor == v.overrideColor
  {
  }

  /** With unique catalogue keys, applying a name that has a definition with a mesh
      shows exactly that definition's mesh and material. */
  lemma ApplyMapShowsDefinition(v: RendererView, entries: seq<CharacterMap>, i: nat)
    requires UniqueNames(entries) && i < |entries| && entries[i].name != "" && entries[i].mesh.Some?
    ensures ApplyMapView(v, entries, entries[i].name) == RendererView(entries[i].mesh, entries[i].material, v.overrideColor)
  {
    FindUnique(entries, i, None);
  }

  /** The last successful apply decides the mesh and material; applying the same name
      again changes nothing. */
  lemma ApplyMapLastWins(v: RendererView, entries: seq<CharacterMap>, a: string, b: string)
    requires FindLast(entries, b, None).Some? && FindLast(entries, b, None).value.mesh.Some?
    ensures b != "" ==> ApplyMapView(ApplyMapView(v, entries, a), entries, b) == ApplyMapView(v, entries, b)
    ensures ApplyMapView(ApplyMapView(v, entries, a), entries, a) == ApplyMapView(v, entries, a)
  {
  }

  class NetworkMeshChanger {
    /** The catalogue `SaveManager.GetCharacterMap` searches on each peer. The static
        `_allCharacterMaps` belongs to one process and is filled only when that
        process's own player initialises its save manager as owner; until then, or in
        a process with no player of its own, it is empty and every apply there misses
        (`ApplyMapMissAndColor`). */
    const catalogs: seq<CharacterMapCatalog>
    /** This body part's renderer on each peer; peer 0 is the server. */
    const renderers: seq<SkinnedMeshRenderer>
    /** `networkMapName` across the session. */
    var net: Channel<string>
    /** The names passed to `ChangeMesh` on any peer, oldest first. */
    ghost var calls: seq<string>

    ghost predicate Valid()
      reads this
    {
      Converging(net) && |net.values| == |renderers| == |catalogs|
    }

    /** Spawning the object on `|renderers|` peers (`Awake` registers the change
        handler): every copy of the name starts empty. */
    constructor Spawn(catalogs: seq<CharacterMapCatalog>, renderers: seq<SkinnedMeshRenderer>)
      requires |renderers| >= 1 && |catalogs| == |renderers|
      ensures Valid() && this.catalogs == catalogs && this.renderers == renderers
      ensures net == Replication.Start(|renderers|, "") && calls == []
    {
      this.catalogs := catalogs;
      this.renderers := renderers;
      net := Replication.Start(|renderers|, "");
      calls := [];
    }

    /** `ApplyMap(mapName)` on peer `p`. */
    method ApplyMap(p: nat, name: string)
      requires Valid() && p < |renderers|
      modifies renderers[p]
      ensures renderers[p].View() == ApplyMapView(old(renderers[p].View()), catalogs[p].entries, name)
    {
      if name == "" {
        return;
      }
      var m := catalogs[p].GetCharacterMap(name);
      if m.Some? && m.value.mesh.Some? {
        var renderer := renderers[p];
        renderer.sharedMesh := m.value.mesh;
        var lastColor := renderer.overrideColor;
        renderer.material := m.value.material;
        renderer.overrideColor := lastColor;
      }
    }

    /** The server assigns `networkMapName.Value`; if that changes it, the server's
        own change handler (`OnMapChanged`) applies the new name. */
    method SetOnServer(name: string)
      requires Valid()
      modifies this, renderers[0]
      ensures Valid() && calls == old(calls)
      ensures net == ServerSet(old(net), name)
      ensures renderers[0].View() ==
        if name == old(net.values[0]) then old(renderers[0].View())
        else ApplyMapView(old(renderers[0].View()), catalogs[0].entries, name)
    {
      ServerSetConverges(net, name);
      if name != net.values[0] {
        net := ServerSet(net, name);
        ApplyMap(0, name);
      }
    }

    /** `ChangeMesh` called on peer `p`: an empty name is refused (an error is logged);
        on the server the name is written directly; on a client it only becomes a
        `ChangeMapServerRpc` request, and no copy changes. */
    method ChangeMesh(p: nat, name: string)
      requires Valid() && p < |renderers|
      modifies this, renderers[0]
      ensures Valid() && calls == old(calls) + [name]
      ensures name == "" ==> net == old(net)
      ensures name != "" && p == 0 ==> net == ServerSet(old(net), name) && net.values[0] == name
      ensures name != "" && p != 0 ==> net == Request(old(net), name) && net.values == old(net.values)
      ensures renderers[0].View() ==
        if name == "" || p != 0 || name == old(net.values[0]) then old(renderers[0].View())
        else ApplyMapView(old(renderers[0].View()), catalogs[0].entries, name)
    {
      calls := calls + [name];
      if name == "" {
        return;
      }
      if p == 0 {
        SetOnServer(name);
      } else {
        RequestChangesNoCopy(net, name);
        net := Request(net, name);
      }
    }

    /** The server runs the oldest `ChangeMapServerRpc`: the requested name is written,
        whichever client asked (ownership is not required). */
    method ChangeMapServerRpc()
      requires Valid() && net.requests != []
      modifies this, renderers[0]
      ensures Valid() && calls == old(calls)
      ensures net == Serve(old(net)) && net.values[0] == old(net.requests[0])
      ensures renderers[0].View() ==
        if old(net.requests[0]) == old(net.values[0]) then old(renderers[0].View())
        else ApplyMapView(old(renderers[0].View()), catalogs[0].entries, old(net.requests[0]))
    {
      var name := net.requests[0];
      net := net.(requests := net.requests[1..]);
      SetOnServer(name);
    }

    /** Client `p` receives the next change of the name; its `OnMapChanged` handler
        applies the new name to its renderer. */
    method OnMapChanged(p: nat)
      requires Valid() && 1 <= p < |renderers| && net.inbox[p] != []
      modifies this, renderers[p]
      ensures Valid() && calls == old(calls)
      ensures net == Deliver(old(net), p) && net.values[0] == old(net.values[0])
      ensures renderers[p].View() == ApplyMapView(old(renderers[p].View()), catalogs[p].entries, net.values[p])
    {
      DeliverConverges(net, p);
      net := Deliver(net, p);
      ApplyMap(p, net.values[p]);
    }

    /** `Start` on peer `p`: the peer's current name is applied if it is not empty. */
    method Start(p: nat)
      requires Valid() && p < |renderers|
      modifies renderers[p]
      ensures renderers[p].View() ==
        if net.values[p] == "" then old(renderers[p].View())
        else ApplyMapView(old(renderers[p].View()), catalogs[p].entries, net.values[p])
    {
      if net.values[p] != "" {
        ApplyMap(p, net.values[p]);
      }
    }
  }
}
