/** `NetworkColorChanger`: a body part's replicated override colour, under the same
    single-writer rule as the item name (NetworkColorChanger.cs). */
module NetworkColorChangers {
  import opened Common
  import opened Rendering
  import opened Replication

  /** The change handler `OnColorChanged`: the material's override colour becomes the
      new value, whatever it is. */
  function ApplyColorView(v: RendererView, c: Color): (r: RendererView)
    ensures r.overrideColor == c && r.mesh == v.mesh && r.material == v.material
  {
    v.(overrideColor := c)
  }

  /** `ApplyCurrentColor`: the colour is applied unless it equals `default(Color)`. */
  function ApplyCurrentColorView(v: RendererView, c: Color): (r: RendererView)
    ensures c == DefaultColor ==> r == v
    ensures c != DefaultColor ==> r == ApplyColorView(v, c)
  {
    if c != DefaultColor then ApplyColorView(v, c) else v
  }

  /** Applying colours: the last one wins, and applying a colour is idempotent. */
  lemma ApplyColorLastWins(v: RendererView, a: Color, b: Color)
    ensures ApplyColorView(ApplyColorView(v, a), b) == ApplyColorView(v, b)
    ensures ApplyColorView(ApplyColorView(v, a), a) == ApplyColorView(v, a)
  {
  }

  class NetworkColorChanger {
    /** This body part's renderer on each peer; peer 0 is the server. */
    const renderers: seq<SkinnedMeshRenderer>
    /** `networkColor` across the session. */
    var net: Channel<Color>
    /** The colours passed to `ChangeColor` on any peer, oldest first. */
    ghost var calls: seq<Color>

    ghost predicate Valid()
      reads this
    {
      Converging(net) && |net.values| == |renderers|
    }

    /** Spawning the object on `|renderers|` peers (`Awake` registers the change
        handler): every copy of the colour starts as `default(Color)`. */
    constructor Spawn(renderers: seq<SkinnedMeshRenderer>)
      requires |renderers| >= 1
      ensures Valid() && this.renderers == renderers
      ensures net == Replication.Start(|renderers|, DefaultColor) && calls == []
    {
      this.renderers := renderers;
      net := Replication.Start(|renderers|, DefaultColor);
      calls := [];
    }

    /** The server assigns `networkColor.Value`; if that changes it, the server's own
        change handler sets the override colour. */
    method SetOnServer(c: Color)
      requires Valid()
      modifies this, renderers[0]
      ensures Valid() && calls == old(calls)
      ensures net == ServerSet(old(net), c)
      ensures renderers[0].View() ==
        if c == old(net.values[0]) then old(renderers[0].View())
        else ApplyColorView(old(renderers[0].View()), c)
    {
      ServerSetConverges(net, c);
      if c != net.values[0] {
        net := ServerSet(net, c);
        renderers[0].overrideColor := c;
      }
    }

    /** `ChangeColor` called on peer `p`. No colour is refused: on the server it is
        written directly; on a client it only becomes a `ChangeColorServerRpc`
        request, and no copy changes. */
    method ChangeColor(p: nat, c: Color)
      requires Valid() && p < |renderers|
      modifies this, renderers[0]
      ensures Valid() && calls == old(calls) + [c]
      ensures p == 0 ==> net == ServerSet(old(net), c) && net.values[0] == c
      ensures p != 0 ==> net == Request(old(net), c) && net.values == old(net.values)
      ensures renderers[0].View() ==
        if p != 0 || c == old(net.values[0]) then old(renderers[0].View())
        else ApplyColorView(old(renderers[0].View()), c)
    {
      calls := calls + [c];
      if p == 0 {
        SetOnServer(c);
      } else {
        RequestChangesNoCopy(net, c);
        net := Request(net, c);
      }
    }

    /** The server runs the oldest `ChangeColorServerRpc`: the requested colour is
        written, whichever client asked (ownership is not required). */
    method ChangeColorServerRpc()
      requires Valid() && net.requests != []
      modifies this, renderers[0]
      ensures Valid() && calls == old(calls)
      ensures net == Serve(old(net)) && net.values[0] == old(net.requests[0])
      ensures renderers[0].View() ==
        if old(net.requests[0]) == old(net.values[0]) then old(renderers[0].View())
        else ApplyColorView(old(renderers[0].View()), old(net.requests[0]))
    {
      var c := net.requests[0];
      net := net.(requests := net.requests[1..]);
      SetOnServer(c);
    }

    /** Client `p` receives the next change of the colour; its `OnColorChanged`
        handler sets the override colour. */
    method OnColorChanged(p: nat)
      requires Valid() && 1 <= p < |renderers| && net.inbox[p] != []
      modifies this, renderers[p]
      ensures Valid() && calls == old(calls)
      ensures net == Deliver(old(net), p) && net.values[0] == old(net.values[0])
      ensures renderers[p].View() == ApplyColorView(old(renderers[p].View()), net.values[p])
    {
      DeliverConverges(net, p);
      net := Deliver(net, p);
      renderers[p].overrideColor := net.values[p];
    }

    /** `Start`, that is `ApplyCurrentColor`, on peer `p`. */
    method Start(p: nat)
      requires Valid() && p < |renderers|
      modifies renderers[p]
      ensures renderers[p].View() == ApplyCurrentColorView(old(renderers[p].View()), net.values[p])
    {
      if net.values[p] != DefaultColor {
        renderers[p].overrideColor := net.values[p];
      }
    }
  }
}
