/**
 * What a click selects.  A press and release closer than the click threshold
 * casts a ray through the release point against every visible mesh of the
 * scene; the nearest hit, or its logical owner when it names one, becomes
 * the selection, and a ray that hits nothing clears it.  A drag selects
 * nothing.
 */
module Selection {
  import opened Wrappers
  import opened Vectors
  import opened Scene
  import opened Pointer

  /**
   * `isVisible(object)`: starts from the node's own flag and, when that is
   * set, visits every ancestor and clears the result at any hidden one.
   */
  method IsVisible(g: SceneGraph, id: NodeId) returns (b: bool)
    requires Valid(g) && id in g.nodes
    ensures b == Visible(g, id)
  {
    b := g.nodes[id].visible;
    if b {
      var current := id;
      ghost var visited: seq<NodeId> := [];
      while g.nodes[current].parent.Some?
        invariant current in g.nodes
        invariant Ancestors(g, id) == visited + Ancestors(g, current)
        invariant b == (g.nodes[id].visible && forall a :: a in visited ==> g.nodes[a].visible)
        decreases g.nodes[current].depth
      {
        var parent := g.nodes[current].parent.value;
        assert ParentBelow(g, current);
        assert Ancestors(g, current) == [parent] + Ancestors(g, parent);
        if !g.nodes[parent].visible {
          b := false;
        }
        visited := visited + [parent];
        current := parent;
      }
    }
  }

  /**
   * The `objects` a click tests: the scene traversal's meshes, in traversal
   * order, kept when `isVisible` holds (it is asked only of meshes).
   */
  method CollectCandidates(g: SceneGraph) returns (objects: seq<NodeId>)
    requires Valid(g)
    ensures objects == VisibleMeshes(g, g.order)
    ensures forall id :: id in objects <==> Candidate(g, id)
  {
    objects := [];
    for i := 0 to |g.order|
      invariant objects == VisibleMeshes(g, g.order[..i])
    {
      var child := g.order[i];
      assert g.order[..i + 1][..i] == g.order[..i];
      if g.nodes[child].isMesh {
        var visible := IsVisible(g, child);
        if visible {
          objects := objects + [child];
        }
      }
    }
    assert g.order[..|g.order|] == g.order;
  }

  /** The loop over `intersects` that keeps the first object and breaks. */
  method FirstObject(intersects: seq<Intersection>) returns (first: Option<NodeId>)
    ensures first.None? <==> intersects == []
    ensures first.Some? ==> first.value == intersects[0].node
  {
    first := None;
    for i := 0 to |intersects|
      invariant i == 0 && first.None?
    {
      first := Some(intersects[i].node);
      break;
    }
  }

  /** The node of the nearest hit, if there is one: what hover and double-click use. */
  function FirstHit(hits: seq<Intersection>): (r: Option<NodeId>)
    ensures r.None? <==> hits == []
    ensures r.Some? ==> r.value == hits[0].node
  {
    if hits == [] then None else Some(hits[0].node)
  }

  /**
   * What selecting a hit node selects: the node itself when its
   * `userData.object` is undefined, null when that is explicitly null, and
   * the referenced owner otherwise.
   */
  function Owner(g: SceneGraph, id: NodeId): (r: Option<NodeId>)
    requires Valid(g) && id in g.nodes
    ensures r.Some? ==> r.value in g.nodes
    ensures r.None? <==> g.nodes[id].userObject.Null?
    ensures g.nodes[id].userObject.Undefined? ==> r == Some(id)
    ensures g.nodes[id].userObject.Ref? ==> r == Some(g.nodes[id].userObject.target)
  {
    match g.nodes[id].userObject
    case Undefined => Some(id)
    case Null => None
    case Ref(target) => Some(target)
  }

  /**
   * `click()` on the samples `down` and `up`, with `ray` every hit of the ray
   * through `up`: `None` when there is no `select` call, otherwise the
   * argument of the one `select` call.
   */
  function ClickSelection(g: SceneGraph, ray: seq<Intersection>, down: Vec2, up: Vec2): (r: Option<Option<NodeId>>)
    requires Valid(g)
    ensures r.Some? <==> IsClick(down, up)
    ensures r.Some? && r.value.Some? ==> r.value.value in g.nodes
  {
    if !IsClick(down, up) then None
    else
      var hits := IntersectObjects(ray, VisibleMeshes(g, g.order));
      if hits == [] then Some(None)
      else
        assert hits[0] in hits;
        Some(Owner(g, hits[0].node))
  }

  /**
   * A click selects the owner of the first candidate along the ray: hits on
   * hidden nodes, on nodes that are not meshes or on nodes the traversal does
   * not reach are passed over.
   */
  lemma ClickSelectsFirstCandidate(g: SceneGraph, ray: seq<Intersection>, down: Vec2, up: Vec2, i: nat)
    requires Valid(g) && IsClick(down, up)
    requires i < |ray| && ray[i].node in g.nodes && Candidate(g, ray[i].node)
    requires forall j :: 0 <= j < i ==> !(ray[j].node in g.nodes && Candidate(g, ray[j].node))
    ensures ClickSelection(g, ray, down, up) == Some(Owner(g, ray[i].node))
  {
    var objects := VisibleMeshes(g, g.order);
    assert forall j :: 0 <= j < i ==> ray[j].node !in objects;
    IntersectObjectsHead(ray, objects, i);
  }

  /** A click whose ray meets no candidate clears the selection. */
  lemma ClickOnNothingClears(g: SceneGraph, ray: seq<Intersection>, down: Vec2, up: Vec2)
    requires Valid(g) && IsClick(down, up)
    requires forall h :: h in ray && h.node in g.nodes ==> !Candidate(g, h.node)
    ensures ClickSelection(g, ray, down, up) == Some(None)
  {
    var hits := IntersectObjects(ray, VisibleMeshes(g, g.order));
    assert forall k :: 0 <= k < |hits| ==> hits[k] in hits;
  }

  /**
   * The hit `intersectObjects` puts first is the first along the ray that
   * lies on one of the tested objects.
   */
  lemma {:induction false} FirstOnRay(ray: seq<Intersection>, objects: seq<NodeId>)
    requires IntersectObjects(ray, objects) != []
    ensures exists i :: (0 <= i < |ray| && ray[i] == IntersectObjects(ray, objects)[0] && ray[i].node in objects
                         && forall j :: 0 <= j < i ==> ray[j].node !in objects)
  {
    if ray[0].node !in objects {
      FirstOnRay(ray[1..], objects);
      var k :| 0 <= k < |ray[1..]| && ray[1..][k] == IntersectObjects(ray[1..], objects)[0] && ray[1..][k].node in objects
        && forall j :: 0 <= j < k ==> ray[1..][j].node !in objects;
      assert forall j :: 0 <= j < k + 1 ==> ray[j].node !in objects by {
        forall j | 0 <= j < k + 1
          ensures ray[j].node !in objects
        {
          if j > 0 {
            assert ray[j] == ray[1..][j - 1];
          }
        }
      }
      assert ray[k + 1] == ray[1..][k];
    } else {
      assert ray[0] == IntersectObjects(ray, objects)[0];
    }
  }

  /**
   * On a nearest-first ray the node a click selects from is no farther than
   * any other candidate hit.
   */
  lemma ClickPicksNearest(g: SceneGraph, ray: seq<Intersection>, down: Vec2, up: Vec2)
    requires Valid(g) && IsClick(down, up) && NearestFirst(ray)
    requires exists h :: h in ray && h.node in g.nodes && Candidate(g, h.node)
    ensures var hits := IntersectObjects(ray, VisibleMeshes(g, g.order));
      && hits != []
      && ClickSelection(g, ray, down, up) == Some(Owner(g, hits[0].node))
      && forall h :: h in ray && h.node in g.nodes && Candidate(g, h.node) ==> hits[0].distance <= h.distance
  {
    var objects := VisibleMeshes(g, g.order);
    var hits := IntersectObjects(ray, objects);
    var w :| w in ray && w.node in g.nodes && Candidate(g, w.node);
    assert w in hits;
    forall h | h in ray && h.node in g.nodes && Candidate(g, h.node)
      ensures hits[0].distance <= h.distance
    {
      assert h in hits;
      var k :| 0 <= k < |hits| && hits[k] == h;
    }
  }

  /**
   * A scene: a group (1) holding a hidden mesh (2) and a visible mesh (3)
   * whose `userData.object` names the group.  A ray that meets the hidden
   * mesh first selects the group.
   */
  lemma ClickScenario()
    ensures var g := SceneGraph(
        map[1 := Node(true, false, None, Undefined, 0),
            2 := Node(false, true, Some(1), Undefined, 1),
            3 := Node(true, true, Some(1), Ref(1), 1)],
        [1, 2, 3]);
      && Valid(g)
      && ClickSelection(g, [Intersection(2, 1.0), Intersection(3, 2.0)], Vec2(0.5, 0.5), Vec2(0.5, 0.5)) == Some(Some(1))
  {
    var g := SceneGraph(
      map[1 := Node(true, false, None, Undefined, 0),
          2 := Node(false, true, Some(1), Undefined, 1),
          3 := Node(true, true, Some(1), Ref(1), 1)],
      [1, 2, 3]);
    assert ParentBelow(g, 1) && ParentBelow(g, 2) && ParentBelow(g, 3);
    assert Valid(g);
    assert Ancestors(g, 3) == [1];
    assert !Visible(g, 2) && Visible(g, 3);
    var ray := [Intersection(2, 1.0), Intersection(3, 2.0)];
    ClickSelectsFirstCandidate(g, ray, Vec2(0.5, 0.5), Vec2(0.5, 0.5), 1);
  }

}
