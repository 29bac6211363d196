/**
 * The part of a three.js scene graph the interaction layer looks at: every
 * Object3D is a node with a visibility flag, a parent link, a mesh flag and
 * the optional `userData.object` back-reference to its logical owner.  The
 * ray caster is foreign code, so what a ray hits is given as a nearest-first
 * list of intersections.
 */
module Scene {
  import opened Wrappers

  type NodeId = nat

  /** `userData.object`: absent, explicitly `null`, or a reference to another node. */
  datatype UserObject = Undefined | Null | Ref(target: NodeId)

  /**
   * One Object3D.  `depth` is the number of parent links between the node
   * and its root; three.js does not store it, but every acyclic parent
   * relation has one, and it is what makes the walk up the ancestors end.
   */
  datatype Node = Node(
    visible: bool,
    isMesh: bool,
    parent: Option<NodeId>,
    userObject: UserObject,
    depth: nat)

  /**
   * `nodes` holds every Object3D the editor can reach (attached to the scene
   * or not); `order` is the sequence `editor.scene.traverse` visits.
   */
  datatype SceneGraph = SceneGraph(nodes: map<NodeId, Node>, order: seq<NodeId>)

  /** A parent link points at a known node one level closer to the root. */
  ghost predicate ParentBelow(g: SceneGraph, id: NodeId)
    requires id in g.nodes
  {
    match g.nodes[id].parent
    case None => g.nodes[id].depth == 0
    case Some(p) => p in g.nodes && g.nodes[p].depth < g.nodes[id].depth
  }

  /** Well-formed scene: acyclic parent links, back-references and traversal inside `nodes`. */
  ghost predicate Valid(g: SceneGraph)
  {
    && (forall id :: id in g.nodes ==> ParentBelow(g, id))
    && (forall id :: id in g.nodes && g.nodes[id].userObject.Ref? ==> g.nodes[id].userObject.target in g.nodes)
    && (forall id :: id in g.order ==> id in g.nodes)
  }

  /** The proper ancestors of `id`, parent first, as `traverseAncestors` visits them. */
  function Ancestors(g: SceneGraph, id: NodeId): (r: seq<NodeId>)
    requires Valid(g) && id in g.nodes
    ensures forall a :: a in r ==> a in g.nodes
    ensures g.nodes[id].parent.None? <==> r == []
    decreases g.nodes[id].depth
  {
    assert ParentBelow(g, id);
    match g.nodes[id].parent
    case None => []
    case Some(p) => [p] + Ancestors(g, p)
  }

  /** A node is shown when it and every one of its ancestors is visible. */
  predicate Visible(g: SceneGraph, id: NodeId)
    requires Valid(g) && id in g.nodes
  {
    g.nodes[id].visible && forall a :: a in Ancestors(g, id) ==> g.nodes[a].visible
  }

  /** The nodes a click may hit: visible meshes reached by the scene traversal. */
  predicate Candidate(g: SceneGraph, id: NodeId)
    requires Valid(g)
  {
    id in g.order && g.nodes[id].isMesh && Visible(g, id)
  }

  predicate VisibleMesh(g: SceneGraph, id: NodeId)
    requires Valid(g) && id in g.nodes
  {
    g.nodes[id].isMesh && Visible(g, id)
  }

  /** The nodes of `s` that are visible meshes, in the order of `s`. */
  function VisibleMeshes(g: SceneGraph, s: seq<NodeId>): (r: seq<NodeId>)
    requires Valid(g) && forall id :: id in s ==> id in g.nodes
    ensures forall id :: id in r <==> id in s && VisibleMesh(g, id)
    ensures |r| <= |s|
  {
    if s == [] then []
    else
      var prefix, last := s[..|s| - 1], s[|s| - 1];
      assert s == prefix + [last];
      assert forall id :: id in s <==> id in prefix || id == last;
      VisibleMeshes(g, prefix) + (if VisibleMesh(g, last) then [last] else [])
  }

  /** One ray hit: the node and its distance from the camera. */
  datatype Intersection = Intersection(node: NodeId, distance: real)

  /** The order three.js returns hits in. */
  predicate NearestFirst(hits: seq<Intersection>)
  {
    forall i, j :: 0 <= i < j < |hits| ==> hits[i].distance <= hits[j].distance
  }

  /**
   * `raycaster.intersectObjects(objects)`, given every hit of the ray:
   * exactly the hits on `objects`, in the ray's order.
   */
  function IntersectObjects(ray: seq<Intersection>, objects: seq<NodeId>): (r: seq<Intersection>)
    ensures forall h :: h in r <==> h in ray && h.node in objects
    ensures |r| <= |ray|
    ensures NearestFirst(ray) ==> NearestFirst(r)
  {
    if ray == [] then []
    else
      var rest := IntersectObjects(ray[1..], objects);
      assert NearestFirst(ray) ==> forall h :: h in rest ==> ray[0].distance <= h.distance by {
        if NearestFirst(ray) {
          forall h | h in rest ensures ray[0].distance <= h.distance {
            var k :| 0 <= k < |ray[1..]| && ray[1..][k] == h;
            assert ray[k + 1] == h;
          }
        }
      }
      if ray[0].node in objects then [ray[0]] + rest else rest
  }

  /** The first hit on `objects` along the ray comes first in `intersectObjects`. */
  lemma {:induction false} IntersectObjectsHead(ray: seq<Intersection>, objects: seq<NodeId>, i: nat)
    requires i < |ray| && ray[i].node in objects
    requires forall j :: 0 <= j < i ==> ray[j].node !in objects
    ensures IntersectObjects(ray, objects) != [] && IntersectObjects(ray, objects)[0] == ray[i]
  {
    if i > 0 {
      assert ray[0].node !in objects;
      IntersectObjectsHead(ray[1..], objects, i - 1);
    }
  }

}
