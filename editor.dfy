/**
 * The editor object the React bindings drive, and the actions of
 * `useActions` that change it.  The editor's own command classes, undo stack
 * and camera focusing belong to the building-editor package: every call into
 * them is recorded in `log` and nothing more is claimed about them.  Each
 * `setEditor(editor)` is one change notification, counted in `notifications`.
 */
module EditorModel {
  import opened Wrappers
  import opened Vectors
  import opened Scene
  import opened Materials
  import opened Clip

  /** The building-editor command objects that this layer constructs. */
  datatype Command =
    | AddObjectCommand(node: NodeId, parent: Option<NodeId>, index: Option<int>)
    | RemoveObjectCommand(node: NodeId)
    | SetPositionCommand(node: NodeId, newPosition: Vec3, oldPosition: Vec3)
    | SetRotationCommand(node: NodeId, newRotation: Euler, oldRotation: Euler)
    | SetScaleCommand(node: NodeId, newScale: Vec3, oldScale: Vec3)

  /** One call into the building-editor package, as the log records it. */
  datatype Call =
    | Executed(command: Command)
    | Undid
    | Redid
    | Focused(node: NodeId)
    | ModeChanged(mode: string)
    | ClipSet(enable: bool)
    | CameraAdded(camera: NodeId)

  /** `editor.contextMenu`: `x` and `y` are the client coordinates of the opening click, or null. */
  datatype ContextMenuState = ContextMenuState(open: bool, x: Option<real>, y: Option<real>)

  const ClosedMenu: ContextMenuState := ContextMenuState(false, None, None)

  datatype Camera = PerspectiveCamera(aspect: real) | OtherCamera

  /** The size `getViewSize()` reports for the viewport. */
  datatype ViewSize = ViewSize(width: real, height: real)

  /** Every field of an `Editor`, as one value. */
  datatype EditorState = EditorState(
    scene: SceneGraph,
    objects: seq<NodeId>,
    selected: Option<NodeId>,
    hovered: Option<NodeId>,
    orbitEnabled: bool,
    mode: string,
    mouse: Vec2,
    log: seq<Call>,
    notifications: nat,
    contextMenu: ContextMenuState,
    materialsRefCounter: map<Material, nat>,
    materials: map<string, Material>,
    planeHelper: Option<PlaneHelper>,
    camera: Camera)

  /**
   * `setSceneSize(width?, height?)`: the size used, which is the viewport's
   * whenever either argument is missing or zero.
   */
  function SceneSize(width: Option<real>, height: Option<real>, view: ViewSize): (s: ViewSize)
    requires view.height != 0.0
    ensures Truthy(width) && Truthy(height) ==> s == ViewSize(width.value, height.value)
    ensures !(Truthy(width) && Truthy(height)) ==> s == view
    ensures s.height != 0.0
  {
    if !Truthy(width) || !Truthy(height) then view else ViewSize(width.value, height.value)
  }

  class Editor {
    var scene: SceneGraph
    /** `editor.objects`, what double-click and hover test against. */
    var objects: seq<NodeId>
    var selected: Option<NodeId>
    var hovered: Option<NodeId>
    /** `orbitControls.enabled`. */
    var orbitEnabled: bool
    /** `transformControls.getMode()`. */
    var mode: string
    /** `editor.mouse`, the last pointer in normalised device coordinates. */
    var mouse: Vec2
    var log: seq<Call>
    var notifications: nat
    var contextMenu: ContextMenuState
    var materialsRefCounter: map<Material, nat>
    var materials: map<string, Material>
    var planeHelper: Option<PlaneHelper>
    var camera: Camera

    function State(): EditorState
      reads this
    {
      EditorState(scene, objects, selected, hovered, orbitEnabled, mode, mouse, log,
                  notifications, contextMenu, materialsRefCounter, materials, planeHelper, camera)
    }

    /** The scene is well formed, and every node the editor refers to is one of its nodes. */
    ghost predicate Valid()
      reads this
    {
      && Scene.Valid(scene)
      && (selected.Some? ==> selected.value in scene.nodes)
      && (hovered.Some? ==> hovered.value in scene.nodes)
      && (forall id :: id in objects ==> id in scene.nodes)
    }

    /** `node` is null or a node of the scene. */
    predicate Known(node: Option<NodeId>)
      reads this
    {
      node.Some? ==> node.value in scene.nodes
    }

    constructor (scene: SceneGraph, objects: seq<NodeId>, camera: Camera, planeHelper: Option<PlaneHelper>)
      requires Scene.Valid(scene) && forall id :: id in objects ==> id in scene.nodes
      ensures Valid()
      ensures State() == EditorState(scene, objects, None, None, true, "translate", Vec2(0.0, 0.0), [],
                                     0, ClosedMenu, map[], map[], planeHelper, camera)
    {
      this.scene := scene;
      this.objects := objects;
      selected, hovered := None, None;
      orbitEnabled := true;
      mode := "translate";
      mouse := Vec2(0.0, 0.0);
      log, notifications := [], 0;
      contextMenu := ClosedMenu;
      materialsRefCounter, materials := map[], map[];
      this.planeHelper := planeHelper;
      this.camera := camera;
    }

    /** `setEditor(editor)`: one change notification. */
    method Notify()
      modifies this
      ensures State() == old(State()).(notifications := old(notifications) + 1)
    {
      notifications := notifications + 1;
    }

    /** `editor.execute(command)`. */
    method Execute(command: Command)
      modifies this
      ensures State() == old(State()).(log := old(log) + [Executed(command)])
    {
      log := log + [Executed(command)];
    }

    /** `editor.undo()`. */
    method Undo()
      modifies this
      ensures State() == old(State()).(log := old(log) + [Undid])
    {
      log := log + [Undid];
    }

    /** `editor.redo()`. */
    method Redo()
      modifies this
      ensures State() == old(State()).(log := old(log) + [Redid])
    {
      log := log + [Redid];
    }

    /** `editor.changeTransformMode(mode)`. */
    method ChangeMode(mode: string)
      modifies this
      ensures State() == old(State()).(log := old(log) + [ModeChanged(mode)])
    {
      log := log + [ModeChanged(mode)];
    }

    /** `focus(node)`: `editor.focus(node)`, with no notification. */
    method Focus(node: NodeId)
      modifies this
      ensures State() == old(State()).(log := old(log) + [Focused(node)])
    {
      log := log + [Focused(node)];
    }

    /** `select(node)`: replaces the selection, even by the same node, and always notifies. */
    method Select(node: Option<NodeId>)
      requires Valid() && Known(node)
      modifies this
      ensures Valid()
      ensures State() == old(State()).(selected := node, notifications := old(notifications) + 1)
    {
      selected := node;
      Notify();
    }

    /** `setHovered(node)`: replaces the hovered node and always notifies. */
    method SetHovered(node: Option<NodeId>)
      requires Valid() && Known(node)
      modifies this
      ensures Valid()
      ensures State() == old(State()).(hovered := node, notifications := old(notifications) + 1)
    {
      hovered := node;
      Notify();
    }

    /** `addObject(object, parent?, index?)`: one add command, then one notification. */
    method AddObject(node: NodeId, parent: Option<NodeId>, index: Option<int>)
      modifies this
      ensures State() == old(State()).(log := old(log) + [Executed(AddObjectCommand(node, parent, index))],
                                       notifications := old(notifications) + 1)
    {
      Execute(AddObjectCommand(node, parent, index));
      Notify();
    }

    /**
     * `removeObject(node)`: null does nothing; a node without a parent runs
     * no command but still notifies; any other node is removed by exactly one
     * command followed by one notification.
     */
    method RemoveObject(node: Option<NodeId>)
      requires Known(node)
      modifies this
      ensures node.None? ==> State() == old(State())
      ensures node.Some? && old(scene).nodes[node.value].parent.None? ==>
        State() == old(State()).(notifications := old(notifications) + 1)
      ensures node.Some? && old(scene).nodes[node.value].parent.Some? ==>
        State() == old(State()).(log := old(log) + [Executed(RemoveObjectCommand(node.value))],
                                 notifications := old(notifications) + 1)
    {
      if node.None? {
        return;
      }
      var parent := scene.nodes[node.value].parent;
      if parent.Some? {
        Execute(RemoveObjectCommand(node.value));
      }
      Notify();
    }

    /** `addCamera(camera)`. */
    method AddCamera(cameraNode: NodeId)
      modifies this
      ensures State() == old(State()).(log := old(log) + [CameraAdded(cameraNode)],
                                       notifications := old(notifications) + 1)
    {
      log := log + [CameraAdded(cameraNode)];
      Notify();
    }

    /**
     * `addMaterialToRefCounter(material)`: a material seen for the first time
     * is counted once and registered under its uuid; a known one has its count
     * raised by one and the dictionary is left alone.  No other entry changes.
     */
    method AddMaterialToRefCounter(material: Material)
      modifies this
      ensures material !in old(materialsRefCounter) ==>
        && materialsRefCounter == old(materialsRefCounter)[material := 1]
        && materials == old(materials)[material.uuid := material]
      ensures material in old(materialsRefCounter) ==>
        && materialsRefCounter == old(materialsRefCounter)[material := old(materialsRefCounter)[material] + 1]
        && materials == old(materials)
      ensures State() == old(State()).(materialsRefCounter := materialsRefCounter, materials := materials)
    {
      if material !in materialsRefCounter {
        materialsRefCounter := materialsRefCounter[material := 1];
        materials := materials[material.uuid := material];
      } else {
        var count := materialsRefCounter[material];
        count := count + 1;
        materialsRefCounter := materialsRefCounter[material := count];
      }
    }

    /**
     * `clipGlobal(setting?)`: without a plane helper nothing changes;
     * otherwise the helper is reconfigured and clipping is switched as the
     * `enable` flag says.
     */
    method ClipGlobal(setting: Option<ClipSetting>)
      modifies this
      ensures old(planeHelper).None? ==> State() == old(State())
      ensures old(planeHelper).Some? ==>
        State() == old(State()).(planeHelper := Some(ClippedHelper(old(planeHelper).value, setting)),
                                 log := old(log) + [ClipSet(Flags(setting).enable)])
    {
      if planeHelper.Some? {
        var flags := Flags(setting);
        planeHelper := Some(ClippedHelper(planeHelper.value, setting));
        log := log + [ClipSet(flags.enable)];
      }
    }

    /** `setSceneSize(width?, height?)`: a perspective camera takes the aspect ratio of the size used. */
    method SetSceneSize(width: Option<real>, height: Option<real>, view: ViewSize)
      requires view.height != 0.0
      modifies this
      ensures var s := SceneSize(width, height, view);
        State() == old(State()).(camera := if old(camera).PerspectiveCamera? then PerspectiveCamera(s.width / s.height) else old(camera))
    {
      var size := SceneSize(width, height, view);
      if camera.PerspectiveCamera? {
        camera := PerspectiveCamera(size.width / size.height);
      }
    }

    /** `setTransformControlsMode(mode)`: the gizmo's own mode, with no notification. */
    method SetTransformControlsMode(newMode: string)
      modifies this
      ensures State() == old(State()).(mode := newMode)
    {
      mode := newMode;
    }
  }

}
