/**
 * The transform gizmo's drag listener.  On press it copies the attached
 * object's position, rotation and scale and suspends the orbit controls; on
 * release it issues at most one command, for the part of the transform the
 * gizmo's mode edits, when that part has changed since the press.  The
 * copies are kept until the next press that finds an attached object; they
 * are never cleared.
 */
module TransformDrag {
  import opened Wrappers
  import opened Vectors
  import opened Scene
  import opened EditorModel

  /** `transformControls.object`, when one is attached: its node and current transform. */
  datatype Attached = Attached(node: NodeId, position: Vec3, rotation: Euler, scale: Vec3)

  /** The copies taken at the last press: `objectPositionOnDown` and the others, each possibly still null. */
  datatype Snapshots = Snapshots(position: Option<Vec3>, rotation: Option<Euler>, scale: Option<Vec3>)

  const NoSnapshots: Snapshots := Snapshots(None, None, None)

  /** The copies a press takes of an attached object. */
  function Pressed(attached: Attached): (s: Snapshots)
    ensures s.position == Some(attached.position) && s.rotation == Some(attached.rotation) && s.scale == Some(attached.scale)
  {
    Snapshots(Some(attached.position), Some(attached.rotation), Some(attached.scale))
  }

  /** The part of the transform a mode edits has moved away from its copy. */
  function Moved(attached: Attached, mode: string, snaps: Snapshots): (b: bool)
    ensures mode !in {"translate", "rotate", "scale"} ==> !b
    ensures snaps == NoSnapshots ==> !b
    ensures mode == "translate" ==> (b <==> snaps.position.Some? && snaps.position.value != attached.position)
    ensures mode == "rotate" ==> (b <==> snaps.rotation.Some? && snaps.rotation.value != attached.rotation)
    ensures mode == "scale" ==> (b <==> snaps.scale.Some? && snaps.scale.value != attached.scale)
  {
    || (mode == "translate" && snaps.position.Some? && snaps.position.value != attached.position)
    || (mode == "rotate" && snaps.rotation.Some? && snaps.rotation.value != attached.rotation)
    || (mode == "scale" && snaps.scale.Some? && snaps.scale.value != attached.scale)
  }

  /**
   * The command a release issues.  There is one exactly when an object is
   * attached and the part its mode edits has moved; it carries the present
   * value as the new one and the copy as the old one.
   */
  function ReleaseCommand(attached: Option<Attached>, mode: string, snaps: Snapshots): (c: Option<Command>)
    ensures c.Some? <==> attached.Some? && Moved(attached.value, mode, snaps)
    ensures c.Some? && mode == "translate" ==>
      c.value == SetPositionCommand(attached.value.node, attached.value.position, snaps.position.value)
    ensures c.Some? && mode == "rotate" ==>
      c.value == SetRotationCommand(attached.value.node, attached.value.rotation, snaps.rotation.value)
    ensures c.Some? && mode == "scale" ==>
      c.value == SetScaleCommand(attached.value.node, attached.value.scale, snaps.scale.value)
  {
    match attached
    case None => None
    case Some(o) =>
      if mode == "translate" then
        if snaps.position.None? || snaps.position.value == o.position then None
        else Some(SetPositionCommand(o.node, o.position, snaps.position.value))
      else if mode == "rotate" then
        if snaps.rotation.None? || snaps.rotation.value == o.rotation then None
        else Some(SetRotationCommand(o.node, o.rotation, snaps.rotation.value))
      else if mode == "scale" then
        if snaps.scale.None? || snaps.scale.value == o.scale then None
        else Some(SetScaleCommand(o.node, o.scale, snaps.scale.value))
      else None
  }

  /** Pressing and releasing without moving the object issues nothing, in every mode. */
  lemma {:induction false} ReleaseInPlace(attached: Attached, mode: string)
    ensures ReleaseCommand(Some(attached), mode, Pressed(attached)).None?
  {
    var s := Pressed(attached);
    assert !Moved(attached, mode, s);
  }

  /** Dragging the object to `to` in translate mode issues exactly that move, from where it was pressed. */
  lemma TranslateDrag(attached: Attached, to: Vec3)
    requires to != attached.position
    ensures ReleaseCommand(Some(attached.(position := to)), "translate", Pressed(attached)) ==
      Some(SetPositionCommand(attached.node, to, attached.position))
  {
  }

  class TransformListener {
    var positionOnDown: Option<Vec3>
    var rotationOnDown: Option<Euler>
    var scaleOnDown: Option<Vec3>

    function Snaps(): Snapshots
      reads this
    {
      Snapshots(positionOnDown, rotationOnDown, scaleOnDown)
    }

    constructor ()
      ensures Snaps() == NoSnapshots
    {
      positionOnDown, rotationOnDown, scaleOnDown := None, None, None;
    }

    /**
     * `onMouseDown` (and `touchstart`): with nothing attached nothing changes;
     * otherwise the transform is copied by value and the orbit controls are
     * switched off.
     */
    method OnMouseDown(attached: Option<Attached>, e: Editor)
      modifies this, e
      ensures attached.None? ==> Snaps() == old(Snaps()) && e.State() == old(e.State())
      ensures attached.Some? ==>
        Snaps() == Pressed(attached.value) && e.State() == old(e.State()).(orbitEnabled := false)
    {
      if attached.None? {
        return;
      }
      var o := attached.value;
      positionOnDown := Some(o.position);
      rotationOnDown := Some(o.rotation);
      scaleOnDown := Some(o.scale);
      e.orbitEnabled := false;
    }

    /**
     * `onMouseUp` (and `touchend`): executes the command `ReleaseCommand`
     * gives, if any, and switches the orbit controls back on in every case.
     * The copies are kept.
     */
    method OnMouseUp(attached: Option<Attached>, e: Editor)
      modifies e
      ensures var c := ReleaseCommand(attached, old(e.mode), Snaps());
        e.State() == old(e.State()).(orbitEnabled := true,
                                     log := old(e.log) + if c.Some? then [Executed(c.value)] else [])
    {
      var c := ReleaseCommand(attached, e.mode, Snaps());
      if c.Some? {
        e.Execute(c.value);
      }
      e.orbitEnabled := true;
    }
  }

}
