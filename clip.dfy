/**
 * The global clipping plane and its helper, as `clipGlobal` configures them.
 */
module Clip {
  import opened Wrappers
  import opened Vectors

  /** THREE.Plane: the points p with normal . p + constant == 0. */
  datatype Plane = Plane(normal: Vec3, constant: real)

  /** THREE.PlaneHelper: the drawn plane, its size and whether it is shown. */
  datatype PlaneHelper = PlaneHelper(plane: Plane, size: real, visible: bool)

  /** The optional `setting` object of `clipGlobal`. */
  datatype ClipSetting = ClipSetting(
    normal: Option<Vec3>,
    constant: Option<real>,
    size: Option<real>,
    enable: Option<bool>,
    negate: Option<bool>,
    displayHelper: Option<bool>)

  const NoSetting: ClipSetting := ClipSetting(None, None, None, None, None, None)

  datatype ClipFlags = ClipFlags(enable: bool, negate: bool, displayHelper: bool)

  /**
   * The three flags after defaulting: clipping and the helper are on unless
   * the caller turns them off; the plane is negated only on request.
   */
  function Flags(setting: Option<ClipSetting>): (f: ClipFlags)
    ensures f.enable <==> setting.None? || setting.value.enable != Some(false)
    ensures f.negate <==> setting.Some? && setting.value.negate == Some(true)
    ensures f.displayHelper <==> setting.None? || setting.value.displayHelper != Some(false)
  {
    match setting
    case None => ClipFlags(true, false, true)
    case Some(s) =>
      ClipFlags(
        if s.enable.None? then true else s.enable.value,
        if s.negate.None? then false else s.negate.value,
        if s.displayHelper.None? then true else s.displayHelper.value)
  }

  /** `Plane.negate`: the same plane, facing the other way. */
  function Negated(p: Plane): (r: Plane)
    ensures r.constant == -p.constant
    ensures r.normal.x == -p.normal.x && r.normal.y == -p.normal.y && r.normal.z == -p.normal.z
  {
    Plane(Vec3(-p.normal.x, -p.normal.y, -p.normal.z), -p.constant)
  }

  /** The plane after the `normal` and `constant` assignments; both are skipped when falsy. */
  function Configured(p: Plane, setting: Option<ClipSetting>): (r: Plane)
    ensures setting.None? ==> r == p
    ensures setting.Some? ==>
      && r.normal == (if setting.value.normal.Some? then setting.value.normal.value else p.normal)
      && (if Truthy(setting.value.constant) then r.constant == setting.value.constant.value else r.constant == p.constant)
  {
    match setting
    case None => p
    case Some(s) =>
      var normal := if s.normal.Some? then s.normal.value else p.normal;
      var constant := if Truthy(s.constant) then s.constant.value else p.constant;
      Plane(normal, constant)
  }

  /**
   * The helper after `clipGlobal(setting)`: its plane is the configured one,
   * negated when asked; a truthy size replaces the old one, and the helper is
   * shown as `displayHelper` says.
   */
  function ClippedHelper(h: PlaneHelper, setting: Option<ClipSetting>): (r: PlaneHelper)
    ensures r.visible == Flags(setting).displayHelper
    ensures r.size == if setting.Some? && Truthy(setting.value.size) then setting.value.size.value else h.size
    ensures Flags(setting).negate ==> Negated(r.plane) == Configured(h.plane, setting)
    ensures !Flags(setting).negate ==> r.plane == Configured(h.plane, setting)
  {
    var plane := Configured(h.plane, setting);
    var size := if setting.Some? && Truthy(setting.value.size) then setting.value.size.value else h.size;
    var helper := PlaneHelper(plane, size, Flags(setting).displayHelper);
    if Flags(setting).negate then helper.(plane := Negated(plane)) else helper
  }

  /** `constant: 0` is falsy, so it never reaches the plane. */
  lemma ZeroConstantIsIgnored(h: PlaneHelper)
    ensures ClippedHelper(h, Some(NoSetting.(constant := Some(0.0)))).plane == h.plane
  {
  }

  /** Two calls that only ask for negation give back the original plane. */
  lemma NegatingTwiceRestores(h: PlaneHelper)
    ensures ClippedHelper(ClippedHelper(h, Some(NoSetting.(negate := Some(true)))), Some(NoSetting.(negate := Some(true)))).plane == h.plane
  {
  }

}
