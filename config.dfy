/**
 * The event configuration (`BEREventConfig`) and its merge with the
 * caller's partial configuration, `{ ...defaultConfig, ...config }`.
 *
 * Object spread copies every key the caller's object HAS, so a key that is
 * absent keeps its default while a key present with the value `undefined`
 * replaces the default with `undefined`.  A merged entry is therefore
 * optional: `None` is that `undefined`.
 */
module EventConfig {
  import opened Wrappers

  /** `Key`: one of the letters a-z or the digits 0-9. */
  predicate IsKeyChar(c: char)
  {
    'a' <= c <= 'z' || '0' <= c <= '9'
  }

  type Key = c: char | IsKeyChar(c) witness 'a'

  /** One key of a `Partial<BEREventConfig>` object. */
  datatype Entry<T> = Absent | Undefined | Given(value: T)

  datatype PartialConfig = PartialConfig(
    translate: Entry<Key>,
    rotate: Entry<Key>,
    scale: Entry<Key>,
    undo: Entry<Key>,
    focus: Entry<Key>,
    deleteEnabled: Entry<bool>,
    contextMenuEnabled: Entry<bool>)

  /** The merged configuration the listeners read. */
  datatype Config = Config(
    translate: Option<Key>,
    rotate: Option<Key>,
    scale: Option<Key>,
    undo: Option<Key>,
    focus: Option<Key>,
    deleteEnabled: Option<bool>,
    contextMenuEnabled: Option<bool>)

  /** `defaultConfig`. */
  const DefaultConfig: Config :=
    Config(Some('t'), Some('r'), Some('s'), Some('z'), Some('f'), Some(true), Some(true))

  /** The caller configuration that leaves every key out. */
  const NoKeys: PartialConfig :=
    PartialConfig(Absent, Absent, Absent, Absent, Absent, Absent, Absent)

  /** What the merge leaves under one key: the default, `undefined`, or the caller's value. */
  ghost predicate Resolves<T>(e: Entry<T>, default: T, v: Option<T>)
  {
    && (e.Absent? ==> v == Some(default))
    && (e.Undefined? ==> v == None)
    && (e.Given? ==> v == Some(e.value))
  }

  /** One key of the spread: the caller's own key, when it has one, wins. */
  function Spread<T>(default: T, e: Entry<T>): (v: Option<T>)
    ensures Resolves(e, default, v)
  {
    match e
    case Absent => Some(default)
    case Undefined => None
    case Given(x) => Some(x)
  }

  /**
   * `useEvents(config?)`: with no configuration every listener sees the
   * defaults; otherwise each key resolves as `Resolves` says.
   */
  function Merge(config: Option<PartialConfig>): (c: Config)
    ensures config.None? ==> c == DefaultConfig
    ensures config.Some? ==>
      var p := config.value;
      && Resolves(p.translate, 't', c.translate)
      && Resolves(p.rotate, 'r', c.rotate)
      && Resolves(p.scale, 's', c.scale)
      && Resolves(p.undo, 'z', c.undo)
      && Resolves(p.focus, 'f', c.focus)
      && Resolves(p.deleteEnabled, true, c.deleteEnabled)
      && Resolves(p.contextMenuEnabled, true, c.contextMenuEnabled)
  {
    match config
    case None => DefaultConfig
    case Some(p) =>
      Config(
        Spread(DefaultConfig.translate.value, p.translate),
        Spread(DefaultConfig.rotate.value, p.rotate),
        Spread(DefaultConfig.scale.value, p.scale),
        Spread(DefaultConfig.undo.value, p.undo),
        Spread(DefaultConfig.focus.value, p.focus),
        Spread(DefaultConfig.deleteEnabled.value, p.deleteEnabled),
        Spread(DefaultConfig.contextMenuEnabled.value, p.contextMenuEnabled))
  }

  /** The caller configuration that sets every key of `c` (and leaves out what `c` leaves undefined). */
  function Supplying(c: Config): (p: PartialConfig)
    ensures c.translate.Some? <==> p.translate.Given?
    ensures c.rotate.Some? <==> p.rotate.Given?
    ensures c.scale.Some? <==> p.scale.Given?
    ensures c.undo.Some? <==> p.undo.Given?
    ensures c.focus.Some? <==> p.focus.Given?
    ensures c.deleteEnabled.Some? <==> p.deleteEnabled.Given?
    ensures c.contextMenuEnabled.Some? <==> p.contextMenuEnabled.Given?
  {
    PartialConfig(
      GivenEntry(c.translate), GivenEntry(c.rotate), GivenEntry(c.scale),
      GivenEntry(c.undo), GivenEntry(c.focus),
      GivenEntry(c.deleteEnabled), GivenEntry(c.contextMenuEnabled))
  }

  function GivenEntry<T>(v: Option<T>): (e: Entry<T>)
    ensures v.None? <==> e.Undefined?
  {
    match v
    case None => Undefined
    case Some(x) => Given(x)
  }

  /** Leaving every key out, or passing nothing, gives the defaults. */
  lemma MergeOfNothingIsDefault()
    ensures Merge(None) == DefaultConfig
    ensures Merge(Some(NoKeys)) == DefaultConfig
  {
  }

  /** A caller who supplies every key overrides every default. */
  lemma MergeOfEverythingIsIt(c: Config)
    ensures Merge(Some(Supplying(c))) == c
  {
  }

  /** A flag counts when it is `true`; `undefined` is falsy. */
  predicate Enabled(flag: Option<bool>)
  {
    flag == Some(true)
  }

  /** An explicitly `undefined` `delete/enabled` turns deletion off rather than falling back to the default. */
  lemma UndefinedOverridesDefault()
    ensures !Enabled(Merge(Some(NoKeys.(deleteEnabled := Undefined))).deleteEnabled)
    ensures Enabled(Merge(Some(NoKeys)).deleteEnabled)
  {
  }

}
