/**
 * The keyboard shortcut dispatcher, `onKeyDown`.  The key, lower-cased, is
 * matched by strict equality against the case labels in order, so the first
 * matching case wins:
 * `backspace`, `delete`, then the five configured letters.  The key may be
 * absent (`event.key?` is then `undefined`), and so may a configured letter,
 * and `undefined === undefined` matches.
 */
module Keyboard {
  import opened Wrappers
  import opened Scene
  import opened EventConfig

  datatype KeyEvent = KeyEvent(key: Option<string>, ctrlKey: bool, metaKey: bool, shiftKey: bool)

  /** `toLowerCase`, on the ASCII letters. */
  function LowerChar(c: char): (r: char)
    ensures 'A' <= c <= 'Z' ==> 'a' <= r <= 'z' && r as int == c as int + 32
    ensures !('A' <= c <= 'Z') ==> r == c
  {
    if 'A' <= c <= 'Z' then (c as int - 'A' as int + 'a' as int) as char else c
  }

  function LowerCase(s: string): (r: string)
    ensures |r| == |s|
    ensures forall i :: 0 <= i < |s| ==> r[i] == LowerChar(s[i])
  {
    if s == [] then [] else [LowerChar(s[0])] + LowerCase(s[1..])
  }

  /** Lower-casing twice is lower-casing once. */
  lemma LowerCaseIdempotent(s: string)
    ensures LowerCase(LowerCase(s)) == LowerCase(s)
  {
    var once := LowerCase(s);
    assert forall i :: 0 <= i < |once| ==> LowerChar(once[i]) == once[i];
  }

  /** The value switched on: `event.key?.toLowerCase()`. */
  function SwitchValue(e: KeyEvent): (v: Option<string>)
    ensures v.None? <==> e.key.None?
    ensures v.Some? ==> |v.value| == |e.key.value|
    ensures v.Some? ==> forall i :: 0 <= i < |v.value| ==> v.value[i] == LowerChar(e.key.value[i])
  {
    match e.key
    case None => None
    case Some(k) => Some(LowerCase(k))
  }

  /** The label of a configured letter: the one-letter string, or `undefined`. */
  function Label(k: Option<Key>): (l: Option<string>)
    ensures k.None? <==> l.None?
  {
    match k
    case None => None
    case Some(c) => Some([c])
  }

  /** The case labels, in the order they are written. */
  function Labels(config: Config): (ls: seq<Option<string>>)
    ensures |ls| == 7
    ensures ls[BackspaceCase] == Some("backspace") && ls[DeleteCase] == Some("delete")
    ensures ls[TranslateCase] == Label(config.translate) && ls[RotateCase] == Label(config.rotate)
    ensures ls[ScaleCase] == Label(config.scale) && ls[UndoCase] == Label(config.undo)
    ensures ls[FocusCase] == Label(config.focus)
  {
    [Some("backspace"), Some("delete"), Label(config.translate), Label(config.rotate),
     Label(config.scale), Label(config.undo), Label(config.focus)]
  }

  const BackspaceCase := 0
  const DeleteCase := 1
  const TranslateCase := 2
  const RotateCase := 3
  const ScaleCase := 4
  const UndoCase := 5
  const FocusCase := 6

  /** The case a `switch` runs: the first label equal to the value, or `|labels|` for `default`. */
  function FirstMatch(value: Option<string>, labels: seq<Option<string>>): (i: nat)
    ensures i <= |labels|
    ensures i < |labels| ==> labels[i] == value
    ensures forall j :: 0 <= j < i ==> labels[j] != value
    ensures i == |labels| <==> value !in labels
  {
    if labels == [] then 0
    else if labels[0] == value then 0
    else 1 + FirstMatch(value, labels[1..])
  }

  datatype KeyAction =
    | NoAction
    | RemoveNode(node: NodeId)
    | SetMode(mode: string)
    | UndoStep
    | RedoStep
    | FocusNode(node: NodeId)

  /** What the listener does, and whether it called `preventDefault`. */
  datatype KeyOutcome = KeyOutcome(action: KeyAction, preventDefault: bool)

  /** The platform's primary modifier: command on a Mac, control elsewhere. */
  function PrimaryModifier(e: KeyEvent, isMac: bool): (b: bool)
    ensures isMac ==> (b <==> e.metaKey)
    ensures !isMac ==> (b <==> e.ctrlKey)
  {
    if isMac then e.metaKey else e.ctrlKey
  }

  /** `removeSelected`, when deletion is enabled. */
  function Deletion(config: Config, selected: Option<NodeId>): (a: KeyAction)
    ensures a != NoAction <==> Enabled(config.deleteEnabled) && selected.Some?
    ensures a != NoAction ==> a == RemoveNode(selected.value)
  {
    if Enabled(config.deleteEnabled) && selected.Some? then RemoveNode(selected.value) else NoAction
  }

  /** `onKeyDown(event)` with the merged configuration and the current selection. */
  function OnKeyDown(config: Config, e: KeyEvent, isMac: bool, selected: Option<NodeId>): (o: KeyOutcome)
    ensures o.preventDefault <==> o.action in {UndoStep, RedoStep}
  {
    var c := FirstMatch(SwitchValue(e), Labels(config));
    if c == BackspaceCase || c == DeleteCase then KeyOutcome(Deletion(config, selected), false)
    else if c == TranslateCase then KeyOutcome(SetMode("translate"), false)
    else if c == RotateCase then KeyOutcome(SetMode("rotate"), false)
    else if c == ScaleCase then KeyOutcome(SetMode("scale"), false)
    else if c == UndoCase then
      if !PrimaryModifier(e, isMac) then KeyOutcome(NoAction, false)
      else if e.shiftKey then KeyOutcome(RedoStep, true)
      else KeyOutcome(UndoStep, true)
    else if c == FocusCase then
      if selected.Some? then KeyOutcome(FocusNode(selected.value), false) else KeyOutcome(NoAction, false)
    else KeyOutcome(NoAction, false)
  }

  /** The configured letter as a key event would carry it. */
  predicate Pressed(e: KeyEvent, k: Option<Key>)
  {
    k.Some? && SwitchValue(e) == Some([k.value])
  }

  /** Backspace and Delete, in any case, remove the selection exactly when deletion is enabled and something is selected. */
  lemma DeleteKeys(config: Config, e: KeyEvent, isMac: bool, selected: Option<NodeId>)
    requires SwitchValue(e) in {Some("backspace"), Some("delete")}
    ensures var o := OnKeyDown(config, e, isMac, selected);
      && !o.preventDefault
      && (o.action != NoAction <==> Enabled(config.deleteEnabled) && selected.Some?)
      && (o.action != NoAction ==> o.action == RemoveNode(selected.value))
  {
    var labels := Labels(config);
    var v := SwitchValue(e);
    assert labels[0] == Some("backspace") && labels[1] == Some("delete");
    assert v == labels[0] || v == labels[1];
    assert FirstMatch(v, labels) <= 1;
  }

  /**
   * The undo letter, when no earlier case claims it, acts only with the
   * primary modifier; it then suppresses the browser's default, and shift
   * chooses redo over undo.
   */
  lemma UndoKey(config: Config, e: KeyEvent, isMac: bool, selected: Option<NodeId>)
    requires Pressed(e, config.undo)
    requires config.undo != config.translate && config.undo != config.rotate && config.undo != config.scale
    ensures var o := OnKeyDown(config, e, isMac, selected);
      && (!PrimaryModifier(e, isMac) ==> o == KeyOutcome(NoAction, false))
      && (PrimaryModifier(e, isMac) ==> o.preventDefault && o.action == (if e.shiftKey then RedoStep else UndoStep))
  {
    var labels := Labels(config);
    var v := SwitchValue(e);
    assert labels[UndoCase] == v;
    assert FirstMatch(v, labels) == UndoCase by {
      assert |v.value| == 1;
      assert labels[0] != v && labels[1] != v;
      LabelInjective(config.undo, config.translate);
      LabelInjective(config.undo, config.rotate);
      LabelInjective(config.undo, config.scale);
    }
  }

  /** The focus letter, when no earlier case claims it, focuses the selection, and does nothing without one. */
  lemma FocusKey(config: Config, e: KeyEvent, isMac: bool, selected: Option<NodeId>)
    requires Pressed(e, config.focus)
    requires config.focus !in {config.translate, config.rotate, config.scale, config.undo}
    ensures OnKeyDown(config, e, isMac, selected) ==
      KeyOutcome(if selected.Some? then FocusNode(selected.value) else NoAction, false)
  {
    var labels := Labels(config);
    var v := SwitchValue(e);
    assert labels[FocusCase] == v;
    assert FirstMatch(v, labels) == FocusCase by {
      assert |v.value| == 1;
      assert labels[0] != v && labels[1] != v;
      LabelInjective(config.focus, config.translate);
      LabelInjective(config.focus, config.rotate);
      LabelInjective(config.focus, config.scale);
      LabelInjective(config.focus, config.undo);
    }
  }

  /** The translate letter always switches the gizmo to translation: its case comes first among the letters. */
  lemma TranslateKey(config: Config, e: KeyEvent, isMac: bool, selected: Option<NodeId>)
    requires Pressed(e, config.translate)
    ensures OnKeyDown(config, e, isMac, selected) == KeyOutcome(SetMode("translate"), false)
  {
    var labels := Labels(config);
    var v := SwitchValue(e);
    assert labels[TranslateCase] == v;
    assert FirstMatch(v, labels) == TranslateCase by {
      assert |v.value| == 1;
      assert labels[0] != v && labels[1] != v;
    }
  }

  /** The rotate letter, when it is not also the translate letter, switches the gizmo to rotation. */
  lemma RotateKey(config: Config, e: KeyEvent, isMac: bool, selected: Option<NodeId>)
    requires Pressed(e, config.rotate) && config.rotate != config.translate
    ensures OnKeyDown(config, e, isMac, selected) == KeyOutcome(SetMode("rotate"), false)
  {
    var labels := Labels(config);
    var v := SwitchValue(e);
    assert labels[RotateCase] == v;
    assert FirstMatch(v, labels) == RotateCase by {
      assert |v.value| == 1;
      assert labels[0] != v && labels[1] != v;
      LabelInjective(config.rotate, config.translate);
    }
  }

  /** The scale letter, when no earlier letter shares it, switches the gizmo to scaling. */
  lemma ScaleKey(config: Config, e: KeyEvent, isMac: bool, selected: Option<NodeId>)
    requires Pressed(e, config.scale) && config.scale !in {config.translate, config.rotate}
    ensures OnKeyDown(config, e, isMac, selected) == KeyOutcome(SetMode("scale"), false)
  {
    var labels := Labels(config);
    var v := SwitchValue(e);
    assert labels[ScaleCase] == v;
    assert FirstMatch(v, labels) == ScaleCase by {
      assert |v.value| == 1;
      assert labels[0] != v && labels[1] != v;
      LabelInjective(config.scale, config.translate);
      LabelInjective(config.scale, config.rotate);
    }
  }

  /** A key that matches no case label runs `default`, which does nothing. */
  lemma UnboundKey(config: Config, e: KeyEvent, isMac: bool, selected: Option<NodeId>)
    requires SwitchValue(e) !in Labels(config)
    ensures OnKeyDown(config, e, isMac, selected) == KeyOutcome(NoAction, false)
  {
  }

  lemma LabelInjective(a: Option<Key>, b: Option<Key>)
    requires a != b
    ensures Label(a) != Label(b)
  {
    if a.Some? && b.Some? {
      assert Label(a).value[0] == a.value;
    }
  }

  /**
   * Two shortcuts configured with the same letter: the earlier case wins, so
   * the undo shortcut on the translate letter only ever changes the mode.
   */
  lemma SharedLetterGoesToFirstCase(config: Config, e: KeyEvent, isMac: bool, selected: Option<NodeId>)
    requires Pressed(e, config.translate) && config.undo == config.translate
    ensures OnKeyDown(config, e, isMac, selected) == KeyOutcome(SetMode("translate"), false)
  {
    var labels := Labels(config);
    var v := SwitchValue(e);
    assert labels[TranslateCase] == v;
    assert |v.value| == 1;
    assert labels[0] != v && labels[1] != v;
  }

  /** A key the event does not name matches a shortcut left `undefined` by the configuration. */
  lemma MissingKeyMatchesUndefinedShortcut(config: Config, e: KeyEvent, isMac: bool, selected: Option<NodeId>)
    requires e.key.None? && config.translate.None?
    ensures OnKeyDown(config, e, isMac, selected) == KeyOutcome(SetMode("translate"), false)
  {
    assert Labels(config)[TranslateCase] == None;
  }

  /** With the defaults, shift and the primary modifier on Z redo, whatever the case of the letter. */
  lemma DefaultRedo(isMac: bool, selected: Option<NodeId>)
    ensures OnKeyDown(DefaultConfig, KeyEvent(Some("Z"), !isMac, isMac, true), isMac, selected) == KeyOutcome(RedoStep, true)
  {
    var e := KeyEvent(Some("Z"), !isMac, isMac, true);
    assert LowerCase("Z") == "z";
    assert SwitchValue(e) == Some("z");
    UndoKey(DefaultConfig, e, isMac, selected);
  }

}
