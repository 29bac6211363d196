# building-editor-react: the interaction layer, modelled in Dafny

building-editor-react wraps the `building-editor` 3D editor in React hooks.
This project models the part of it that turns raw browser input into
editor changes, and proves what those decisions guarantee:

- the configuration merge of `useEvents`;
- pointer normalisation against the canvas, and the mapping to normalised device coordinates;
- the ancestor-aware visibility test and the candidate list a click casts against;
- click-versus-drag discrimination and what a click selects;
- hover and double-click resolution;
- the transform gizmo's press/release listener;
- the keyboard shortcut dispatcher;
- the context-menu listener and the context-menu component (open predicate, close transition, placement, outside click);
- the drop and drag-over handlers;
- the editor actions of `useActions`: the material reference counter, slot-wise material get/set, `addObject`, `removeObject`, `select`, `setHovered`, `clipGlobal` and `setSceneSize`;
- the `throttle` gate with its module-level flag.

The editor is the class `EditorModel.Editor`. Its fields are:

- the scene graph and `editor.objects`;
- the selected and hovered nodes;
- whether the orbit controls are enabled;
- the transform gizmo's mode and the editor's mouse;
- the context-menu record;
- the material registries, the plane helper and the camera;
- a log of every call into the `building-editor` package;
- a counter of `setEditor` change notifications.

Every method states its whole new state with `State()`, so "nothing else changes" is part of each contract.

Scene nodes are ids. Each node has:

- a visible flag and a mesh flag;
- a parent link, made acyclic by a depth that decreases towards the root;
- `userData.object`, which is undefined, `null` or a reference.

The ray caster is foreign code. Each handler that casts a ray is given every hit of that ray, nearest first. `intersectObjects(objects)` is that list filtered to the given objects.

Some JavaScript semantics are modelled because they change outcomes:

- Object spread: a key given as `undefined` overrides the default with `undefined`.
- Truthiness: a coordinate, constant, size, width or height of 0 counts as absent.
- Strict equality in `switch`: an absent key matches a shortcut configured as `undefined`, and the first matching case wins.
- `null !== undefined`: a hit whose `userData.object` is `null` selects nothing.

The source's comparison `distanceTo(...) < 1e-3` is modelled as the squared distance against `1e-6`. `Pointer.ClickThresholdIsDistance` proves that the two decide the same.

Files, one module each:

- `wrappers.dfy`: `Option` and number truthiness.
- `vectors.dfy`: the three.js value records.
- `scene.dfy`: nodes, ancestry, visibility and hit lists.
- `pointer.dfy`: pointer samples and the click threshold.
- `config.dfy`: the event configuration and its merge.
- `materials.dfy`: mesh materials.
- `clip.dfy`: the clipping plane helper.
- `editor.dfy`: the editor and the `useActions` actions.
- `context_menu.dfy`: the context-menu component.
- `throttle.dfy`: the throttle gate.
- `keyboard.dfy`: the shortcut dispatcher.
- `drop.dfy`: drag and drop.
- `transform_drag.dfy`: the transform gizmo listener.
- `selection.dfy`: the click's selection.
- `events.dfy`: the listeners themselves.

## Model

| member | source | states |
|---|---|---|
| Wrappers.Truthy | src/hooks/useActions.ts:190 | a number is truthy exactly when it is defined and not 0 |
| EventConfig.Spread | src/hooks/useEvents.ts:481-486 | a key the caller leaves out keeps its default, a key given as `undefined` becomes `undefined`, a given value wins |
| EventConfig.Merge | src/hooks/useEvents.ts:480-486 | no configuration gives the defaults; otherwise every key resolves as the spread `{...defaultConfig, ...config}` does, against the defaults t, r, s, z, f, true, true |
| EventConfig.MergeOfNothingIsDefault | src/hooks/useEvents.ts:30-38 | omitting the configuration or every key of it gives exactly `defaultConfig` |
| EventConfig.MergeOfEverythingIsIt | src/hooks/useEvents.ts:481-486 | a caller supplying every key overrides every default |
| EventConfig.UndefinedOverridesDefault | src/hooks/useEvents.ts:481-486 | `delete/enabled: undefined` switches deletion off instead of falling back to `true` |
| Pointer.MousePosition | src/hooks/useEvents.ts:171-174 | the sample scaled back by the canvas size and shifted by its corner is the client point, and a client point lies on the canvas exactly when its sample lies in the unit square |
| Pointer.ToNdc | src/hooks/useEvents.ts:181 | a sample is in the unit square exactly when its image is in [-1, 1]², and the y axis flips |
| Pointer.FromNdc | src/hooks/useEvents.ts:181 | the inverse mapping sends [-1, 1]² back onto the unit square |
| Pointer.NdcRoundTrip | src/hooks/useEvents.ts:181 | `FromNdc` and `ToNdc` are mutually inverse |
| Pointer.NdcOnto | src/hooks/useEvents.ts:181 | every point of [-1, 1]² is the image of exactly one sample in the unit square |
| Pointer.SquaredDistance | src/hooks/useEvents.ts:210 | the squared distance is non-negative and vanishes between a sample and itself |
| Pointer.IsClick | src/hooks/useEvents.ts:210 | a release at the press point is a click, and a click moved less than 1e-3 along each axis |
| Pointer.ClickThresholdIsDistance | src/hooks/useEvents.ts:210 | comparing squares with 1e-6 decides exactly as comparing the distance with 1e-3 |
| Scene.Ancestors | src/hooks/useEvents.ts:202-204 | the ancestor walk visits only known nodes and is empty exactly for a root |
| Scene.VisibleMeshes | src/hooks/useEvents.ts:212 | keeps exactly the nodes of the traversal that are meshes visible with all their ancestors |
| Scene.IntersectObjects | src/hooks/useEvents.ts:185 | exactly the hits of the ray on the tested objects, never more hits than the ray, and nearest first when the ray is |
| Scene.IntersectObjectsHead | src/hooks/useEvents.ts:217-221 | the first hit along the ray on a tested object is the first intersection returned |
| Selection.IsVisible | src/hooks/useEvents.ts:198-207 | the flag-flipping ancestor traversal returns true exactly when the node and every ancestor are visible |
| Selection.CollectCandidates | src/hooks/useEvents.ts:211-212 | the pushed list is the visible meshes in traversal order, and holds exactly the click candidates |
| Selection.FirstObject | src/hooks/useEvents.ts:216-221 | the loop that breaks on the first intersection yields null exactly for an empty list, and otherwise that first hit's node |
| Selection.FirstHit | src/hooks/useEvents.ts:393-398 | the hover target is the first hit's node, or null exactly when nothing is hit |
| Selection.Owner | src/hooks/useEvents.ts:223-227 | a hit with undefined `userData.object` selects itself, one with `null` selects null, and one with a back-reference selects exactly the referenced node, which is a node of the scene |
| Selection.ClickSelection | src/hooks/useEvents.ts:209-231 | `select` runs exactly when press and release are a click, and only with null or a node of the scene |
| Selection.ClickSelectsFirstCandidate | src/hooks/useEvents.ts:212-227 | a click selects the owner of the first hit that is a visible mesh reached by the traversal, passing over every earlier hit |
| Selection.ClickOnNothingClears | src/hooks/useEvents.ts:228-230 | a click whose ray meets no candidate selects null |
| Selection.FirstOnRay | src/hooks/useEvents.ts:393-396 | the first intersection returned is the first hit along the ray on a tested object |
| Selection.ClickPicksNearest | src/hooks/useEvents.ts:213-221 | on a nearest-first ray the click selects from a hit no farther than any other candidate hit |
| Selection.ClickScenario | src/hooks/useEvents.ts:209-231 | behind a nearer hidden mesh, a visible mesh whose `userData.object` names its group selects the group |
| Materials.GetObjectMaterial | src/hooks/useActions.ts:120-128 | a single material comes back whatever the slot; an array gives its entry at the slot, undefined past its end, or itself without a slot |
| Materials.Assigned | src/hooks/useActions.ts:130-136 | reading the written slot back gives the new material; a write into a non-empty array keeps its length and every other slot; otherwise, an empty array included, the whole material is replaced |
| Materials.Mesh.SetObjectMaterial | src/hooks/useActions.ts:130-136 | the mesh's material becomes the one `Assigned` describes |
| Materials.LastWriteWins | src/hooks/useActions.ts:130-136 | writing the same slot twice leaves only the second write |
| Clip.Flags | src/hooks/useActions.ts:182-184 | `enable` and `displayHelper` hold unless set to false; `negate` holds only when set to true |
| Clip.Negated | src/hooks/useActions.ts:198 | negation flips the normal and the constant |
| Clip.Configured | src/hooks/useActions.ts:187-192 | a given normal replaces the plane's; a constant replaces it only when truthy |
| Clip.ClippedHelper | src/hooks/useActions.ts:176-199 | the helper shows as `displayHelper` says, takes a truthy size, and its plane is the configured one, negated exactly when `negate` is set |
| Clip.ZeroConstantIsIgnored | src/hooks/useActions.ts:190-192 | `constant: 0` leaves the plane as it was |
| Clip.NegatingTwiceRestores | src/hooks/useActions.ts:198 | two calls asking only for negation give back the original plane |
| EditorModel.SceneSize | src/hooks/useActions.ts:54-59 | a missing or zero width or height falls back to the view size; two truthy sizes are used as given |
| EditorModel.Editor.Notify | src/hooks/useActions.ts:76 | `setEditor` counts one notification and changes nothing else |
| EditorModel.Editor.Execute | src/hooks/useActions.ts:147 | `editor.execute` appends the command to the log and nothing else |
| EditorModel.Editor.Undo | src/hooks/useEvents.ts:363 | `editor.undo` is logged and nothing else changes |
| EditorModel.Editor.Redo | src/hooks/useEvents.ts:361 | `editor.redo` is logged and nothing else changes |
| EditorModel.Editor.ChangeMode | src/hooks/useEvents.ts:349 | `editor.changeTransformMode` is logged and nothing else changes |
| EditorModel.Editor.Focus | src/hooks/useActions.ts:84-89 | `focus` logs the focus call and notifies nothing |
| EditorModel.Editor.Select | src/hooks/useActions.ts:74-77 | the selection is replaced, even by the same node, with exactly one notification; the invariant is kept |
| EditorModel.Editor.SetHovered | src/hooks/useActions.ts:79-82 | the hovered node is replaced with exactly one notification; the invariant is kept |
| EditorModel.Editor.AddObject | src/hooks/useActions.ts:146-151 | exactly one add command carrying the given parent and index, then one notification |
| EditorModel.Editor.RemoveObject | src/hooks/useActions.ts:153-160 | null changes nothing; a parentless node runs no command but notifies once; any other node is removed by exactly one command, then one notification |
| EditorModel.Editor.AddCamera | src/hooks/useActions.ts:138-144 | the camera is added through the editor, then one notification |
| EditorModel.Editor.AddMaterialToRefCounter | src/hooks/useActions.ts:103-116 | an unseen material is counted once and registered under its uuid; a seen one's count rises by exactly one with the dictionary unchanged; no other entry and no other field changes |
| EditorModel.Editor.ClipGlobal | src/hooks/useActions.ts:168-203 | without a plane helper nothing changes; otherwise the helper becomes `ClippedHelper` and clipping is switched by the defaulted `enable` |
| EditorModel.Editor.SetSceneSize | src/hooks/useActions.ts:54-64 | a perspective camera takes the aspect ratio of the size `SceneSize` chooses; nothing else changes |
| EditorModel.Editor.SetTransformControlsMode | src/hooks/useActions.ts:205-207 | only the gizmo's mode changes, with no notification |
| ContextMenu.IsOpen | src/components/ContextMenu.tsx:8 | the menu counts as open exactly when its flag is set and neither coordinate is null |
| ContextMenu.Closed | src/components/ContextMenu.tsx:10-16 | closing leaves the menu not open; an open menu becomes closed with both coordinates null, a menu not open is unchanged |
| ContextMenu.CloseIsIdempotent | src/components/ContextMenu.tsx:8-16 | a second close changes nothing |
| ContextMenu.Offset | src/components/ContextMenu.tsx:58-59 | a truthy coordinate is shifted back by the offset, a zero or null one gives 0 |
| ContextMenu.Style | src/components/ContextMenu.tsx:47-68 | the menu is shown exactly when open, at `y - 2` and `x - 4` |
| ContextMenu.OpenedAtClick | src/components/ContextMenu.tsx:58-59 | a menu opened at a click shows with the click 2 below and 4 right of its corner, or at the edge 0 for a zero coordinate |
| ContextMenu.ClosedIsHidden | src/components/ContextMenu.tsx:68 | a closed menu is hidden |
| ContextMenu.ClickOutside | src/components/ContextMenu.tsx:25-29 | the close action fires only with an element and a target, never for a target inside the element, and always for one outside it |
| ContextMenu.CloseContextMenu | src/components/ContextMenu.tsx:10-17 | an open menu closes with one notification; a menu not open is left alone without notification; afterwards it is not open |
| ThrottleGate.Initial | src/utils/throttle.ts:1 | the gate starts open with no timer pending |
| ThrottleGate.Step | src/utils/throttle.ts:3-12 | an open gate runs the callback exactly once with its arguments, shuts and schedules one timer; a shut gate drops any call unchanged; only the timer's expiry reopens it; a timer is pending exactly when the gate is shut |
| ThrottleGate.Run | src/utils/throttle.ts:1-12 | a trace keeps the invariant and only ever appends invocations |
| ThrottleGate.RunBound | src/utils/throttle.ts:1-12 | over any trace the callbacks run at most once per timer expiry, plus once when the gate starts open |
| ThrottleGate.AtMostOnceBetweenExpiries | src/utils/throttle.ts:4-11 | between two reopenings at most one callback runs, and none when the gate starts shut |
| ThrottleGate.SharedFlag | src/utils/throttle.ts:1-4 | once any callback has run, a different callback is dropped too |
| ThrottleGate.Gate.constructor | src/utils/throttle.ts:1 | the module flag starts set |
| ThrottleGate.Gate.Throttle | src/utils/throttle.ts:3-12 | the call reports whether its callback ran, which is exactly when the gate was open, and the gate moves as `Step` says |
| ThrottleGate.Gate.TimerFires | src/utils/throttle.ts:9-11 | the timer's expiry moves the gate as `Step` says |
| Keyboard.LowerChar | src/hooks/useEvents.ts:336 | each ASCII capital becomes its own small letter, 32 code points on; anything else is kept |
| Keyboard.LowerCase | src/hooks/useEvents.ts:336 | lower-casing keeps the length and maps each character |
| Keyboard.LowerCaseIdempotent | src/hooks/useEvents.ts:336 | lower-casing twice is lower-casing once |
| Keyboard.SwitchValue | src/hooks/useEvents.ts:336 | the switched value is undefined exactly when the event has no key, and otherwise the key lower-cased character by character |
| Keyboard.Label | src/hooks/useEvents.ts:348-367 | a configured letter's case label is undefined exactly when the letter is |
| Keyboard.Labels | src/hooks/useEvents.ts:337-367 | the seven case labels in source order: `backspace`, `delete`, then the translate, rotate, scale, undo and focus letters |
| Keyboard.FirstMatch | src/hooks/useEvents.ts:336-374 | the case run is the first label equal to the key, and `default` exactly when none is |
| Keyboard.Deletion | src/hooks/useEvents.ts:329-333 | deletion removes the selection exactly when `delete/enabled` holds and something is selected |
| Keyboard.PrimaryModifier | src/hooks/useEvents.ts:358 | the primary modifier is the meta key on a Mac and the control key elsewhere |
| Keyboard.OnKeyDown | src/hooks/useEvents.ts:335-375 | the default is prevented exactly when the outcome is undo or redo |
| Keyboard.DeleteKeys | src/hooks/useEvents.ts:337-347 | Backspace and Delete remove the selection exactly when deletion is enabled and something is selected, and never prevent the default |
| Keyboard.TranslateKey | src/hooks/useEvents.ts:348-350 | the translate letter switches the gizmo to translation without preventing the default |
| Keyboard.RotateKey | src/hooks/useEvents.ts:351-353 | the rotate letter, unless it is also the translate letter, switches the gizmo to rotation |
| Keyboard.ScaleKey | src/hooks/useEvents.ts:354-356 | the scale letter, unless an earlier letter shares it, switches the gizmo to scaling |
| Keyboard.UnboundKey | src/hooks/useEvents.ts:372-374 | a key matching no case label does nothing and does not prevent the default |
| Keyboard.UndoKey | src/hooks/useEvents.ts:357-366 | the undo letter acts only with the platform's primary modifier, then prevents the default, with shift choosing redo |
| Keyboard.FocusKey | src/hooks/useEvents.ts:367-371 | the focus letter focuses the selection and does nothing without one |
| Keyboard.SharedLetterGoesToFirstCase | src/hooks/useEvents.ts:348-357 | with undo configured on the translate letter, the key only changes the mode |
| Keyboard.MissingKeyMatchesUndefinedShortcut | src/hooks/useEvents.ts:336-349 | an event without a key runs the case of a shortcut configured as `undefined` |
| Keyboard.DefaultRedo | src/hooks/useEvents.ts:357-362 | with the defaults, shift and the primary modifier on a capital Z redo |
| Drop.FirstType | src/hooks/useEvents.ts:422 | `types[0]` is undefined exactly for an empty list |
| Drop.OutlinerDrag | src/hooks/useEvents.ts:422 | a drag is the outliner's exactly when its first type is `text/plain` |
| Drop.HandleDrop | src/hooks/useEvents.ts:418-430 | the default is prevented exactly when there is a payload; something loads exactly when the payload is not an outliner drag; the item list loads when present, the files otherwise |
| Drop.ExternalDropLoads | src/hooks/useEvents.ts:424-429 | a foreign payload goes to the item list loader when it has items and to the file loader otherwise |
| Drop.HandleDragOver | src/hooks/useEvents.ts:412-416 | a drag over with a payload prevents the default and sets the copy effect; without one nothing happens |
| Drop.DragOverAgreesWithDrop | src/hooks/useEvents.ts:412-420 | a drag is taken over exactly when its drop would be |
| TransformDrag.Pressed | src/hooks/useEvents.ts:121-123 | a press copies position, rotation and scale by value |
| TransformDrag.Moved | src/hooks/useEvents.ts:133-150 | only translate, rotate and scale can have moved, nothing has before any press, and in each of those modes exactly when its part's copy exists and differs from the present value |
| TransformDrag.ReleaseCommand | src/hooks/useEvents.ts:128-162 | a release issues a command exactly when an object is attached and the part its mode edits differs from its copy, of the kind matching the mode, carrying the present value as new and the copy as old |
| TransformDrag.ReleaseInPlace | src/hooks/useEvents.ts:117-162 | pressing and releasing without a change issues nothing in any mode |
| TransformDrag.TranslateDrag | src/hooks/useEvents.ts:133-138 | moving the object in translate mode issues exactly that move, from the pressed position |
| TransformDrag.TransformListener.constructor | src/hooks/useEvents.ts:97-99 | the copies start null |
| TransformDrag.TransformListener.OnMouseDown | src/hooks/useEvents.ts:117-126 | with nothing attached nothing changes; otherwise the transform is copied and the orbit controls are switched off, and nothing else changes |
| TransformDrag.TransformListener.OnMouseUp | src/hooks/useEvents.ts:128-162 | the log gains exactly the command `ReleaseCommand` gives, if any, the orbit controls are on afterwards, and nothing else changes |
| Events.GetIntersects | src/hooks/useEvents.ts:179-188 | the editor's mouse becomes the point in device coordinates and the hits on the objects are returned |
| Events.PointerSamples.constructor | src/hooks/useEvents.ts:11-13 | the three samples start at the origin and there is no hover target |
| Events.PointerSamples.OnPointerDown | src/hooks/useEvents.ts:242-245 | the press sample is the normalised client point, the other samples are kept |
| Events.PointerSamples.Click | src/hooks/useEvents.ts:209-232 | a drag changes nothing; a click selects what `ClickSelection` says with exactly one notification, and stores the release point as the editor's mouse |
| Events.PointerSamples.OnPointerUp | src/hooks/useEvents.ts:247-252 | the release sample is recorded and the click decided on the pair |
| Events.PointerSamples.OnDoubleClick | src/hooks/useEvents.ts:289-300 | the nearest hit on `editor.objects` is focused when there is one, without notification |
| Events.PointerSamples.OnMouseMove | src/hooks/useEvents.ts:387-403 | the hover target becomes the nearest hit on `editor.objects` or null, and `setHovered` runs, with one notification, only when the target changes |
| Events.PointerSamples.OnMouseMoveThrottled | src/hooks/useEvents.ts:405 | through the shared gate, which moves as `Step` says: with the gate shut nothing changes; with it open the sample and the hover target are updated and the editor's new state is the one `OnMouseMove` gives, with one notification exactly when the target changes |
| Events.OnKeyDown | src/hooks/useEvents.ts:335-375 | the editor changes exactly as the dispatcher's outcome says, and the default is prevented when it says |
| Events.OnContextMenu | src/hooks/useEvents.ts:309-319 | disabled: returns true and changes nothing; enabled: prevents the default and opens the menu at the client point with one notification |
| Events.ContextMenuOpensAndCloses | src/hooks/useEvents.ts:309-319 | by default a right click opens the menu, and closing it clears it |

## Left out

- Ray casting (`raycaster.setFromCamera`, `intersectObjects`) is foreign three.js code. Each handler is given the ray's hits, so camera projection is not modelled. Neither is the recursive descent into children.
- The building-editor package is not part of this model. That covers its command classes, undo stack, `execute`, `undo`, `redo`, `focus`, `changeTransformMode`, `clip`, `addCamera`, `select` and `setHovered`.
  - Calls into it are entries in the editor's log.
  - `select` and `setHovered` are taken to store their argument.
- Rendering is not modelled: `render`, the transform gizmo's `change` listener, the editor-controls `update` listener and the orbit-controls `change` listener.
- Renderer resizing and the device pixel ratio in `setSceneSize` are output only. The window `resize` listener only calls `setSceneSize` with no sizes.
- `useViewCubeControls` is Euler and quaternion floating-point arithmetic.
- The remaining actions only pass their arguments through to the editor or the loader: `addGeometry`, `addMaterial`, `addObjectAsHelper`, the grid and axes helper updates, `clearEditor`, the loaders, the exporters and the file-input plumbing. The item list and files a drop hands over are not loaded.
- Event registration is not modelled: `useEventListener`, the React context, the providers and the components other than the context menu.
  - The mouse-move hook's mount-time `setHovered(null)` effect is not modelled.
- Real time is replaced by the explicit timer event `TimerFires`. The 200 ms delay is recorded but not measured. The gate's callback runs in the caller.
- `IS_MAC` is read from `navigator`; here it is a parameter of the key handler.
- React closure capture is not modelled.
  - The drag listener's snapshot variables are fields of one listener object.
  - The context menu's `open` is evaluated on the current state rather than at render time.
  - The key handler reads the current selection.
- Object identity is not modelled. The plane normal is copied rather than shared, and the material array is a value.
- Pointer.MousePosition and Events.PointerSamples.OnPointerDown, OnPointerUp, OnDoubleClick, OnMouseMove and OnMouseMoveThrottled require a canvas of positive size. A zero-size canvas divides by zero in `getMousePosition`. A touch event handler is the same handler fed with the first changed touch; a touch list of length 0 is not modelled.
- Materials.Assigned and Materials.Mesh.SetObjectMaterial require that, when the material is a non-empty array and a slot is given, the slot is an index of that array. A single material, an empty array or a missing slot is not restricted. JavaScript would otherwise grow the array or set a non-index property.
- EditorModel.SceneSize and EditorModel.Editor.SetSceneSize require a view height other than zero, because the aspect ratio divides by it.
- EditorModel.Editor.Select, SetHovered and RemoveObject accept only null or a node of the scene, which is all the listeners pass.
- ThrottleGate.Step and ThrottleGate.Gate.Throttle do not model a callback that throws. In `throttle` the callback runs after `enableCall` is cleared and before `setTimeout` is called, so an exception leaves the flag cleared with no timer pending and every later call is dropped for good. The invariant `Inv`, a timer pending exactly when the gate is shut, holds only for callbacks that return.
- JavaScript numbers are modelled as `real`, without rounding. `Pointer.MousePosition`'s exact inverse and `Pointer.NdcRoundTrip` hold over the reals only. The squared test against 1e-6 can decide differently from the rounded `distanceTo < 1e-3` at the boundary.
- EditorModel.Editor.ChangeMode only logs `changeTransformMode` and leaves `mode` alone. The package forwards the mode to the transform gizmo, which `TransformListener.OnMouseUp` reads as `e.mode`; that link is not modelled, so in the model a mode key does not change what a later release reads.
- Pointer.SquaredDistance states only that the distance between a sample and itself is zero, not the converse. The click decision does not need the converse.
- Keyboard.LowerChar, Keyboard.LowerCase and Keyboard.SwitchValue lower-case ASCII only: a capital outside ASCII is kept as it is, where `toLowerCase` would lower it; `toLowerCase` on other scripts is not modelled.
- NaN is not modelled: truthiness treats every defined number other than 0 as truthy.
- The editor's initial state belongs to the building-editor package; `EditorModel.Editor`'s constructor starts from nothing selected or hovered, orbit controls on, an empty log and a closed menu.
- The debug `console.error` for an unknown transform mode is not modelled, nor the `console.warn` of `clipGlobal` without a plane helper. Both are output only.
