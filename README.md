# Pathy path editor: a verified model

Pathy is a Bézier path editor for robot autonomous routines. This project models its
editing core in Dafny and proves properties of that model:

- **Bézier anchors** (`bezier.dfy`, module `Bezier`, from `src/bezier.rs`). A `BezPoint`
  has a centre and two control points. They are held as plain fields of a class and updated
  in place by `draw`. `draw` runs two steps:
  - the constraint step. A held centre drags both control points rigidly. On an unbroken
    anchor a held control point mirrors the other one, and then `cp2 = 2·pos − cp1` is
    re-asserted.
  - the three-way nearest-handle hover test. Ties go to the centre, then `cp1`, then `cp2`.

  The module also has the cubic `interpolate` and the two conversions to and from the
  persisted `SavePoint`.
- **Code generation** (`generate.dfy`, module `Generate`, from `src/generate.rs`). It turns a
  path into a `wolf.solve({...}, step)` call with one four-point segment per adjacent pair.
  The text is built by a loop that appends as it goes.
- **The stand-alone selectable point** (`point.dfy`, module `SelectablePoint`, from
  `src/point.rs`). It covers offset, screen transform, the hover update against `RADIUS²`
  and the drawn radius.
- **The older polyline designer** (`gui.dfy`, module `Gui`, from `src/gui.rs`). Its pieces
  are:
  - the nearest-point fold, with Manhattan distance, a strict comparison and a start at
    `f32::MAX`;
  - the Create, Delete and Trim clicks;
  - the Edit-mode drag;
  - the button row.
- **The current editor** (`app.dfy`, module `App`, from `src/app.rs`). Its pieces are:
  - the mode-label toggle loop;
  - the drawing loop. Once an anchor reports a hover, the anchors after it get no pointer.
  - the Create click. It checks the bounds, converts to field inches and appends a new
    anchor.
- `geometry.dfy` (module `Geometry`) holds egui's `Pos2` and `Rect`, `Option`, the squared
  distance and the field-to-screen transform. `modes.dfy` (module `CursorModes`) holds the
  cursor modes.

Coordinates are exact reals. Identifiers (`Uuid::new_v4()`) are `int` parameters.
Number formatting comes in as parameters: `fmt3` stands for `{:.3}` and `display` for `{}`.

Each imperative operation is a method proved against a pure specification function of the
old state: `Value()` abstracts a class's fields. The properties are then proved about
those functions.

The Create click (`src/app.rs:229-248`):
- It does not skip clicks on an existing handle.
- It puts `cp1` at (+20, +10) and `cp2` at (0, +20) from the centre.
- `CreatedFirstConstraint` shows that the first constraint step then moves `cp2` to
  (x−20, y−10).

`src/app.rs:36-41` declares only four cursor modes. `src/gui.rs` also uses Trim;
`src/bezier.rs` and `src/point.rs` also use Trim and Insert. `CursorMode` is the union of all
six. The designer of `src/gui.rs` has no click handler for Insert, so Insert is treated
there as a mode that ignores clicks.

## Model

| member | source | states |
|---|---|---|
| Geometry.ScreenOfOffset | src/bezier.rs:91-98 | offsetting a point by (dx, dy) moves its screen image by (dx·ratio, dy·ratio) |
| Bezier.NewHandle | src/bezier.rs:80-89 | `Point::new` keeps the given coordinates and clears `selected`, `locked` and `editing` |
| Bezier.Handle.Offset | src/bezier.rs:91-94 | `offset` adds dx and dy to the coordinates and keeps every flag |
| Bezier.ScreenDeterminesPoint | src/bezier.rs:96-98 | `Point::screen` (`Handle.Screen`) is `(x·ratio + origin.x, y·ratio + origin.y)`; at a non-zero ratio two points drawn at the same screen position have the same coordinates |
| Bezier.Constrain | src/bezier.rs:211-232 | the constraint step keeps the centre, id, animation and cusp flag, and the flags of both control points; an unbroken anchor ends mirrored (`cp2 = 2·pos − cp1`) |
| Bezier.ConstrainMoves | src/bezier.rs:211-232 | held centre: `cp1` (and on a broken anchor `cp2`) is translated by `pos − prev`, and `prev := pos`; unheld centre: `prev` is kept; broken and unheld: nothing changes; unbroken with only `cp2` held: `cp1 := 2·pos − cp2` and `cp2` is kept; otherwise `cp1` is kept |
| Bezier.DragMovesRigidly | src/bezier.rs:211-232 | dragging the centre of an anchor mirrored through `prev` translates `cp2` too: the closing correction agrees with the translation |
| Bezier.NearestIsFirstSmallest | src/bezier.rs:265-272 | the distance fold (`Nearest`) returns the least of the three distances, with the centre winning ties, then `cp1`; `cp2` wins only when strictly nearest |
| Bezier.Hit | src/bezier.rs:247-279 | no pointer means no hit; with a pointer, a hit iff the least squared screen distance is `< 5²`, the hit handle has the least distance, and ties go to the centre, then `cp1`, then `cp2` |
| Bezier.PointerOnCentreHitsCentre | src/bezier.rs:247-279 | a pointer exactly on the centre's screen position hits the centre, wherever the control points are |
| Bezier.MarkHover | src/bezier.rs:248-279 | after the hover update at most one `selected` flag is set; the flagged handle is exactly the hit one; nothing but `selected` changes |
| Bezier.DrawStep | src/bezier.rs:211-279 | one `draw` call keeps the at-most-one-flag property; the flagged handle is the hit of the constrained anchor; no pointer means no flag; an unbroken anchor ends mirrored |
| Bezier.NewAnchor | src/bezier.rs:157-167 | `BezPoint::new` is unbroken and not animated, with `prev == pos`, control points at the given coordinates and every flag clear |
| Bezier.FromSave | src/bezier.rs:120-145 | loading a saved point and saving it again gives the same record back; the loaded anchor is animated, has `prev == pos` and has every flag clear |
| Bezier.ToSave | src/bezier.rs:107-118 | the saved record carries the coordinates of the centre and both control points, the id and the cusp flag |
| Bezier.SaveIgnoresSessionState | src/bezier.rs:107-118 | two anchors that agree on geometry, id and cusp flag save to the same record: interaction flags, animation and `prev` are never persisted |
| Bezier.SaveLoadRoundTrip | src/bezier.rs:107-145 | saving then loading keeps the three points' coordinates, the id and the cusp flag, and resets animation, `prev` and the flags |
| Bezier.Interpolate | src/bezier.rs:358-368 | `interpolate(a, b, 0)` is `a.pos`, `interpolate(a, b, 1)` is `b.pos`, and the result has no flag set |
| Bezier.CubicIsDeCasteljau | src/bezier.rs:358-368 | the Bernstein polynomial `interpolate` evaluates is De Casteljau's repeated linear interpolation |
| Bezier.InterpolateUsesInnerControls | src/bezier.rs:358-368 | the segment depends only on `a.pos`, `a.cp2`, `b.cp1` and `b.pos` |
| Bezier.BezPoint.constructor | src/bezier.rs:157-167 | the new object holds `NewAnchor` of the arguments |
| Bezier.BezPoint.Load | src/bezier.rs:120-145 | the loaded object holds `FromSave` of the record |
| Bezier.BezPoint.Draw | src/bezier.rs:193-353 | the object's new value is `DrawStep` of its old value; the returned handle is the hit of the constrained anchor |
| Bezier.BezPoint.KeepInLine | src/bezier.rs:211-232 | the field updates compute `Constrain` of the old value |
| Bezier.BezPoint.FollowHeldPoint | src/bezier.rs:211-226 | the first branch chain moves the control points as the held point requires |
| Bezier.BezPoint.EnsureInLine | src/bezier.rs:228-232 | an unbroken anchor's `cp2` becomes the reflection of `cp1`; a broken one is untouched |
| Bezier.BezPoint.UpdateHover | src/bezier.rs:247-279 | clearing the flags, folding over the distances and flagging the winner computes `Hit`, and the new value is `MarkHover` of the old one |
| Generate.Segments | src/generate.rs:9-25 | n ≥ 1 anchors give n − 1 segments; segment i lists `path[i].pos`, `path[i].cp2`, `path[i+1].cp1`, `path[i+1].pos` in that order |
| Generate.JoinLength | src/generate.rs:26-28 | joining k ≥ 1 parts adds exactly k − 1 separators to their lengths |
| Generate.Program | src/generate.rs:4-31 | the text is the empty form `std::vector<wolflib::Moment> = wolf.solve({}, step);` exactly when the path has fewer than two anchors |
| Generate.HeaderIsNotEmptyForm | src/generate.rs:6-8 | a text that starts with the long-path header `wolf.solve({` plus a line break is never the empty form |
| Generate.ProgramFrame | src/generate.rs:5-30 | fewer than two anchors give exactly `std::vector<wolflib::Moment> = wolf.solve({}, step);`; otherwise the text starts with the `wolf.solve({` header and ends with `}, step);` |
| Generate.Generate | src/generate.rs:4-32 | the loop that appends each segment, with `",\n"` after every segment but the last, returns the text of the path |
| Generate.ProgramLength | src/generate.rs:8-30 | for n ≥ 2 anchors the text's length is the header, the segments, n − 2 separators and the closing |
| Generate.TwoAnchorProgram | src/generate.rs:8-30 | two anchors give the header, their one segment and the closing, with no separator |
| Generate.ProgramReadsOnlyGeometry | src/generate.rs:10-23 | the text depends only on the coordinates of the three points of each anchor (and on `step`); ids, cusp flags and interaction flags do not matter |
| SelectablePoint.HoverFlag | src/point.rs:111-118 | with a pointer, `selected` becomes whether the squared screen distance is `< 5²`; without one, it is unchanged |
| SelectablePoint.HoverFlagNearAndFar | src/point.rs:111-118 | a pointer on the point selects it; a pointer at least 5 away horizontally does not |
| SelectablePoint.Point.constructor | src/point.rs:51-60 | `Point::new` keeps the coordinates and clears `selected`, `locked` and `animated` |
| SelectablePoint.Point.Offset | src/point.rs:62-65 | the coordinates move by (dx, dy) and nothing else changes |
| SelectablePoint.Point.Screen | src/point.rs:67-69 | the screen position is `(x·ratio + origin.x, y·ratio + origin.y)` |
| SelectablePoint.Point.ScreenClone | src/point.rs:72-81 | a fresh point at the screen position with the same flags and id |
| SelectablePoint.Point.Draw | src/point.rs:96-144 | `selected` is updated as `HoverFlag` says, and the result is the updated flag |
| SelectablePoint.Point.GetRadius | src/point.rs:146-153 | the radius is 8 exactly when hovered or locked, and 5 exactly otherwise |
| Gui.FieldOf | src/gui.rs:273-276 | the stored position is the pointer relative to the rectangle's corner, and drawing it at the corner gives the pointer back |
| Gui.NearestIndex | src/gui.rs:238-255 | no index iff every point is at least `f32::MAX` away; otherwise the index has the least |dx|+|dy| screen distance, every earlier point is strictly farther (first index wins), and it also yields that point's screen position |
| Gui.FirstNearestUnique | src/gui.rs:238-255 | the first-nearest index is unique |
| Gui.ClickPath | src/gui.rs:266-291 | Default and Edit clicks keep the path; Create appends `pointer − rect.min` after the unchanged old points; Delete at i keeps the order and drops exactly element i; Trim at i leaves the prefix `path[..i]`; no index means no effect |
| Gui.DeleteUndoesCreate | src/gui.rs:271-284 | deleting the point a Create click just appended restores the path |
| Gui.TrimTwice | src/gui.rs:285-289 | trimming at i and then at an earlier k equals trimming at k |
| Gui.DragEffect | src/gui.rs:293-311 | outside Edit mode or on an empty path nothing changes; otherwise a drag start re-binds `selected` only when there is an index; a drag replaces only `path[selected]` with `pointer − rect.min`; an out-of-range `selected` is reported |
| Gui.DragFromSelectionInRange | src/gui.rs:295-311 | a drag starting on an index of this frame's fold never indexes out of range |
| Gui.DragIdempotent | src/gui.rs:304-311 | a second drag frame at the same pointer changes nothing more |
| Gui.Press | src/gui.rs:103-139 | each mode button sets its mode and empties `processed`; Clear empties `path` and `processed` and sets `result` to None; Preprocess only while nothing is processed; Generate only once something is, setting `result` and mode Default; Finish sets Default; only Clear touches the path |
| Gui.PressIdempotent | src/gui.rs:103-139 | pressing any button twice is the same as pressing it once |
| Gui.ModeButtonHidesGenerate | src/gui.rs:104-136 | after a mode button, Generate has no effect until Preprocess runs again |
| Gui.PathyApp.Select | src/gui.rs:215-261 | only Edit, Delete and Trim with a pointer select; the index is the first nearest; there is one whenever any point is nearer than `f32::MAX` |
| Gui.PathyApp.Click | src/gui.rs:266-291 | the path becomes `ClickPath` of the old one and nothing else changes |
| Gui.PathyApp.Drag | src/gui.rs:293-311 | the new state is `DragEffect` of the old, or the out-of-range case is reported with the path unchanged |
| Gui.PathyApp.PressButton | src/gui.rs:103-139 | the new state is `Press` of the old |
| App.Toggle | src/app.rs:129-135 | clicking another mode's label switches to it; clicking the current mode's label returns to Default |
| App.ToggleAll | src/app.rs:125-136 | after the label loop the mode is the old one, Default, or the mode of a clicked label |
| App.ToggleNone | src/app.rs:125-136 | a frame with no label clicked keeps the mode |
| App.ToggleOne | src/app.rs:125-136 | a frame in which one label is clicked toggles exactly that label |
| App.DoubleClickReturnsToDefault | src/app.rs:124-136 | clicking a label twice from Default turns its mode on, then back to Default |
| App.ClaimedIff | src/app.rs:215-227 | the loop's `selected` flag is set iff some anchor, after its constraint step, is hit by the pointer |
| App.DrawAll | src/app.rs:214-227 | each anchor is drawn once, with the pointer exactly when no earlier anchor has taken it |
| App.DrawAllKeepsInvariants | src/app.rs:214-227 | after the loop every unbroken anchor is mirrored and each anchor has at most one flagged handle |
| App.HoverGoesToFirstHit | src/app.rs:215-227 | an anchor is flagged iff it is hit and no earlier anchor is; it is flagged with its own hit handle |
| App.AtMostOneHovered | src/app.rs:215-227 | at most one anchor per frame is hovered |
| App.HoveredIffHit | src/app.rs:215-227 | some anchor is hovered iff the pointer hits some anchor |
| App.InBounds | src/app.rs:234-241 | a pointer is accepted iff it lies in the closed rectangle: strictly outside is rejected, the boundary is accepted |
| App.ToField | src/app.rs:243-244 | with a non-negative field size, a pointer inside the field maps to field coordinates between 0 and the field's width and height in inches |
| App.Created | src/app.rs:242-247 | the new anchor's centre is `(pointer − rect.min)·(size/scale)`, with `cp1` at (+20, +10) and `cp2` at (0, +20) from it, unbroken, not animated, flags clear |
| App.CreatedUnderPointer | src/app.rs:220-244 | drawn with the loop's ratio `scale/size`, the new centre lands exactly under the pointer |
| App.CreatedFirstConstraint | src/app.rs:246-247 | the new anchor is not mirrored; its first constraint step moves only `cp2`, to (−20, −10) from the centre |
| App.PathyApp.constructor | src/app.rs:61-72 | the defaults: size 140.5, scale 720, mode Default, no points |
| App.PathyApp.ClickModeLabels | src/app.rs:118-136 | the loop over the Create, Edit and Delete labels computes `ToggleAll` of the old mode |
| App.PathyApp.PressGenerate | src/app.rs:138-141 | Generate sets the mode to Default |
| App.PathyApp.Clear | src/app.rs:142-144 | Clear empties the points |
| App.PathyApp.DrawPoints | src/app.rs:214-227 | the anchors held by the points after the loop are `DrawAll` of those before |
| App.PathyApp.DrawNext | src/app.rs:216-226 | one round draws anchor i with the pointer unless it is taken, and keeps the `selected` flag equal to `Claimed` of the anchors visited so far |
| App.PathyApp.Click | src/app.rs:229-249 | in Create mode, a pointer inside the field appends one fresh anchor, `Created` from the pointer, after the unchanged old points; otherwise the points are unchanged |

## Left out

- Rendering is not modelled. That covers egui and eframe painting, panels, labels,
  hyperlinks, tooltips, colours, `animate_bool` radius easing and `make_persistent_id`. These
  are foreign UI library calls with no effect on the model's state.
- The `mode` parameter of both `draw` methods is dropped, because only rendering reads it.
- The control-line trim offsets in `BezPoint::draw` (src/bezier.rs:319-330) are left out.
  They divide by square-root magnitudes that may be zero, which is floating-point work with
  no effect on state.
- `point::interpolate` (src/point.rs:162-171) is left out for the same reason: it uses
  `normalized()`, a square root and a division.
- `{:.3}` formatting and `Display` of `step` are parameters (`fmt3`, `display`), not
  definitions. `Display for Point` (src/point.rs:156-160) is not modelled.
- Persistence is left out: `eframe::set_value` and `get_value`, serde, and
  `PathyApp::new` loading from storage are I/O. Only the `SavePoint` mapping is modelled.
- Dropped-image loading into `overlay` is left out. It is file I/O plus image decoding.
- `BezPoint::load` and the `Weak` parent pointers are left out. They are shared-ownership
  plumbing. Each anchor owns its three points as plain fields, and a new anchor is a fresh
  object.
- The `console_log` externs are left out. They are foreign calls with no effect on state.
- `Self::preprocess` and `Self::generate` (src/gui.rs:128, 134) are not part of this model.
  Their results are the `preprocessed` and `code` parameters of `Gui.Press`.
- The calls in `src/app.rs:217-226` do not match `BezPoint::draw`: five arguments are passed
  to a six-parameter function, and an `Option` is assigned to a `bool`. The model implements
  the intended behaviour: the loop's flag becomes "`draw` reported a hovered handle".
- The push at `src/app.rs:246-247` does not type-check: `BezPoint::new` returns an
  `Rc<RefCell<BezPoint>>` (src/bezier.rs:157), and `points` is a `Vec<BezPoint>`
  (src/app.rs:58). The model appends the new anchor itself, as a fresh object.
- App.PathyApp.DrawPoints: requires `size != 0`. With `size == 0` the source divides to
  f32 infinity, which exact reals cannot express.
- App.PathyApp.DrawPoints: requires the points to be distinct objects.
  - This is how Rust's `Vec<BezPoint>` ownership appears in a heap model.
- App.PathyApp.Click: requires `scale > 0`, for the same reason as the `size != 0`
  precondition.
- App.ToField: requires `scale > 0`, for the same reason.
- App.Created: requires `scale > 0`, for the same reason.
- App.PathyApp.Click: `scale` is a `nat`, so the 32-bit width of `u32` is not modelled.
  Only its conversion to a real is used.
- f32 rounding is not modelled.
  - `Bezier.Hit`, `SelectablePoint.HoverFlag` and `Gui.NearestIndex` compare exact distances.
  - `Generate.Generate` uses exact coordinates, and strings are `seq<char>`.
  - The `f32::MAX` start of the fold is the exact value.
  - No distance is infinite or NaN.
- Gui.DragEffect: the out-of-range `path[*selected]` panic is modelled as an `OutOfBounds`
  outcome, not as the program aborting.
- The gui size settings and their lock while a path exists (src/gui.rs:54-70) are left out.
  They are the widgets that edit `height`, `width` and `scale`, which no modelled operation
  changes.
- The app's field-size widget (src/app.rs:106-116) is left out. It disables `size` while
  `points` is non-empty and leaves `scale` editable. No modelled operation changes `size`
  or `scale`.
- Gui.PathyApp.Click, Gui.PathyApp.Drag and Gui.PathyApp.Select take the frame's inputs as
  parameters: the pointer position, the click, drag start and drag flags, and the selected
  index. The click and drag handlers run only when egui reports the click or drag.
