/** The polyline path designer of src/gui.rs: a path of plain positions in field coordinates,
    edited by clicks and drags in the current cursor mode, with the nearest-point selection
    that Edit, Delete and Trim share, and the button row that switches modes and resets the
    preprocessing. */
module Gui {
  import opened Geometry
  import opened CursorModes

  /** `f32::MAX`, the starting distance of the nearest-point fold. */
  const F32_MAX: real := 340282346638528859811704183484516925440.0

  /** A field position drawn at the top-left corner `rectMin` of the designer's rectangle. */
  function ScreenOf(p: Pos2, rectMin: Pos2): Pos2
  {
    Pos2(rectMin.x + p.x, rectMin.y + p.y)
  }

  /** A screen position relative to the rectangle's corner: the inverse of `ScreenOf`. */
  function FieldOf(p: Pos2, rectMin: Pos2): (r: Pos2)
    ensures ScreenOf(r, rectMin) == p
  {
    Pos2(p.x - rectMin.x, p.y - rectMin.y)
  }

  /** The comparison measure of the fold: |dx| + |dy| between the pointer and the drawn point. */
  function Distance(path: seq<Pos2>, i: nat, hover: Pos2, rectMin: Pos2): real
    requires i < |path|
  {
    var s := ScreenOf(path[i], rectMin);
    Abs(hover.x - s.x) + Abs(hover.y - s.y)
  }

  /** `i` is the first index of least distance, and that distance is below the fold's start. */
  ghost predicate FirstNearest(path: seq<Pos2>, hover: Pos2, rectMin: Pos2, i: nat)
  {
    && i < |path|
    && Distance(path, i, hover, rectMin) < F32_MAX
    && (forall j :: 0 <= j < i ==> Distance(path, j, hover, rectMin) > Distance(path, i, hover, rectMin))
    && (forall j :: i < j < |path| ==> Distance(path, j, hover, rectMin) >= Distance(path, i, hover, rectMin))
  }

  /** At most one index is the first nearest. */
  lemma FirstNearestUnique(path: seq<Pos2>, hover: Pos2, rectMin: Pos2, i: nat, k: nat)
    requires FirstNearest(path, hover, rectMin, i) && FirstNearest(path, hover, rectMin, k)
    ensures i == k
  {
  }

  /** The fold of the tooltip step for Edit, Delete and Trim: it starts at distance `f32::MAX`,
      moves to a point only when it is strictly nearer, and yields the selected index with the
      screen position of the point it picked (the pointer itself when it picked none). */
  method NearestIndex(path: seq<Pos2>, hover: Pos2, rectMin: Pos2) returns (slIdx: Option<nat>, nearest: Pos2)
    ensures slIdx.None? <==> forall j :: 0 <= j < |path| ==> Distance(path, j, hover, rectMin) >= F32_MAX
    ensures slIdx.None? ==> nearest == hover
    ensures slIdx.Some? ==>
      FirstNearest(path, hover, rectMin, slIdx.value) && nearest == ScreenOf(path[slIdx.value], rectMin)
  {
    var distance := F32_MAX;
    slIdx, nearest := None, hover;
    for idx := 0 to |path|
      invariant slIdx.None? ==>
        && distance == F32_MAX && nearest == hover
        && forall j :: 0 <= j < idx ==> Distance(path, j, hover, rectMin) >= F32_MAX
      invariant slIdx.Some? ==>
        && slIdx.value < idx
        && distance == Distance(path, slIdx.value, hover, rectMin) < F32_MAX
        && nearest == ScreenOf(path[slIdx.value], rectMin)
        && (forall j :: 0 <= j < slIdx.value ==> Distance(path, j, hover, rectMin) > distance)
        && (forall j :: slIdx.value < j < idx ==> Distance(path, j, hover, rectMin) >= distance)
    {
      var screenPos := ScreenOf(path[idx], rectMin);
      var dis := Abs(hover.x - screenPos.x) + Abs(hover.y - screenPos.y);
      if dis < distance {
        distance := dis;
        slIdx := Some(idx);
        nearest := screenPos;
      }
    }
  }

  /** The modes whose tooltip runs the nearest-point fold. */
  predicate Selects(mode: CursorMode)
  {
    mode == Edit || mode == Delete || mode == Trim
  }

  /** The path after a click, given this frame's selected index and the pointer. Default and
      Edit ignore clicks (Insert is not a mode of this editor and does the same); Create appends
      the pointer in field coordinates; Delete removes the selected point; Trim drops it and
      everything after it. */
  function ClickPath(path: seq<Pos2>, mode: CursorMode, slIdx: Option<nat>, pointer: Option<Pos2>,
                     rectMin: Pos2): (r: seq<Pos2>)
    requires slIdx.Some? ==> slIdx.value < |path|
    ensures mode == Default || mode == Edit || mode == Insert ==> r == path
    ensures mode == Create && pointer.None? ==> r == path
    ensures mode == Create && pointer.Some? ==>
      |r| == |path| + 1 && r[..|path|] == path && r[|path|] == FieldOf(pointer.value, rectMin)
    ensures (mode == Delete || mode == Trim) && slIdx.None? ==> r == path
    ensures mode == Delete && slIdx.Some? ==>
      && |r| == |path| - 1
      && (forall j :: 0 <= j < slIdx.value ==> r[j] == path[j])
      && (forall j :: slIdx.value <= j < |r| ==> r[j] == path[j + 1])
    ensures mode == Trim && slIdx.Some? ==> r == path[..slIdx.value]
  {
    match mode
    case Default => path
    case Edit => path
    case Insert => path
    case Create => if pointer.Some? then path + [FieldOf(pointer.value, rectMin)] else path
    case Delete => if slIdx.Some? then path[..slIdx.value] + path[slIdx.value + 1..] else path
    case Trim => if slIdx.Some? then path[..slIdx.value] else path
  }

  /** Deleting the point a Create click has just appended gives the path back. */
  lemma DeleteUndoesCreate(path: seq<Pos2>, pointer: Pos2, rectMin: Pos2)
    ensures var created := ClickPath(path, Create, None, Some(pointer), rectMin);
      ClickPath(created, Delete, Some(|path|), None, rectMin) == path
  {
    var created := ClickPath(path, Create, None, Some(pointer), rectMin);
    assert created[..|path|] == path;
  }

  /** Trimming at a point and then at an earlier one is the same as trimming at the earlier one. */
  lemma TrimTwice(path: seq<Pos2>, i: nat, k: nat, rectMin: Pos2)
    requires k < i < |path|
    ensures ClickPath(ClickPath(path, Trim, Some(i), None, rectMin), Trim, Some(k), None, rectMin)
         == ClickPath(path, Trim, Some(k), None, rectMin)
  {
  }

  /** The editable state of the designer. */
  datatype Designer = Designer(mode: CursorMode, path: seq<Pos2>, selected: nat,
                               result: Option<string>, processed: seq<Pos2>)

  /** What an Edit-mode drag leads to: the new state, or an index out of range (the source
      panics when `selected` is stale). */
  datatype DragOutcome = Dragged(d: Designer) | OutOfBounds

  /** The drag step: in Edit mode with a non-empty path, a drag start re-binds `selected` to this
      frame's index when there is one, and a drag moves the selected point to the pointer. */
  function DragEffect(d: Designer, dragStarted: bool, dragged: bool, slIdx: Option<nat>,
                      pointer: Option<Pos2>, rectMin: Pos2): (r: DragOutcome)
    ensures d.mode != Edit || d.path == [] ==> r == Dragged(d)
    ensures d.mode == Edit && d.path != [] ==>
      var sel := if dragStarted && slIdx.Some? then slIdx.value else d.selected;
      && (r.OutOfBounds? <==> dragged && pointer.Some? && sel >= |d.path|)
      && (r.Dragged? ==>
            && r.d.selected == sel
            && r.d.mode == d.mode && r.d.result == d.result && r.d.processed == d.processed
            && |r.d.path| == |d.path|
            && (forall j :: 0 <= j < |d.path| && j != sel ==> r.d.path[j] == d.path[j])
            && (dragged && pointer.Some? ==> r.d.path[sel] == FieldOf(pointer.value, rectMin))
            && (!(dragged && pointer.Some?) ==> r.d.path == d.path))
  {
    if d.mode != Edit || d.path == [] then Dragged(d)
    else
      var sel := if dragStarted && slIdx.Some? then slIdx.value else d.selected;
      if dragged && pointer.Some? then
        if sel < |d.path| then Dragged(d.(selected := sel, path := d.path[sel := FieldOf(pointer.value, rectMin)]))
        else OutOfBounds
      else Dragged(d.(selected := sel))
  }

  /** A drag that starts on the index this frame's fold selected never indexes out of range. */
  lemma DragFromSelectionInRange(d: Designer, dragged: bool, i: nat, pointer: Option<Pos2>, rectMin: Pos2)
    requires i < |d.path|
    ensures DragEffect(d, true, dragged, Some(i), pointer, rectMin).Dragged?
  {
  }

  /** Holding the pointer still: a second drag frame at the same position changes nothing more. */
  lemma DragIdempotent(d: Designer, dragStarted: bool, slIdx: Option<nat>, pointer: Option<Pos2>, rectMin: Pos2)
    requires DragEffect(d, dragStarted, true, slIdx, pointer, rectMin).Dragged?
    ensures var d1 := DragEffect(d, dragStarted, true, slIdx, pointer, rectMin).d;
      DragEffect(d1, false, true, None, pointer, rectMin) == Dragged(d1)
  {
    var d1 := DragEffect(d, dragStarted, true, slIdx, pointer, rectMin).d;
    if d.mode == Edit && d.path != [] && pointer.Some? {
      var sel := d1.selected;
      assert d1.path[sel := FieldOf(pointer.value, rectMin)] == d1.path;
    }
  }

  /** The buttons of the designer's row. */
  datatype Button = CreateButton | EditButton | DeleteButton | TrimButton | ClearButton
                  | PreprocessButton | GenerateButton | FinishButton

  /** The effect of one button press. Preprocess is shown only while nothing is processed,
      Generate only once something is, Finish only outside Default; a hidden button
      cannot be pressed. `preprocessed` and `code` stand for the results of the preprocessing
      and generation steps, whose bodies are not part of this model. */
  function Press(d: Designer, b: Button, preprocessed: seq<Pos2>, code: string): (r: Designer)
    ensures b.CreateButton? || b.EditButton? || b.DeleteButton? || b.TrimButton? ==>
      r == d.(mode := ModeOf(b), processed := [])
    ensures b.ClearButton? ==> r == d.(path := [], processed := [], result := None)
    ensures b.PreprocessButton? ==> r == if d.processed == [] then d.(processed := preprocessed) else d
    ensures b.GenerateButton? ==> r == if d.processed != [] then d.(result := Some(code), mode := Default) else d
    ensures b.FinishButton? ==> r == d.(mode := Default)
    ensures !b.ClearButton? ==> r.path == d.path && r.selected == d.selected
  {
    match b
    case CreateButton => d.(mode := Create, processed := [])
    case EditButton => d.(mode := Edit, processed := [])
    case DeleteButton => d.(mode := Delete, processed := [])
    case TrimButton => d.(mode := Trim, processed := [])
    case ClearButton => d.(path := [], processed := [], result := None)
    case PreprocessButton => if d.processed == [] then d.(processed := preprocessed) else d
    case GenerateButton => if d.processed != [] then d.(result := Some(code), mode := Default) else d
    case FinishButton => if d.mode != Default then d.(mode := Default) else d
  }

  /** The mode a mode button selects. */
  function ModeOf(b: Button): CursorMode
    requires b.CreateButton? || b.EditButton? || b.DeleteButton? || b.TrimButton?
  {
    match b
    case CreateButton => Create
    case EditButton => Edit
    case DeleteButton => Delete
    case TrimButton => Trim
  }

  /** Pressing a button twice has the effect of pressing it once. */
  lemma PressIdempotent(d: Designer, b: Button, preprocessed: seq<Pos2>, code: string)
    ensures Press(Press(d, b, preprocessed, code), b, preprocessed, code) == Press(d, b, preprocessed, code)
  {
  }

  /** A mode button always leaves the preprocessing to be redone, so Generate is hidden until
      Preprocess has run again. */
  lemma ModeButtonHidesGenerate(d: Designer, b: Button, preprocessed: seq<Pos2>, code: string)
    requires b.CreateButton? || b.EditButton? || b.DeleteButton? || b.TrimButton?
    ensures var r := Press(d, b, preprocessed, code);
      Press(r, GenerateButton, preprocessed, code) == r
  {
  }

  /** The designer window's state (the `PathyApp` of src/gui.rs). */
  class PathyApp {
    var height: real
    var width: real
    var scale: real
    var mode: CursorMode
    var path: seq<Pos2>
    var selected: nat
    var result: Option<string>
    var processed: seq<Pos2>

    function Value(): Designer
      reads this
    {
      Designer(mode, path, selected, result, processed)
    }

    /** The tooltip step: in Edit, Delete and Trim, with the pointer over the designer, the
        index of the point nearest the pointer; no index otherwise. */
    method Select(hover: Option<Pos2>, rectMin: Pos2) returns (slIdx: Option<nat>)
      ensures !Selects(mode) || hover.None? ==> slIdx.None?
      ensures Selects(mode) && hover.Some? ==>
        (slIdx.None? <==> forall j :: 0 <= j < |path| ==> Distance(path, j, hover.value, rectMin) >= F32_MAX)
      ensures slIdx.Some? ==> hover.Some? && FirstNearest(path, hover.value, rectMin, slIdx.value)
    {
      slIdx := None;
      if Selects(mode) && hover.Some? {
        var nearest;
        slIdx, nearest := NearestIndex(path, hover.value, rectMin);
      }
    }

    /** The click handler: `path` is changed as `ClickPath` says and nothing else is. */
    method Click(slIdx: Option<nat>, pointer: Option<Pos2>, rectMin: Pos2)
      requires slIdx.Some? ==> slIdx.value < |path|
      modifies this`path
      ensures path == ClickPath(old(path), mode, slIdx, pointer, rectMin)
    {
      match mode
      case Default =>
      case Edit =>
      case Insert =>
      case Create =>
        if pointer.Some? {
          path := path + [FieldOf(pointer.value, rectMin)];
        }
      case Delete =>
        if slIdx.Some? {
          path := path[..slIdx.value] + path[slIdx.value + 1..];
        }
      case Trim =>
        if slIdx.Some? {
          path := path[..slIdx.value];
        }
    }

    /** The drag handler of Edit mode. It reports `panicked` when the selected index is out of
        range, in which case the path is left as it was. */
    method Drag(dragStarted: bool, dragged: bool, slIdx: Option<nat>, pointer: Option<Pos2>, rectMin: Pos2)
      returns (panicked: bool)
      modifies this`path, this`selected
      ensures panicked <==> DragEffect(old(Value()), dragStarted, dragged, slIdx, pointer, rectMin).OutOfBounds?
      ensures !panicked ==> Value() == DragEffect(old(Value()), dragStarted, dragged, slIdx, pointer, rectMin).d
      ensures panicked ==> path == old(path)
    {
      panicked := false;
      if mode == Edit && path != [] {
        if dragStarted {
          if slIdx.Some? {
            selected := slIdx.value;
          }
        }
        if dragged {
          if pointer.Some? {
            if selected < |path| {
              path := path[selected := FieldOf(pointer.value, rectMin)];
            } else {
              panicked := true;
            }
          }
        }
      }
    }

    /** A press of one of the row's buttons. */
    method PressButton(b: Button, preprocessed: seq<Pos2>, code: string)
      modifies this`mode, this`path, this`result, this`processed
      ensures Value() == Press(old(Value()), b, preprocessed, code)
    {
      match b
      case CreateButton =>
        mode := Create;
        processed := [];
      case EditButton =>
        mode := Edit;
        processed := [];
      case DeleteButton =>
        mode := Delete;
        processed := [];
      case TrimButton =>
        mode := Trim;
        processed := [];
      case ClearButton =>
        path := [];
        processed := [];
        result := None;
      case PreprocessButton =>
        if processed == [] {
          processed := preprocessed;
        }
      case GenerateButton =>
        if processed != [] {
          result := Some(code);
          mode := Default;
        }
      case FinishButton =>
        if mode != Default {
          mode := Default;
        }
    }
  }
}
