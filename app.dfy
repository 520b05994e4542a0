/** The current editor of src/app.rs: a list of Bézier anchors drawn one after another so that
    only the first hovered anchor takes the pointer, the row of mode labels that toggle back to
    Default when clicked twice, and the Create click that adds an anchor under the pointer. */
module App {
  import opened Geometry
  import opened Bezier
  import opened CursorModes

  /** The mode labels of the top bar, in the order the toggle loop visits them. */
  const Labels: seq<CursorMode> := [Create, Edit, Delete]

  /** Clicking the label of mode `chosen`: switch to it, or back to Default when it is already on. */
  function Toggle(current: CursorMode, chosen: CursorMode): (r: CursorMode)
    ensures current != chosen ==> r == chosen
    ensures current == chosen ==> r == Default
  {
    if current != chosen then chosen else Default
  }

  /** The mode after the toggle loop has visited `labels` in order, with the labels in `clicked`
      reporting a click. It is the old mode, Default, or the mode of a clicked label. */
  function ToggleAll(current: CursorMode, labels: seq<CursorMode>, clicked: set<CursorMode>): (r: CursorMode)
    ensures r == current || r == Default || (r in labels && r in clicked)
  {
    if labels == [] then current
    else
      var m := ToggleAll(current, labels[..|labels| - 1], clicked);
      var chosen := labels[|labels| - 1];
      if chosen in clicked then Toggle(m, chosen) else m
  }

  predicate Distinct(labels: seq<CursorMode>)
  {
    forall i, j :: 0 <= i < j < |labels| ==> labels[i] != labels[j]
  }

  /** A frame with no label clicked leaves the mode alone. */
  lemma {:induction false} ToggleNone(current: CursorMode, labels: seq<CursorMode>, clicked: set<CursorMode>)
    requires forall i :: 0 <= i < |labels| ==> labels[i] !in clicked
    ensures ToggleAll(current, labels, clicked) == current
  {
    if labels != [] {
      ToggleNone(current, labels[..|labels| - 1], clicked);
    }
  }

  /** A frame in which exactly one label is clicked toggles that mode. */
  lemma {:induction false} ToggleOne(current: CursorMode, labels: seq<CursorMode>, chosen: CursorMode)
    requires Distinct(labels) && chosen in labels
    ensures ToggleAll(current, labels, {chosen}) == Toggle(current, chosen)
  {
    var init := labels[..|labels| - 1];
    if labels[|labels| - 1] == chosen {
      ToggleNone(current, init, {chosen});
    } else {
      assert chosen in init by {
        var k :| 0 <= k < |labels| && labels[k] == chosen;
        assert init[k] == chosen;
      }
      ToggleOne(current, init, chosen);
    }
  }

  /** Clicking the same label in two frames, starting from Default, turns its mode on and off. */
  lemma DoubleClickReturnsToDefault(chosen: CursorMode)
    requires chosen in Labels
    ensures ToggleAll(Default, Labels, {chosen}) == chosen
    ensures ToggleAll(ToggleAll(Default, Labels, {chosen}), Labels, {chosen}) == Default
  {
    ToggleOne(Default, Labels, chosen);
    ToggleOne(chosen, Labels, chosen);
  }

  /** The pointer has been taken by one of `anchors`: some anchor, after its constraint step,
      is hit by `hover`. This is the loop's `selected` flag after visiting them. */
  function Claimed(anchors: seq<Anchor>, ratio: real, origin: Pos2, hover: Option<Pos2>): bool
  {
    if anchors == [] then false
    else Claimed(anchors[..|anchors| - 1], ratio, origin, hover)
         || Hit(Constrain(anchors[|anchors| - 1]), ratio, origin, hover).Some?
  }

  /** The loop's `selected` flag is set exactly when some anchor is hit. */
  lemma {:induction false} ClaimedIff(anchors: seq<Anchor>, ratio: real, origin: Pos2, hover: Option<Pos2>)
    ensures Claimed(anchors, ratio, origin, hover)
        <==> exists k :: 0 <= k < |anchors| && Hit(Constrain(anchors[k]), ratio, origin, hover).Some?
  {
    if anchors != [] {
      var init := anchors[..|anchors| - 1];
      ClaimedIff(init, ratio, origin, hover);
      if Claimed(init, ratio, origin, hover) {
        var k :| 0 <= k < |init| && Hit(Constrain(init[k]), ratio, origin, hover).Some?;
        assert anchors[k] == init[k];
      } else if exists k :: 0 <= k < |anchors| && Hit(Constrain(anchors[k]), ratio, origin, hover).Some? {
        var k :| 0 <= k < |anchors| && Hit(Constrain(anchors[k]), ratio, origin, hover).Some?;
        if k < |init| {
          assert init[k] == anchors[k];
        }
      }
    }
  }

  /** The pointer the loop hands to anchor `i`: none once an earlier anchor has taken it. */
  function HoverFor(anchors: seq<Anchor>, i: nat, ratio: real, origin: Pos2, hover: Option<Pos2>): Option<Pos2>
    requires i <= |anchors|
  {
    if Claimed(anchors[..i], ratio, origin, hover) then None else hover
  }

  /** The anchors after one pass of the drawing loop. */
  function DrawAll(anchors: seq<Anchor>, ratio: real, origin: Pos2, hover: Option<Pos2>): (r: seq<Anchor>)
    ensures |r| == |anchors|
    ensures forall i :: 0 <= i < |r| ==>
      r[i] == DrawStep(anchors[i], ratio, origin, HoverFor(anchors, i, ratio, origin, hover))
  {
    seq(|anchors|, i requires 0 <= i < |anchors| =>
      DrawStep(anchors[i], ratio, origin, HoverFor(anchors, i, ratio, origin, hover)))
  }

  /** After a pass every unbroken anchor is mirrored, every anchor has at most one flagged
      handle, and only the `selected` flags differ from the constraint step's result. */
  lemma DrawAllKeepsInvariants(anchors: seq<Anchor>, ratio: real, origin: Pos2, hover: Option<Pos2>, i: nat)
    requires i < |anchors|
    ensures var r := DrawAll(anchors, ratio, origin, hover);
      && (!anchors[i].broken ==> Mirrored(r[i]))
      && AtMostOneFlag(r[i])
      && SameButSelection(r[i], Constrain(anchors[i]))
  {
  }

  /** Only the first anchor that the pointer hits is flagged as hovered, and it is flagged with
      the handle its own hover test picks. */
  lemma HoverGoesToFirstHit(anchors: seq<Anchor>, ratio: real, origin: Pos2, hover: Option<Pos2>, i: nat)
    requires i < |anchors|
    ensures var r := DrawAll(anchors, ratio, origin, hover);
      && (Flagged(r[i]).Some? <==>
            && Hit(Constrain(anchors[i]), ratio, origin, hover).Some?
            && forall k :: 0 <= k < i ==> Hit(Constrain(anchors[k]), ratio, origin, hover).None?)
      && (Flagged(r[i]).Some? ==> Flagged(r[i]) == Hit(Constrain(anchors[i]), ratio, origin, hover))
  {
    var prefix := anchors[..i];
    ClaimedIff(prefix, ratio, origin, hover);
    forall k | 0 <= k < i
      ensures prefix[k] == anchors[k]
    {
    }
  }

  /** At most one anchor is hovered per frame. */
  lemma AtMostOneHovered(anchors: seq<Anchor>, ratio: real, origin: Pos2, hover: Option<Pos2>, i: nat, j: nat)
    requires i < j < |anchors|
    ensures var r := DrawAll(anchors, ratio, origin, hover);
      Flagged(r[i]).Some? ==> Flagged(r[j]).None?
  {
    HoverGoesToFirstHit(anchors, ratio, origin, hover, i);
    HoverGoesToFirstHit(anchors, ratio, origin, hover, j);
  }

  /** Some anchor is hovered exactly when the pointer hits one. */
  lemma HoveredIffHit(anchors: seq<Anchor>, ratio: real, origin: Pos2, hover: Option<Pos2>)
    ensures var r := DrawAll(anchors, ratio, origin, hover);
      (exists i :: 0 <= i < |r| && Flagged(r[i]).Some?)
      <==> exists k :: 0 <= k < |anchors| && Hit(Constrain(anchors[k]), ratio, origin, hover).Some?
  {
    var r := DrawAll(anchors, ratio, origin, hover);
    if exists k :: 0 <= k < |anchors| && Hit(Constrain(anchors[k]), ratio, origin, hover).Some? {
      var k :| 0 <= k < |anchors| && Hit(Constrain(anchors[k]), ratio, origin, hover).Some?;
      var first := FirstHitIndex(anchors, ratio, origin, hover, k);
      HoverGoesToFirstHit(anchors, ratio, origin, hover, first);
      assert Flagged(r[first]).Some?;
    } else {
      forall i | 0 <= i < |r|
        ensures Flagged(r[i]).None?
      {
        HoverGoesToFirstHit(anchors, ratio, origin, hover, i);
      }
    }
  }

  /** The least index at most `k` whose anchor is hit, given that anchor `k` is. */
  lemma {:induction false} FirstHitIndex(anchors: seq<Anchor>, ratio: real, origin: Pos2, hover: Option<Pos2>, k: nat)
    returns (first: nat)
    requires k < |anchors| && Hit(Constrain(anchors[k]), ratio, origin, hover).Some?
    ensures first <= k && Hit(Constrain(anchors[first]), ratio, origin, hover).Some?
    ensures forall m :: 0 <= m < first ==> Hit(Constrain(anchors[m]), ratio, origin, hover).None?
    decreases k
  {
    if exists m :: 0 <= m < k && Hit(Constrain(anchors[m]), ratio, origin, hover).Some? {
      var m :| 0 <= m < k && Hit(Constrain(anchors[m]), ratio, origin, hover).Some?;
      first := FirstHitIndex(anchors, ratio, origin, hover, m);
    } else {
      first := k;
    }
  }

  /** The bounds test of the Create click: the pointer is rejected when strictly left of, right
      of, above or below the field. */
  function InBounds(p: Pos2, rect: Rect): (b: bool)
    ensures b <==> rect.min.x <= p.x <= rect.max.x && rect.min.y <= p.y <= rect.max.y
  {
    !(p.x < rect.min.x || p.x > rect.Width() + rect.min.x
      || p.y < rect.min.y || p.y > rect.Height() + rect.min.y)
  }

  /** The field coordinates of a screen position: its offset from the field's corner, scaled by
      inches per pixel. A pointer inside the field lands between 0 and the field's extent in
      inches. */
  function ToField(p: Pos2, rect: Rect, size: real, scale: nat): (f: Pos2)
    requires scale > 0
    ensures size >= 0.0 && InBounds(p, rect) ==>
      && 0.0 <= f.x <= rect.Width() * (size / scale as real)
      && 0.0 <= f.y <= rect.Height() * (size / scale as real)
  {
    var k := size / scale as real;
    ScaleWithin(p.x - rect.min.x, rect.Width(), k);
    ScaleWithin(p.y - rect.min.y, rect.Height(), k);
    Pos2((p.x - rect.min.x) * k, (p.y - rect.min.y) * k)
  }

  lemma ScaleWithin(d: real, w: real, k: real)
    ensures 0.0 <= d <= w && k >= 0.0 ==> 0.0 <= d * k <= w * k
  {
    if 0.0 <= d <= w && k >= 0.0 {
      assert (w - d) * k >= 0.0;
    }
  }

  /** The anchor a Create click adds: centre under the pointer, `cp1` at (+20, +10) and `cp2` at
      (0, +20) from it, in field inches. */
  function Created(p: Pos2, rect: Rect, size: real, scale: nat, id: int): (a: Anchor)
    requires scale > 0
    ensures var f := ToField(p, rect, size, scale);
      && a.pos.x == f.x && a.pos.y == f.y && a.prev == a.pos
      && a.cp1.x == f.x + 20.0 && a.cp1.y == f.y + 10.0
      && a.cp2.x == f.x && a.cp2.y == f.y + 20.0
      && a.id == id && !a.broken && !a.animated
      && Unflagged(a.pos) && Unflagged(a.cp1) && Unflagged(a.cp2)
  {
    var f := ToField(p, rect, size, scale);
    NewAnchor(f.x, f.y, f.x + 20.0, f.y + 10.0, f.x, f.y + 20.0, id)
  }

  /** The drawing loop maps the new anchor's centre back onto the pointer that created it. */
  lemma CreatedUnderPointer(p: Pos2, rect: Rect, size: real, scale: nat, id: int)
    requires scale > 0 && size != 0.0
    ensures Created(p, rect, size, scale, id).pos.Screen(scale as real / size, rect.min) == p
  {
    var k, ratio := size / scale as real, scale as real / size;
    assert k * ratio == 1.0;
    var f := ToField(p, rect, size, scale);
    assert f.x * ratio == (p.x - rect.min.x) * (k * ratio);
    assert f.y * ratio == (p.y - rect.min.y) * (k * ratio);
  }

  /** The new anchor is not yet mirrored: its first constraint step replaces `cp2` by the
      reflection of `cp1`, (-20, -10) from the centre, and leaves everything else. */
  lemma CreatedFirstConstraint(p: Pos2, rect: Rect, size: real, scale: nat, id: int)
    requires scale > 0
    ensures var a := Created(p, rect, size, scale, id);
      && !Mirrored(a)
      && Constrain(a) == a.(cp2 := a.cp2.(x := a.pos.x - 20.0, y := a.pos.y - 10.0))
  {
  }

  /** The editor's state (the `PathyApp` of src/app.rs, without the background image). */
  class PathyApp {
    var size: real
    var scale: nat
    var cursorMode: CursorMode
    var points: seq<BezPoint>

    /** `PathyApp::default`. */
    constructor ()
      ensures size == 140.5 && scale == 720 && cursorMode == Default && points == []
    {
      size := 140.5;
      scale := 720;
      cursorMode := Default;
      points := [];
    }

    /** The toggle loop over the mode labels. */
    method ClickModeLabels(clicked: set<CursorMode>)
      modifies this`cursorMode
      ensures cursorMode == ToggleAll(old(cursorMode), Labels, clicked)
    {
      for i := 0 to |Labels|
        invariant cursorMode == ToggleAll(old(cursorMode), Labels[..i], clicked)
      {
        var mode := Labels[i];
        assert Labels[..i + 1][..i] == Labels[..i];
        if mode in clicked {
          if cursorMode != mode {
            cursorMode := mode;
          } else {
            cursorMode := Default;
          }
        }
      }
      assert Labels[..|Labels|] == Labels;
    }

    /** The Generate button. */
    method PressGenerate()
      modifies this`cursorMode
      ensures cursorMode == Default
    {
      cursorMode := Default;
    }

    /** The Clear button. */
    method Clear()
      modifies this`points
      ensures points == []
    {
      points := [];
    }

    /** The point rendering loop: each anchor is drawn with the pointer until one reports a
        hover, and with no pointer after that. */
    method DrawPoints(origin: Pos2, hover: Option<Pos2>)
      requires size != 0.0
      requires forall i, j :: 0 <= i < j < |points| ==> points[i] != points[j]
      modifies set i | 0 <= i < |points| :: points[i]
      ensures Values(points) == DrawAll(old(Values(points)), scale as real / size, origin, hover)
    {
      ghost var before := Values(points);
      var ratio := scale as real / size;
      ghost var after := DrawAll(before, ratio, origin, hover);
      var selected := false;
      for idx := 0 to |points|
        invariant forall i :: 0 <= i < idx ==> points[i].Value() == after[i]
        invariant forall i :: idx <= i < |points| ==> points[i].Value() == before[i]
        invariant selected == Claimed(before[..idx], ratio, origin, hover)
      {
        label Round:
        selected := DrawNext(idx, ratio, origin, hover, selected, before);
        forall i | 0 <= i < |points| && i != idx
          ensures points[i].Value() == old@Round(points[i].Value())
        {
          assert points[i] != points[idx];
        }
      }
    }

    /** One round of the rendering loop: draw anchor `idx` with the pointer unless an earlier
        one has taken it, and keep the loop's `selected` flag. */
    method DrawNext(idx: nat, ratio: real, origin: Pos2, hover: Option<Pos2>, selected: bool,
                    ghost before: seq<Anchor>) returns (selectedAfter: bool)
      requires idx < |points| == |before| && points[idx].Value() == before[idx]
      requires selected == Claimed(before[..idx], ratio, origin, hover)
      modifies points[idx]
      ensures points[idx].Value() == DrawAll(before, ratio, origin, hover)[idx]
      ensures selectedAfter == Claimed(before[..idx + 1], ratio, origin, hover)
    {
      var pointer := if !selected then hover else None;
      assert pointer == HoverFor(before, idx, ratio, origin, hover);
      var res := points[idx].Draw(ratio, origin, pointer);
      selectedAfter := selected;
      if !selected {
        selectedAfter := res.Some?;
      }
      assert before[..idx + 1][..idx] == before[..idx];
    }

    /** The click handler: in Create mode, a pointer inside the field adds a new anchor at the
        end, built from the pointer's field coordinates; `id` stands for the fresh random id. */
    method Click(pointer: Option<Pos2>, rect: Rect, id: int)
      requires scale > 0
      modifies this`points
      ensures cursorMode == Create && pointer.Some? && InBounds(pointer.value, rect) ==>
        && |points| == |old(points)| + 1 && points[..|old(points)|] == old(points)
        && fresh(points[|old(points)|])
        && points[|old(points)|].Value() == Created(pointer.value, rect, size, scale, id)
      ensures !(cursorMode == Create && pointer.Some? && InBounds(pointer.value, rect)) ==> points == old(points)
    {
      if cursorMode == Create && pointer.Some? {
        var pos := pointer.value;
        if pos.x < rect.min.x || pos.x > rect.Width() + rect.min.x
          || pos.y < rect.min.y || pos.y > rect.Height() + rect.min.y
        {
          return;
        }
        var x := (pos.x - rect.min.x) * (size / scale as real);
        var y := (pos.y - rect.min.y) * (size / scale as real);
        var point := new BezPoint(x, y, x + 20.0, y + 10.0, x, y + 20.0, id);
        points := points + [point];
      }
    }
  }
}
