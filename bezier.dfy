/** The Bézier anchor of the editor (src/bezier.rs): a centre point with two
    control points, the constraint that keeps the control points in line,
    the nearest-point hover test, the cubic segment between two anchors and
    the mapping to and from the persisted record. */
module Bezier {
  import opened Geometry

  /** The drawn radius of a point; the pointer hovers a point strictly closer than this. */
  const RADIUS: real := 5.0

  /** One selectable point of an anchor: bezier.rs's `Point` without its parent back-pointer. */
  datatype Handle = Handle(x: real, y: real, selected: bool, locked: bool, editing: bool)
  {
    /** `Point::offset`: moves the point and keeps its flags. */
    function Offset(dx: real, dy: real): (h: Handle)
      ensures h.x == x + dx && h.y == y + dy
      ensures h.selected == selected && h.locked == locked && h.editing == editing
    {
      this.(x := x + dx, y := y + dy)
    }

    /** `Point::screen`. */
    function Screen(ratio: real, origin: Pos2): Pos2
    {
      ToScreen(Pos2(x, y), ratio, origin)
    }

    /** The point is dragged (`locked`) or being edited. */
    predicate Active()
    {
      locked || editing
    }
  }

  /** `Point::screen` scales by `ratio` and shifts by `origin`; with a non-zero ratio the screen
      position determines the field position, so two points drawn at the same place coincide. */
  lemma ScreenDeterminesPoint(h: Handle, k: Handle, ratio: real, origin: Pos2)
    ensures h.Screen(ratio, origin) == Pos2(h.x * ratio + origin.x, h.y * ratio + origin.y)
    ensures ratio != 0.0 && h.Screen(ratio, origin) == k.Screen(ratio, origin) ==> h.x == k.x && h.y == k.y
  {
    if ratio != 0.0 && h.Screen(ratio, origin) == k.Screen(ratio, origin) {
      assert h.x * ratio == k.x * ratio && h.y * ratio == k.y * ratio;
    }
  }

  /** `Point::new`: a point with every interaction flag cleared. */
  function NewHandle(x: real, y: real): (h: Handle)
    ensures h.x == x && h.y == y && !h.selected && !h.locked && !h.editing
  {
    Handle(x, y, false, false, false)
  }

  predicate Unflagged(h: Handle)
  {
    !h.selected && !h.locked && !h.editing
  }

  /** The tag of the point `draw` reports as hovered. */
  datatype Selected = P | CP1 | CP2

  /** The value held by a `BezPoint`: centre, control points, identity, animation flag,
      the centre's position at the previous frame, and whether the path has a cusp here. */
  datatype Anchor = Anchor(pos: Handle, cp1: Handle, cp2: Handle, id: int, animated: bool,
                           prev: Handle, broken: bool)

  /** The persisted form of an anchor (`SavePoint`). */
  datatype SavePoint = SavePoint(pos: Pos2, cp1: Pos2, cp2: Pos2, id: int, broken: bool)

  /** The continuity invariant: `cp2` is the reflection of `cp1` through `pos`. */
  predicate Mirrored(a: Anchor)
  {
    a.cp2.x == 2.0 * a.pos.x - a.cp1.x && a.cp2.y == 2.0 * a.pos.y - a.cp1.y
  }

  /** `h` moved onto the reflection of `other` through `center`; its flags are kept. */
  function Reflect(h: Handle, center: Handle, other: Handle): Handle
  {
    h.(x := 2.0 * center.x - other.x, y := 2.0 * center.y - other.y)
  }

  predicate SameFlags(h: Handle, k: Handle)
  {
    h.selected == k.selected && h.locked == k.locked && h.editing == k.editing
  }

  /** The constraint step at the top of `BezPoint::draw`: a held centre drags both control
      points rigidly; otherwise, when unbroken, a held control point mirrors the other one;
      finally an unbroken anchor always gets `cp2 := 2 * pos - cp1`. */
  function Constrain(a: Anchor): (r: Anchor)
    ensures r.pos == a.pos && r.id == a.id && r.animated == a.animated && r.broken == a.broken
    ensures SameFlags(r.cp1, a.cp1) && SameFlags(r.cp2, a.cp2)
    ensures !a.broken ==> Mirrored(r)
  {
    Realign(FollowHeld(a))
  }

  /** The first stage of the constraint: the control points follow whichever point is held. */
  function FollowHeld(a: Anchor): Anchor
  {
    if a.pos.locked || a.pos.editing then
      var dx, dy := a.pos.x - a.prev.x, a.pos.y - a.prev.y;
      a.(cp1 := a.cp1.Offset(dx, dy), cp2 := a.cp2.Offset(dx, dy), prev := a.pos)
    else if !a.broken && (a.cp1.locked || a.cp1.editing || a.pos.editing) then
      a.(cp2 := Reflect(a.cp2, a.pos, a.cp1))
    else if !a.broken && (a.cp2.locked || a.cp2.editing) then
      a.(cp1 := Reflect(a.cp1, a.pos, a.cp2))
    else
      a
  }

  /** The second stage: an unbroken anchor gets `cp2` set to the reflection of `cp1`. */
  function Realign(a: Anchor): Anchor
  {
    if !a.broken then a.(cp2 := Reflect(a.cp2, a.pos, a.cp1)) else a
  }

  /** How the constraint step moves each point: a held centre translates `cp1` (and, on a
      broken anchor, `cp2`) by the centre's movement since the previous frame and records the
      centre as `prev`; a broken anchor whose centre is not held is left exactly as it is; an
      unbroken one whose `cp2` alone is held gets `cp1` reflected through the centre and keeps
      `cp2`; in every other case without a held centre `cp1` stays put. */
  lemma ConstrainMoves(a: Anchor)
    ensures var r := Constrain(a);
      && (a.pos.Active() ==>
            var dx, dy := a.pos.x - a.prev.x, a.pos.y - a.prev.y;
            && r.prev == a.pos
            && r.cp1 == a.cp1.Offset(dx, dy)
            && (a.broken ==> r.cp2 == a.cp2.Offset(dx, dy)))
      && (!a.pos.Active() ==> r.prev == a.prev)
      && (!a.pos.Active() && a.broken ==> r == a)
      && (!a.pos.Active() && !a.broken && !a.cp1.Active() && a.cp2.Active() ==>
            r.cp1 == Reflect(a.cp1, a.pos, a.cp2) && r.cp2 == a.cp2)
      && (!a.pos.Active() && !(!a.broken && !a.cp1.Active() && a.cp2.Active()) ==> r.cp1 == a.cp1)
  {
  }

  /** Dragging the centre of an anchor whose control points were mirrored through its previous
      position moves the whole anchor rigidly: the closing correction leaves `cp2` where the
      translation put it. */
  lemma DragMovesRigidly(a: Anchor)
    requires a.pos.Active() && !a.broken
    requires a.cp2.x == 2.0 * a.prev.x - a.cp1.x && a.cp2.y == 2.0 * a.prev.y - a.cp1.y
    ensures Constrain(a).cp2 == a.cp2.Offset(a.pos.x - a.prev.x, a.pos.y - a.prev.y)
  {
  }

  /** The fold over the distances in `draw`: it starts from the centre and moves to a control
      point only when that one is strictly nearer; it returns the winner and its distance. */
  function Nearest(dp: real, d1: real, d2: real): (Selected, real)
  {
    var m := (P, dp);
    var m := if d1 < m.1 then (CP1, d1) else m;
    if d2 < m.1 then (CP2, d2) else m
  }

  function Min(u: real, v: real): real
  {
    if u <= v then u else v
  }

  /** The fold finds the smallest of the three distances and reports the first point, in the
      order centre, cp1, cp2, that has it. */
  lemma NearestIsFirstSmallest(dp: real, d1: real, d2: real)
    ensures var m := Nearest(dp, d1, d2);
      && m.1 == Min(dp, Min(d1, d2))
      && (m.0 == P ==> m.1 == dp && dp <= d1 && dp <= d2)
      && (m.0 == CP1 ==> m.1 == d1 && d1 < dp && d1 <= d2)
      && (m.0 == CP2 ==> m.1 == d2 && d2 < dp && d2 < d1)
  {
  }

  /** What the hover test promises, given the squared screen distances to the centre (dp)
      and to the control points (d1, d2): a hit iff the smallest is below RADIUS², the winner
      has the smallest distance, and ties go to the centre, then cp1, then cp2. */
  predicate HitSpec(dp: real, d1: real, d2: real, r: Option<Selected>)
  {
    && (r.Some? <==> Min(dp, Min(d1, d2)) < RADIUS * RADIUS)
    && (r == Some(P) ==> dp <= d1 && dp <= d2)
    && (r == Some(CP1) ==> d1 < dp && d1 <= d2)
    && (r == Some(CP2) ==> d2 < dp && d2 < d1)
  }

  function DistTo(h: Handle, ratio: real, origin: Pos2, hover: Pos2): real
  {
    DistanceSq(hover, h.Screen(ratio, origin))
  }

  /** The hover test of `BezPoint::draw`, run on the screen positions of the anchor. */
  function Hit(a: Anchor, ratio: real, origin: Pos2, hover: Option<Pos2>): (r: Option<Selected>)
    ensures hover.None? ==> r.None?
    ensures hover.Some? ==>
      HitSpec(DistTo(a.pos, ratio, origin, hover.value), DistTo(a.cp1, ratio, origin, hover.value),
              DistTo(a.cp2, ratio, origin, hover.value), r)
  {
    match hover
    case None => None
    case Some(h) =>
      var m := Nearest(DistTo(a.pos, ratio, origin, h), DistTo(a.cp1, ratio, origin, h),
                       DistTo(a.cp2, ratio, origin, h));
      if m.1 < RADIUS * RADIUS then Some(m.0) else None
  }

  /** A pointer exactly on the screen position of the centre hovers the centre, wherever the
      control points are. */
  lemma PointerOnCentreHitsCentre(a: Anchor, ratio: real, origin: Pos2)
    ensures Hit(a, ratio, origin, Some(a.pos.Screen(ratio, origin))) == Some(P)
  {
    var h := a.pos.Screen(ratio, origin);
    assert DistTo(a.pos, ratio, origin, h) == 0.0;
  }

  /** The tag of the flagged point, centre first. */
  function Flagged(a: Anchor): Option<Selected>
  {
    if a.pos.selected then Some(P)
    else if a.cp1.selected then Some(CP1)
    else if a.cp2.selected then Some(CP2)
    else None
  }

  predicate AtMostOneFlag(a: Anchor)
  {
    && (a.pos.selected ==> !a.cp1.selected && !a.cp2.selected)
    && (a.cp1.selected ==> !a.cp2.selected)
  }

  /** Coordinates, drag flags, identity and cusp flag agree; only `selected` may differ. */
  predicate SameButSelection(a: Anchor, b: Anchor)
  {
    && a.pos.(selected := false) == b.pos.(selected := false)
    && a.cp1.(selected := false) == b.cp1.(selected := false)
    && a.cp2.(selected := false) == b.cp2.(selected := false)
    && a.id == b.id && a.animated == b.animated && a.prev == b.prev && a.broken == b.broken
  }

  /** `a` with its three `selected` flags set to `p`, `c1` and `c2`. */
  function WithFlags(a: Anchor, p: bool, c1: bool, c2: bool): Anchor
  {
    a.(pos := a.pos.(selected := p), cp1 := a.cp1.(selected := c1), cp2 := a.cp2.(selected := c2))
  }

  /** The hover update of `draw`: all three `selected` flags cleared, then the winner's set;
      so a point is flagged exactly when it is the winner. */
  function MarkHover(a: Anchor, hit: Option<Selected>): (r: Anchor)
    ensures AtMostOneFlag(r) && Flagged(r) == hit
    ensures SameButSelection(r, a)
  {
    match hit
    case None => WithFlags(a, false, false, false)
    case Some(P) => WithFlags(a, true, false, false)
    case Some(CP1) => WithFlags(a, false, true, false)
    case Some(CP2) => WithFlags(a, false, false, true)
  }

  /** The state change of one `BezPoint::draw` call. */
  function DrawStep(a: Anchor, ratio: real, origin: Pos2, hover: Option<Pos2>): (r: Anchor)
    ensures AtMostOneFlag(r) && Flagged(r) == Hit(Constrain(a), ratio, origin, hover)
    ensures hover.None? ==> Flagged(r).None?
    ensures !a.broken ==> Mirrored(r)
    ensures SameButSelection(r, Constrain(a))
  {
    var c := Constrain(a);
    MarkHover(c, Hit(c, ratio, origin, hover))
  }

  /** The anchor `BezPoint::new` builds. */
  function NewAnchor(x: real, y: real, cp1x: real, cp1y: real, cp2x: real, cp2y: real, id: int): (r: Anchor)
    ensures !r.broken && !r.animated && r.id == id
    ensures r.pos.x == x && r.pos.y == y && r.prev == r.pos
    ensures r.cp1.x == cp1x && r.cp1.y == cp1y && r.cp2.x == cp2x && r.cp2.y == cp2y
    ensures Unflagged(r.pos) && Unflagged(r.cp1) && Unflagged(r.cp2)
  {
    Anchor(NewHandle(x, y), NewHandle(cp1x, cp1y), NewHandle(cp2x, cp2y), id, false, NewHandle(x, y), false)
  }

  /** `From<BezPoint> for SavePoint`: the record keeps the coordinates of the centre and the
      control points, the identity and the cusp flag; loading it back is `FromSave`. */
  function ToSave(a: Anchor): (s: SavePoint)
    ensures s.pos.x == a.pos.x && s.pos.y == a.pos.y
    ensures s.cp1.x == a.cp1.x && s.cp1.y == a.cp1.y
    ensures s.cp2.x == a.cp2.x && s.cp2.y == a.cp2.y
    ensures s.id == a.id && s.broken == a.broken
  {
    SavePoint(Pos2(a.pos.x, a.pos.y), Pos2(a.cp1.x, a.cp1.y), Pos2(a.cp2.x, a.cp2.y), a.id, a.broken)
  }

  /** `From<SavePoint> for BezPoint`: a loaded anchor is already animated, sits at its own
      previous position, and has no interaction flag set. */
  function FromSave(s: SavePoint): (r: Anchor)
    ensures ToSave(r) == s
    ensures r.animated && r.prev == r.pos
    ensures Unflagged(r.pos) && Unflagged(r.cp1) && Unflagged(r.cp2)
  {
    Anchor(NewHandle(s.pos.x, s.pos.y), NewHandle(s.cp1.x, s.cp1.y), NewHandle(s.cp2.x, s.cp2.y),
           s.id, true, NewHandle(s.pos.x, s.pos.y), s.broken)
  }

  /** The saved record depends on nothing but the geometry, the identity and the cusp flag:
      interaction flags, animation state and the previous centre are never persisted. */
  lemma SaveIgnoresSessionState(a: Anchor, b: Anchor)
    requires a.pos.x == b.pos.x && a.pos.y == b.pos.y
    requires a.cp1.x == b.cp1.x && a.cp1.y == b.cp1.y
    requires a.cp2.x == b.cp2.x && a.cp2.y == b.cp2.y
    requires a.id == b.id && a.broken == b.broken
    ensures ToSave(a) == ToSave(b)
  {
  }

  /** Saving and loading an anchor keeps its geometry, identity and cusp flag and resets the
      session state. */
  lemma SaveLoadRoundTrip(a: Anchor)
    ensures var b := FromSave(ToSave(a));
      && b.pos.x == a.pos.x && b.pos.y == a.pos.y
      && b.cp1.x == a.cp1.x && b.cp1.y == a.cp1.y
      && b.cp2.x == a.cp2.x && b.cp2.y == a.cp2.y
      && b.id == a.id && b.broken == a.broken
      && b.animated && b.prev == b.pos
      && Unflagged(b.pos) && Unflagged(b.cp1) && Unflagged(b.cp2)
  {
  }

  /** One coordinate of the cubic Bézier with control values p0..p3, as `interpolate` writes it. */
  function Cubic(p0: real, p1: real, p2: real, p3: real, t: real): real
  {
    (1.0 - t) * (1.0 - t) * (1.0 - t) * p0
      + 3.0 * (1.0 - t) * (1.0 - t) * t * p1
      + 3.0 * (1.0 - t) * t * t * p2
      + t * t * t * p3
  }

  /** `interpolate`: the point at `t` on the segment from `a` to `b`, whose inner control
      points are `a.cp2` and `b.cp1`. */
  function Interpolate(a: Anchor, b: Anchor, t: real): (p: Handle)
    ensures Unflagged(p)
    ensures t == 0.0 ==> p.x == a.pos.x && p.y == a.pos.y
    ensures t == 1.0 ==> p.x == b.pos.x && p.y == b.pos.y
  {
    NewHandle(Cubic(a.pos.x, a.cp2.x, b.cp1.x, b.pos.x, t), Cubic(a.pos.y, a.cp2.y, b.cp1.y, b.pos.y, t))
  }

  /** egui's `lerp`. */
  function Lerp(u: real, v: real, t: real): real
  {
    (1.0 - t) * u + t * v
  }

  /** De Casteljau's construction: three rounds of linear interpolation. */
  function DeCasteljau(p0: real, p1: real, p2: real, p3: real, t: real): real
  {
    var q0, q1, q2 := Lerp(p0, p1, t), Lerp(p1, p2, t), Lerp(p2, p3, t);
    var r0, r1 := Lerp(q0, q1, t), Lerp(q1, q2, t);
    Lerp(r0, r1, t)
  }

  /** The Bernstein form used by `interpolate` is the Bézier curve of De Casteljau. */
  lemma CubicIsDeCasteljau(p0: real, p1: real, p2: real, p3: real, t: real)
    ensures Cubic(p0, p1, p2, p3, t) == DeCasteljau(p0, p1, p2, p3, t)
  {
    var u := 1.0 - t;
    var q0, q1, q2 := Lerp(p0, p1, t), Lerp(p1, p2, t), Lerp(p2, p3, t);
    var r0 := Lerp(q0, q1, t);
    var r1 := Lerp(q1, q2, t);
    assert r0 == u * u * p0 + 2.0 * u * t * p1 + t * t * p2;
    assert r1 == u * u * p1 + 2.0 * u * t * p2 + t * t * p3;
    calc {
      DeCasteljau(p0, p1, p2, p3, t);
      u * r0 + t * r1;
      u * u * u * p0 + 3.0 * u * u * t * p1 + 3.0 * u * t * t * p2 + t * t * t * p3;
      Cubic(p0, p1, p2, p3, t);
    }
  }

  /** The segment depends on the centre and `cp2` of its start and on the centre and `cp1`
      of its end, and on nothing else. */
  lemma InterpolateUsesInnerControls(a: Anchor, b: Anchor, a': Anchor, b': Anchor, t: real)
    requires a.pos.x == a'.pos.x && a.pos.y == a'.pos.y && a.cp2.x == a'.cp2.x && a.cp2.y == a'.cp2.y
    requires b.pos.x == b'.pos.x && b.pos.y == b'.pos.y && b.cp1.x == b'.cp1.x && b.cp1.y == b'.cp1.y
    ensures Interpolate(a, b, t) == Interpolate(a', b', t)
  {
  }

  /** A `BezPoint`: the three points are plain fields, updated in place by `draw`. */
  class BezPoint {
    var pos: Handle
    var cp1: Handle
    var cp2: Handle
    var id: int
    var animated: bool
    var prev: Handle
    var broken: bool

    function Value(): Anchor
      reads this
    {
      Anchor(pos, cp1, cp2, id, animated, prev, broken)
    }

    /** `BezPoint::new`; the random `Uuid::new_v4()` is the parameter `id`. */
    constructor (x: real, y: real, cp1x: real, cp1y: real, cp2x: real, cp2y: real, id: int)
      ensures Value() == NewAnchor(x, y, cp1x, cp1y, cp2x, cp2y, id)
    {
      pos := NewHandle(x, y);
      cp1 := NewHandle(cp1x, cp1y);
      cp2 := NewHandle(cp2x, cp2y);
      this.id := id;
      animated := false;
      prev := NewHandle(x, y);
      broken := false;
    }

    /** `From<SavePoint> for BezPoint`. */
    constructor Load(s: SavePoint)
      ensures Value() == FromSave(s)
    {
      pos := NewHandle(s.pos.x, s.pos.y);
      cp1 := NewHandle(s.cp1.x, s.cp1.y);
      cp2 := NewHandle(s.cp2.x, s.cp2.y);
      id := s.id;
      animated := true;
      prev := NewHandle(s.pos.x, s.pos.y);
      broken := s.broken;
    }

    /** The state-changing part of `BezPoint::draw`: keep the control points in line, then
        update the hover flags against `hover` and report the hovered point. */
    method Draw(ratio: real, origin: Pos2, hover: Option<Pos2>) returns (hit: Option<Selected>)
      modifies this
      ensures hit == Hit(Constrain(old(Value())), ratio, origin, hover)
      ensures Value() == DrawStep(old(Value()), ratio, origin, hover)
    {
      KeepInLine();
      hit := UpdateHover(ratio, origin, hover);
    }

    /** Lines 211-232 of `draw`: keep the control points in line, then make sure they are. */
    method KeepInLine()
      modifies this
      ensures Value() == Constrain(old(Value()))
    {
      FollowHeldPoint();
      EnsureInLine();
    }

    /** Lines 211-226 of `draw`: the control points follow the held point. */
    method FollowHeldPoint()
      modifies this
      ensures Value() == FollowHeld(old(Value()))
    {
      if pos.locked || pos.editing {
        var dx := pos.x - prev.x;
        var dy := pos.y - prev.y;
        cp1 := cp1.Offset(dx, dy);
        cp2 := cp2.Offset(dx, dy);
        prev := pos;
      } else if !broken && (cp1.locked || cp1.editing || pos.editing) {
        cp2 := cp2.(x := 2.0 * pos.x - cp1.x, y := 2.0 * pos.y - cp1.y);
      } else if !broken && (cp2.locked || cp2.editing) {
        cp1 := cp1.(x := 2.0 * pos.x - cp2.x, y := 2.0 * pos.y - cp2.y);
      }
    }

    /** Lines 228-232 of `draw`: an unbroken anchor gets `cp2 := 2 * pos - cp1`. */
    method EnsureInLine()
      modifies this
      ensures Value() == Realign(old(Value()))
    {
      if !broken {
        cp2 := cp2.(x := 2.0 * pos.x - cp1.x, y := 2.0 * pos.y - cp1.y);
      }
    }

    /** Lines 234-279 and 348-353 of `draw`: clear the three `selected` flags, fold over the
        squared screen distances and flag the nearest point when it is close enough. */
    method UpdateHover(ratio: real, origin: Pos2, hover: Option<Pos2>) returns (hit: Option<Selected>)
      modifies this
      ensures hit == Hit(old(Value()), ratio, origin, hover)
      ensures Value() == MarkHover(old(Value()), hit)
    {
      var s := pos.Screen(ratio, origin);
      var s1 := cp1.Screen(ratio, origin);
      var s2 := cp2.Screen(ratio, origin);
      ghost var before := Value();

      pos := pos.(selected := false);
      cp1 := cp1.(selected := false);
      cp2 := cp2.(selected := false);
      assert Value() == WithFlags(before, false, false, false);
      hit := None;
      if hover.Some? {
        var h := hover.value;
        var best, bestDistance := P, DistanceSq(h, s);
        var d1 := DistanceSq(h, s1);
        if d1 < bestDistance {
          best, bestDistance := CP1, d1;
        }
        var d2 := DistanceSq(h, s2);
        if d2 < bestDistance {
          best, bestDistance := CP2, d2;
        }
        assert (best, bestDistance) == Nearest(DistTo(before.pos, ratio, origin, h),
          DistTo(before.cp1, ratio, origin, h), DistTo(before.cp2, ratio, origin, h));
        if bestDistance < RADIUS * RADIUS {
          hit := Some(best);
          match best
          case P =>
            pos := pos.(selected := true);
            assert Value() == WithFlags(before, true, false, false);
          case CP1 =>
            cp1 := cp1.(selected := true);
            assert Value() == WithFlags(before, false, true, false);
          case CP2 =>
            cp2 := cp2.(selected := true);
            assert Value() == WithFlags(before, false, false, true);
        }
      }
    }
  }

  /** The anchors held by a sequence of `BezPoint`s. */
  function Values(ps: seq<BezPoint>): (r: seq<Anchor>)
    reads set i | 0 <= i < |ps| :: ps[i]
    ensures |r| == |ps| && forall i :: 0 <= i < |ps| ==> r[i] == ps[i].Value()
  {
    seq(|ps|, i requires 0 <= i < |ps| reads if 0 <= i < |ps| then {ps[i]} else {} => ps[i].Value())
  }
}
