/** The stand-alone selectable point of src/point.rs: a position with a hover flag,
    a drag lock and an identity, its screen transform, its hover update and the
    radius it is drawn with. */
module SelectablePoint {
  import opened Geometry

  /** The radius of a resting point; also the hover threshold. */
  const RADIUS: real := 5.0
  /** The radius of a hovered or locked point. */
  const HOVER_RADIUS: real := 8.0

  /** What the hover update of `draw` decides: with a pointer, whether it is strictly within
      RADIUS of the point's screen position; without one, the flag as it was. */
  function HoverFlag(was: bool, screen: Pos2, hover: Option<Pos2>): (b: bool)
    ensures hover.None? ==> b == was
    ensures hover.Some? ==> (b <==> DistanceSq(hover.value, screen) < RADIUS * RADIUS)
  {
    match hover
    case None => was
    case Some(h) => DistanceSq(h, screen) < RADIUS * RADIUS
  }

  /** A pointer on the point hovers it, and a pointer at least RADIUS away does not. */
  lemma HoverFlagNearAndFar(was: bool, screen: Pos2, h: Pos2)
    ensures HoverFlag(was, screen, Some(screen))
    ensures Abs(h.x - screen.x) >= RADIUS ==> !HoverFlag(was, screen, Some(h))
  {
    if Abs(h.x - screen.x) >= RADIUS {
      var dx, dy := h.x - screen.x, h.y - screen.y;
      assert dx * dx >= RADIUS * RADIUS by {
        if dx < 0.0 {
          assert -dx >= RADIUS;
          assert (-dx) * (-dx) >= RADIUS * (-dx) >= RADIUS * RADIUS;
        } else {
          assert dx * dx >= RADIUS * dx >= RADIUS * RADIUS;
        }
      }
      assert dy * dy >= 0.0;
      assert DistanceSq(h, screen) == dx * dx + dy * dy;
    }
  }

  class Point {
    var x: real
    var y: real
    var selected: bool
    var locked: bool
    var animated: bool
    var id: int

    /** `Point::new`; the random `Uuid::new_v4()` is the parameter `id`. */
    constructor (x: real, y: real, id: int)
      ensures this.x == x && this.y == y && this.id == id
      ensures !selected && !locked && !animated
    {
      this.x := x;
      this.y := y;
      selected := false;
      locked := false;
      animated := false;
      this.id := id;
    }

    /** `Point::offset`: moves the point; flags and identity stay. */
    method Offset(dx: real, dy: real)
      modifies this`x, this`y
      ensures x == old(x) + dx && y == old(y) + dy
    {
      x := x + dx;
      y := y + dy;
    }

    /** `Point::screen`. */
    function Screen(ratio: real, origin: Pos2): (p: Pos2)
      reads this
      ensures p == ToScreen(Pos2(x, y), ratio, origin)
    {
      Pos2(x * ratio + origin.x, y * ratio + origin.y)
    }

    /** `Point::screen_clone`: a new point at the screen position, with the same flags and id. */
    method ScreenClone(ratio: real, origin: Pos2) returns (p: Point)
      ensures fresh(p)
      ensures Pos2(p.x, p.y) == Screen(ratio, origin)
      ensures p.selected == selected && p.locked == locked && p.animated == animated && p.id == id
    {
      p := new Point(x * ratio + origin.x, y * ratio + origin.y, id);
      p.selected := selected;
      p.locked := locked;
      p.animated := animated;
    }

    /** The state part of `Point::draw`: update the hover flag and report it. */
    method Draw(ratio: real, origin: Pos2, hover: Option<Pos2>) returns (hovered: bool)
      modifies this`selected
      ensures selected == HoverFlag(old(selected), Screen(ratio, origin), hover)
      ensures hovered == selected
    {
      var s := Screen(ratio, origin);
      if hover.Some? {
        var pointDistance := DistanceSq(hover.value, s);
        if pointDistance < RADIUS * RADIUS {
          selected := true;
        } else {
          selected := false;
        }
      }
      hovered := selected;
    }

    /** `Point::get_radius`: the hover radius exactly when hovered or locked. */
    function GetRadius(): (r: real)
      reads this
      ensures r == HOVER_RADIUS <==> selected || locked
      ensures r == RADIUS <==> !(selected || locked)
    {
      if selected || locked then HOVER_RADIUS else RADIUS
    }
  }
}
