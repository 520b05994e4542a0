/** Plane geometry shared by every part of the editor: egui's `Pos2` and `Rect`,
    the squared distance used by the hover tests, and the field-to-screen
    transform `x * ratio + origin.x`. Coordinates are exact reals. */
module Geometry {

  /** A 2D position (egui's `Pos2`). */
  datatype Pos2 = Pos2(x: real, y: real)

  /** An optional value (Rust's `Option`). */
  datatype Option<T> = None | Some(value: T)

  /** An axis-aligned rectangle given by its corners (egui's `Rect`). */
  datatype Rect = Rect(min: Pos2, max: Pos2)
  {
    function Width(): real { max.x - min.x }
    function Height(): real { max.y - min.y }
  }

  function Abs(v: real): real { if v < 0.0 then -v else v }

  /** egui's `Pos2::distance_sq`. */
  function DistanceSq(a: Pos2, b: Pos2): (d: real)
    ensures d >= 0.0
  {
    (a.x - b.x) * (a.x - b.x) + (a.y - b.y) * (a.y - b.y)
  }

  /** Maps field coordinates to screen coordinates: scale by `ratio`, then shift by `origin`. */
  function ToScreen(p: Pos2, ratio: real, origin: Pos2): Pos2
  {
    Pos2(p.x * ratio + origin.x, p.y * ratio + origin.y)
  }

  /** Moving a point by (dx, dy) in the field moves its screen image by (dx, dy) scaled by `ratio`. */
  lemma ScreenOfOffset(p: Pos2, dx: real, dy: real, ratio: real, origin: Pos2)
    ensures ToScreen(Pos2(p.x + dx, p.y + dy), ratio, origin)
         == Pos2(ToScreen(p, ratio, origin).x + dx * ratio, ToScreen(p, ratio, origin).y + dy * ratio)
  {
    var q := ToScreen(Pos2(p.x + dx, p.y + dy), ratio, origin);
    assert q.x == (p.x + dx) * ratio + origin.x;
    assert q.y == (p.y + dy) * ratio + origin.y;
    assert (p.x + dx) * ratio == p.x * ratio + dx * ratio;
    assert (p.y + dy) * ratio == p.y * ratio + dy * ratio;
  }
}
