/** What both revisions' ray tracers share: the camera, the probe ray of a
    pixel, the hit record an intersection returns, and the camera distance
    computed from the molecule's extent. Ray construction and the analytic
    intersections are float32 numerics with square roots; the scenes take
    them as uninterpreted functions of a Probe. */
module Tracing {
  import opened Kernel

  /** math.MaxFloat32, the "no hit" distance. */
  const MaxFloat32: real := 340282346638528859811704183484516925440.0

  /** NewView(width, height, dist): a camera at (0, 0, -dist) looking along +z,
      with x to the right and y up. */
  datatype View = View(width: nat, height: nat, dist: real)

  /** The ray view.NewRay(x, y) through pixel (x, y). */
  datatype Probe = Probe(view: View, x: int, y: int)

  /** Intersect's result: the distance along the ray, the hit point and the
      surface normal there. */
  datatype Hit = Hit(dist: real, point: Vec, normal: Vec)

  /** The largest length among the points, or 0 when there is none larger:
      the running maximum of NewScene's loop, which starts at 0. */
  function Farthest(points: seq<Vec>, len: Vec -> real): real
  {
    if points == [] then 0.0
    else
      var r, l := Farthest(points[..|points| - 1], len), len(points[|points| - 1]);
      if l > r then l else r
  }

  /** Farthest bounds every length from above, and is 0 or attained. */
  lemma {:induction false} FarthestBounds(points: seq<Vec>, len: Vec -> real)
    ensures Farthest(points, len) >= 0.0
    ensures forall i :: 0 <= i < |points| ==> len(points[i]) <= Farthest(points, len)
    ensures Farthest(points, len) == 0.0 ||
            exists i :: 0 <= i < |points| && len(points[i]) == Farthest(points, len)
  {
    if points != [] {
      var front := points[..|points| - 1];
      FarthestBounds(front, len);
      if Farthest(points, len) != len(points[|points| - 1]) && Farthest(points, len) != 0.0 {
        var i :| 0 <= i < |front| && len(front[i]) == Farthest(front, len);
        assert points[i] == front[i];
      }
    }
  }

  /** NewScene's loop: the running maximum of the point lengths. */
  method FarthestLoop(points: seq<Vec>, len: Vec -> real) returns (r: real)
    ensures r == Farthest(points, len)
  {
    r := 0.0;
    for i := 0 to |points|
      invariant r == Farthest(points[..i], len)
    {
      assert points[..i + 1][..i] == points[..i];
      var l := len(points[i]);
      if l > r {
        r := l;
      }
    }
    assert points[..|points|] == points;
  }
}
