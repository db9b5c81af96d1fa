/** The scene of the earlier revision, main.go: the nearest-hit search with
    no bounding test and no ambient light, the single point light, the tiled
    render without a banner, and an animation that turns the molecule about
    y before every frame. */
module EarlyScene {
  import opened Kernel
  import opened Raster
  import opened Tracing
  import opened Atoms
  import opened EarlyMolecule
  import MolgifScene

  /** The dot product of two unit vectors. */
  type Cosine = r: real | -1.0 <= r <= 1.0

  /** The intersection routines, which the model does not compute: `ball` is
      Sphere.Intersect, and `cosine` is the dot product of the unit vector
      from the hit point to the light with the unit normal. */
  datatype Tracer = Tracer(ball: (Shape, Probe) -> Hit, cosine: (Vec, Hit) -> Cosine)

  /** Shape.Intersect: a sphere's hit, or the placeholder cylinder's constant
      miss at MaxFloat32. */
  function Intersect(s: Shape, p: Probe, tr: Tracer): (h: Hit)
    ensures s.Rod? ==> h.dist == MaxFloat32
    ensures s.Ball? ==> h == tr.ball(s, p)
  {
    match s
    case Ball(_, _, _) => tr.ball(s, p)
    case Rod(_, _) => Hit(MaxFloat32, Origin, Origin)
  }

  /** The light factor: the cosine floored at 0, with neither an ambient
      term nor a cap. */
  function Factor(cosine: Cosine): (f: real)
    ensures 0.0 <= f <= 1.0
    ensures cosine <= 0.0 ==> f == 0.0
    ensures cosine >= 0.0 ==> f == cosine
  {
    if cosine < 0.0 then 0.0 else cosine
  }

  /** The material colour under the light factor; alpha is kept. A surface
      facing away from the light is black. */
  function Shade(m: RGBA, cosine: Cosine): (p: RGBA)
    ensures p.a == m.a
    ensures p.r <= m.r && p.g <= m.g && p.b <= m.b
    ensures cosine == 1.0 ==> p == m
    ensures cosine <= 0.0 ==> p == RGBA(0, 0, 0, m.a)
  {
    var f := Factor(cosine);
    RGBA(MolgifScene.Channel(m.r, f), MolgifScene.Channel(m.g, f), MolgifScene.Channel(m.b, f), m.a)
  }

  /** The pixel loop's body for one shape, on the pair (zmin, pix). */
  function Step(st: (real, RGBA), s: Shape, tr: Tracer, p: Probe, light: Vec): (real, RGBA)
  {
    var h := Intersect(s, p, tr);
    if h.dist < st.0 then (h.dist, Shade(s.colour, tr.cosine(light, h))) else st
  }

  /** (zmin, pix) after the loop has seen the shapes, starting from
      (MaxFloat32, background). */
  function Scan(shapes: seq<Shape>, tr: Tracer, p: Probe, light: Vec, bg: RGBA): (r: (real, RGBA))
    ensures r.0 <= MaxFloat32
  {
    if shapes == [] then (MaxFloat32, bg)
    else Step(Scan(shapes[..|shapes| - 1], tr, p, light, bg), shapes[|shapes| - 1], tr, p, light)
  }

  /** Shape k reports a distance below MaxFloat32 that is strictly smaller
      than every earlier shape's and no larger than any later one's. */
  ghost predicate Winner(shapes: seq<Shape>, tr: Tracer, p: Probe, k: int)
  {
    && 0 <= k < |shapes|
    && Intersect(shapes[k], p, tr).dist < MaxFloat32
    && (forall j :: 0 <= j < k ==> Intersect(shapes[k], p, tr).dist < Intersect(shapes[j], p, tr).dist)
    && (forall j :: k < j < |shapes| ==> Intersect(shapes[k], p, tr).dist <= Intersect(shapes[j], p, tr).dist)
  }

  /** No shape reports a distance below MaxFloat32. */
  ghost predicate Missed(shapes: seq<Shape>, tr: Tracer, p: Probe)
  {
    forall j :: 0 <= j < |shapes| ==> Intersect(shapes[j], p, tr).dist >= MaxFloat32
  }

  /** The loop state when shape k is the nearest hit. */
  function HitColour(shapes: seq<Shape>, tr: Tracer, p: Probe, light: Vec, k: nat): (real, RGBA)
    requires k < |shapes|
  {
    var h := Intersect(shapes[k], p, tr);
    (h.dist, Shade(shapes[k].colour, tr.cosine(light, h)))
  }

  /** The pixel is the background when nothing is hit, and otherwise the
      shaded colour of the first nearest hit. */
  lemma {:induction false} ScanResult(shapes: seq<Shape>, tr: Tracer, p: Probe, light: Vec, bg: RGBA)
    ensures Missed(shapes, tr, p) ==> Scan(shapes, tr, p, light, bg) == (MaxFloat32, bg)
    ensures !Missed(shapes, tr, p) ==>
              exists k :: Winner(shapes, tr, p, k) && Scan(shapes, tr, p, light, bg) == HitColour(shapes, tr, p, light, k)
  {
    if shapes != [] {
      var n := |shapes| - 1;
      var front := shapes[..n];
      ScanResult(front, tr, p, light, bg);
      assert forall j :: 0 <= j < n ==> front[j] == shapes[j];
      if Missed(front, tr, p) {
        if !Missed(shapes, tr, p) {
          assert Winner(shapes, tr, p, n);
        }
      } else {
        var k :| Winner(front, tr, p, k) && Scan(front, tr, p, light, bg) == HitColour(front, tr, p, light, k);
        assert front[k] == shapes[k];
        var w := if Intersect(shapes[n], p, tr).dist < Intersect(shapes[k], p, tr).dist then n else k;
        assert Winner(shapes, tr, p, w);
      }
    }
  }

  /** Placeholder cylinders after any shapes leave the loop state as it was:
      the bonds of the earlier revision never change a pixel. */
  lemma {:induction false} RodsInvisible(shapes: seq<Shape>, rods: seq<Shape>, tr: Tracer, p: Probe, light: Vec, bg: RGBA)
    requires forall k :: 0 <= k < |rods| ==> rods[k].Rod?
    ensures Scan(shapes + rods, tr, p, light, bg) == Scan(shapes, tr, p, light, bg)
  {
    if rods == [] {
      assert shapes + rods == shapes;
    } else {
      var front, all := rods[..|rods| - 1], shapes + rods;
      RodsInvisible(shapes, front, tr, p, light, bg);
      assert all[..|all| - 1] == shapes + front;
      assert all[|all| - 1] == rods[|rods| - 1];
      assert Scan(all, tr, p, light, bg) == Step(Scan(shapes + front, tr, p, light, bg), rods[|rods| - 1], tr, p, light);
      RodStep(Scan(shapes + front, tr, p, light, bg), rods[|rods| - 1], tr, p, light);
    }
  }

  /** A placeholder cylinder never beats the distance the loop starts from. */
  lemma RodStep(st: (real, RGBA), s: Shape, tr: Tracer, p: Probe, light: Vec)
    requires s.Rod? && st.0 <= MaxFloat32
    ensures Step(st, s, tr, p, light) == st
  {
  }

  /** Whatever its end points, a bond's cylinder is never hit, so tracing
      it leaves the nearest distance and colour found so far alone. */
  lemma {:induction false} CylinderNeverHit(a: Vec, b: Vec, st: (real, RGBA), tr: Tracer, p: Probe, light: Vec)
    requires st.0 <= MaxFloat32
    ensures Intersect(NewCylinder(a, b), p, tr).dist == MaxFloat32
    ensures Step(st, NewCylinder(a, b), tr, p, light) == st
  {
    RodStep(st, NewCylinder(a, b), tr, p, light);
  }

  /** The pixel of a molecule's layout is the pixel of its spheres alone. */
  lemma LayoutShowsBalls(atoms: seq<Atom>, tr: Tracer, p: Probe, light: Vec, bg: RGBA)
    ensures Scan(Layout(atoms), tr, p, light, bg) == Scan(Balls(atoms), tr, p, light, bg)
  {
    RodsInvisible(Balls(atoms), Rods(|BondList(atoms, false)|), tr, p, light, bg);
  }

  /** The colour of pixel (x, y) once the frame's shapes are traced. */
  function Pixel(shapes: seq<Shape>, view: View, light: Vec, bg: RGBA, tr: Tracer, x: int, y: int): RGBA
  {
    Scan(shapes, tr, Probe(view, x, y), light, bg).1
  }

  /** The centres of the shapes, in order. */
  function Centers(shapes: seq<Shape>): (cs: seq<Vec>)
    ensures |cs| == |shapes| && forall i :: 0 <= i < |shapes| ==> cs[i] == Center(shapes[i])
  {
    seq(|shapes|, i requires 0 <= i < |shapes| => Center(shapes[i]))
  }

  class Scene {
    var shapes: seq<Shape>
    var lights: seq<Vec>
    var view: View
    var bg: RGBA

    /** NewScene: the camera stands 10 beyond the shape centre farthest from
        the origin, and a single light is placed at (10, 10, -10). `length`
        is Vec.Len. */
    constructor (shapes: seq<Shape>, bg: RGBA, w: nat, h: nat, length: Vec -> real)
      ensures this.shapes == shapes && this.bg == bg
      ensures view == View(w, h, Farthest(Centers(shapes), length) + 10.0)
      ensures lights == [Vec(10.0, 10.0, -10.0)]
    {
      var r := FarthestLoop(Centers(shapes), length);
      this.shapes := shapes;
      view := View(w, h, r + 10.0);
      this.bg := bg;
      lights := [Vec(10.0, 10.0, -10.0)];
    }

    /** UpdateGeometry: replace the shapes by the molecule's geometry. */
    method UpdateGeometry(m: Molecule)
      modifies this`shapes
      ensures shapes == Layout(m.atoms)
    {
      shapes := m.Geometry();
    }

    /** RenderTile: for every pixel of the tile, scan the shapes, keeping the
        nearest distance and the colour shaded by the first light. */
    method RenderTile(b: Rect, tr: Tracer) returns (img: array2<RGBA>)
      requires lights != []
      requires b.minX <= b.maxX && b.minY <= b.maxY
      ensures fresh(img)
      ensures img.Length0 == b.maxX - b.minX && img.Length1 == b.maxY - b.minY
      ensures forall u, v :: 0 <= u < img.Length0 && 0 <= v < img.Length1 ==>
                img[u, v] == Pixel(shapes, view, lights[0], bg, tr, b.minX + u, b.minY + v)
    {
      img := new RGBA[b.maxX - b.minX, b.maxY - b.minY]((u, v) => Transparent);
      for u := 0 to img.Length0
        invariant forall p, q :: 0 <= p < u && 0 <= q < img.Length1 ==>
                    img[p, q] == Pixel(shapes, view, lights[0], bg, tr, b.minX + p, b.minY + q)
      {
        for v := 0 to img.Length1
          invariant forall p, q :: 0 <= p < img.Length0 && 0 <= q < img.Length1 && (p < u || (p == u && q < v)) ==>
                      img[p, q] == Pixel(shapes, view, lights[0], bg, tr, b.minX + p, b.minY + q)
        {
          var ray := Probe(view, b.minX + u, b.minY + v);
          var pix := bg;
          var zmin := MaxFloat32;
          for i := 0 to |shapes|
            invariant (zmin, pix) == Scan(shapes[..i], tr, ray, lights[0], bg)
          {
            assert shapes[..i + 1][..i] == shapes[..i];
            var s := shapes[i];
            var h := Intersect(s, ray, tr);
            if h.dist < zmin {
              zmin := h.dist;
              pix := Shade(s.colour, tr.cosine(lights[0], h));
            }
          }
          assert shapes[..|shapes|] == shapes;
          img[u, v] := pix;
        }
      }
    }

    /** Render: every scheduled tile is rendered and composited into a fresh
        width x height image, in whatever order the tiles arrive. */
    method Render(arrivals: seq<Rect>, tr: Tracer) returns (img: array2<RGBA>)
      requires lights != []
      requires forall t :: t in arrivals <==> t in Schedule(view.width, view.height)
      ensures fresh(img)
      ensures Pictures(img, shapes, view, lights[0], bg, tr)
    {
      img := new RGBA[view.width, view.height]((x, y) => Transparent);
      for k := 0 to |arrivals|
        invariant forall x, y :: 0 <= x < img.Length0 && 0 <= y < img.Length1 ==>
                    img[x, y] == if Covered(arrivals[..k], x, y)
                                 then Pixel(shapes, view, lights[0], bg, tr, x, y) else Transparent
      {
        var t := arrivals[k];
        ScheduleTiles(view.width, view.height, t);
        var tile := RenderTile(t, tr);
        Draw(img, tile, t);
        forall x, y | 0 <= x < img.Length0 && 0 <= y < img.Length1
          ensures Covered(arrivals[..k + 1], x, y) <==> Covered(arrivals[..k], x, y) || InRect(t, x, y)
        {
          CoveredStep(arrivals, k, x, y);
        }
      }
      forall x, y | 0 <= x < img.Length0 && 0 <= y < img.Length1
        ensures Covered(arrivals, x, y)
      {
        ArrivalsCover(arrivals, view.width, view.height, x, y);
      }
      assert arrivals[..|arrivals|] == arrivals;
    }
  }

  /** img holds the frame these shapes give. */
  ghost predicate Pictures(img: array2<RGBA>, shapes: seq<Shape>, view: View, light: Vec, bg: RGBA, tr: Tracer)
    reads img
  {
    && img.Length0 == view.width && img.Length1 == view.height
    && forall x, y :: 0 <= x < img.Length0 && 0 <= y < img.Length1 ==>
         img[x, y] == Pixel(shapes, view, light, bg, tr, x, y)
  }

  /** A frame shows a molecule's layout exactly when it shows its spheres:
      the placeholder cylinders of Geometry never reach the image. */
  lemma LayoutPictures(img: array2<RGBA>, atoms: seq<Atom>, view: View, light: Vec, bg: RGBA, tr: Tracer)
    ensures Pictures(img, Layout(atoms), view, light, bg, tr) <==> Pictures(img, Balls(atoms), view, light, bg, tr)
  {
    forall x, y | 0 <= x < img.Length0 && 0 <= y < img.Length1
      ensures Pixel(Layout(atoms), view, light, bg, tr, x, y) == Pixel(Balls(atoms), view, light, bg, tr, x, y)
    {
      LayoutShowsBalls(atoms, tr, Probe(view, x, y), light, bg);
    }
  }

  // ----- the animation -----

  /** The per-frame turn of RenderAll: a full turn spread over the frames. */
  function FrameAngle(nframes: nat): real
    requires nframes > 0
  {
    2.0 * MolgifScene.Pi / (nframes as real)
  }

  /** The atoms after k turns by rot, peeling the first turn off: the same
      poses as TurnedN (SpunIsTurnedN), in a form whose k+1-st pose is one
      more turn of its first turn. */
  ghost function Spun(atoms: seq<Atom>, rot: Mat, k: nat): (r: seq<Atom>)
    ensures |r| == |atoms|
    decreases k
  {
    if k == 0 then atoms else Spun(Turned(atoms, rot), rot, k - 1)
  }

  /** One more turn is applied after the first k. */
  lemma {:induction false} SpunStep(atoms: seq<Atom>, rot: Mat, k: nat)
    ensures Spun(atoms, rot, k + 1) == Turned(Spun(atoms, rot, k), rot)
    decreases k
  {
    if k > 0 {
      SpunStep(Turned(atoms, rot), rot, k - 1);
    }
  }

  /** Spun and TurnedN give the same pose after any number of turns. */
  lemma {:induction false} SpunIsTurnedN(atoms: seq<Atom>, rot: Mat, k: nat)
    ensures Spun(atoms, rot, k) == TurnedN(atoms, rot, k)
  {
    if k > 0 {
      SpunIsTurnedN(atoms, rot, k - 1);
      SpunStep(atoms, rot, k - 1);
    }
  }

  /** The molecule in each of the first n frames: frame k shows it after
      k + 1 turns. */
  ghost function Poses(atoms: seq<Atom>, rot: Mat, n: nat): (r: seq<seq<Atom>>)
    ensures |r| == n
  {
    if n == 0 then [] else Poses(atoms, rot, n - 1) + [Spun(atoms, rot, n)]
  }

  /** Frame k's molecule has had k + 1 turns, so no frame shows the molecule
      as it was loaded unless the turn leaves it in place. */
  lemma {:induction false} PosesAt(atoms: seq<Atom>, rot: Mat, n: nat)
    ensures forall k :: 0 <= k < n ==> Poses(atoms, rot, n)[k] == TurnedN(atoms, rot, k + 1)
  {
    if n > 0 {
      PosesAt(atoms, rot, n - 1);
      SpunIsTurnedN(atoms, rot, n);
    }
  }

  /** One pass of RenderAll's loop: turn the molecule, rebuild the shapes,
      render. The frame shows the turned molecule's spheres, the only shapes
      of its layout a ray can hit (LayoutPictures). The ghost arguments say
      the molecule has had i turns from atoms0 so far. */
  method Frame(s: Scene, m: Molecule, ang: real, trig: Trig, tr: Tracer, arrivals: seq<Rect>,
               ghost atoms0: seq<Atom>, ghost i: nat)
    returns (img: array2<RGBA>)
    requires s.lights != []
    requires forall t :: t in arrivals <==> t in Schedule(s.view.width, s.view.height)
    requires m.atoms == Spun(atoms0, RotY(ang, trig), i)
    modifies s`shapes, m
    ensures fresh(img)
    ensures m.atoms == Spun(atoms0, RotY(ang, trig), i + 1)
    ensures Pictures(img, Balls(m.atoms), s.view, s.lights[0], s.bg, tr)
  {
    m.Rotate(ang, trig);
    SpunStep(atoms0, RotY(ang, trig), i);
    s.UpdateGeometry(m);
    img := s.Render(arrivals, tr);
    LayoutPictures(img, m.atoms, s.view, s.lights[0], s.bg, tr);
  }

  /** RenderAll: loopTime*50 frames, each with delay 2. The molecule is
      turned about y before every render, so frame 0 already shows one turn.
      The axis flags only fill a vector that is never read. `arrival(i)` is
      the order in which frame i's tiles come back from the workers. */
  method RenderAll(s: Scene, m: Molecule, loopTime: nat, rx: bool, ry: bool, rz: bool,
                   trig: Trig, tr: Tracer, arrival: nat -> seq<Rect>)
    returns (frames: seq<array2<RGBA>>, delays: seq<int>)
    requires loopTime >= 1
    requires s.lights != []
    requires forall i: nat, t :: t in arrival(i) <==> t in Schedule(s.view.width, s.view.height)
    modifies s`shapes, m
    ensures |frames| == |delays| == loopTime * MolgifScene.FPS
    ensures forall i :: 0 <= i < |delays| ==> delays[i] == 2
    ensures forall i :: 0 <= i < |frames| ==> fresh(frames[i])
    ensures m.atoms == Spun(old(m.atoms), RotY(FrameAngle(loopTime * MolgifScene.FPS), trig), loopTime * MolgifScene.FPS)
    ensures forall i :: 0 <= i < |frames| ==>
              Pictures(frames[i],
                       Balls(Poses(old(m.atoms), RotY(FrameAngle(loopTime * MolgifScene.FPS), trig), loopTime * MolgifScene.FPS)[i]),
                       s.view, s.lights[0], s.bg, tr)
  {
    var nframes := loopTime * MolgifScene.FPS;
    var ang := 2.0 * MolgifScene.Pi / (nframes as real);
    var angv := Origin;
    if rx {
      angv := angv.(x := ang);
    }
    if ry {
      angv := angv.(y := ang);
    }
    if rz {
      angv := angv.(z := ang);
    }
    frames, delays := Animate(s, m, ang, nframes, trig, tr, arrival);
  }

  /** RenderAll's frame loop, for a given per-frame angle. */
  method Animate(s: Scene, m: Molecule, ang: real, nframes: nat, trig: Trig, tr: Tracer, arrival: nat -> seq<Rect>)
    returns (frames: seq<array2<RGBA>>, delays: seq<int>)
    requires nframes >= 1
    requires s.lights != []
    requires forall i: nat, t :: t in arrival(i) <==> t in Schedule(s.view.width, s.view.height)
    modifies s`shapes, m
    ensures |frames| == |delays| == nframes
    ensures forall i :: 0 <= i < |delays| ==> delays[i] == 2
    ensures forall i :: 0 <= i < |frames| ==> fresh(frames[i])
    ensures m.atoms == Spun(old(m.atoms), RotY(ang, trig), nframes)
    ensures forall i :: 0 <= i < |frames| ==>
              Pictures(frames[i], Balls(Poses(old(m.atoms), RotY(ang, trig), nframes)[i]), s.view, s.lights[0], s.bg, tr)
  {
    ghost var atoms0 := m.atoms;
    ghost var rot := RotY(ang, trig);
    ghost var shown: seq<seq<Atom>> := [];
    frames, delays := [], [];
    for i := 0 to nframes
      invariant m.atoms == Spun(atoms0, rot, i)
      invariant |frames| == |delays| == |shown| == i
      invariant forall k :: 0 <= k < i ==> delays[k] == 2
      invariant forall k :: 0 <= k < i ==> fresh(frames[k])
      invariant shown == Poses(atoms0, rot, i)
      invariant forall k :: 0 <= k < i ==> Pictures(frames[k], Balls(shown[k]), s.view, s.lights[0], s.bg, tr)
    {
      var img := Frame(s, m, ang, trig, tr, arrival(i), atoms0, i);
      shown := shown + [m.atoms];
      frames := frames + [img];
      delays := delays + [100 / MolgifScene.FPS];
    }
  }
}
