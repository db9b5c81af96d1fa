/** The scene of molgif.go: the shapes built from the molecule, the per-pixel
    nearest-hit search and shading, the tiled frame render and the frame
    sequence of an animation. */
module MolgifScene {
  import opened Kernel
  import opened Atoms
  import opened Raster
  import opened Tracing
  import opened MolgifMolecule

  /** A sphere per atom and a cylinder per half bond. NewCylinder derives the
      centre, axis and bounding radius from the end points with square roots;
      the model keeps the end points it is given. */
  datatype Shape =
    | Sphere(pos: Vec, radius: real, colour: RGBA)
    | Cylinder(from: Vec, to: Vec, radius: real, colour: RGBA)

  /** Bonds thinner than this are not drawn. */
  const MinBondSize: real := 0.001

  function Midpoint(a: Vec, b: Vec): Vec
  {
    VecScale(VecAdd(a, b), 0.5)
  }

  /** The two half cylinders of a bond have the same length and direction
      and meet at the midpoint; the bonds (a, b) and (b, a) share it. */
  lemma {:induction false} HalvesMeet(a: Vec, b: Vec)
    ensures VecSub(Midpoint(a, b), a) == VecSub(b, Midpoint(a, b))
    ensures Midpoint(a, b) == Midpoint(b, a)
  {
  }

  /** One sphere per atom, in atom order. */
  function Spheres(atoms: seq<Atom>, size: real): seq<Shape>
  {
    seq(|atoms|, i requires 0 <= i < |atoms| => Sphere(atoms[i].pos, size, Colour(atoms[i].name)))
  }

  /** The two half cylinders of one bond: atom a to the midpoint in a's colour,
      then atom b to the midpoint in b's colour. */
  function HalfPair(atoms: seq<Atom>, bond: Bond, size: real): seq<Shape>
    requires bond.a < |atoms| && bond.b < |atoms|
  {
    var pa, pb := atoms[bond.a].pos, atoms[bond.b].pos;
    [Cylinder(pa, Midpoint(pa, pb), size, Colour(atoms[bond.a].name)),
     Cylinder(pb, Midpoint(pa, pb), size, Colour(atoms[bond.b].name))]
  }

  function HalfBonds(atoms: seq<Atom>, bonds: seq<Bond>, size: real): seq<Shape>
    requires BondsInRange(bonds, |atoms|)
  {
    if bonds == [] then []
    else HalfBonds(atoms, bonds[..|bonds| - 1], size) + HalfPair(atoms, bonds[|bonds| - 1], size)
  }

  /** The shape list UpdateGeometry builds. */
  function Geometry(atoms: seq<Atom>, bonds: seq<Bond>, atomSize: real, bondSize: real): seq<Shape>
    requires BondsInRange(bonds, |atoms|)
  {
    Spheres(atoms, atomSize) + (if bondSize > MinBondSize then HalfBonds(atoms, bonds, bondSize) else [])
  }

  /** One more atom adds its sphere at the end. */
  lemma {:induction false} SpheresStep(atoms: seq<Atom>, i: nat, size: real)
    requires i < |atoms|
    ensures Spheres(atoms[..i + 1], size) == Spheres(atoms[..i], size) + [Sphere(atoms[i].pos, size, Colour(atoms[i].name))]
  {
    assert forall k :: 0 <= k < i ==> atoms[..i + 1][k] == atoms[..i][k];
  }

  /** One more bond adds its two half cylinders at the end. */
  lemma {:induction false} HalfBondsStep(atoms: seq<Atom>, bonds: seq<Bond>, k: nat, size: real)
    requires BondsInRange(bonds, |atoms|) && k < |bonds|
    ensures BondsInRange(bonds[..k], |atoms|) && BondsInRange(bonds[..k + 1], |atoms|)
    ensures HalfBonds(atoms, bonds[..k + 1], size) == HalfBonds(atoms, bonds[..k], size) + HalfPair(atoms, bonds[k], size)
  {
    assert bonds[..k + 1][..k] == bonds[..k];
  }

  lemma {:induction false} HalfBondsAt(atoms: seq<Atom>, bonds: seq<Bond>, size: real)
    requires BondsInRange(bonds, |atoms|)
    ensures |HalfBonds(atoms, bonds, size)| == 2 * |bonds|
    ensures forall k :: 0 <= k < |bonds| ==>
              HalfBonds(atoms, bonds, size)[2 * k] == HalfPair(atoms, bonds[k], size)[0] &&
              HalfBonds(atoms, bonds, size)[2 * k + 1] == HalfPair(atoms, bonds[k], size)[1]
  {
    if bonds != [] {
      var front := bonds[..|bonds| - 1];
      HalfBondsAt(atoms, front, size);
      assert forall k :: 0 <= k < |front| ==> front[k] == bonds[k];
    }
  }

  /** The geometry holds |atoms| spheres in atom order, centred on the atoms
      with the atom size and the element colour, followed, only when the bond
      size exceeds 0.001, by two cylinders per bond: atom a to the midpoint
      in a's colour, then atom b to the midpoint in b's colour. */
  lemma {:induction false} GeometryLayout(atoms: seq<Atom>, bonds: seq<Bond>, atomSize: real, bondSize: real)
    requires BondsInRange(bonds, |atoms|)
    ensures |Geometry(atoms, bonds, atomSize, bondSize)| ==
              |atoms| + (if bondSize > MinBondSize then 2 * |bonds| else 0)
    ensures forall i :: 0 <= i < |atoms| ==>
              Geometry(atoms, bonds, atomSize, bondSize)[i] == Sphere(atoms[i].pos, atomSize, Colour(atoms[i].name))
    ensures bondSize > MinBondSize ==> forall k :: 0 <= k < |bonds| ==>
              var g, a, b := Geometry(atoms, bonds, atomSize, bondSize), atoms[bonds[k].a], atoms[bonds[k].b];
              g[|atoms| + 2 * k] == Cylinder(a.pos, Midpoint(a.pos, b.pos), bondSize, Colour(a.name)) &&
              g[|atoms| + 2 * k + 1] == Cylinder(b.pos, Midpoint(a.pos, b.pos), bondSize, Colour(b.name))
  {
    HalfBondsAt(atoms, bonds, bondSize);
  }

  // ----- the pixel -----

  /** The intersection routines, which the model does not compute: `fast` is
      FastIntersect's bounding-sphere test, `hit` is Intersect, and `cosine`
      is the dot product of the unit vector from the hit point to the light
      with the unit normal. */
  datatype Tracer = Tracer(fast: (Shape, Probe) -> bool, hit: (Shape, Probe) -> Hit, cosine: (Vec, Hit) -> real)

  /** The light factor: the cosine floored at 0, plus 0.2 of ambient light,
      capped at 1. */
  function Factor(cosine: real): (f: real)
    ensures 0.2 <= f <= 1.0
    ensures cosine <= 0.0 ==> f == 0.2
    ensures 0.0 <= cosine <= 0.8 ==> f == cosine + 0.2
    ensures cosine >= 0.8 ==> f == 1.0
  {
    var d := if cosine < 0.0 then 0.0 else cosine;
    var d' := d + 0.2;
    if d' > 1.0 then 1.0 else d'
  }

  /** uint8(float32(c) * f): the conversion truncates toward zero. */
  function Channel(c: Byte, f: real): (r: Byte)
    requires 0.0 <= f <= 1.0
    ensures r <= c
    ensures f == 1.0 ==> r == c
  {
    FloorBelow(c, f);
    (c as real * f).Floor
  }

  lemma FloorBelow(c: Byte, f: real)
    requires 0.0 <= f <= 1.0
    ensures 0 <= (c as real * f).Floor <= c
    ensures f == 1.0 ==> (c as real * f).Floor == c
  {
    ScaleBelow(c as real, f, c as real * f);
  }

  lemma ScaleBelow(c: real, f: real, v: real)
    requires 0.0 <= c && 0.0 <= f <= 1.0
    requires v == c * f
    ensures 0.0 <= v <= c
    ensures f == 1.0 ==> v == c
  {
    assert c * f <= c * 1.0;
  }

  /** The material colour under the light factor; alpha is kept. */
  function Shade(m: RGBA, cosine: real): (p: RGBA)
    ensures p.a == m.a
    ensures p.r <= m.r && p.g <= m.g && p.b <= m.b
    ensures cosine >= 0.8 ==> p == m
  {
    var f := Factor(cosine);
    RGBA(Channel(m.r, f), Channel(m.g, f), Channel(m.b, f), m.a)
  }

  /** ComputePixel's loop body for one shape, on the pair (zmin, pix). */
  function Step(st: (real, RGBA), s: Shape, tr: Tracer, p: Probe, light: Vec): (real, RGBA)
  {
    if !tr.fast(s, p) then st
    else
      var h := tr.hit(s, p);
      if h.dist < st.0 then (h.dist, Shade(s.colour, tr.cosine(light, h))) else st
  }

  /** (zmin, pix) after the loop has seen the shapes, starting from
      (MaxFloat32, background). */
  function Scan(shapes: seq<Shape>, tr: Tracer, p: Probe, light: Vec, bg: RGBA): (real, RGBA)
  {
    if shapes == [] then (MaxFloat32, bg)
    else Step(Scan(shapes[..|shapes| - 1], tr, p, light, bg), shapes[|shapes| - 1], tr, p, light)
  }

  /** Shape k passes the bounding test and reports a distance below MaxFloat32
      that is strictly smaller than every earlier passing shape's and no
      larger than any later one's: it is the first nearest hit. */
  ghost predicate Winner(shapes: seq<Shape>, tr: Tracer, p: Probe, k: int)
  {
    && 0 <= k < |shapes|
    && tr.fast(shapes[k], p)
    && tr.hit(shapes[k], p).dist < MaxFloat32
    && (forall j :: 0 <= j < k && tr.fast(shapes[j], p) ==> tr.hit(shapes[k], p).dist < tr.hit(shapes[j], p).dist)
    && (forall j :: k < j < |shapes| && tr.fast(shapes[j], p) ==> tr.hit(shapes[k], p).dist <= tr.hit(shapes[j], p).dist)
  }

  /** No shape passes the bounding test with a distance below MaxFloat32. */
  ghost predicate Missed(shapes: seq<Shape>, tr: Tracer, p: Probe)
  {
    forall j :: 0 <= j < |shapes| && tr.fast(shapes[j], p) ==> tr.hit(shapes[j], p).dist >= MaxFloat32
  }

  /** The colour ComputePixel gives when shape k is the nearest hit. */
  function HitColour(shapes: seq<Shape>, tr: Tracer, p: Probe, light: Vec, k: nat): (real, RGBA)
    requires k < |shapes|
  {
    (tr.hit(shapes[k], p).dist, Shade(shapes[k].colour, tr.cosine(light, tr.hit(shapes[k], p))))
  }

  /** The pixel is the background when nothing is hit, and otherwise the
      shaded colour of the first nearest hit. */
  lemma {:induction false} ScanResult(shapes: seq<Shape>, tr: Tracer, p: Probe, light: Vec, bg: RGBA)
    ensures Missed(shapes, tr, p) ==> Scan(shapes, tr, p, light, bg) == (MaxFloat32, bg)
    ensures !Missed(shapes, tr, p) ==>
              exists k :: Winner(shapes, tr, p, k) && Scan(shapes, tr, p, light, bg) == HitColour(shapes, tr, p, light, k)
  {
    if shapes != [] {
      var front := shapes[..|shapes| - 1];
      ScanResult(front, tr, p, light, bg);
      if Missed(front, tr, p) {
        MissedExtend(shapes, tr, p, light, bg);
      } else {
        var k :| Winner(front, tr, p, k) && Scan(front, tr, p, light, bg) == HitColour(front, tr, p, light, k);
        WinnerExtend(shapes, tr, p, light, bg, k);
      }
    }
  }

  /** One more shape after a prefix that hit nothing. */
  lemma {:induction false} MissedExtend(shapes: seq<Shape>, tr: Tracer, p: Probe, light: Vec, bg: RGBA)
    requires shapes != []
    requires Missed(shapes[..|shapes| - 1], tr, p)
    requires Scan(shapes[..|shapes| - 1], tr, p, light, bg) == (MaxFloat32, bg)
    ensures Missed(shapes, tr, p) ==> Scan(shapes, tr, p, light, bg) == (MaxFloat32, bg)
    ensures !Missed(shapes, tr, p) ==>
              Winner(shapes, tr, p, |shapes| - 1) &&
              Scan(shapes, tr, p, light, bg) == HitColour(shapes, tr, p, light, |shapes| - 1)
  {
    var n := |shapes| - 1;
    var front := shapes[..n];
    assert forall j :: 0 <= j < n ==> front[j] == shapes[j];
    if !Missed(shapes, tr, p) {
      assert tr.fast(shapes[n], p) && tr.hit(shapes[n], p).dist < MaxFloat32;
    }
  }

  /** One more shape after a prefix whose first nearest hit is k: the new
      shape wins only when it is strictly nearer. */
  lemma {:induction false} WinnerExtend(shapes: seq<Shape>, tr: Tracer, p: Probe, light: Vec, bg: RGBA, k: nat)
    requires shapes != []
    requires Winner(shapes[..|shapes| - 1], tr, p, k)
    requires Scan(shapes[..|shapes| - 1], tr, p, light, bg) == HitColour(shapes[..|shapes| - 1], tr, p, light, k)
    ensures !Missed(shapes, tr, p)
    ensures var n := |shapes| - 1;
            var w := if tr.fast(shapes[n], p) && tr.hit(shapes[n], p).dist < tr.hit(shapes[k], p).dist then n else k;
            Winner(shapes, tr, p, w) && Scan(shapes, tr, p, light, bg) == HitColour(shapes, tr, p, light, w)
  {
    var n := |shapes| - 1;
    var front := shapes[..n];
    assert forall j :: 0 <= j < n ==> front[j] == shapes[j];
    assert front[k] == shapes[k];
  }

  /** There is at most one first nearest hit. */
  lemma {:induction false} WinnerUnique(shapes: seq<Shape>, tr: Tracer, p: Probe, k: int, l: int)
    requires Winner(shapes, tr, p, k) && Winner(shapes, tr, p, l)
    ensures k == l
  {
  }

  /** The colour of pixel (x, y) once the frame's shapes are traced. */
  function TracedPixel(shapes: seq<Shape>, view: View, light: Vec, bg: RGBA, tr: Tracer, x: int, y: int): RGBA
  {
    Scan(shapes, tr, Probe(view, x, y), light, bg).1
  }

  /** The colour of pixel (x, y) of a rendered frame, banner included. */
  function FramePixel(shapes: seq<Shape>, view: View, light: Vec, bg: RGBA, banner: bool, tr: Tracer, x: int, y: int): RGBA
  {
    if banner && BannerAt(view.width, view.height, x, y) then BannerGrey
    else TracedPixel(shapes, view, light, bg, tr, x, y)
  }

  // ----- the scene -----

  class Scene {
    var mol: Molecule
    var view: View
    var shapes: seq<Shape>
    var light: Vec
    var bg: RGBA
    var banner: bool
    var atomSize: real
    var bondSize: real

    /** The shapes are the geometry of the molecule as it is now. */
    ghost predicate UpToDate()
      reads this, mol
    {
      mol.Valid() && shapes == Geometry(mol.atoms, mol.bonds, atomSize, bondSize)
    }

    /** NewScene: the camera stands 8 beyond the atom farthest from the
        origin, and the light at (1000, 500, -1000); every other field keeps
        Go's zero value. `length` is Vec.Len. */
    constructor (mol: Molecule, w: nat, h: nat, length: Vec -> real)
      ensures this.mol == mol
      ensures view == View(w, h, Farthest(Positions(mol.atoms), length) + 8.0)
      ensures light == Vec(1000.0, 500.0, -1000.0)
      ensures shapes == [] && bg == Transparent && !banner && atomSize == 0.0 && bondSize == 0.0
    {
      var r := FarthestLoop(Positions(mol.atoms), length);
      this.mol := mol;
      view := View(w, h, r + 8.0);
      light := Vec(1000.0, 500.0, -1000.0);
      shapes := [];
      bg := Transparent;
      banner := false;
      atomSize := 0.0;
      bondSize := 0.0;
    }

    /** Rebuild the shape list from the molecule: a sphere per atom, then, for
        a bond size above 0.001, the two half cylinders of every bond. */
    method UpdateGeometry()
      requires mol.Valid()
      modifies this`shapes
      ensures UpToDate()
    {
      var atoms, bonds := mol.atoms, mol.bonds;
      shapes := [];
      for i := 0 to |atoms|
        invariant shapes == Spheres(atoms[..i], atomSize)
      {
        SpheresStep(atoms, i, atomSize);
        shapes := shapes + [Sphere(atoms[i].pos, atomSize, Colour(atoms[i].name))];
      }
      assert atoms[..|atoms|] == atoms;
      if bondSize > MinBondSize {
        for k := 0 to |bonds|
          invariant shapes == Spheres(atoms, atomSize) + HalfBonds(atoms, bonds[..k], bondSize)
        {
          HalfBondsStep(atoms, bonds, k, bondSize);
          var bnd := bonds[k];
          var pa, pb := atoms[bnd.a].pos, atoms[bnd.b].pos;
          var mid := VecScale(VecAdd(pa, pb), 0.5);
          shapes := shapes + [Cylinder(pa, mid, bondSize, Colour(atoms[bnd.a].name))];
          shapes := shapes + [Cylinder(pb, mid, bondSize, Colour(atoms[bnd.b].name))];
        }
        assert bonds[..|bonds|] == bonds;
      }
    }

    /** ComputePixel: scan every shape, keep the nearest distance seen so far
        and the shaded colour of the shape that set it. */
    method ComputePixel(x: int, y: int, tr: Tracer) returns (pix: RGBA)
      ensures pix == TracedPixel(shapes, view, light, bg, tr, x, y)
    {
      var p := Probe(view, x, y);
      pix := bg;
      var zmin := MaxFloat32;
      for i := 0 to |shapes|
        invariant (zmin, pix) == Scan(shapes[..i], tr, p, light, bg)
      {
        assert shapes[..i + 1][..i] == shapes[..i];
        var s := shapes[i];
        if !tr.fast(s, p) {
          continue;
        }
        var h := tr.hit(s, p);
        if h.dist < zmin {
          zmin := h.dist;
          pix := Shade(s.colour, tr.cosine(light, h));
        }
      }
      assert shapes[..|shapes|] == shapes;
    }

    /** RenderTile: a fresh image with the tile's bounds, every pixel computed. */
    method RenderTile(b: Rect, tr: Tracer) returns (img: array2<RGBA>)
      requires b.minX <= b.maxX && b.minY <= b.maxY
      ensures fresh(img)
      ensures img.Length0 == b.maxX - b.minX && img.Length1 == b.maxY - b.minY
      ensures forall u, v :: 0 <= u < img.Length0 && 0 <= v < img.Length1 ==>
                img[u, v] == TracedPixel(shapes, view, light, bg, tr, b.minX + u, b.minY + v)
    {
      img := new RGBA[b.maxX - b.minX, b.maxY - b.minY]((u, v) => Transparent);
      for u := 0 to img.Length0
        invariant forall p, q :: 0 <= p < u && 0 <= q < img.Length1 ==>
                    img[p, q] == TracedPixel(shapes, view, light, bg, tr, b.minX + p, b.minY + q)
      {
        for v := 0 to img.Length1
          invariant forall p, q :: 0 <= p < img.Length0 && 0 <= q < img.Length1 && (p < u || (p == u && q < v)) ==>
                      img[p, q] == TracedPixel(shapes, view, light, bg, tr, b.minX + p, b.minY + q)
        {
          img[u, v] := ComputePixel(b.minX + u, b.minY + v, tr);
        }
      }
    }

    /** Render: every scheduled tile is rendered and composited into a fresh
        width x height image, in whatever order the tiles arrive; then the
        banner, if enabled, is drawn on top. */
    method Render(arrivals: seq<Rect>, tr: Tracer) returns (img: array2<RGBA>)
      requires forall t :: t in arrivals <==> t in Schedule(view.width, view.height)
      ensures fresh(img)
      ensures img.Length0 == view.width && img.Length1 == view.height
      ensures forall x, y :: 0 <= x < img.Length0 && 0 <= y < img.Length1 ==>
                img[x, y] == FramePixel(shapes, view, light, bg, banner, tr, x, y)
    {
      img := new RGBA[view.width, view.height]((x, y) => Transparent);
      for k := 0 to |arrivals|
        invariant forall x, y :: 0 <= x < img.Length0 && 0 <= y < img.Length1 ==>
                    img[x, y] == if Covered(arrivals[..k], x, y)
                                 then TracedPixel(shapes, view, light, bg, tr, x, y) else Transparent
      {
        var t := arrivals[k];
        ScheduleTiles(view.width, view.height, t);
        var tile := RenderTile(t, tr);
        Draw(img, tile, t);
        forall x, y | 0 <= x < img.Length0 && 0 <= y < img.Length1
          ensures Covered(arrivals[..k + 1], x, y) <==> Covered(arrivals[..k], x, y) || InRect(t, x, y)
        {
          CoveredStep(arrivals, k, x, y);
        }
      }
      forall x, y | 0 <= x < img.Length0 && 0 <= y < img.Length1
        ensures Covered(arrivals, x, y)
      {
        ArrivalsCover(arrivals, view.width, view.height, x, y);
      }
      assert arrivals[..|arrivals|] == arrivals;
      if banner {
        DrawBanner(img);
      }
    }
  }

  /** The positions of the atoms, in order. */
  function Positions(atoms: seq<Atom>): (ps: seq<Vec>)
    ensures |ps| == |atoms| && forall i :: 0 <= i < |atoms| ==> ps[i] == atoms[i].pos
  {
    seq(|atoms|, i requires 0 <= i < |atoms| => atoms[i].pos)
  }

  // ----- the animation -----

  /** math.Sincos and math.Sqrt, which the model does not compute. */
  datatype Trig = Trig(sin: real -> real, cos: real -> real, sqrt: real -> real)

  const FPS: nat := 50

  /** The sum of the absolute axis weights. */
  function Weight(rotvec: Vec): real
  {
    Abs(rotvec.x) + Abs(rotvec.y) + Abs(rotvec.z)
  }

  function Abs(a: real): real
  {
    if a < 0.0 then -a else a
  }

  const Pi: real := 3.141592653589793

  /** The per-frame angle: a full turn over the frames, divided by the
      square root of the axis weight. */
  function Angle(loopTime: nat, rotvec: Vec, trig: Trig): real
    requires loopTime >= 1 && trig.sqrt(Weight(rotvec)) != 0.0
  {
    2.0 * Pi / ((loopTime * FPS) as real) / trig.sqrt(Weight(rotvec))
  }

  /** The per-frame rotation: the identity times the x, y and z rotations by
      the angle times each axis weight, so the z rotation acts first. */
  function Spin(loopTime: nat, rotvec: Vec, trig: Trig): Mat
    requires loopTime >= 1 && trig.sqrt(Weight(rotvec)) != 0.0
  {
    var a := Angle(loopTime, rotvec, trig);
    SpinOf(Sines(trig, a, rotvec), Cosines(trig, a, rotvec))
  }

  /** math.Sincos of the angle times each axis weight. */
  function Sines(trig: Trig, a: real, rotvec: Vec): Vec
  {
    Vec(trig.sin(a * rotvec.x), trig.sin(a * rotvec.y), trig.sin(a * rotvec.z))
  }

  function Cosines(trig: Trig, a: real, rotvec: Vec): Vec
  {
    Vec(trig.cos(a * rotvec.x), trig.cos(a * rotvec.y), trig.cos(a * rotvec.z))
  }

  /** The product of the three axis rotations with the given sines and cosines. */
  function SpinOf(s: Vec, c: Vec): Mat
  {
    MatMat(MatMat(MatMat(MatIdent(), MatRotX(s.x, c.x)), MatRotY(s.y, c.y)), MatRotZ(s.z, c.z))
  }

  /** The identity on either side of a product changes nothing. */
  lemma {:induction false} IdentNeutral(m: Mat)
    ensures MatMat(MatIdent(), m) == m
    ensures MatMat(m, MatIdent()) == m
  {
  }

  /** With a zero angle about x and z, the spin is a plain rotation about y. */
  lemma {:induction false} SpinAboutY(s: Vec, c: Vec)
    requires s.x == 0.0 && c.x == 1.0 && s.z == 0.0 && c.z == 1.0
    ensures SpinOf(s, c) == MatRotY(s.y, c.y)
  {
    var ry := MatRotY(s.y, c.y);
    assert MatRotX(s.x, c.x) == MatIdent() && MatRotZ(s.z, c.z) == MatIdent();
    calc {
      SpinOf(s, c);
      MatMat(MatMat(MatMat(MatIdent(), MatIdent()), ry), MatIdent());
      { IdentNeutral(MatIdent()); }
      MatMat(MatMat(MatIdent(), ry), MatIdent());
      { IdentNeutral(ry); }
      MatMat(ry, MatIdent());
      { IdentNeutral(ry); }
      ry;
    }
  }

  /** So with only the y weight set, and sine and cosine exact at 0, every
      frame keeps each atom's y coordinate. */
  lemma {:induction false} SpinKeepsY(loopTime: nat, rotvec: Vec, trig: Trig, atoms: seq<Atom>, i: nat)
    requires loopTime >= 1 && trig.sqrt(Weight(rotvec)) != 0.0
    requires rotvec.x == 0.0 && rotvec.z == 0.0
    requires trig.sin(0.0) == 0.0 && trig.cos(0.0) == 1.0
    ensures forall k :: 0 <= k < |atoms| ==>
              TurnedN(atoms, Spin(loopTime, rotvec, trig), i)[k].pos.y == atoms[k].pos.y
  {
    var a := Angle(loopTime, rotvec, trig);
    var s, c := Sines(trig, a, rotvec), Cosines(trig, a, rotvec);
    assert a * rotvec.x == 0.0 && a * rotvec.z == 0.0;
    SpinAboutY(s, c);
    TurnedNAboutY(atoms, s.y, c.y, i);
  }

  /** The spin applies the z rotation first, then y, then x. */
  lemma {:induction false} SpinApplies(s: Vec, c: Vec, v: Vec)
    ensures MatVec(SpinOf(s, c), v) == MatVec(MatRotX(s.x, c.x), MatVec(MatRotY(s.y, c.y), MatVec(MatRotZ(s.z, c.z), v)))
  {
    var rx, ry, rz := MatRotX(s.x, c.x), MatRotY(s.y, c.y), MatRotZ(s.z, c.z);
    calc {
      MatVec(SpinOf(s, c), v);
      MatVec(MatMat(MatMat(MatIdent(), rx), ry), MatVec(rz, v));
      MatVec(MatMat(MatIdent(), rx), MatVec(ry, MatVec(rz, v)));
      MatVec(MatIdent(), MatVec(rx, MatVec(ry, MatVec(rz, v))));
    }
  }

  /** With each axis's sine and cosine on the unit circle, the spin keeps
      every vector's length. */
  lemma {:induction false} SpinKeepsLength(s: Vec, c: Vec, v: Vec)
    requires s.x * s.x + c.x * c.x == 1.0
    requires s.y * s.y + c.y * c.y == 1.0
    requires s.z * s.z + c.z * c.z == 1.0
    ensures LenSq(MatVec(SpinOf(s, c), v)) == LenSq(v)
  {
    SpinApplies(s, c, v);
    RotZYXKeepsLength(s, c, v);
  }

  /** When sine and cosine satisfy the Pythagorean identity, no number of
      frames changes which atoms are bonded: the bonds computed once before
      the animation are the bond list of every frame's atoms. */
  lemma {:induction false} SpinKeepsBonds(loopTime: nat, rotvec: Vec, trig: Trig, atoms: seq<Atom>, h: bool, k: nat)
    requires loopTime >= 1 && trig.sqrt(Weight(rotvec)) != 0.0
    requires forall t :: trig.sin(t) * trig.sin(t) + trig.cos(t) * trig.cos(t) == 1.0
    ensures BondList(TurnedN(atoms, Spin(loopTime, rotvec, trig), k), h) == BondList(atoms, h)
  {
    var a := Angle(loopTime, rotvec, trig);
    var s, c := Sines(trig, a, rotvec), Cosines(trig, a, rotvec);
    forall v
      ensures LenSq(MatVec(SpinOf(s, c), v)) == LenSq(v)
    {
      SpinKeepsLength(s, c, v);
    }
    TurnedNKeepsBonds(atoms, SpinOf(s, c), h, k);
  }

  /** img holds the frame the scene's fields would give with these shapes. */
  ghost predicate Shows(img: array2<RGBA>, shapes: seq<Shape>, view: View, light: Vec, bg: RGBA, banner: bool, tr: Tracer)
    reads img
  {
    && img.Length0 == view.width && img.Length1 == view.height
    && forall x, y :: 0 <= x < img.Length0 && 0 <= y < img.Length1 ==>
         img[x, y] == FramePixel(shapes, view, light, bg, banner, tr, x, y)
  }

  /** One pass of RenderAll's loop: render the current frame, then turn the
      molecule by rot and rebuild the shapes; nothing else in the scene changes. */
  method RenderFrame(sc: Scene, rot: Mat, arrivals: seq<Rect>, tr: Tracer) returns (img: array2<RGBA>)
    requires sc.UpToDate()
    requires forall t :: t in arrivals <==> t in Schedule(sc.view.width, sc.view.height)
    modifies sc, sc.mol
    ensures fresh(img)
    ensures Shows(img, old(sc.shapes), sc.view, sc.light, sc.bg, sc.banner, tr)
    ensures sc.mol == old(sc.mol) && sc.mol.bonds == old(sc.mol.bonds)
    ensures sc.mol.atoms == Turned(old(sc.mol.atoms), rot)
    ensures sc.view == old(sc.view) && sc.light == old(sc.light) && sc.bg == old(sc.bg)
    ensures sc.banner == old(sc.banner) && sc.atomSize == old(sc.atomSize) && sc.bondSize == old(sc.bondSize)
    ensures sc.UpToDate()
  {
    img := sc.Render(arrivals, tr);
    Advance(sc, rot);
  }

  /** The tail of RenderAll's loop body: turn the molecule by rot and
      rebuild the shapes; nothing else in the scene changes. */
  method Advance(sc: Scene, rot: Mat)
    requires sc.UpToDate()
    modifies sc, sc.mol
    ensures sc.mol == old(sc.mol) && sc.mol.bonds == old(sc.mol.bonds)
    ensures sc.mol.atoms == Turned(old(sc.mol.atoms), rot)
    ensures sc.view == old(sc.view) && sc.light == old(sc.light) && sc.bg == old(sc.bg)
    ensures sc.banner == old(sc.banner) && sc.atomSize == old(sc.atomSize) && sc.bondSize == old(sc.bondSize)
    ensures sc.UpToDate()
  {
    sc.mol.Rotate(rot);
    sc.UpdateGeometry();
  }

  /** RenderAll: loopTime*50 frames, each with delay 100/50 = 2; frame i is
      rendered before the i-th rotation, so frame 0 shows the molecule as it
      was and frame i shows it after i spins. `arrival(i)` is the order in
      which frame i's tiles come back from the workers. The frames are the
      images before palettisation. */
  method RenderAll(sc: Scene, loopTime: nat, rotvec: Vec, trig: Trig, tr: Tracer, arrival: nat -> seq<Rect>)
    returns (frames: seq<array2<RGBA>>, delays: seq<int>)
    requires loopTime >= 1 && trig.sqrt(Weight(rotvec)) != 0.0
    requires sc.UpToDate()
    requires forall i: nat, t :: t in arrival(i) <==> t in Schedule(sc.view.width, sc.view.height)
    modifies sc, sc.mol
    ensures |frames| == |delays| == loopTime * FPS
    ensures forall i :: 0 <= i < |delays| ==> delays[i] == 2
    ensures sc.mol == old(sc.mol) && sc.mol.bonds == old(sc.mol.bonds)
    ensures sc.mol.atoms == TurnedN(old(sc.mol.atoms), Spin(loopTime, rotvec, trig), loopTime * FPS)
    ensures sc.UpToDate()
    ensures forall i :: 0 <= i < |frames| ==> fresh(frames[i])
    ensures forall i :: 0 <= i < |frames| ==>
              Shows(frames[i],
                    Film(old(sc.mol.atoms), old(sc.mol.bonds), Spin(loopTime, rotvec, trig),
                         old(sc.atomSize), old(sc.bondSize), loopTime * FPS)[i],
                    old(sc.view), old(sc.light), old(sc.bg), old(sc.banner), tr)
  {
    var nframes := loopTime * FPS;
    var rot := SpinMatrix(loopTime, rotvec, trig);
    frames, delays := Animate(sc, rot, nframes, tr, arrival);
  }

  /** The shape lists of the first n frames of an animation by rot. */
  ghost function Film(atoms: seq<Atom>, bonds: seq<Bond>, rot: Mat, atomSize: real, bondSize: real, n: nat): (r: seq<seq<Shape>>)
    requires BondsInRange(bonds, |atoms|)
    ensures |r| == n
  {
    if n == 0 then []
    else Film(atoms, bonds, rot, atomSize, bondSize, n - 1) + [Geometry(TurnedN(atoms, rot, n - 1), bonds, atomSize, bondSize)]
  }

  /** Frame k of the film shows the molecule after k turns. */
  lemma {:induction false} FilmAt(atoms: seq<Atom>, bonds: seq<Bond>, rot: Mat, atomSize: real, bondSize: real, n: nat)
    requires BondsInRange(bonds, |atoms|)
    ensures forall k :: 0 <= k < n ==>
              Film(atoms, bonds, rot, atomSize, bondSize, n)[k] == Geometry(TurnedN(atoms, rot, k), bonds, atomSize, bondSize)
  {
    if n > 0 {
      FilmAt(atoms, bonds, rot, atomSize, bondSize, n - 1);
    }
  }

  /** The head of RenderAll: the identity multiplied in turn by the x, y and
      z rotations through the angle times each axis weight. */
  method SpinMatrix(loopTime: nat, rotvec: Vec, trig: Trig) returns (rot: Mat)
    requires loopTime >= 1 && trig.sqrt(Weight(rotvec)) != 0.0
    ensures rot == Spin(loopTime, rotvec, trig)
  {
    var ang := 2.0 * Pi / ((loopTime * FPS) as real) / trig.sqrt(Weight(rotvec));
    var s, c := Sines(trig, ang, rotvec), Cosines(trig, ang, rotvec);
    rot := MatIdent();
    rot := MatMat(rot, MatRotX(s.x, c.x));
    rot := MatMat(rot, MatRotY(s.y, c.y));
    rot := MatMat(rot, MatRotZ(s.z, c.z));
  }

  /** RenderAll's frame loop, for a given per-frame rotation. */
  method Animate(sc: Scene, rot: Mat, nframes: nat, tr: Tracer, arrival: nat -> seq<Rect>)
    returns (frames: seq<array2<RGBA>>, delays: seq<int>)
    requires sc.UpToDate()
    requires forall i: nat, t :: t in arrival(i) <==> t in Schedule(sc.view.width, sc.view.height)
    modifies sc, sc.mol
    ensures |frames| == |delays| == nframes
    ensures forall i :: 0 <= i < |delays| ==> delays[i] == 2
    ensures sc.mol == old(sc.mol) && sc.mol.bonds == old(sc.mol.bonds)
    ensures sc.mol.atoms == TurnedN(old(sc.mol.atoms), rot, nframes)
    ensures sc.UpToDate()
    ensures forall i :: 0 <= i < |frames| ==> fresh(frames[i])
    ensures forall i :: 0 <= i < |frames| ==>
              Shows(frames[i], Film(old(sc.mol.atoms), old(sc.mol.bonds), rot, old(sc.atomSize), old(sc.bondSize), nframes)[i],
                    old(sc.view), old(sc.light), old(sc.bg), old(sc.banner), tr)
  {
    ghost var atoms0, bonds0 := sc.mol.atoms, sc.mol.bonds;
    ghost var view0, light0, bg0, banner0 := sc.view, sc.light, sc.bg, sc.banner;
    ghost var atomSize0, bondSize0 := sc.atomSize, sc.bondSize;
    ghost var shown: seq<seq<Shape>> := [];
    frames, delays := [], [];
    for i := 0 to nframes
      invariant sc.mol == old(sc.mol) && sc.mol.bonds == bonds0
      invariant sc.view == view0 && sc.light == light0 && sc.bg == bg0 && sc.banner == banner0
      invariant sc.atomSize == atomSize0 && sc.bondSize == bondSize0
      invariant sc.mol.atoms == TurnedN(atoms0, rot, i)
      invariant sc.UpToDate()
      invariant |frames| == |delays| == |shown| == i
      invariant forall k :: 0 <= k < i ==> delays[k] == 2
      invariant forall k :: 0 <= k < i ==> fresh(frames[k])
      invariant shown == Film(atoms0, bonds0, rot, atomSize0, bondSize0, i)
      invariant forall k :: 0 <= k < i ==> Shows(frames[k], shown[k], view0, light0, bg0, banner0, tr)
    {
      shown := shown + [sc.shapes];
      var img := RenderFrame(sc, rot, arrival(i), tr);
      frames := frames + [img];
      delays := delays + [100 / FPS];
    }
  }
}
