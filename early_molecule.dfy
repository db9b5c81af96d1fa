/** The molecule of the earlier revision, main.go: a list of atoms only. Its
    bonds are recomputed on demand, with no hydrogen exception, and the shape
    list pairs a sphere per atom with a placeholder cylinder per bond. */
module EarlyMolecule {
  import opened Kernel
  import opened Wrappers
  import opened Raster
  import opened Atoms
  import MolgifMolecule

  /** A table entry: the element's colour and its sphere radius. */
  datatype Element = Element(colour: RGBA, radius: real)

  /** The earlier table has the same symbols and colours as the later one,
      with radius 0.5 for every element. */
  const Table: map<string, Element> :=
    map k | k in MolgifMolecule.Elements :: Element(MolgifMolecule.Elements[k], 0.5)

  /** `elements[name]`: a missing key yields the zero Element. */
  function Lookup(name: string): (e: Element)
    ensures name in Table ==> e == Element(MolgifMolecule.Colour(name), 0.5)
    ensures name !in Table ==> e == Element(Transparent, 0.0)
  {
    if name in Table then Table[name] else Element(Transparent, 0.0)
  }

  /** The two revisions paint every symbol alike: the earlier lookup gives
      the later revision's colour, a visible radius exactly for the symbols
      the later table knows, and an opaque colour exactly for those. */
  lemma {:induction false} LookupAgrees(name: string)
    ensures Lookup(name).colour == MolgifMolecule.Colour(name)
    ensures Lookup(name).radius > 0.0 <==> name in MolgifMolecule.Elements
    ensures Lookup(name).colour.a == 255 <==> Lookup(name).radius > 0.0
  {
    MolgifMolecule.ColourOpaque(name);
  }

  /** The shapes of the earlier revision. NewCylinder ignores its end points
      and returns the zero Cylinder, centred at the origin with the zero
      colour; the model names that value a Rod. */
  datatype Shape = Ball(pos: Vec, radius: real, colour: RGBA) | Rod(pos: Vec, colour: RGBA)

  /** NewCylinder(a, b). */
  function NewCylinder(a: Vec, b: Vec): (s: Shape)
    ensures s.Rod? && s.pos == Origin && s.colour == Transparent
  {
    Rod(Origin, Transparent)
  }

  /** Shape.Center(). */
  function Center(s: Shape): Vec
  {
    s.pos
  }

  /** The sphere of one atom, with the element's radius and colour. */
  function BallOf(a: Atom): Shape
  {
    Ball(a.pos, Lookup(a.name).radius, Lookup(a.name).colour)
  }

  /** A sphere per atom, in atom order. */
  function Balls(atoms: seq<Atom>): (r: seq<Shape>)
    ensures |r| == |atoms|
    ensures forall i :: 0 <= i < |atoms| ==> r[i] == BallOf(atoms[i])
  {
    if atoms == [] then [] else Balls(atoms[..|atoms| - 1]) + [BallOf(atoms[|atoms| - 1])]
  }

  /** n placeholder cylinders: what NewCylinder gives for each of n bonds,
      whatever their end points. */
  function Rods(n: nat): (r: seq<Shape>)
    ensures |r| == n
  {
    seq(n, k => Rod(Origin, Transparent))
  }

  /** What Geometry returns: the spheres, then one cylinder per bond of a
      fresh bond list. */
  function Layout(atoms: seq<Atom>): seq<Shape>
  {
    Balls(atoms) + Rods(|BondList(atoms, false)|)
  }

  /** The layout holds |atoms| spheres in atom order, each of radius 0.5 and
      its element's colour once the symbol is known, followed by exactly one
      origin-centred Rod per bond, and every atom is bonded to itself. */
  lemma {:induction false} LayoutShape(atoms: seq<Atom>)
    ensures |Layout(atoms)| == |atoms| + |BondList(atoms, false)|
    ensures forall i :: 0 <= i < |atoms| ==>
              Layout(atoms)[i].Ball? && Layout(atoms)[i].pos == atoms[i].pos &&
              (atoms[i].name in Table ==>
                 Layout(atoms)[i].radius == 0.5 && Layout(atoms)[i].colour == MolgifMolecule.Colour(atoms[i].name))
    ensures forall k :: |atoms| <= k < |Layout(atoms)| ==> Layout(atoms)[k] == Rod(Origin, Transparent)
    ensures forall i :: 0 <= i < |atoms| ==> Bond(i, i) in BondList(atoms, false)
  {
    forall i | 0 <= i < |atoms|
      ensures Bond(i, i) in BondList(atoms, false)
    {
      BondListSelf(atoms, false, i);
    }
  }

  class Molecule {
    var atoms: seq<Atom>

    /** `new(Molecule)` followed by the parser's appends. */
    constructor (parsed: seq<Atom>)
      ensures atoms == parsed
    {
      atoms := parsed;
    }

    /** Sum the positions, scale by 1/n and subtract the result from every
        atom. With no atoms there is nothing to move. */
    method MoveToOrigin()
      modifies this
      ensures atoms == Centered(old(atoms))
    {
      var c := Origin;
      for i := 0 to |atoms|
        invariant atoms == old(atoms)
        invariant c == Sum(atoms[..i])
      {
        assert atoms[..i + 1][..i] == atoms[..i];
        c := VecAdd(c, atoms[i].pos);
      }
      assert atoms[..|atoms|] == atoms;
      if |atoms| > 0 {
        c := VecScale(c, 1.0 / (|atoms| as real));
      }
      ghost var before := atoms;
      for i := 0 to |atoms|
        invariant |atoms| == |before|
        invariant forall k :: 0 <= k < i ==> atoms[k] == Atom(before[k].name, VecSub(before[k].pos, c))
        invariant forall k :: i <= k < |atoms| ==> atoms[k] == before[k]
      {
        atoms := atoms[i := Atom(atoms[i].name, VecSub(atoms[i].pos, c))];
      }
      if before != [] {
        assert atoms == Shifted(before, Mean(before));
      }
    }

    /** Every ordered pair of atoms (self-pairs included) closer than the
        threshold, in row-major order, as a fresh list. */
    method MakeBonds() returns (bonds: seq<Bond>)
      ensures bonds == BondList(atoms, false)
    {
      bonds := [];
      for i := 0 to |atoms|
        invariant bonds == PairScan(Rule(atoms, false), i, |atoms|)
      {
        for j := 0 to |atoms|
          invariant bonds == PairScan(Rule(atoms, false), i, |atoms|) + RowScan(Rule(atoms, false), i, j)
        {
          var d := VecSub(atoms[i].pos, atoms[j].pos);
          if LenSq(d) < Thresh * Thresh {
            bonds := bonds + [Bond(i, j)];
          }
        }
      }
    }

    /** Rotate every atom about the y axis through the angle; `trig` supplies
        math.Sincos. */
    method Rotate(angle: real, trig: Trig)
      modifies this
      ensures atoms == Turned(old(atoms), RotY(angle, trig))
    {
      var r := RotY(angle, trig);
      ghost var before := atoms;
      for i := 0 to |atoms|
        invariant |atoms| == |before|
        invariant forall k :: 0 <= k < i ==> atoms[k] == Atom(before[k].name, MatVec(r, before[k].pos))
        invariant forall k :: i <= k < |atoms| ==> atoms[k] == before[k]
      {
        atoms := atoms[i := Atom(atoms[i].name, MatVec(r, atoms[i].pos))];
      }
      assert atoms == Turned(before, r);
    }

    /** A sphere per atom, then a cylinder per bond of MakeBonds. */
    method Geometry() returns (g: seq<Shape>)
      ensures g == Layout(atoms)
    {
      g := [];
      for i := 0 to |atoms|
        invariant g == Balls(atoms[..i])
      {
        BallsStep(atoms, i);
        var e := Lookup(atoms[i].name);
        g := g + [Ball(atoms[i].pos, e.radius, e.colour)];
      }
      assert atoms[..|atoms|] == atoms;
      ghost var balls := g;
      assert balls == Balls(atoms);
      var bonds := MakeBonds();
      BondListInRange(atoms, false);
      var rods := BondShapes(bonds);
      g := g + rods;
    }

    /** Geometry's second loop: a cylinder per bond. */
    method BondShapes(bonds: seq<Bond>) returns (g: seq<Shape>)
      requires BondsInRange(bonds, |atoms|)
      ensures g == Rods(|bonds|)
    {
      g := [];
      for k := 0 to |bonds|
        invariant g == Rods(k)
      {
        var b := bonds[k];
        g := g + [NewCylinder(atoms[b.a].pos, atoms[b.b].pos)];
      }
    }
  }

  /** The sine and cosine that math.Sincos returns. */
  datatype Trig = Trig(sin: real -> real, cos: real -> real)

  /** MatRotY(angle). */
  function RotY(angle: real, trig: Trig): Mat
  {
    MatRotY(trig.sin(angle), trig.cos(angle))
  }

  /** Turning by an angle and then by its negation puts every atom back,
      when sine is odd, cosine even and the pair on the unit circle. */
  lemma {:induction false} RotateBack(atoms: seq<Atom>, angle: real, trig: Trig)
    requires trig.sin(-angle) == -trig.sin(angle) && trig.cos(-angle) == trig.cos(angle)
    requires trig.sin(angle) * trig.sin(angle) + trig.cos(angle) * trig.cos(angle) == 1.0
    ensures Turned(Turned(atoms, RotY(angle, trig)), RotY(-angle, trig)) == atoms
  {
    var s, c := trig.sin(angle), trig.cos(angle);
    forall v
      ensures MatVec(RotY(-angle, trig), MatVec(RotY(angle, trig), v)) == v
    {
      RotYRoundTrip(s, c, v);
    }
    TurnedBack(atoms, RotY(angle, trig), RotY(-angle, trig));
  }

  /** Any number of earlier-revision turns keeps every atom's name and its
      y coordinate, whatever axis flags were given. */
  lemma {:induction false} RotateKeepsY(atoms: seq<Atom>, angle: real, trig: Trig, k: nat)
    ensures forall i :: 0 <= i < |atoms| ==>
              TurnedN(atoms, RotY(angle, trig), k)[i].name == atoms[i].name &&
              TurnedN(atoms, RotY(angle, trig), k)[i].pos.y == atoms[i].pos.y
  {
    TurnedNAboutY(atoms, trig.sin(angle), trig.cos(angle), k);
  }

  /** One more atom adds its sphere at the end. */
  lemma {:induction false} BallsStep(atoms: seq<Atom>, i: nat)
    requires i < |atoms|
    ensures Balls(atoms[..i + 1]) == Balls(atoms[..i]) + [BallOf(atoms[i])]
  {
    assert atoms[..i + 1][..i] == atoms[..i];
  }

  /** NewMolecule after parsing: the same symbol and emptiness checks as the
      later revision (the two tables have the same symbols), then centring;
      no bonds are stored. */
  method NewMolecule(parsed: seq<Atom>) returns (r: Result<Molecule, MolgifMolecule.LoadError>)
    ensures r.Err? <==> MolgifMolecule.LoadCheck(parsed).Some?
    ensures r.Err? ==> r.error == MolgifMolecule.LoadCheck(parsed).value
    ensures r.Ok? ==> fresh(r.value) && r.value.atoms == Centered(parsed)
  {
    var atoms: seq<Atom> := [];
    for i := 0 to |parsed|
      invariant atoms == parsed[..i]
      invariant MolgifMolecule.FirstUnknown(parsed) == MolgifMolecule.FirstUnknown(parsed[i..])
    {
      assert parsed[i..][1..] == parsed[i + 1..];
      if parsed[i].name !in Table {
        return Err(MolgifMolecule.UnknownElement(parsed[i].name));
      }
      atoms := atoms + [parsed[i]];
    }
    assert atoms == parsed;
    if |atoms| == 0 {
      return Err(MolgifMolecule.NoAtoms);
    }
    var mol := new Molecule(atoms);
    mol.MoveToOrigin();
    return Ok(mol);
  }
}
