/** The molecule of molgif.go: its atom and bond lists, updated in place by
    MakeBonds, MoveToOrigin and Rotate, and the checks NewMolecule makes on
    the atoms it has parsed. */
module MolgifMolecule {
  import opened Kernel
  import opened Atoms
  import opened Raster
  import opened Wrappers

  /** Part of the element colour table; the full table has an entry for every
      element up to Lr, and its contents are static data. */
  const Elements: map<string, RGBA> := map[
    "H" := RGBA(255, 255, 255, 255),
    "He" := RGBA(217, 255, 255, 255),
    "C" := RGBA(146, 146, 146, 255),
    "N" := RGBA(143, 143, 255, 255),
    "O" := RGBA(240, 0, 0, 255),
    "P" := RGBA(255, 128, 0, 255),
    "S" := RGBA(255, 200, 50, 255),
    "Cl" := RGBA(32, 240, 32, 255)]

  /** `Elements[name]`: Go's map index yields the zero colour for a missing key. */
  function Colour(name: string): (c: RGBA)
    ensures name in Elements ==> c == Elements[name]
    ensures name !in Elements ==> c == Transparent
  {
    if name in Elements then Elements[name] else Transparent
  }

  /** A symbol is painted opaque exactly when the table knows it. */
  lemma {:induction false} ColourOpaque(name: string)
    ensures Colour(name).a == 255 <==> name in Elements
  {
  }

  class Molecule {
    var atoms: seq<Atom>
    var bonds: seq<Bond>

    /** Every bond refers to atoms of this molecule. */
    ghost predicate Valid()
      reads this
    {
      BondsInRange(bonds, |atoms|)
    }

    /** `new(Molecule)` followed by the parser's appends. */
    constructor (parsed: seq<Atom>)
      ensures atoms == parsed && bonds == []
      ensures Valid()
    {
      atoms := parsed;
      bonds := [];
    }

    /** Clear the bond list, then append every ordered pair (a, b) that is not
        two hydrogens and lies closer than the threshold, outer atom first. */
    method MakeBonds()
      modifies this
      ensures atoms == old(atoms)
      ensures bonds == BondList(atoms, true)
      ensures Valid()
    {
      bonds := [];
      for i := 0 to |atoms|
        invariant atoms == old(atoms)
        invariant bonds == PairScan(Rule(atoms, true), i, |atoms|)
      {
        for j := 0 to |atoms|
          invariant atoms == old(atoms)
          invariant bonds == PairScan(Rule(atoms, true), i, |atoms|) + RowScan(Rule(atoms, true), i, j)
        {
          var a, b := atoms[i], atoms[j];
          if a.name == "H" && b.name == "H" {
            continue;
          }
          var d := VecSub(a.pos, b.pos);
          if LenSq(d) < Thresh * Thresh {
            bonds := bonds + [Bond(i, j)];
          }
        }
      }
      BondListInRange(atoms, true);
    }

    /** Sum the positions, scale by 1/n and subtract the result from every
        atom. With no atoms the source's 1/0 is infinite but the second loop
        then has nothing to move; the model skips the scaling. */
    method MoveToOrigin()
      modifies this
      ensures bonds == old(bonds)
      ensures atoms == Centered(old(atoms))
      ensures old(Valid()) ==> Valid()
    {
      var c := Origin;
      for i := 0 to |atoms|
        invariant atoms == old(atoms) && bonds == old(bonds)
        invariant c == Sum(atoms[..i])
      {
        assert atoms[..i + 1][..i] == atoms[..i];
        c := VecAdd(c, atoms[i].pos);
      }
      assert atoms[..|atoms|] == atoms;
      // With no atoms Go divides by zero, but the centre is then never used.
      if |atoms| > 0 {
        c := VecScale(c, 1.0 / (|atoms| as real));
      }
      ghost var before := atoms;
      for i := 0 to |atoms|
        invariant |atoms| == |before| && bonds == old(bonds)
        invariant forall k :: 0 <= k < i ==> atoms[k] == Atom(before[k].name, VecSub(before[k].pos, c))
        invariant forall k :: i <= k < |atoms| ==> atoms[k] == before[k]
      {
        atoms := atoms[i := Atom(atoms[i].name, VecSub(atoms[i].pos, c))];
      }
      if before != [] {
        assert atoms == Shifted(before, Mean(before));
      }
    }

    /** Replace every atom's position by its image under rot. */
    method Rotate(rot: Mat)
      modifies this
      ensures bonds == old(bonds)
      ensures atoms == Turned(old(atoms), rot)
      ensures old(Valid()) ==> Valid()
    {
      ghost var before := atoms;
      for i := 0 to |atoms|
        invariant |atoms| == |before| && bonds == old(bonds)
        invariant forall k :: 0 <= k < i ==> atoms[k] == Atom(before[k].name, MatVec(rot, before[k].pos))
        invariant forall k :: i <= k < |atoms| ==> atoms[k] == before[k]
      {
        atoms := atoms[i := Atom(atoms[i].name, MatVec(rot, atoms[i].pos))];
      }
      assert atoms == Turned(before, rot);
    }
  }

  datatype LoadError = UnknownElement(symbol: string) | NoAtoms

  /** The first symbol of the list that has no entry in Elements. */
  function FirstUnknown(parsed: seq<Atom>): Option<string>
  {
    if parsed == [] then None
    else if parsed[0].name !in Elements then Some(parsed[0].name)
    else FirstUnknown(parsed[1..])
  }

  /** The error NewMolecule reports for a parsed atom list, if any. */
  function LoadCheck(parsed: seq<Atom>): Option<LoadError>
  {
    match FirstUnknown(parsed)
    case Some(s) => Some(UnknownElement(s))
    case None => if parsed == [] then Some(NoAtoms) else None
  }

  /** FirstUnknown names the earliest atom whose symbol is missing, and finds
      none exactly when every symbol is known. */
  lemma {:induction false} FirstUnknownIsFirst(parsed: seq<Atom>)
    ensures FirstUnknown(parsed).None? <==> forall i :: 0 <= i < |parsed| ==> parsed[i].name in Elements
    ensures FirstUnknown(parsed).Some? ==>
              exists k :: 0 <= k < |parsed| && parsed[k].name == FirstUnknown(parsed).value
                          && parsed[k].name !in Elements
                          && forall j :: 0 <= j < k ==> parsed[j].name in Elements
  {
    if parsed != [] && parsed[0].name in Elements {
      var rest := parsed[1..];
      FirstUnknownIsFirst(rest);
      assert forall i :: 1 <= i < |parsed| ==> parsed[i] == rest[i - 1];
      if FirstUnknown(rest).Some? {
        var k :| 0 <= k < |rest| && rest[k].name == FirstUnknown(rest).value
                 && rest[k].name !in Elements
                 && forall j :: 0 <= j < k ==> rest[j].name in Elements;
        assert parsed[k + 1] == rest[k];
      }
    }
  }

  /** A list is accepted exactly when it is non-empty and every symbol is known;
      an unknown symbol is reported before emptiness could be. */
  lemma {:induction false} LoadCheckAccepts(parsed: seq<Atom>)
    ensures LoadCheck(parsed).None? <==>
              parsed != [] && forall i :: 0 <= i < |parsed| ==> parsed[i].name in Elements
    ensures LoadCheck(parsed) == Some(NoAtoms) <==> parsed == []
  {
    FirstUnknownIsFirst(parsed);
  }

  /** NewMolecule after parsing: reject the first unknown symbol as the parser
      meets it, then an empty list; otherwise derive the bonds and centre the
      molecule, in that order. */
  method NewMolecule(parsed: seq<Atom>) returns (r: Result<Molecule, LoadError>)
    ensures r.Err? <==> LoadCheck(parsed).Some?
    ensures r.Err? ==> r.error == LoadCheck(parsed).value
    ensures r.Ok? ==> fresh(r.value) && r.value.Valid()
    ensures r.Ok? ==> r.value.atoms == Centered(parsed) && r.value.bonds == BondList(parsed, true)
  {
    var atoms: seq<Atom> := [];
    for i := 0 to |parsed|
      invariant atoms == parsed[..i]
      invariant FirstUnknown(parsed) == FirstUnknown(parsed[i..])
    {
      assert parsed[i..][1..] == parsed[i + 1..];
      if parsed[i].name !in Elements {
        return Err(UnknownElement(parsed[i].name));
      }
      atoms := atoms + [parsed[i]];
    }
    assert atoms == parsed;
    if |atoms| == 0 {
      return Err(NoAtoms);
    }
    var mol := new Molecule(atoms);
    mol.MakeBonds();
    mol.MoveToOrigin();
    BondListShiftInvariant(parsed, true, Mean(parsed));
    return Ok(mol);
  }
}
