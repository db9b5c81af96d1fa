/** Atoms, bonds and the whole-molecule transforms. Both revisions of the
    program (molgif.go and the older main.go) share these definitions; they
    differ only in whether two hydrogens may bond, which is the flag
    `skipHydrogenPairs` below. */
module Atoms {
  import opened Kernel

  datatype Atom = Atom(name: string, pos: Vec)

  /** A bond between the atoms at indices a and b of the molecule's atom
      list. The source holds references to two shared atoms; an index reads the same
      atom, so a bond sees every later move of its atoms. */
  datatype Bond = Bond(a: nat, b: nat)

  /** Bond length threshold; the source compares squared lengths with
      thresh*thresh, which is 2.56. */
  const Thresh: real := 1.6

  /** The source's condition for appending the ordered pair (p, q). */
  predicate Linked(p: Atom, q: Atom, skipHydrogenPairs: bool)
  {
    && !(skipHydrogenPairs && p.name == "H" && q.name == "H")
    && LenSq(VecSub(p.pos, q.pos)) < Thresh * Thresh
  }

  /** The pair rule of a revision on the indices of an atom list, as a value
      the scans below are generic in. */
  function Rule(atoms: seq<Atom>, skipHydrogenPairs: bool): (nat, nat) -> bool
  {
    (i: nat, j: nat) => i < |atoms| && j < |atoms| && Linked(atoms[i], atoms[j], skipHydrogenPairs)
  }

  /** The bonds (i, k) for k < m that the inner loop appends, in order. */
  function RowScan(rule: (nat, nat) -> bool, i: nat, m: nat): seq<Bond>
  {
    if m == 0 then []
    else RowScan(rule, i, m - 1) + (if rule(i, m - 1) then [Bond(i, m - 1)] else [])
  }

  /** The bonds the outer loop has appended after its first n rows, each row
      scanning size inner indices. */
  function PairScan(rule: (nat, nat) -> bool, n: nat, size: nat): seq<Bond>
  {
    if n == 0 then []
    else PairScan(rule, n - 1, size) + RowScan(rule, n - 1, size)
  }

  /** The full bond list of the row-major ordered-pair scan. */
  function BondList(atoms: seq<Atom>, skipHydrogenPairs: bool): seq<Bond>
  {
    PairScan(Rule(atoms, skipHydrogenPairs), |atoms|, |atoms|)
  }

  /** Every bond refers to atoms that exist. */
  ghost predicate BondsInRange(bonds: seq<Bond>, n: nat)
  {
    forall k :: 0 <= k < |bonds| ==> bonds[k].a < n && bonds[k].b < n
  }

  /** Strict row-major order of bonds. */
  predicate Before(p: Bond, q: Bond)
  {
    p.a < q.a || (p.a == q.a && p.b < q.b)
  }

  lemma {:induction false} RowScanMembers(rule: (nat, nat) -> bool, i: nat, m: nat, bond: Bond)
    ensures bond in RowScan(rule, i, m) <==> bond.a == i && bond.b < m && rule(i, bond.b)
  {
    if m > 0 {
      RowScanMembers(rule, i, m - 1, bond);
    }
  }

  lemma {:induction false} PairScanMembers(rule: (nat, nat) -> bool, n: nat, size: nat, bond: Bond)
    ensures bond in PairScan(rule, n, size) <==> bond.a < n && bond.b < size && rule(bond.a, bond.b)
  {
    if bond in PairScan(rule, n, size) {
      PairScanSound(rule, n, size, bond);
    }
    if bond.a < n && bond.b < size && rule(bond.a, bond.b) {
      PairScanComplete(rule, n, size, bond);
    }
  }

  /** Every bond the first n rows append lies in those rows and passes the rule. */
  lemma {:induction false} PairScanSound(rule: (nat, nat) -> bool, n: nat, size: nat, bond: Bond)
    requires bond in PairScan(rule, n, size)
    ensures bond.a < n && bond.b < size && rule(bond.a, bond.b)
  {
    var prev, row := PairScan(rule, n - 1, size), RowScan(rule, n - 1, size);
    assert bond in prev + row;
    if bond in prev {
      PairScanSound(rule, n - 1, size, bond);
    } else {
      RowScanMembers(rule, n - 1, size, bond);
    }
  }

  /** Every pair in the first n rows that passes the rule is appended. */
  lemma {:induction false} PairScanComplete(rule: (nat, nat) -> bool, n: nat, size: nat, bond: Bond)
    requires bond.a < n && bond.b < size && rule(bond.a, bond.b)
    ensures bond in PairScan(rule, n, size)
  {
    var prev, row := PairScan(rule, n - 1, size), RowScan(rule, n - 1, size);
    if bond.a < n - 1 {
      PairScanComplete(rule, n - 1, size, bond);
      assert bond in prev;
    } else {
      RowScanMembers(rule, n - 1, size, bond);
      assert bond in row;
    }
    assert bond in prev + row;
  }

  /** (a, b) is a bond exactly when both atoms exist and the pair passes the
      hydrogen rule and the distance threshold. */
  lemma {:induction false} BondListMembers(atoms: seq<Atom>, h: bool, a: nat, b: nat)
    ensures Bond(a, b) in BondList(atoms, h) <==>
              a < |atoms| && b < |atoms| && Linked(atoms[a], atoms[b], h)
  {
    PairScanMembers(Rule(atoms, h), |atoms|, |atoms|, Bond(a, b));
  }

  lemma {:induction false} BondListInRange(atoms: seq<Atom>, h: bool)
    ensures BondsInRange(BondList(atoms, h), |atoms|)
  {
    var bonds := BondList(atoms, h);
    forall k | 0 <= k < |bonds| ensures bonds[k].a < |atoms| && bonds[k].b < |atoms| {
      PairScanMembers(Rule(atoms, h), |atoms|, |atoms|, bonds[k]);
    }
  }

  /** The bond relation is symmetric: the scan produces both (a, b) and (b, a). */
  lemma {:induction false} BondListSymmetric(atoms: seq<Atom>, h: bool, a: nat, b: nat)
    ensures Bond(a, b) in BondList(atoms, h) <==> Bond(b, a) in BondList(atoms, h)
  {
    BondListMembers(atoms, h, a, b);
    BondListMembers(atoms, h, b, a);
    if a < |atoms| && b < |atoms| {
      LenSqSubSymmetric(atoms[a].pos, atoms[b].pos);
    }
  }

  /** Every atom the hydrogen rule does not exclude is bonded to itself. */
  lemma {:induction false} BondListSelf(atoms: seq<Atom>, h: bool, i: nat)
    requires i < |atoms|
    ensures Bond(i, i) in BondList(atoms, h) <==> !(h && atoms[i].name == "H")
  {
    BondListMembers(atoms, h, i, i);
    assert VecSub(atoms[i].pos, atoms[i].pos) == Origin;
  }

  lemma {:induction false} RowScanOrdered(rule: (nat, nat) -> bool, i: nat, m: nat)
    ensures forall k :: 0 <= k < |RowScan(rule, i, m)| ==>
              RowScan(rule, i, m)[k].a == i && RowScan(rule, i, m)[k].b < m
    ensures forall k, l :: 0 <= k < l < |RowScan(rule, i, m)| ==>
              Before(RowScan(rule, i, m)[k], RowScan(rule, i, m)[l])
  {
    if m > 0 {
      RowScanOrdered(rule, i, m - 1);
    }
  }

  lemma {:induction false} PairScanOrdered(rule: (nat, nat) -> bool, n: nat, size: nat)
    ensures forall k :: 0 <= k < |PairScan(rule, n, size)| ==> PairScan(rule, n, size)[k].a < n
    ensures forall k, l :: 0 <= k < l < |PairScan(rule, n, size)| ==>
              Before(PairScan(rule, n, size)[k], PairScan(rule, n, size)[l])
  {
    if n > 0 {
      PairScanOrdered(rule, n - 1, size);
      RowScanOrdered(rule, n - 1, size);
    }
  }

  /** The bond list is in strict row-major order (outer atom, then inner
      atom), so it also holds no pair twice. */
  lemma {:induction false} BondListOrdered(atoms: seq<Atom>, h: bool)
    ensures forall k, l :: 0 <= k < l < |BondList(atoms, h)| ==>
              Before(BondList(atoms, h)[k], BondList(atoms, h)[l])
  {
    PairScanOrdered(Rule(atoms, h), |atoms|, |atoms|);
  }

  /** The scan depends only on which index pairs the rule accepts. */
  lemma {:induction false} PairScanSameLinks(rule: (nat, nat) -> bool, other: (nat, nat) -> bool, n: nat, size: nat)
    requires forall i: nat, j: nat :: i < n && j < size ==> rule(i, j) == other(i, j)
    ensures PairScan(rule, n, size) == PairScan(other, n, size)
  {
    if n > 0 {
      PairScanSameLinks(rule, other, n - 1, size);
      RowScanSameLinks(rule, other, n - 1, size);
    }
  }

  lemma {:induction false} RowScanSameLinks(rule: (nat, nat) -> bool, other: (nat, nat) -> bool, i: nat, m: nat)
    requires forall j: nat :: j < m ==> rule(i, j) == other(i, j)
    ensures RowScan(rule, i, m) == RowScan(other, i, m)
  {
    if m > 0 {
      RowScanSameLinks(rule, other, i, m - 1);
    }
  }

  // ----- centroid and translation -----

  /** The running sum of positions, accumulated in list order. */
  function Sum(atoms: seq<Atom>): Vec
  {
    if atoms == [] then Origin
    else VecAdd(Sum(atoms[..|atoms| - 1]), atoms[|atoms| - 1].pos)
  }

  /** The arithmetic mean of the positions. */
  function Mean(atoms: seq<Atom>): Vec
    requires atoms != []
  {
    VecScale(Sum(atoms), 1.0 / (|atoms| as real))
  }

  /** Every atom moved by -c. Names, order and pairwise differences are kept. */
  function Shifted(atoms: seq<Atom>, c: Vec): (r: seq<Atom>)
    ensures |r| == |atoms|
    ensures forall i :: 0 <= i < |r| ==> r[i].name == atoms[i].name
    ensures forall i, j :: 0 <= i < |r| && 0 <= j < |r| ==>
              VecSub(r[i].pos, r[j].pos) == VecSub(atoms[i].pos, atoms[j].pos)
  {
    seq(|atoms|, i requires 0 <= i < |atoms| => Atom(atoms[i].name, VecSub(atoms[i].pos, c)))
  }

  /** What MoveToOrigin leaves: every atom moved by minus the mean. */
  function Centered(atoms: seq<Atom>): seq<Atom>
  {
    if atoms == [] then atoms else Shifted(atoms, Mean(atoms))
  }

  /** Shifting n atoms by c shifts their sum by n*c. */
  lemma {:induction false} SumShifted(atoms: seq<Atom>, c: Vec)
    ensures Sum(Shifted(atoms, c)) == VecSub(Sum(atoms), VecScale(c, |atoms| as real))
  {
    if atoms != [] {
      var n := |atoms|;
      var front := atoms[..n - 1];
      assert Shifted(atoms, c)[..n - 1] == Shifted(front, c);
      SumShifted(front, c);
      var s, p := Sum(front), atoms[n - 1].pos;
      calc {
        Sum(Shifted(atoms, c));
        VecAdd(Sum(Shifted(front, c)), VecSub(p, c));
        VecAdd(VecSub(s, VecScale(c, (n - 1) as real)), VecSub(p, c));
        { ScaleStep(c, n - 1); }
        VecSub(VecAdd(s, p), VecScale(c, n as real));
      }
    }
  }

  lemma {:induction false} ScaleStep(c: Vec, k: nat)
    ensures VecScale(c, (k + 1) as real) == VecAdd(VecScale(c, k as real), c)
  {
  }

  /** After MoveToOrigin the positions sum to the origin, so their mean is
      the origin. */
  lemma {:induction false} CenteredSumsToOrigin(atoms: seq<Atom>)
    ensures Sum(Centered(atoms)) == Origin
  {
    if atoms != [] {
      var n := |atoms| as real;
      var s := Sum(atoms);
      SumShifted(atoms, Mean(atoms));
      MeanTimesCount(s, n);
    }
  }

  lemma {:induction false} MeanTimesCount(s: Vec, n: real)
    requires n > 0.0
    ensures VecScale(VecScale(s, 1.0 / n), n) == s
  {
    InverseCancels(s.x, n);
    InverseCancels(s.y, n);
    InverseCancels(s.z, n);
  }

  lemma {:induction false} InverseCancels(a: real, n: real)
    requires n > 0.0
    ensures a * (1.0 / n) * n == a
  {
  }

  /** MoveToOrigin is idempotent: a centred molecule is its own centring. */
  lemma {:induction false} CenteredIdempotent(atoms: seq<Atom>)
    ensures Centered(Centered(atoms)) == Centered(atoms)
  {
    var c := Centered(atoms);
    if c != [] {
      CenteredSumsToOrigin(atoms);
      assert Mean(c) == Origin;
      assert Shifted(c, Origin) == c;
    }
  }

  /** Bonds do not depend on translation: the bond list of the centred
      molecule is the one computed before centring. */
  lemma {:induction false} BondListShiftInvariant(atoms: seq<Atom>, h: bool, c: Vec)
    ensures BondList(Shifted(atoms, c), h) == BondList(atoms, h)
  {
    var other := Shifted(atoms, c);
    forall i: nat, j: nat | i < |atoms| && j < |atoms|
      ensures Rule(other, h)(i, j) == Rule(atoms, h)(i, j)
    {
      assert VecSub(other[i].pos, other[j].pos) == VecSub(atoms[i].pos, atoms[j].pos);
    }
    PairScanSameLinks(Rule(other, h), Rule(atoms, h), |atoms|, |atoms|);
  }

  // ----- rotation -----

  /** Every position replaced by its image under m; names and order kept. */
  function Turned(atoms: seq<Atom>, m: Mat): (r: seq<Atom>)
    ensures |r| == |atoms|
    ensures forall i :: 0 <= i < |r| ==> r[i].name == atoms[i].name
  {
    seq(|atoms|, i requires 0 <= i < |atoms| => Atom(atoms[i].name, MatVec(m, atoms[i].pos)))
  }

  /** The atoms after k successive applications of m. */
  function TurnedN(atoms: seq<Atom>, m: Mat, k: nat): (r: seq<Atom>)
    ensures |r| == |atoms|
    ensures forall i :: 0 <= i < |r| ==> r[i].name == atoms[i].name
  {
    if k == 0 then atoms else Turned(TurnedN(atoms, m, k - 1), m)
  }

  /** Turning by m1 and then by m2 is turning by the product m2*m1. */
  lemma {:induction false} TurnedCompose(atoms: seq<Atom>, m1: Mat, m2: Mat)
    ensures Turned(Turned(atoms, m1), m2) == Turned(atoms, MatMat(m2, m1))
  {
  }

  lemma {:induction false} TurnedIdent(atoms: seq<Atom>)
    ensures Turned(atoms, MatIdent()) == atoms
  {
  }

  /** Any number of rotations about y keeps every atom's y coordinate and name. */
  lemma {:induction false} TurnedNAboutY(atoms: seq<Atom>, s: real, c: real, k: nat)
    ensures forall i :: 0 <= i < |atoms| ==>
              TurnedN(atoms, MatRotY(s, c), k)[i].pos.y == atoms[i].pos.y
              && TurnedN(atoms, MatRotY(s, c), k)[i].name == atoms[i].name
  {
    if k > 0 {
      TurnedNAboutY(atoms, s, c, k - 1);
    }
  }

  /** Turning by m and then by a matrix w that undoes m on every vector
      restores the atoms exactly. */
  lemma {:induction false} TurnedBack(atoms: seq<Atom>, m: Mat, w: Mat)
    requires forall v :: MatVec(w, MatVec(m, v)) == v
    ensures Turned(Turned(atoms, m), w) == atoms
  {
    var back := Turned(Turned(atoms, m), w);
    forall i | 0 <= i < |atoms|
      ensures back[i] == atoms[i]
    {
      assert back[i].pos == MatVec(w, MatVec(m, atoms[i].pos));
    }
  }

  /** A matrix that keeps every length keeps every bond: the bond list of
      the turned molecule is the one computed before turning. */
  lemma {:induction false} TurnedKeepsBonds(atoms: seq<Atom>, m: Mat, h: bool)
    requires forall v :: LenSq(MatVec(m, v)) == LenSq(v)
    ensures BondList(Turned(atoms, m), h) == BondList(atoms, h)
  {
    var other := Turned(atoms, m);
    forall i: nat, j: nat | i < |atoms| && j < |atoms|
      ensures Rule(other, h)(i, j) == Rule(atoms, h)(i, j)
    {
      MatVecSub(m, atoms[i].pos, atoms[j].pos);
      assert LenSq(VecSub(other[i].pos, other[j].pos)) == LenSq(VecSub(atoms[i].pos, atoms[j].pos));
    }
    PairScanSameLinks(Rule(other, h), Rule(atoms, h), |atoms|, |atoms|);
  }

  /** Any number of turns by a length-keeping matrix keeps the distance
      between every two atoms. */
  lemma {:induction false} TurnedNKeepsDistance(atoms: seq<Atom>, m: Mat, k: nat, i: nat, j: nat)
    requires forall v :: LenSq(MatVec(m, v)) == LenSq(v)
    requires i < |atoms| && j < |atoms|
    ensures LenSq(VecSub(TurnedN(atoms, m, k)[i].pos, TurnedN(atoms, m, k)[j].pos))
         == LenSq(VecSub(atoms[i].pos, atoms[j].pos))
  {
    if k > 0 {
      var before := TurnedN(atoms, m, k - 1);
      TurnedNKeepsDistance(atoms, m, k - 1, i, j);
      MatVecSub(m, before[i].pos, before[j].pos);
    }
  }

  /** Any number of turns by a length-keeping matrix keeps every bond. */
  lemma {:induction false} TurnedNKeepsBonds(atoms: seq<Atom>, m: Mat, h: bool, k: nat)
    requires forall v :: LenSq(MatVec(m, v)) == LenSq(v)
    ensures BondList(TurnedN(atoms, m, k), h) == BondList(atoms, h)
  {
    var other := TurnedN(atoms, m, k);
    forall i: nat, j: nat | i < |atoms| && j < |atoms|
      ensures Rule(other, h)(i, j) == Rule(atoms, h)(i, j)
    {
      TurnedNKeepsDistance(atoms, m, k, i, j);
    }
    PairScanSameLinks(Rule(other, h), Rule(atoms, h), |atoms|, |atoms|);
  }
}
