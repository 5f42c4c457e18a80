/** The flat view of a molecule that output templates are rendered with:
    per-atom records, the cell, and the element types counted in the order
    in which they first appear (the species list of a VASP POSCAR). */
module Template {
  import opened Wrappers
  import opened Numerals
  import opened Chem

  datatype AtomData = AtomData(
    index: nat,          // the serial number of the atom
    elementIndex: nat,   // 1 + the position of its element type
    symbol: string,
    number: nat,
    freezing: Flags3,
    position: Vec3,
    fractional: Vec3,
    velocity: Vec3)

  datatype BondData = BondData(i: nat, j: nat, order: Numeral)

  datatype UnitCell = UnitCell(lengths: Vec3, angles: Vec3, va: Vec3, vb: Vec3, vc: Vec3)

  datatype SpeciesData = SpeciesData(index: nat, elementSymbol: string, elementNumber: nat, numberOfAtoms: nat)

  datatype MoleculeData = MoleculeData(
    title: string,
    unitCell: Option<UnitCell>,
    numberOfAtoms: nat,
    numberOfBonds: nat,
    numberOfSpecies: nat,
    atoms: seq<AtomData>,
    bonds: seq<BondData>,
    elementTypes: seq<(string, nat)>,
    species: seq<SpeciesData>)

  /** The element symbols of the atoms, in storage order. */
  function Symbols(sites: seq<Site>): (xs: seq<string>)
    ensures |xs| == |sites|
    ensures forall k | 0 <= k < |sites| :: xs[k] == sites[k].atom.symbol
  {
    seq(|sites|, k requires 0 <= k < |sites| => sites[k].atom.symbol)
  }

  predicate NoDup(keys: seq<string>) {
    forall i, j | 0 <= i < j < |keys| :: keys[i] != keys[j]
  }

  /** The distinct symbols in the order of their first appearance: the keys
      of the `IndexMap` that the counting loop fills. */
  function FirstSeen(xs: seq<string>): (keys: seq<string>)
    ensures NoDup(keys)
    ensures forall x :: x in keys <==> x in xs
    ensures |keys| <= |xs|
  {
    if xs == [] then []
    else
      var d := FirstSeen(xs[..|xs| - 1]);
      var x := xs[|xs| - 1];
      assert forall y :: y in xs <==> y in xs[..|xs| - 1] || y == x by {
        assert xs == xs[..|xs| - 1] + [x];
      }
      if x in d then d else d + [x]
  }

  /** Where a key sits: `IndexMap::get_full`. */
  function KeyIndex(keys: seq<string>, s: string): (i: nat)
    requires s in keys
    ensures i < |keys| && keys[i] == s && s !in keys[..i]
  {
    if keys[0] == s then 0
    else
      assert s in keys[1..];
      var i := 1 + KeyIndex(keys[1..], s);
      assert keys[..i] == [keys[0]] + keys[1..][..i - 1];
      i
  }

  /** The element types and how many atoms each has, in first-seen order. */
  function ElementTypes(xs: seq<string>): (types: seq<(string, nat)>)
    ensures |types| == |FirstSeen(xs)|
    ensures forall p | 0 <= p < |types| :: types[p] == (FirstSeen(xs)[p], multiset(xs)[FirstSeen(xs)[p]])
  {
    var keys := FirstSeen(xs);
    seq(|keys|, p requires 0 <= p < |keys| => (keys[p], multiset(xs)[keys[p]]))
  }

  /** The symbols of a list of element types. */
  function Keys(types: seq<(string, nat)>): (keys: seq<string>)
    ensures |keys| == |types| && forall p | 0 <= p < |types| :: keys[p] == types[p].0
  {
    seq(|types|, p requires 0 <= p < |types| => types[p].0)
  }

  /** Sum of the counts of a list of element types. */
  function Total(types: seq<(string, nat)>): nat {
    if types == [] then 0 else types[0].1 + Total(types[1..])
  }

  function CellData(core: Core, lat: Lattice): UnitCell {
    UnitCell(core.lengths(lat), core.angles(lat), lat.va, lat.vb, lat.vc)
  }

  /** The counting loop of `renderable`: an `IndexMap` from symbol to count,
      a new symbol entering at the end with count 0 before it is counted. */
  method CountElementTypes(xs: seq<string>) returns (types: seq<(string, nat)>)
    ensures types == ElementTypes(xs)
    ensures Keys(types) == FirstSeen(xs)
    ensures forall k | 0 <= k < |xs| :: xs[k] in Keys(types)
  {
    var keys: seq<string> := [];
    var counts: seq<nat> := [];
    var i := 0;
    while i < |xs|
      invariant 0 <= i <= |xs|
      invariant keys == FirstSeen(xs[..i]) && |counts| == |keys|
      invariant forall p | 0 <= p < |keys| :: counts[p] == multiset(xs[..i])[keys[p]]
    {
      var s := xs[i];
      assert xs[..i + 1] == xs[..i] + [s];
      if s in keys {
        var p := KeyIndex(keys, s);
        counts := counts[p := counts[p] + 1];
      } else {
        keys := keys + [s];
        counts := counts + [1];
      }
      i := i + 1;
    }
    assert xs[..i] == xs;
    types := seq(|keys|, p requires 0 <= p < |keys| => (keys[p], counts[p]));
    assert Keys(types) == keys;
    assert forall k | 0 <= k < |xs| :: xs[k] in xs;
  }

  /** The record of one atom: its element index is 1 plus the place of its
      symbol among the element types; without a cell its fractional
      coordinates are zero. */
  function AtomDataOf(site: Site, keys: seq<string>, lattice: Option<Lattice>, core: Core): AtomData
    requires site.atom.symbol in keys
  {
    var a := site.atom;
    AtomData(site.sn, KeyIndex(keys, a.symbol) + 1, a.symbol, core.atomicNumber(a.symbol),
             a.freezing, a.position,
             if lattice.Some? then core.toFrac(lattice.value, a.position) else Origin,
             a.velocity)
  }

  /** The loop of `renderable` that builds the atom records. */
  method AtomRecords(mol: Molecule, types: seq<(string, nat)>, core: Core) returns (atoms: seq<AtomData>)
    requires forall k | 0 <= k < |mol.sites| :: mol.sites[k].atom.symbol in Keys(types)
    ensures |atoms| == |mol.sites|
    ensures forall k | 0 <= k < |mol.sites| :: atoms[k] == AtomDataOf(mol.sites[k], Keys(types), mol.lattice, core)
    ensures Describes(atoms, mol, core) && ElementIndexed(atoms, types)
  {
    var keys := Keys(types);
    atoms := [];
    var k := 0;
    while k < |mol.sites|
      invariant 0 <= k <= |mol.sites| && |atoms| == k
      invariant forall j | 0 <= j < k :: atoms[j] == AtomDataOf(mol.sites[j], keys, mol.lattice, core)
    {
      var a := mol.sites[k].atom;
      var fractional := Origin;
      if mol.lattice.Some? {
        fractional := core.toFrac(mol.lattice.value, a.position);
      }
      var elementIndex := KeyIndex(keys, a.symbol) + 1;
      atoms := atoms + [AtomData(mol.sites[k].sn, elementIndex, a.symbol, core.atomicNumber(a.symbol),
                                 a.freezing, a.position, fractional, a.velocity)];
      k := k + 1;
    }
  }

  /** One record per atom, in storage order, with the atom's serial number,
      symbol, atomic number, freezing flags, position and velocity, and its
      fractional coordinates: through the cell when there is one, zero
      otherwise. */
  predicate Describes(atoms: seq<AtomData>, mol: Molecule, core: Core) {
    |atoms| == |mol.sites|
    && forall k | 0 <= k < |mol.sites| ::
      var a := mol.sites[k].atom;
      atoms[k].index == mol.sites[k].sn && atoms[k].symbol == a.symbol
      && atoms[k].number == core.atomicNumber(a.symbol) && atoms[k].freezing == a.freezing
      && atoms[k].position == a.position && atoms[k].velocity == a.velocity
      && atoms[k].fractional == (if mol.lattice.Some? then core.toFrac(mol.lattice.value, a.position) else Origin)
  }

  /** Every atom's element index points at the element type of its symbol. */
  predicate ElementIndexed(atoms: seq<AtomData>, types: seq<(string, nat)>) {
    forall k | 0 <= k < |atoms| ::
      1 <= atoms[k].elementIndex <= |types| && Keys(types)[atoms[k].elementIndex - 1] == atoms[k].symbol
  }

  /** The element types of a molecule's symbols and its atom records. */
  method TypesAndAtoms(mol: Molecule, core: Core) returns (types: seq<(string, nat)>, atoms: seq<AtomData>)
    ensures types == ElementTypes(Symbols(mol.sites))
    ensures Describes(atoms, mol, core) && ElementIndexed(atoms, types)
  {
    var xs := Symbols(mol.sites);
    types := CountElementTypes(xs);
    atoms := AtomRecords(mol, types, core);
  }

  /** One species per element type, numbered from 1. */
  function SpeciesOf(types: seq<(string, nat)>, core: Core): (r: seq<SpeciesData>)
    ensures |r| == |types|
    ensures forall p | 0 <= p < |r| :: r[p] == SpeciesData(p + 1, types[p].0, core.atomicNumber(types[p].0), types[p].1)
  {
    seq(|types|, p requires 0 <= p < |types| => SpeciesData(p + 1, types[p].0, core.atomicNumber(types[p].0), types[p].1))
  }

  /** `renderable`: the title, counts, cell, atom records and species of a
      molecule.  The bond list is left empty although the bond count is
      given. */
  method Renderable(mol: Molecule, core: Core) returns (md: MoleculeData)
    ensures md.title == mol.title
    ensures md.numberOfAtoms == |mol.sites| && md.numberOfBonds == |mol.bonds| && md.bonds == []
    ensures md.unitCell == if mol.lattice.Some? then Some(CellData(core, mol.lattice.value)) else None
    ensures md.elementTypes == ElementTypes(Symbols(mol.sites))
    ensures md.numberOfSpecies == |md.elementTypes| == |md.species|
    ensures forall p | 0 <= p < |md.species| ::
      md.species[p] == SpeciesData(p + 1, md.elementTypes[p].0, core.atomicNumber(md.elementTypes[p].0), md.elementTypes[p].1)
    ensures Describes(md.atoms, mol, core) && ElementIndexed(md.atoms, md.elementTypes)
  {
    var unitCell := None;
    if mol.lattice.Some? {
      unitCell := Some(CellData(core, mol.lattice.value));
    }

    var elementTypes, atoms := TypesAndAtoms(mol, core);
    var species := SpeciesOf(elementTypes, core);
    md := MoleculeData(mol.title, unitCell, |mol.sites|, |mol.bonds|, |elementTypes|,
                       atoms, [], elementTypes, species);
  }

  lemma {:induction false} TotalAppend(types: seq<(string, nat)>, t: (string, nat))
    ensures Total(types + [t]) == Total(types) + t.1
    decreases |types|
  {
    if types == [] {
      assert [] + [t] == [t];
    } else {
      assert (types + [t])[1..] == types[1..] + [t];
      TotalAppend(types[1..], t);
    }
  }

  lemma {:induction false} TotalBump(types: seq<(string, nat)>, p: nat)
    requires p < |types|
    ensures Total(types[p := (types[p].0, types[p].1 + 1)]) == Total(types) + 1
    decreases |types|
  {
    var bumped := types[p := (types[p].0, types[p].1 + 1)];
    if p > 0 {
      assert bumped[1..] == types[1..][p - 1 := (types[p].0, types[p].1 + 1)];
      TotalBump(types[1..], p - 1);
    } else {
      assert bumped[1..] == types[1..];
    }
  }

  /** Counting an atom of a known element type raises that type's count. */
  lemma TypesAddSeen(ys: seq<string>, x: string)
    requires x in FirstSeen(ys)
    ensures var old_ := ElementTypes(ys);
      var p := KeyIndex(FirstSeen(ys), x);
      ElementTypes(ys + [x]) == old_[p := (x, old_[p].1 + 1)]
  {
    var keys := FirstSeen(ys);
    FirstSeenSnocSeen(ys, x);
    TypesBump(ys, x, keys, KeyIndex(keys, x), ElementTypes(ys), ElementTypes(ys + [x]));
  }

  /** The count table after one more atom of the symbol at `p`. */
  lemma TypesBump(ys: seq<string>, x: string, keys: seq<string>, p: nat,
                  old_: seq<(string, nat)>, new_: seq<(string, nat)>)
    requires NoDup(keys) && p < |keys| && keys[p] == x
    requires |old_| == |keys| && |new_| == |keys|
    requires forall q | 0 <= q < |keys| :: old_[q] == (keys[q], multiset(ys)[keys[q]])
    requires forall q | 0 <= q < |keys| :: new_[q] == (keys[q], multiset(ys + [x])[keys[q]])
    ensures new_ == old_[p := (x, old_[p].1 + 1)]
  {
    var bumped := old_[p := (x, old_[p].1 + 1)];
    forall q | 0 <= q < |keys|
      ensures new_[q] == bumped[q]
    {
      SnocCount(ys, x, keys[q]);
      if q != p {
        assert keys[q] != keys[p];
      }
    }
    SameTypes(new_, bumped);
  }

  lemma SameTypes(u: seq<(string, nat)>, v: seq<(string, nat)>)
    requires |u| == |v|
    requires forall q | 0 <= q < |u| :: u[q] == v[q]
    ensures u == v
  {
  }

  /** A symbol already seen leaves the first-seen order as it is. */
  lemma FirstSeenSnocSeen(ys: seq<string>, x: string)
    requires x in FirstSeen(ys)
    ensures FirstSeen(ys + [x]) == FirstSeen(ys)
  {
    var xs := ys + [x];
    assert xs[..|xs| - 1] == ys;
  }

  /** One more atom counts once, for its own symbol only. */
  lemma SnocCount(ys: seq<string>, x: string, k: string)
    ensures multiset(ys + [x])[k] == multiset(ys)[k] + (if k == x then 1 else 0)
  {
    assert multiset(ys + [x]) == multiset(ys) + multiset{x};
  }

  /** An atom of a new element type adds that type with count 1. */
  lemma TypesAddNew(ys: seq<string>, x: string)
    requires x !in ys
    ensures ElementTypes(ys + [x]) == ElementTypes(ys) + [(x, 1)]
  {
    var xs := ys + [x];
    assert xs[..|xs| - 1] == ys;
    assert FirstSeen(xs) == FirstSeen(ys) + [x];
    assert multiset(xs) == multiset(ys) + multiset{x};
    assert multiset(ys)[x] == 0;
  }

  /** The counts of the element types add up to the number of atoms. */
  lemma {:induction false} CountsSum(xs: seq<string>)
    ensures Total(ElementTypes(xs)) == |xs|
    decreases |xs|
  {
    if xs != [] {
      var ys := xs[..|xs| - 1];
      var x := xs[|xs| - 1];
      assert xs == ys + [x];
      CountsSum(ys);
      if x in FirstSeen(ys) {
        TypesAddSeen(ys, x);
        TotalBump(ElementTypes(ys), KeyIndex(FirstSeen(ys), x));
      } else {
        TypesAddNew(ys, x);
        TotalAppend(ElementTypes(ys), (x, 1));
      }
    }
  }

  lemma {:induction false} NoDupCard(keys: seq<string>)
    requires NoDup(keys)
    ensures |set x | x in keys| == |keys|
    decreases |keys|
  {
    if keys != [] {
      var tail := keys[1..];
      assert NoDup(tail) by {
        forall i, j | 0 <= i < j < |tail| ensures tail[i] != tail[j] {
          assert tail[i] == keys[i + 1] && tail[j] == keys[j + 1];
        }
      }
      NoDupCard(tail);
      assert (set x | x in keys) == {keys[0]} + (set x | x in tail);
      assert keys[0] !in tail;
    }
  }

  /** There is one element type per distinct symbol. */
  lemma SpeciesCount(xs: seq<string>)
    ensures |ElementTypes(xs)| == |set x | x in xs|
  {
    NoDupCard(FirstSeen(xs));
    assert (set x | x in FirstSeen(xs)) == (set x | x in xs);
  }

  /** The element types of the first atoms come first, in the same order. */
  lemma {:induction false} FirstSeenPrefix(xs: seq<string>, i: nat)
    requires i <= |xs|
    ensures FirstSeen(xs[..i]) <= FirstSeen(xs)
    decreases |xs|
  {
    if i < |xs| {
      var ys := xs[..|xs| - 1];
      assert ys[..i] == xs[..i];
      FirstSeenPrefix(ys, i);
    } else {
      assert xs[..i] == xs;
    }
  }

  /** In a list without repeats a key sits at one place only. */
  lemma KeyIndexAt(keys: seq<string>, j: nat)
    requires NoDup(keys) && j < |keys|
    ensures KeyIndex(keys, keys[j]) == j
  {
  }

  /** First-seen order: an atom whose symbol did not occur before it opens
      the next element type, so its element index is one more than the
      number of element types among the atoms before it. */
  lemma NewSymbolIndex(xs: seq<string>, k: nat)
    requires k < |xs| && xs[k] !in xs[..k]
    ensures KeyIndex(FirstSeen(xs), xs[k]) == |FirstSeen(xs[..k])|
  {
    var before := FirstSeen(xs[..k]);
    assert xs[..k + 1][..k] == xs[..k];
    assert FirstSeen(xs[..k + 1]) == before + [xs[k]];
    FirstSeenPrefix(xs, k + 1);
    KeyIndexAt(FirstSeen(xs), |before|);
  }

  /** The first atom always has element index 1. */
  lemma FirstAtomIndex(xs: seq<string>)
    requires xs != []
    ensures KeyIndex(FirstSeen(xs), xs[0]) == 0
  {
    NewSymbolIndex(xs, 0);
  }

  /** Water with an extra hydrogen: types O and H, in that order. */
  lemma ElementTypesExample()
    ensures ElementTypes(["O", "H", "H", "H"]) == [("O", 1), ("H", 3)]
  {
    TypesAddNew([], "O");
    assert [] + ["O"] == ["O"];
    TypesAddNew(["O"], "H");
    assert ["O"] + ["H"] == ["O", "H"];
    TypesAddSeen(["O", "H"], "H");
    assert ["O", "H"] + ["H"] == ["O", "H", "H"];
    TypesAddSeen(["O", "H", "H"], "H");
    assert ["O", "H", "H"] + ["H"] == ["O", "H", "H", "H"];
  }
}
