/** The molecule the readers build and the writers read: gchemol_core's
    `Molecule`, `Atom`, `Lattice` and `Bond`, reduced to what the file formats
    carry.  Lattice arithmetic and the element table live in gchemol_core; they
    reach the model as the function values of a `Core` record. */
module Chem {
  import opened Wrappers
  import opened Numerals

  /** Per-axis flags (freezing, selective-dynamics masks). */
  datatype Flags3 = Flags3(x: bool, y: bool, z: bool)

  const AllFree := Flags3(false, false, false)
  const AllFrozen := Flags3(true, true, true)
  const Origin := Vec3("0.0", "0.0", "0.0")

  /** A periodic cell, given by its three cell vectors a, b and c. */
  datatype Lattice = Lattice(va: Vec3, vb: Vec3, vc: Vec3)

  /** Cell lengths a, b, c and angles alpha, beta, gamma. */
  datatype CellParams = CellParams(a: Numeral, b: Numeral, c: Numeral,
                                   alpha: Numeral, beta: Numeral, gamma: Numeral)

  datatype BondKind = Single | Double | Triple | Quadruple | Aromatic | Partial | Dummy

  /** A bond between the atoms with serial numbers `i` and `j`. */
  datatype Bond = Bond(i: nat, j: nat, kind: BondKind)

  /** ONIOM layer, link atom and link host of one Gaussian atom. */
  datatype OniomInfo = OniomInfo(layer: Option<string>, linkAtom: Option<string>, linkHost: Option<nat>)

  /** Everything the Gaussian reader records about one atom line; it is stored
      with the atom it describes. */
  datatype GaussianAtomInfo = GaussianAtomInfo(
    elementLabel: string,
    mmType: Option<string>,
    mmCharge: Option<Numeral>,
    frozenCode: Option<int>,
    position: Vec3,
    properties: map<string, string>,
    oniom: OniomInfo)

  datatype Atom = Atom(
    symbol: string,
    position: Vec3,
    velocity: Vec3,
    freezing: Flags3,
    name: Option<string>,  // the atom label
    gaussian: Option<GaussianAtomInfo>)

  /** `Atom::new(symbol, position)`: at rest, free, unlabelled, with the text
      it is given turned into gchemol_core's standard symbol (`SI` becomes
      `Si`). */
  function NewAtom(symbol: string, position: Vec3, core: Core): (a: Atom)
    ensures a.symbol == core.standardSymbol(symbol) && a.position == position
  {
    Atom(core.standardSymbol(symbol), position, Origin, AllFree, None, None)
  }

  /** A symbol `Atom::new` keeps as it is: a standard element symbol (or the
      text of a dummy atom that gchemol_core leaves alone). */
  predicate IsStandard(symbol: string, core: Core) {
    core.standardSymbol(symbol) == symbol
  }

  /** `Atom::label`: the label, or the element symbol for an unlabelled atom
      (gchemol_core's behaviour, which is not part of this model, is taken to
      be this). */
  function Label(a: Atom): string {
    if a.name.Some? then a.name.value else a.symbol
  }

  /** An atom with the serial number it is stored under. */
  datatype Site = Site(sn: nat, atom: Atom)

  /** Atoms in insertion order, bonds in insertion order, optional cell. */
  datatype Molecule = Molecule(title: string, sites: seq<Site>, bonds: seq<Bond>, lattice: Option<Lattice>)

  /** The title of a molecule built without one (gchemol_core's default title
      is not part of this model; it is taken to be empty). */
  const DefaultTitle: string := ""

  function NAtoms(m: Molecule): nat { |m.sites| }

  /** `add_atoms_from((1..).zip(atoms))`: serial numbers from 1 in order. */
  function NumberFrom(first: nat, atoms: seq<Atom>): (sites: seq<Site>)
    ensures |sites| == |atoms|
    ensures forall k | 0 <= k < |atoms| :: sites[k] == Site(first + k, atoms[k])
  {
    seq(|atoms|, k requires 0 <= k < |atoms| => Site(first + k, atoms[k]))
  }

  function AtomsOf(sites: seq<Site>): (atoms: seq<Atom>)
    ensures |atoms| == |sites|
    ensures forall k | 0 <= k < |sites| :: atoms[k] == sites[k].atom
  {
    seq(|sites|, k requires 0 <= k < |sites| => sites[k].atom)
  }

  /** `Molecule::add_atom(n, atom)`: an atom stored under a serial number that
      is already taken replaces the atom there; otherwise it is appended. */
  function PutSite(sites: seq<Site>, s: Site): (r: seq<Site>)
    ensures |r| == |sites| || |r| == |sites| + 1
  {
    if sites == [] then [s]
    else if sites[0].sn == s.sn then [s] + sites[1..]
    else [sites[0]] + PutSite(sites[1..], s)
  }

  /** `Molecule::add_atoms_from`: the sites stored one after another. */
  function PutSites(sites: seq<Site>, more: seq<Site>): seq<Site>
    decreases |more|
  {
    if more == [] then sites else PutSites(PutSite(sites, more[0]), more[1..])
  }

  /** Serial numbers 1, 2, ... in storage order. */
  predicate Numbered(sites: seq<Site>) {
    forall k | 0 <= k < |sites| :: sites[k].sn == k + 1
  }

  /** Storing serial number `n` into atoms numbered 1..m replaces atom `n`
      when `n <= m` and appends it when `n == m + 1`. */
  lemma {:induction false} PutSiteNumbered(sites: seq<Site>, s: Site, first: nat)
    requires forall k | 0 <= k < |sites| :: sites[k].sn == first + k
    requires first <= s.sn <= first + |sites|
    ensures |PutSite(sites, s)| == (if s.sn == first + |sites| then |sites| + 1 else |sites|)
    ensures forall k | 0 <= k < |PutSite(sites, s)| :: PutSite(sites, s)[k].sn == first + k
    ensures forall k | 0 <= k < |PutSite(sites, s)| ::
      PutSite(sites, s)[k] == (if k == s.sn - first then s else sites[k])
    decreases |sites|
  {
    if sites != [] && sites[0].sn != s.sn {
      PutSiteNumbered(sites[1..], s, first + 1);
    }
  }

  /** Storing atoms numbered `first`, `first + 1`, ... into atoms numbered
      from 1 keeps the numbering. */
  lemma {:induction false} PutSitesFrom(sites: seq<Site>, more: seq<Site>, first: nat)
    requires Numbered(sites)
    requires 1 <= first <= |sites| + 1
    requires forall k | 0 <= k < |more| :: more[k].sn == first + k
    ensures Numbered(PutSites(sites, more))
    ensures |PutSites(sites, more)| == (if first - 1 + |more| > |sites| then first - 1 + |more| else |sites|)
    decreases |more|
  {
    if more != [] {
      PutSiteNumbered(sites, more[0], 1);
      PutSitesFrom(PutSite(sites, more[0]), more[1..], first + 1);
    }
  }

  /** ... and the new atoms take their own places while the other atoms stay. */
  lemma {:induction false} PutSitesAtoms(sites: seq<Site>, more: seq<Site>, first: nat)
    requires Numbered(sites)
    requires 1 <= first <= |sites| + 1
    requires forall k | 0 <= k < |more| :: more[k].sn == first + k
    ensures |PutSites(sites, more)| == (if first - 1 + |more| > |sites| then first - 1 + |more| else |sites|)
    ensures forall k | 0 <= k < |PutSites(sites, more)| ::
      PutSites(sites, more)[k].atom == (if first - 1 <= k < first - 1 + |more| then more[k - first + 1].atom else sites[k].atom)
    decreases |more|
  {
    PutSitesFrom(sites, more, first);
    if more != [] {
      PutSiteNumbered(sites, more[0], 1);
      var sites' := PutSite(sites, more[0]);
      PutSitesAtoms(sites', more[1..], first + 1);
      var r := PutSites(sites', more[1..]);
      forall k | 0 <= k < |r|
        ensures r[k].atom == (if first - 1 <= k < first - 1 + |more| then more[k - first + 1].atom else sites[k].atom)
      {
        if first <= k < first - 1 + |more| {
          assert more[1..][k - first] == more[k - first + 1];
        }
      }
    }
  }

  /** `add_atoms_from((1..).zip(atoms))` on atoms numbered from 1: the new
      atoms replace the first ones and any further old atoms stay. */
  lemma AddNumbered(sites: seq<Site>, atoms: seq<Atom>)
    requires Numbered(sites)
    ensures Numbered(PutSites(sites, NumberFrom(1, atoms)))
    ensures |PutSites(sites, NumberFrom(1, atoms))| == (if |atoms| > |sites| then |atoms| else |sites|)
    ensures forall k | 0 <= k < |PutSites(sites, NumberFrom(1, atoms))| ::
      PutSites(sites, NumberFrom(1, atoms))[k].atom == (if k < |atoms| then atoms[k] else sites[k].atom)
  {
    PutSitesFrom(sites, NumberFrom(1, atoms), 1);
    PutSitesAtoms(sites, NumberFrom(1, atoms), 1);
  }

  /** `Molecule::set_scaled_positions` on every atom: fractional coordinates
      become Cartesian ones through the lattice; without a lattice gchemol_core
      refuses (it panics, an error here). */
  function SetScaledPositions(mol: Molecule, core: Core): (r: Result<Molecule>)
    ensures r.Ok? <==> mol.lattice.Some?
    ensures r.Ok? ==> r.value.title == mol.title && r.value.lattice == mol.lattice && |r.value.sites| == |mol.sites|
    ensures r.Ok? ==> forall k | 0 <= k < |mol.sites| ::
      r.value.sites[k] == mol.sites[k].(atom := mol.sites[k].atom.(position := core.toCart(mol.lattice.value, mol.sites[k].atom.position)))
  {
    match mol.lattice
    case None => Err("cannot set scaled positions for aperiodic structure")
    case Some(lat) =>
      Ok(mol.(sites := seq(|mol.sites|, k requires 0 <= k < |mol.sites| =>
        mol.sites[k].(atom := mol.sites[k].atom.(position := core.toCart(lat, mol.sites[k].atom.position))))))
  }

  /** Services of gchemol_core that the formats call but do not define. */
  datatype Core = Core(
    /** true unless the symbol names a dummy atom (`AtomKind::Dummy`) */
    isElement: string -> bool,
    /** the symbol `Atom::new` gives an atom made from this text: the standard
       element symbol (`SI` and `si` give `Si`) */
    standardSymbol: string -> string,
    /** `Lattice::from_params` */
    fromParams: CellParams -> Lattice,
    /** cell lengths and angles of a lattice */
    lengths: Lattice -> Vec3,
    angles: Lattice -> Vec3,
    /** Cartesian to fractional coordinates and back */
    toFrac: (Lattice, Vec3) -> Vec3,
    toCart: (Lattice, Vec3) -> Vec3,
    /** `Lattice::scale_by` */
    scaleBy: (Lattice, Numeral) -> Lattice,
    /** the `Display` text of an atom */
    display: Atom -> string,
    /** `{:.1}` of `Bond::order` for a bond of this kind */
    bondOrder: BondKind -> Numeral,
    /** the atomic number of an element symbol (`Atom::number`) */
    atomicNumber: string -> nat)
}
