/** The Tripos MOL2 format (`text/mol2`): the MOLECULE, ATOM, BOND and CRYSIN
    sections, the Tripos atom and bond type codes, and the record boundary at
    `@<TRIPOS>MOLECULE`. */
module Mol2 {
  import opened Wrappers
  import opened Text
  import opened Numerals
  import opened Nom
  import opened Chem
  import opened Partition

  const MoleculeSection := "@<TRIPOS>MOLECULE"
  const AtomSection := "@<TRIPOS>ATOM"
  const BondSection := "@<TRIPOS>BOND"
  const CrysinSection := "@<TRIPOS>CRYSIN"

  // Bond types.

  /** The bond kind of a `bond_type` field, read case-insensitively. */
  function BondCode(bo: string): BondKind {
    var b := Lower(bo);
    if b == "1" then Single
    else if b == "2" then Double
    else if b == "3" then Triple
    else if b == "ar" || b == "am" then Aromatic
    else if b == "nc" then Dummy
    else if b == "wk" then Partial
    else Single
  }

  /** Which codes give which kinds: `2` and `3` double and triple, `ar` and
      `am` aromatic, `nc` dummy, `wk` partial, in any case; everything else,
      `1` included, single.  No code reads as a quadruple bond. */
  lemma BondCodeKinds(bo: string)
    ensures BondCode(bo) != Quadruple
    ensures BondCode(bo) == Double <==> Lower(bo) == "2"
    ensures BondCode(bo) == Triple <==> Lower(bo) == "3"
    ensures BondCode(bo) == Aromatic <==> Lower(bo) == "ar" || Lower(bo) == "am"
    ensures BondCode(bo) == Dummy <==> Lower(bo) == "nc"
    ensures BondCode(bo) == Partial <==> Lower(bo) == "wk"
    ensures BondCode(bo) == Single <==> Lower(bo) !in {"2", "3", "ar", "am", "nc", "wk"}
  {
  }

  /** `format_bond_order`. */
  function BondOrder(k: BondKind): (code: string)
    ensures code != [] && |code| <= 2 && All(code, IsAlnum)
  {
    match k
    case Single => "1"
    case Double => "2"
    case Triple => "3"
    case Quadruple => "4"
    case Aromatic => "ar"
    case Partial => "wk"
    case Dummy => "nc"
  }

  /** Every bond kind but the quadruple bond reads back as itself; `4` is not a
      code the reader knows, so a quadruple bond reads back as single. */
  lemma BondOrderRoundTrip(k: BondKind)
    ensures BondCode(BondOrder(k)) == (if k == Quadruple then Single else k)
  {
    var code := BondOrder(k);
    assert Lower(code) == code;
  }

  // Atom types.

  /** `mm_type`: an element symbol and an optional force-field type after a
      dot (`C.ar`, `C.4`, `C`). */
  function MmType(s: string): (r: Parsed<(string, Option<string>)>)
    ensures r.Parsed? ==> r.value.0 != [] && |r.rest| < |s|
  {
    match Alpha1(s)
    case NoParse => NoParse
    case Parsed(e, r1) =>
      match Tag(".", r1)
      case NoParse => Parsed((e, None), r1)
      case Parsed(_, r2) =>
        match Alphanumeric1(r2)
        case NoParse => Parsed((e, None), r1)
        case Parsed(t, r3) => Parsed((e, Some(t)), r3)
  }

  /** The elements `get_atom_type` gives a Tripos type of their own. */
  function TriposType(symbol: string): (t: Option<string>)
    ensures t.Some? ==> t.value != [] && All(t.value, IsAlnum)
  {
    match symbol
    case "C" => Some("3")
    case "P" => Some("3")
    case "Co" => Some("oh")
    case "Ru" => Some("oh")
    case "O" => Some("2")
    case "N" => Some("3")
    case "S" => Some("2")
    case "Ti" => Some("oh")
    case "Cr" => Some("oh")
    case _ => None
  }

  /** `get_atom_type`: the Tripos atom type written for an atom. */
  function AtomType(symbol: string): string {
    match TriposType(symbol)
    case Some(t) => symbol + "." + t
    case None => symbol
  }

  lemma MmTypeTyped(e: string, t: string, rest: string)
    requires e != [] && All(e, IsAlpha) && t != [] && All(t, IsAlnum)
    requires rest == [] || !IsAlnum(rest[0])
    ensures MmType(e + ("." + (t + rest))) == Parsed((e, Some(t)), rest)
  {
    var r1 := "." + (t + rest);
    assert r1[0] == '.';
    Take1Of(e, r1, IsAlpha);
    TagOf(".", t + rest);
    Take1Of(t, rest, IsAlnum);
  }

  lemma MmTypePlain(e: string, rest: string)
    requires e != [] && All(e, IsAlpha)
    requires rest == [] || (!IsAlpha(rest[0]) && rest[0] != '.')
    ensures MmType(e + rest) == Parsed((e, None), rest)
  {
    Take1Of(e, rest, IsAlpha);
  }

  /** The atom type written for an element reads back as that element: the
      symbol part of `C.3` is `C`. */
  lemma AtomTypeReads(symbol: string, rest: string)
    requires symbol != [] && All(symbol, IsAlpha)
    requires rest == [] || IsWhite(rest[0])
    ensures MmType(AtomType(symbol) + rest).Parsed?
    ensures MmType(AtomType(symbol) + rest).value.0 == symbol
    ensures MmType(AtomType(symbol) + rest).rest == rest
  {
    match TriposType(symbol)
    case Some(t) =>
      AppendAssoc(symbol + ".", t, rest);
      AppendAssoc(symbol, ".", t + rest);
      MmTypeTyped(symbol, t, rest);
    case None =>
      MmTypePlain(symbol, rest);
  }

  // Reading.

  /** `atom_subst_and_charge`: substructure id and name, then an optional
      charge and optional status bits. */
  function SubstAndCharge(s: string): (r: Parsed<(nat, string, Option<Numeral>)>)
    ensures r.Parsed? ==> |r.rest| < |s|
  {
    match UnsignedDigit(s)
    case NoParse => NoParse
    case Parsed(id, r1) =>
      match Space1(r1)
      case NoParse => NoParse
      case Parsed(_, r2) =>
        match NotSpace(r2)
        case NoParse => NoParse
        case Parsed(name, r3) =>
          match Space1(r3)
          case NoParse => NoParse
          case Parsed(_, r4) =>
            var c := ChargeTail(r4);
            Parsed((id, name, c.0), c.1)
  }

  /** The optional charge, then blanks and optional status bits. */
  function ChargeTail(s: string): (r: (Option<Numeral>, string))
    ensures |r.1| <= |s|
  {
    var charge := Nom.Double(s);
    var r1 := Space0(if charge.Parsed? then charge.rest else s);
    var bits := Alpha1(r1);
    (if charge.Parsed? then Some(charge.value) else None, if bits.Parsed? then bits.rest else r1)
  }

  /** `read_atom_record`: index, name, coordinates, atom type, then the
      optional substructure fields.  The atom is labelled with its name. */
  function ReadAtomRecord(s: string, core: Core): (r: Parsed<(nat, Atom)>)
    ensures r.Parsed? ==> |r.rest| < |s|
  {
    match UnsignedDigit(Space0(s))
    case NoParse => NoParse
    case Parsed(id, r1) =>
      match Space1(r1)
      case NoParse => NoParse
      case Parsed(_, r2) =>
        match AtomFields(r2, core)
        case NoParse => NoParse
        case Parsed(a, r3) => Parsed((id, a), r3)
  }

  /** The fields of an atom record after its index. */
  function AtomFields(s: string, core: Core): (r: Parsed<Atom>)
    ensures r.Parsed? ==> |r.rest| < |s|
  {
    match NotSpace(s)
    case NoParse => NoParse
    case Parsed(name, r1) =>
      match Space1(r1)
      case NoParse => NoParse
      case Parsed(_, r2) =>
        match XyzArray(r2)
        case NoParse => NoParse
        case Parsed(xyz, r3) =>
          match Space1(r3)
          case NoParse => NoParse
          case Parsed(_, r4) =>
            match AtomTail(r4)
            case NoParse => NoParse
            case Parsed(e, r5) => Parsed(NewAtom(e, xyz, core).(name := Some(Trim(name))), r5)
  }

  /** The atom type, whose element part is the atom's symbol, then the
      optional substructure fields up to the end of the line. */
  function AtomTail(s: string): (r: Parsed<string>)
    ensures r.Parsed? ==> |r.rest| < |s|
  {
    match MmType(s)
    case NoParse => NoParse
    case Parsed(et, r1) =>
      var r2 := Space0(r1);
      var subst := SubstAndCharge(r2);
      match Eol(if subst.Parsed? then subst.rest else r2)
      case NoParse => NoParse
      case Parsed(_, r3) => Parsed(et.0, r3)
  }

  /** `many0(read_atom_record)`. */
  function AtomRecords(s: string, core: Core): (r: (seq<(nat, Atom)>, string))
    ensures |r.1| <= |s|
    decreases |s|
  {
    match ReadAtomRecord(s, core)
    case NoParse => ([], s)
    case Parsed(a, rest) =>
      var more := AtomRecords(rest, core);
      ([a] + more.0, more.1)
  }

  /** `read_atoms`: the ATOM section header and at least one atom record. */
  function ReadAtoms(s: string, core: Core): Parsed<seq<(nat, Atom)>> {
    match Tag(AtomSection, s)
    case NoParse => NoParse
    case Parsed(_, r1) =>
      match Eol(r1)
      case NoParse => NoParse
      case Parsed(_, r2) =>
        var atoms := AtomRecords(r2, core);
        if atoms.0 == [] then NoParse else Parsed(atoms.0, atoms.1)
  }

  /** `read_bond_record`: bond id, the two atoms, the bond type; the status
      bits are skipped. */
  function ReadBondRecord(s: string): (r: Parsed<Bond>)
    ensures r.Parsed? ==> |r.rest| < |s|
  {
    match UnsignedDigit(Space0(s))
    case NoParse => NoParse
    case Parsed(_, r1) =>
      match Space1(r1)
      case NoParse => NoParse
      case Parsed(_, r2) => BondFields(r2)
  }

  /** The fields of a bond record after its id. */
  function BondFields(s: string): (r: Parsed<Bond>)
    ensures r.Parsed? ==> |r.rest| < |s|
  {
    match UnsignedDigit(s)
    case NoParse => NoParse
    case Parsed(n1, r1) =>
      match Space1(r1)
      case NoParse => NoParse
      case Parsed(_, r2) =>
        match UnsignedDigit(r2)
        case NoParse => NoParse
        case Parsed(n2, r3) =>
          match Space1(r3)
          case NoParse => NoParse
          case Parsed(_, r4) =>
            match Alphanumeric1(r4)
            case NoParse => NoParse
            case Parsed(bo, r5) => Parsed(Bond(n1, n2, BondCode(bo)), ReadLine(Space0(r5)).rest)
  }

  /** `many0(read_bond_record)`. */
  function BondRecords(s: string): (r: (seq<Bond>, string))
    decreases |s|
  {
    match ReadBondRecord(s)
    case NoParse => ([], s)
    case Parsed(b, rest) =>
      var more := BondRecords(rest);
      ([b] + more.0, more.1)
  }

  /** `read_bonds`: the BOND section header and any number of bond records. */
  function ReadBonds(s: string): Parsed<seq<Bond>> {
    match Tag(BondSection, s)
    case NoParse => NoParse
    case Parsed(_, r1) =>
      match Eol(r1)
      case NoParse => NoParse
      case Parsed(_, r2) =>
        var bonds := BondRecords(r2);
        Parsed(bonds.0, bonds.1)
  }

  /** `read_lattice`: the CRYSIN section, six cell parameters, the space group
      and the setting. */
  function ReadLattice(s: string, core: Core): Parsed<Lattice> {
    match Tag(CrysinSection, s)
    case NoParse => NoParse
    case Parsed(_, r1) =>
      match Eol(r1)
      case NoParse => NoParse
      case Parsed(_, r2) =>
        match CellNumbers(Space0(r2))
        case NoParse => NoParse
        case Parsed(cell, r3) =>
          match UnsignedDigit(r3)
          case NoParse => NoParse
          case Parsed(_, r4) =>
            match Space1(r4)
            case NoParse => NoParse
            case Parsed(_, r5) =>
              match UnsignedDigit(r5)
              case NoParse => NoParse
              case Parsed(_, r6) => Parsed(core.fromParams(cell), ReadLine(r6).rest)
  }

  /** Six numbers, each followed by blanks: a, b, c, alpha, beta, gamma. */
  function CellNumbers(s: string): Parsed<CellParams> {
    match DoubleSpace1(s)
    case NoParse => NoParse
    case Parsed(a, r1) =>
      match DoubleSpace1(r1)
      case NoParse => NoParse
      case Parsed(b, r2) =>
        match DoubleSpace1(r2)
        case NoParse => NoParse
        case Parsed(c, r3) =>
          match DoubleSpace1(r3)
          case NoParse => NoParse
          case Parsed(alpha, r4) =>
            match DoubleSpace1(r4)
            case NoParse => NoParse
            case Parsed(beta, r5) =>
              match DoubleSpace1(r5)
              case NoParse => NoParse
              case Parsed(gamma, r6) => Parsed(CellParams(a, b, c, alpha, beta, gamma), r6)
  }

  /** `read_counts`: the atom count and, optionally, the bond count; the rest
      of the line is skipped. */
  function ReadCounts(s: string): Parsed<(nat, Option<nat>)> {
    match UnsignedDigit(Space0(s))
    case NoParse => NoParse
    case Parsed(n, r1) =>
      var r2 := Space0(r1);
      var m := UnsignedDigit(r2);
      Parsed((n, if m.Parsed? then Some(m.value) else None), ReadLine(if m.Parsed? then m.rest else r2).rest)
  }

  /** `read_molecule_meta`: the MOLECULE section header, the molecule name,
      the counts line, and the molecule and charge type lines. */
  function ReadMeta(s: string): Parsed<(string, nat, Option<nat>)> {
    match Tag(MoleculeSection, s)
    case NoParse => NoParse
    case Parsed(_, r1) =>
      match Eol(r1)
      case NoParse => NoParse
      case Parsed(_, r2) =>
        var title := ReadLine(r2);
        match ReadCounts(title.rest)
        case NoParse => NoParse
        case Parsed(counts, r3) =>
          Parsed((title.value, counts.0, counts.1), ReadLine(ReadLine(r3).rest).rest)
  }

  /** `opt(take_until("@<TRIPOS>"))`: skips to the next section header, if
      there is one. */
  function Jump(s: string): string {
    match TakeUntil("@<TRIPOS>", s)
    case Parsed(_, r) => r
    case NoParse => s
  }

  function Sited(atoms: seq<(nat, Atom)>): (sites: seq<Site>)
    ensures |sites| == |atoms|
    ensures forall k | 0 <= k < |atoms| :: sites[k] == Site(atoms[k].0, atoms[k].1)
  {
    seq(|atoms|, k requires 0 <= k < |atoms| => Site(atoms[k].0, atoms[k].1))
  }

  /** `read_molecule`: the meta data and the atoms, then the optional bonds
      and the optional lattice, each after skipping to a section header.  The
      stated atom count is not checked against the atoms read. */
  function ReadMolecule(s: string, core: Core): Parsed<Molecule> {
    match ReadMeta(Jump(s))
    case NoParse => NoParse
    case Parsed(meta, r1) =>
      match ReadAtoms(Jump(r1), core)
      case NoParse => NoParse
      case Parsed(atoms, r2) =>
        var s3 := Jump(r2);
        var bonds := ReadBonds(s3);
        var s4 := Jump(if bonds.Parsed? then bonds.rest else s3);
        var lat := ReadLattice(s4, core);
        Parsed(Molecule(meta.0, PutSites([], Sited(atoms)),
                        if bonds.Parsed? then bonds.value else [],
                        if lat.Parsed? then Some(lat.value) else None),
               if lat.Parsed? then lat.rest else s4)
  }

  /** `parse_molecule`. */
  function ParseMolecule(input: string, core: Core): (r: Result<Molecule>)
    ensures r.Ok? <==> ReadMolecule(input, core).Parsed?
  {
    match ReadMolecule(input, core)
    case NoParse => Err("parse mol2 molecule failure")
    case Parsed(mol, _) => Ok(mol)
  }

  // Writing.

  /** `{:>5} {:>5}`: the atom and bond counts. */
  function CountsRow(natoms: nat, nbonds: nat): string {
    PadLeft(ShowNat(natoms), 5) + (" " + PadLeft(ShowNat(nbonds), 5))
  }

  /** The substructure fields `format_atom` writes after the atom type:
      `{subst_id:5} {subst_name:8} {charge:-6.4}` for 1, `SUBUNIT` and 0,
      without the blanks before the id. */
  const SubstFields := "1" + (" " + (SubstName + ("  " + ZeroCharge)))
  const SubstName := "SUBUNIT"
  const ZeroCharge := "0.0000"

  /** `{:5} ` and `format_atom`: index, label, coordinates, Tripos type and
      the fixed substructure fields. */
  function AtomRow(sn: nat, a: Atom): string {
    PadLeft(ShowNat(sn), 5) + (" " + (PadRight(Label(a), 8) + (" " + (PadLeft(a.position.x, 12)
      + (" " + (PadLeft(a.position.y, 12) + (" " + (PadLeft(a.position.z, 12)
      + (" " + (PadRight(AtomType(a.symbol), 8) + (Spaces(5) + SubstFields)))))))))))
  }

  function AtomRows(sites: seq<Site>): (rows: seq<string>)
    ensures |rows| == |sites|
    ensures forall k | 0 <= k < |sites| :: rows[k] == AtomRow(sites[k].sn, sites[k].atom)
  {
    seq(|sites|, k requires 0 <= k < |sites| => AtomRow(sites[k].sn, sites[k].atom))
  }

  /** `{sn:4} {bond_i:4} {bond_j:4} {bond_type:3}`. */
  function BondRow(sn: nat, b: Bond): string {
    PadLeft(ShowNat(sn), 4) + (" " + (PadLeft(ShowNat(b.i), 4) + (" " + (PadLeft(ShowNat(b.j), 4)
      + (" " + PadRight(BondOrder(b.kind), 3))))))
  }

  /** The bond lines, numbered from 1. */
  function BondRows(bonds: seq<Bond>): (rows: seq<string>)
    ensures |rows| == |bonds|
    ensures forall k | 0 <= k < |bonds| :: rows[k] == BondRow(k + 1, bonds[k])
  {
    seq(|bonds|, k requires 0 <= k < |bonds| => BondRow(k + 1, bonds[k]))
  }

  /** The BOND section, written only for a molecule with bonds. */
  function BondBlock(bonds: seq<Bond>): (rows: seq<string>)
    ensures rows == [] <==> bonds == []
    ensures bonds != [] ==> rows == [BondSection] + BondRows(bonds)
  {
    if |bonds| > 0 then [BondSection] + BondRows(bonds) else []
  }

  /** `{a:10.4} {b:10.4} {c:10.4} {alpha:5.2} {beta:5.2} {gamma:5.2} {sgrp} 1`
      with space group 4. */
  function CrysinRow(lat: Lattice, core: Core): string {
    var l := core.lengths(lat);
    var g := core.angles(lat);
    PadLeft(l.x, 10) + (" " + (PadLeft(l.y, 10) + (" " + (PadLeft(l.z, 10)
      + (" " + (PadLeft(g.x, 5) + (" " + (PadLeft(g.y, 5) + (" " + (PadLeft(g.z, 5) + " 4 1"))))))))))
  }

  /** The CRYSIN section, written only for a molecule with a lattice. */
  function CrysinBlock(lattice: Option<Lattice>, core: Core): (rows: seq<string>)
    ensures rows == [] <==> lattice.None?
    ensures lattice.Some? ==> rows == [CrysinSection, CrysinRow(lattice.value, core)]
  {
    match lattice
    case None => []
    case Some(lat) => [CrysinSection, CrysinRow(lat, core)]
  }

  /** The lines before the atom lines. */
  function HeadRows(mol: Molecule): seq<string> {
    ["#\tCreated by gchemol", "", MoleculeSection, mol.title, CountsRow(|mol.sites|, |mol.bonds|),
     "SMALL", "USER CHARGES", AtomSection]
  }

  /** What `format_molecule` writes: head, atoms, bonds, crystal, and a final
      blank line. */
  function Mol2Rows(mol: Molecule, core: Core): seq<string> {
    HeadRows(mol) + AtomRows(mol.sites) + BondBlock(mol.bonds) + CrysinBlock(mol.lattice, core) + [""]
  }

  function Mol2Text(mol: Molecule, core: Core): string {
    Terminate(Mol2Rows(mol, core), "\n")
  }

  lemma AtomRowsSnoc(sites: seq<Site>, i: nat)
    requires i < |sites|
    ensures AtomRows(sites[..i + 1]) == AtomRows(sites[..i]) + [AtomRow(sites[i].sn, sites[i].atom)]
  {
    var longer, shorter := AtomRows(sites[..i + 1]), AtomRows(sites[..i]);
    forall k | 0 <= k < i
      ensures longer[k] == shorter[k]
    {
      assert sites[..i + 1][k] == sites[..i][k];
    }
    assert sites[..i + 1][i] == sites[i];
    RowsSnocOf(longer, shorter, AtomRow(sites[i].sn, sites[i].atom));
  }

  /** A sequence one longer than another, agreeing with it before its last row. */
  lemma RowsSnocOf(longer: seq<string>, shorter: seq<string>, row: string)
    requires |longer| == |shorter| + 1 && longer[|shorter|] == row
    requires forall k | 0 <= k < |shorter| :: longer[k] == shorter[k]
    ensures longer == shorter + [row]
  {
  }

  lemma BondRowsSnoc(bonds: seq<Bond>, i: nat)
    requires i < |bonds|
    ensures BondRows(bonds[..i + 1]) == BondRows(bonds[..i]) + [BondRow(i + 1, bonds[i])]
  {
    var longer, shorter := BondRows(bonds[..i + 1]), BondRows(bonds[..i]);
    forall k | 0 <= k < i
      ensures longer[k] == shorter[k]
    {
      assert bonds[..i + 1][k] == bonds[..i][k];
    }
    assert bonds[..i + 1][i] == bonds[i];
    RowsSnocOf(longer, shorter, BondRow(i + 1, bonds[i]));
  }

  /** One more line. */
  lemma RowStep(rows: seq<string>, row: string, lines: string)
    requires lines == Terminate(rows, "\n")
    ensures lines + row + "\n" == Terminate(rows + [row], "\n")
  {
    TerminateSnoc(rows, row);
  }

  /** `format_molecule`: the fixed head, one line per atom, the bond lines with
      a running serial number, the crystal lines, and a blank line. */
  method FormatMolecule(mol: Molecule, core: Core) returns (r: Result<string>)
    ensures r == Ok(Mol2Text(mol, core))
  {
    var head := JoinLines(HeadRows(mol));
    var atoms := WriteAtoms(mol.sites);
    var bonds := WriteBonds(mol.bonds);
    var lines := head + atoms + bonds;
    if mol.lattice.Some? {
      lines := lines + CrysinSection + "\n" + CrysinRow(mol.lattice.value, core) + "\n";
      TwoRows(head + atoms + bonds, CrysinSection, CrysinRow(mol.lattice.value, core));
    } else {
      assert lines == head + atoms + bonds + Terminate(CrysinBlock(mol.lattice, core), "\n");
    }
    AssembleText(mol, core, head, head + atoms, head + atoms + bonds, lines, lines + "\n");
    r := Ok(lines + "\n");
  }

  /** The atom lines, in storage order. */
  method WriteAtoms(sites: seq<Site>) returns (text: string)
    ensures text == Terminate(AtomRows(sites), "\n")
  {
    text := [];
    var i := 0;
    while i < |sites|
      invariant 0 <= i <= |sites|
      invariant text == Terminate(AtomRows(sites[..i]), "\n")
    {
      var row := AtomRow(sites[i].sn, sites[i].atom);
      RowStep(AtomRows(sites[..i]), row, text);
      AtomRowsSnoc(sites, i);
      text := text + row + "\n";
      i := i + 1;
    }
    assert sites[..i] == sites;
  }

  /** The BOND section: nothing for a molecule without bonds, else the section
      header and the bond lines under a running serial number. */
  method WriteBonds(bonds: seq<Bond>) returns (text: string)
    ensures text == Terminate(BondBlock(bonds), "\n")
  {
    if |bonds| == 0 {
      return [];
    }
    text := WriteBondLines(bonds);
  }

  /** The BOND section header and one line per bond. */
  method WriteBondLines(bonds: seq<Bond>) returns (text: string)
    ensures text == Terminate([BondSection] + BondRows(bonds), "\n")
  {
    text := BondSection + "\n";
    OneRow([], BondSection);
    var sn := 1;
    var j := 0;
    while j < |bonds|
      invariant 0 <= j <= |bonds| && sn == j + 1
      invariant text == Terminate([BondSection] + BondRows(bonds[..j]), "\n")
    {
      var row := BondRow(sn, bonds[j]);
      BondStep(bonds, j, row, text);
      text := text + row + "\n";
      sn := sn + 1;
      j := j + 1;
    }
    assert bonds[..j] == bonds;
  }

  lemma OneRow(head: string, row: string)
    ensures head + row + "\n" == head + Terminate([row], "\n")
  {
    TerminateSnoc([], row);
  }

  lemma TwoRows(head: string, row1: string, row2: string)
    ensures head + row1 + "\n" + row2 + "\n" == head + Terminate([row1, row2], "\n")
  {
    TerminateSnoc([], row1);
    TerminateSnoc([row1], row2);
    assert [row1] + [row2] == [row1, row2];
  }

  /** One more bond line. */
  lemma BondStep(bonds: seq<Bond>, j: nat, row: string, lines: string)
    requires j < |bonds| && row == BondRow(j + 1, bonds[j])
    requires lines == Terminate([BondSection] + BondRows(bonds[..j]), "\n")
    ensures lines + row + "\n" == Terminate([BondSection] + BondRows(bonds[..j + 1]), "\n")
  {
    RowStep([BondSection] + BondRows(bonds[..j]), row, lines);
    BondRowsSnoc(bonds, j);
    SeqAppendAssoc([BondSection], BondRows(bonds[..j]), [row]);
  }

  /** The pieces the writer appends make up the whole text. */
  lemma AssembleText(mol: Molecule, core: Core, head: string, atomsText: string, bondsText: string,
                     crysinText: string, lines: string)
    requires head == Terminate(HeadRows(mol), "\n")
    requires atomsText == head + Terminate(AtomRows(mol.sites), "\n")
    requires bondsText == atomsText + Terminate(BondBlock(mol.bonds), "\n")
    requires crysinText == bondsText + Terminate(CrysinBlock(mol.lattice, core), "\n")
    requires lines == crysinText + "\n"
    ensures lines == Mol2Text(mol, core)
  {
    TerminateParts(HeadRows(mol), AtomRows(mol.sites), BondBlock(mol.bonds), CrysinBlock(mol.lattice, core));
  }

  lemma TerminateParts(a: seq<string>, b: seq<string>, c: seq<string>, d: seq<string>)
    ensures Terminate(a + b + c + d + [""], "\n")
      == Terminate(a, "\n") + Terminate(b, "\n") + Terminate(c, "\n") + Terminate(d, "\n") + "\n"
  {
    TerminateAppend(a, b);
    TerminateAppend(a + b, c);
    TerminateAppend(a + b + c, d);
    TerminateSnoc(a + b + c + d, "");
  }

  // Reading back what is written.

  /** A counts line reads back as the two counts. */
  lemma CountsRowReads(natoms: nat, nbonds: nat, rest: string)
    ensures ReadCounts(CountsRow(natoms, nbonds) + ("\n" + rest)) == Parsed((natoms, Some(nbonds)), rest)
  {
    var d1 := ShowNat(natoms);
    var d2 := ShowNat(nbonds);
    var tail := Spaces(Gap(d2, 5) + 1) + (d2 + ("\n" + rest));
    CountsRowShape(d1, d2, rest);
    CountsRead(natoms, nbonds, rest, tail);
  }

  lemma CountsRowShape(d1: string, d2: string, rest: string)
    ensures PadLeft(d1, 5) + (" " + PadLeft(d2, 5)) + ("\n" + rest)
      == Spaces(Gap(d1, 5)) + (d1 + (Spaces(Gap(d2, 5) + 1) + (d2 + ("\n" + rest))))
  {
    PadLeftGap(d1, 5);
    PadLeftGap(d2, 5);
    SpacesAdd(1, Gap(d2, 5));
    assert Spaces(1) == " ";
    var g2 := Spaces(Gap(d2, 5));
    AppendAssoc(PadLeft(d1, 5), " " + PadLeft(d2, 5), "\n" + rest);
    AppendAssoc(Spaces(Gap(d1, 5)), d1, " " + PadLeft(d2, 5) + ("\n" + rest));
    AppendAssoc(" ", g2 + d2, "\n" + rest);
    AppendAssoc(g2, d2, "\n" + rest);
    AppendAssoc(" ", g2, d2 + ("\n" + rest));
  }

  lemma CountsRead(natoms: nat, nbonds: nat, rest: string, tail: string)
    requires tail == Spaces(Gap(ShowNat(nbonds), 5) + 1) + (ShowNat(nbonds) + ("\n" + rest))
    ensures ReadCounts(Spaces(Gap(ShowNat(natoms), 5)) + (ShowNat(natoms) + tail)) == Parsed((natoms, Some(nbonds)), rest)
  {
    var d1 := ShowNat(natoms);
    var d2 := ShowNat(nbonds);
    LeadingNat(d1, Gap(d1, 5), tail);
    assert tail[0] == ' ';
    UnsignedDigitOf(natoms, tail);
    LeadingNat(d2, Gap(d2, 5) + 1, "\n" + rest);
    UnsignedDigitOf(nbonds, "\n" + rest);
    ReadLineOf([], rest);
    assert [] + ("\n" + rest) == "\n" + rest;
  }

  /** Blanks before a number are skipped. */
  lemma LeadingNat(d: string, g: nat, rest: string)
    requires d != [] && IsDigit(d[0])
    ensures Space0(Spaces(g) + (d + rest)) == d + rest
  {
    assert (d + rest)[0] == d[0];
    Space0Of(Spaces(g), d + rest);
  }

  /** The substructure fields read back, up to the line break. */
  lemma SubstRead(rest: string)
    ensures SubstAndCharge(SubstFields + ("\n" + rest)).Parsed?
    ensures SubstAndCharge(SubstFields + ("\n" + rest)).rest == "\n" + rest
  {
    var e := "\n" + rest;
    var r4 := ZeroCharge + e;
    var r3 := "  " + r4;
    var r2 := SubstName + r3;
    var r1 := " " + r2;
    AppendAssoc("1", " " + (SubstName + ("  " + ZeroCharge)), e);
    AppendAssoc(" ", SubstName + ("  " + ZeroCharge), e);
    AppendAssoc(SubstName, "  " + ZeroCharge, e);
    AppendAssoc("  ", ZeroCharge, e);
    assert SubstFields + e == "1" + r1;
    SubstIdRead(r1, r2);
    SubstNameRead(r3, r4);
    ChargeRead(rest);
    SubstOf("1" + r1, 1, r1, " ", r2, SubstName, r3, "  ", r4, ZeroCharge, e);
  }

  lemma SubstOf(s: string, id: nat, r1: string, g1: string, r2: string, name: string, r3: string, g2: string,
                 r4: string, z: Numeral, e: string)
    requires UnsignedDigit(s) == Parsed(id, r1)
    requires Space1(r1) == Parsed(g1, r2)
    requires NotSpace(r2) == Parsed(name, r3)
    requires Space1(r3) == Parsed(g2, r4)
    requires ChargeTail(r4) == (Some(z), e)
    ensures SubstAndCharge(s) == Parsed((id, name, Some(z)), e)
  {
  }

  lemma SubstIdRead(r1: string, r2: string)
    requires r1 == " " + r2 && r2 != [] && r2[0] == 'S'
    ensures UnsignedDigit("1" + r1) == Parsed(1, r1)
    ensures Space1(r1) == Parsed(" ", r2)
  {
    assert ShowNat(1) == "1";
    UnsignedDigitOf(1, r1);
    Take1Of(" ", r2, IsBlank);
  }

  lemma SubstNameRead(r3: string, r4: string)
    requires r3 == "  " + r4 && r4 != [] && r4[0] == '0'
    ensures NotSpace(SubstName + r3) == Parsed(SubstName, r3)
    ensures Space1(r3) == Parsed("  ", r4)
  {
    assert All(SubstName, NotWhite);
    Take1Of(SubstName, r3, NotWhite);
    Take1Of("  ", r4, IsBlank);
  }

  lemma ChargeRead(rest: string)
    ensures ChargeTail(ZeroCharge + ("\n" + rest)) == (Some(ZeroCharge), "\n" + rest)
  {
    assert ZeroCharge == "0" + "." + "0000";
    DecimalNumeral("0", "0000");
    ChargeOf(ZeroCharge, "\n" + rest);
  }

  /** A charge read up to the line break, with no status bits after it. */
  lemma ChargeOf(z: Numeral, e: string)
    requires IsNumeral(z) && e != [] && e[0] == '\n'
    ensures ChargeTail(z + e) == (Some(z), e)
  {
    DoubleOf(z, e);
    LineBreakFacts(e);
    ChargeTailFrom(z + e, z, e);
  }

  /** Neither blanks nor status bits in front of a line break. */
  lemma LineBreakFacts(e: string)
    requires e != [] && e[0] == '\n'
    ensures Space0(e) == e && Alpha1(e) == NoParse
  {
    Space0Of([], e);
    assert [] + e == e;
    assert Span(e, IsAlpha) == 0;
  }

  lemma ChargeTailFrom(s: string, z: Numeral, e: string)
    requires Nom.Double(s) == Parsed(z, e)
    requires Space0(e) == e && Alpha1(e) == NoParse
    ensures ChargeTail(s) == (Some(z), e)
  {
  }

  /** A line break after optional blanks ends the line. */
  lemma EolOf(rest: string)
    ensures Eol("\n" + rest) == Parsed("\n", rest)
  {
    Space0Of([], "\n" + rest);
    assert [] + ("\n" + rest) == "\n" + rest;
  }

  /** What follows the coordinates: the atom type, whose element part is read,
      and the substructure fields. */
  lemma AtomTailRead(symbol: string, rest: string)
    requires symbol != [] && All(symbol, IsAlpha)
    ensures AtomTail(PadRight(AtomType(symbol), 8) + (Spaces(5) + SubstFields) + ("\n" + rest)) == Parsed(symbol, rest)
  {
    var t := AtomType(symbol);
    var e := "\n" + rest;
    var g := Spaces(Gap(t, 8) + 5);
    TailShape(t, SubstFields, e);
    AtomTypeReads(symbol, g + (SubstFields + e));
    Space0Of(g, SubstFields + e);
    SubstRead(rest);
    EolOf(rest);
  }

  lemma TailShape(t: string, f: string, e: string)
    ensures PadRight(t, 8) + (Spaces(5) + f) + e == t + (Spaces(Gap(t, 8) + 5) + (f + e))
  {
    PadRightSplit(t, 8);
    assert (if |t| < 8 then 8 - |t| else 0) == Gap(t, 8);
    SpacesAdd(Gap(t, 8), 5);
    AppendAssoc(t, Spaces(Gap(t, 8)), Spaces(5) + f);
    AppendAssoc(Spaces(Gap(t, 8)), Spaces(5), f);
    AppendAssoc(t + (Spaces(Gap(t, 8)) + (Spaces(5) + f)), [], e);
    AppendAssoc(t, Spaces(Gap(t, 8) + 5) + f, e);
    AppendAssoc(Spaces(Gap(t, 8) + 5), f, e);
  }

  /** The blanks between two fields, taken together. */
  lemma Blanks(m: nat, n: nat, w: string)
    ensures Spaces(m) + (" " + (Spaces(n) + w)) == Spaces(m + 1 + n) + w
  {
    SpacesAdd(m, 1);
    SpacesAdd(m + 1, n);
    assert Spaces(1) == " ";
    AppendAssoc(" ", Spaces(n), w);
    AppendAssoc(Spaces(m), " " + Spaces(n), w);
    AppendAssoc(Spaces(m), " ", Spaces(n));
  }

  /** The atom row, with the text after it pushed to its last field. */
  lemma AtomRowAppend(sn: nat, a: Atom, e: string)
    ensures AtomRow(sn, a) + e == PadLeft(ShowNat(sn), 5) + (" " + (PadRight(Label(a), 8) + (" " + (PadLeft(a.position.x, 12)
      + (" " + (PadLeft(a.position.y, 12) + (" " + (PadLeft(a.position.z, 12)
      + (" " + (PadRight(AtomType(a.symbol), 8) + (Spaces(5) + SubstFields) + e))))))))))
  {
    var t := PadRight(AtomType(a.symbol), 8) + (Spaces(5) + SubstFields);
    var z := PadLeft(a.position.z, 12);
    var y := PadLeft(a.position.y, 12);
    var x := PadLeft(a.position.x, 12);
    var l := PadRight(Label(a), 8);
    var a9 := " " + t;
    var a8 := z + a9;
    var a7 := " " + a8;
    var a6 := y + a7;
    var a5 := " " + a6;
    var a4 := x + a5;
    var a3 := " " + a4;
    var a2 := l + a3;
    var a1 := " " + a2;
    AppendAssoc(PadLeft(ShowNat(sn), 5), a1, e);
    AppendAssoc(" ", a2, e);
    AppendAssoc(l, a3, e);
    AppendAssoc(" ", a4, e);
    AppendAssoc(x, a5, e);
    AppendAssoc(" ", a6, e);
    AppendAssoc(y, a7, e);
    AppendAssoc(" ", a8, e);
    AppendAssoc(z, a9, e);
    AppendAssoc(" ", t, e);
  }

  /** What `format_atom` needs for its line to read back: a numeral per
      coordinate, a label without white space, an alphabetic symbol. */
  predicate AtomReadable(a: Atom) {
    IsNumeral(a.position.x) && IsNumeral(a.position.y) && IsNumeral(a.position.z)
    && Label(a) != [] && All(Label(a), NotWhite)
    && a.symbol != [] && All(a.symbol, IsAlpha)
  }

  /** The atom as `read_atom_record` rebuilds it from a written line: the
      same position and label, and the same symbol when it is standard. */
  function ReadBackAtom(a: Atom, core: Core): (r: Atom)
    ensures r.position == a.position && r.name == Some(Label(a))
    ensures IsStandard(a.symbol, core) ==> r.symbol == a.symbol
  {
    NewAtom(a.symbol, a.position, core).(name := Some(Label(a)))
  }

  /** The atom records `read_atoms` gives for written sites. */
  function ReadBackSites(sites: seq<Site>, core: Core): (r: seq<(nat, Atom)>)
    ensures |r| == |sites|
    ensures forall k | 0 <= k < |sites| :: r[k] == (sites[k].sn, ReadBackAtom(sites[k].atom, core))
  {
    seq(|sites|, k requires 0 <= k < |sites| => (sites[k].sn, ReadBackAtom(sites[k].atom, core)))
  }

  /** The ATOM section as written reads back, atom by atom, up to the text
      after it. */
  lemma AtomBlockReads(sites: seq<Site>, rest: string, core: Core)
    requires sites != []
    requires forall k | 0 <= k < |sites| :: AtomReadable(sites[k].atom)
    requires rest == [] || rest[0] == '@' || rest[0] == '\n'
    ensures ReadAtoms(Terminate([AtomSection] + AtomRows(sites), "\n") + rest, core) == Parsed(ReadBackSites(sites, core), rest)
  {
    var body := Terminate(AtomRows(sites), "\n") + rest;
    NoAtomAt(rest, core);
    AtomRowsRead(sites, 0, rest, core);
    assert AtomRows(sites)[0..] == AtomRows(sites);
    assert sites[0..] == sites;
    TerminateHead([AtomSection] + AtomRows(sites), rest);
    assert ([AtomSection] + AtomRows(sites))[1..] == AtomRows(sites);
    SectionRead(AtomSection, body);
    AtomSectionOf(AtomSection + ("\n" + body), "\n" + body, body, ReadBackSites(sites, core), rest, core);
  }

  lemma AtomSectionOf(s: string, r1: string, r2: string, atoms: seq<(nat, Atom)>, rest: string, core: Core)
    requires Tag(AtomSection, s) == Parsed(AtomSection, r1)
    requires Eol(r1) == Parsed("\n", r2)
    requires AtomRecords(r2, core) == (atoms, rest) && atoms != []
    ensures ReadAtoms(s, core) == Parsed(atoms, rest)
  {
  }

  /** Text that starts a new section, or a blank line, holds no atom record. */
  lemma NoAtomAt(rest: string, core: Core)
    requires rest == [] || rest[0] == '@' || rest[0] == '\n'
    ensures ReadAtomRecord(rest, core) == NoParse
  {
    NoNumberAt(rest);
    NoAtomOf(rest, core);
  }

  lemma NoAtomOf(s: string, core: Core)
    requires UnsignedDigit(Space0(s)) == NoParse
    ensures ReadAtomRecord(s, core) == NoParse
  {
  }

  /** Text that starts a new section, or a blank line, does not start with a
      number. */
  lemma NoNumberAt(rest: string)
    requires rest == [] || rest[0] == '@' || rest[0] == '\n'
    ensures UnsignedDigit(Space0(rest)) == NoParse
  {
    if rest != [] {
      assert Span(rest, IsBlank) == 0;
      assert rest[0..] == rest;
    }
  }

  /** The atom lines from the `m`-th on read back as the sites from the
      `m`-th on. */
  lemma {:induction false} AtomRowsRead(sites: seq<Site>, m: nat, rest: string, core: Core)
    requires m <= |sites|
    requires forall k | m <= k < |sites| :: AtomReadable(sites[k].atom)
    requires ReadAtomRecord(rest, core) == NoParse
    ensures AtomRecords(Terminate(AtomRows(sites)[m..], "\n") + rest, core) == (ReadBackSites(sites[m..], core), rest)
    decreases |sites| - m
  {
    if m == |sites| {
      assert AtomRows(sites)[m..] == [];
      assert [] + rest == rest;
      assert ReadBackSites(sites[m..], core) == [];
    } else {
      var rows := AtomRows(sites)[m..];
      var tail := Terminate(rows[1..], "\n") + rest;
      TerminateHead(rows, rest);
      assert rows[0] == AtomRow(sites[m].sn, sites[m].atom);
      assert rows[1..] == AtomRows(sites)[m + 1..];
      AtomRowReads(sites[m].sn, sites[m].atom, tail, core);
      AtomRowsRead(sites, m + 1, rest, core);
      AtomRecordsCons(rows[0] + ("\n" + tail), (sites[m].sn, ReadBackAtom(sites[m].atom, core)), tail, core);
      SitesReadFrom(sites, m, core);
    }
  }

  lemma AtomRecordsCons(s: string, a: (nat, Atom), tail: string, core: Core)
    requires ReadAtomRecord(s, core) == Parsed(a, tail)
    ensures AtomRecords(s, core) == ([a] + AtomRecords(tail, core).0, AtomRecords(tail, core).1)
  {
  }

  lemma SitesReadFrom(sites: seq<Site>, m: nat, core: Core)
    requires m < |sites|
    ensures ReadBackSites(sites[m..], core) == [(sites[m].sn, ReadBackAtom(sites[m].atom, core))] + ReadBackSites(sites[m + 1..], core)
  {
    var a := ReadBackSites(sites[m..], core);
    var b := [(sites[m].sn, ReadBackAtom(sites[m].atom, core))] + ReadBackSites(sites[m + 1..], core);
    assert |a| == |b|;
    forall k | 0 <= k < |a|
      ensures a[k] == b[k]
    {
      if k > 0 {
        assert b[k] == ReadBackSites(sites[m + 1..], core)[k - 1];
        assert sites[m + 1..][k - 1] == sites[m..][k];
      }
    }
  }

  /** `format_atom` followed by `read_atom_record` gives back the index, the
      label, the element and the position. */
  lemma AtomRowReads(sn: nat, a: Atom, rest: string, core: Core)
    requires AtomReadable(a)
    ensures ReadAtomRecord(AtomRow(sn, a) + ("\n" + rest), core) == Parsed((sn, ReadBackAtom(a, core)), rest)
  {
    var p := a.position;
    var t := PadRight(AtomType(a.symbol), 8) + (Spaces(5) + SubstFields) + ("\n" + rest);
    var r4 := p.x + ((" " + Spaces(Gap(p.y, 12))) + (p.y + ((" " + Spaces(Gap(p.z, 12))) + (p.z + (" " + t)))));
    var n := Gap(Label(a), 8) + 1 + Gap(p.x, 12);
    AtomRowShape(sn, a, rest, t, r4, n);
    AtomFieldsRead(a, n, r4, t, rest, core);
    assert (Label(a) + (Spaces(n) + r4))[0] == Label(a)[0];
    IndexRead(sn, Label(a) + (Spaces(n) + r4), ReadBackAtom(a, core), rest, core);
  }

  /** The written atom line, regrouped as the reader meets its fields. */
  lemma AtomRowShape(sn: nat, a: Atom, rest: string, t: string, r4: string, n: nat)
    requires t == PadRight(AtomType(a.symbol), 8) + (Spaces(5) + SubstFields) + ("\n" + rest)
    requires r4 == a.position.x + ((" " + Spaces(Gap(a.position.y, 12))) + (a.position.y
      + ((" " + Spaces(Gap(a.position.z, 12))) + (a.position.z + (" " + t)))))
    requires n == Gap(Label(a), 8) + 1 + Gap(a.position.x, 12)
    ensures AtomRow(sn, a) + ("\n" + rest) == PadLeft(ShowNat(sn), 5) + (" " + (Label(a) + (Spaces(n) + r4)))
  {
    var p := a.position;
    var r5 := " " + t;
    var w := PadLeft(p.x, 12) + (" " + (PadLeft(p.y, 12) + (" " + (PadLeft(p.z, 12) + r5))));
    AtomRowAppend(sn, a, "\n" + rest);
    CoordsShape(p, r5);
    PadLeftGap(p.x, 12);
    AppendAssoc(Spaces(Gap(p.x, 12)), p.x, " " + (PadLeft(p.y, 12) + (" " + (PadLeft(p.z, 12) + r5))));
    assert w == Spaces(Gap(p.x, 12)) + r4;
    LabelShape(Label(a), w);
    Blanks(Gap(Label(a), 8), Gap(p.x, 12), r4);
  }

  /** The fields after the index of a written atom line read back. */
  lemma AtomFieldsRead(a: Atom, n: nat, r4: string, t: string, rest: string, core: Core)
    requires AtomReadable(a) && n > 0
    requires t == PadRight(AtomType(a.symbol), 8) + (Spaces(5) + SubstFields) + ("\n" + rest)
    requires r4 == a.position.x + ((" " + Spaces(Gap(a.position.y, 12))) + (a.position.y
      + ((" " + Spaces(Gap(a.position.z, 12))) + (a.position.z + (" " + t)))))
    ensures AtomFields(Label(a) + (Spaces(n) + r4), core) == Parsed(ReadBackAtom(a, core), rest)
  {
    AtomTailRead(a.symbol, rest);
    NumeralNotWhite(a.position.x);
    assert r4[0] == a.position.x[0];
    assert t[0] == PadRight(AtomType(a.symbol), 8)[0];
    CoordsRead(a.position, " " + t, t);
    BlankThen(t);
    FieldsFromLabel(a, n, r4, t, rest, core);
  }

  lemma LabelShape(lab: string, w: string)
    ensures PadRight(lab, 8) + (" " + w) == lab + (Spaces(Gap(lab, 8)) + (" " + w))
  {
    PadRightSplit(lab, 8);
    assert (if |lab| < 8 then 8 - |lab| else 0) == Gap(lab, 8);
    AppendAssoc(lab, Spaces(Gap(lab, 8)), " " + w);
  }

  lemma CoordsShape(p: Vec3, r5: string)
    ensures " " + (PadLeft(p.y, 12) + (" " + (PadLeft(p.z, 12) + r5)))
      == (" " + Spaces(Gap(p.y, 12))) + (p.y + ((" " + Spaces(Gap(p.z, 12))) + (p.z + r5)))
  {
    PadLeftGap(p.y, 12);
    PadLeftGap(p.z, 12);
    AppendAssoc(Spaces(Gap(p.z, 12)), p.z, r5);
    AppendAssoc(" ", Spaces(Gap(p.z, 12)), p.z + r5);
    AppendAssoc(Spaces(Gap(p.y, 12)), p.y, " " + (PadLeft(p.z, 12) + r5));
    AppendAssoc(" ", Spaces(Gap(p.y, 12)), p.y + ((" " + Spaces(Gap(p.z, 12))) + (p.z + r5)));
  }

  /** The three coordinates, then blanks before the atom type. */
  lemma CoordsRead(p: Vec3, r5: string, t: string)
    requires IsNumeral(p.x) && IsNumeral(p.y) && IsNumeral(p.z)
    requires r5 == " " + t && t != [] && !IsBlank(t[0])
    ensures XyzArray(p.x + ((" " + Spaces(Gap(p.y, 12))) + (p.y + ((" " + Spaces(Gap(p.z, 12))) + (p.z + r5))))) == Parsed(p, r5)
  {
    assert IsWhite(r5[0]) by {
      assert r5[0] == ' ';
    }
    SpaceThenBlanks(Gap(p.y, 12));
    SpaceThenBlanks(Gap(p.z, 12));
    XyzArrayOf(p, " " + Spaces(Gap(p.y, 12)), " " + Spaces(Gap(p.z, 12)), r5);
  }

  lemma BlankThen(t: string)
    requires t != [] && !IsBlank(t[0])
    ensures Space1(" " + t) == Parsed(" ", t)
  {
    Take1Of(" ", t, IsBlank);
  }

  /** The atom's fields, from its label on. */
  lemma FieldsFromLabel(a: Atom, n: nat, r4: string, t: string, rest: string, core: Core)
    requires AtomReadable(a) && n > 0
    requires XyzArray(r4) == Parsed(a.position, " " + t)
    requires Space1(" " + t) == Parsed(" ", t)
    requires AtomTail(t) == Parsed(a.symbol, rest)
    requires r4 != [] && !IsBlank(r4[0])
    ensures AtomFields(Label(a) + (Spaces(n) + r4), core) == Parsed(ReadBackAtom(a, core), rest)
  {
    var lab := Label(a);
    assert (Spaces(n) + r4)[0] == ' ';
    Take1Of(lab, Spaces(n) + r4, NotWhite);
    Take1Of(Spaces(n), r4, IsBlank);
    TrimOf([], lab);
    assert [] + lab == lab;
  }

  /** The index, after the blanks that right-align it. */
  lemma IndexRead(sn: nat, r2: string, atom: Atom, rest: string, core: Core)
    requires AtomFields(r2, core) == Parsed(atom, rest)
    requires r2 != [] && !IsBlank(r2[0])
    ensures ReadAtomRecord(PadLeft(ShowNat(sn), 5) + (" " + r2), core) == Parsed((sn, atom), rest)
  {
    IndexBlanks(ShowNat(sn), " " + r2);
    IndexDigits(sn, r2);
  }

  lemma IndexBlanks(d: string, r: string)
    requires d != [] && IsDigit(d[0])
    ensures Space0(PadLeft(d, 5) + r) == d + r
  {
    PadLeftGap(d, 5);
    AppendAssoc(Spaces(Gap(d, 5)), d, r);
    LeadingNat(d, Gap(d, 5), r);
  }

  lemma IndexDigits(sn: nat, r2: string)
    requires r2 != [] && !IsBlank(r2[0])
    ensures UnsignedDigit(ShowNat(sn) + (" " + r2)) == Parsed(sn, " " + r2)
    ensures Space1(" " + r2) == Parsed(" ", r2)
  {
    UnsignedDigitOf(sn, " " + r2);
    Take1Of(" ", r2, IsBlank);
  }

  /** A bond as `read_bond_record` rebuilds it from a written line. */
  function ReadBackBond(b: Bond): Bond {
    Bond(b.i, b.j, if b.kind == Quadruple then Single else b.kind)
  }

  function ReadBackBonds(bonds: seq<Bond>): (r: seq<Bond>)
    ensures |r| == |bonds|
    ensures forall k | 0 <= k < |bonds| :: r[k] == ReadBackBond(bonds[k])
  {
    seq(|bonds|, k requires 0 <= k < |bonds| => ReadBackBond(bonds[k]))
  }

  /** The BOND section as written reads back, bond by bond, up to the text
      after it. */
  lemma BondBlockReads(bonds: seq<Bond>, rest: string)
    requires bonds != []
    requires rest == [] || rest[0] == '@' || rest[0] == '\n'
    ensures ReadBonds(Terminate(BondBlock(bonds), "\n") + rest) == Parsed(ReadBackBonds(bonds), rest)
  {
    var body := Terminate(BondRows(bonds), "\n") + rest;
    NoBondAt(rest);
    BondRowsRead(bonds, 0, rest);
    assert BondRows(bonds)[0..] == BondRows(bonds);
    assert bonds[0..] == bonds;
    TerminateHead(BondBlock(bonds), rest);
    assert BondBlock(bonds)[1..] == BondRows(bonds);
    SectionRead(BondSection, body);
    BondSectionOf(BondSection + ("\n" + body), "\n" + body, body, ReadBackBonds(bonds), rest);
  }

  lemma BondSectionOf(s: string, r1: string, r2: string, bonds: seq<Bond>, rest: string)
    requires Tag(BondSection, s) == Parsed(BondSection, r1)
    requires Eol(r1) == Parsed("\n", r2)
    requires BondRecords(r2) == (bonds, rest)
    ensures ReadBonds(s) == Parsed(bonds, rest)
  {
  }

  /** A section header on a line of its own. */
  lemma SectionRead(header: string, body: string)
    ensures Tag(header, header + ("\n" + body)) == Parsed(header, "\n" + body)
    ensures Eol("\n" + body) == Parsed("\n", body)
  {
    TagOf(header, "\n" + body);
    EolOf(body);
  }

  /** Text that starts a new section, or a blank line, holds no bond record. */
  lemma NoBondAt(rest: string)
    requires rest == [] || rest[0] == '@' || rest[0] == '\n'
    ensures ReadBondRecord(rest) == NoParse
  {
    NoNumberAt(rest);
  }

  /** The bond lines from the `m`-th on read back as the bonds from the
      `m`-th on. */
  lemma {:induction false} BondRowsRead(bonds: seq<Bond>, m: nat, rest: string)
    requires m <= |bonds|
    requires ReadBondRecord(rest) == NoParse
    ensures BondRecords(Terminate(BondRows(bonds)[m..], "\n") + rest) == (ReadBackBonds(bonds[m..]), rest)
    decreases |bonds| - m
  {
    if m == |bonds| {
      assert BondRows(bonds)[m..] == [];
      assert [] + rest == rest;
      assert ReadBackBonds(bonds[m..]) == [];
    } else {
      var rows := BondRows(bonds)[m..];
      var tail := Terminate(rows[1..], "\n") + rest;
      TerminateHead(rows, rest);
      assert rows[0] == BondRow(m + 1, bonds[m]);
      assert rows[1..] == BondRows(bonds)[m + 1..];
      BondRowReads(m + 1, bonds[m], tail);
      BondRowsRead(bonds, m + 1, rest);
      BondRecordsCons(rows[0] + ("\n" + tail), ReadBackBond(bonds[m]), tail);
      ReadBackFrom(bonds, m);
    }
  }

  lemma ReadBackFrom(bonds: seq<Bond>, m: nat)
    requires m < |bonds|
    ensures ReadBackBonds(bonds[m..]) == [ReadBackBond(bonds[m])] + ReadBackBonds(bonds[m + 1..])
  {
    var a := ReadBackBonds(bonds[m..]);
    var b := [ReadBackBond(bonds[m])] + ReadBackBonds(bonds[m + 1..]);
    assert |a| == |b|;
    forall k | 0 <= k < |a|
      ensures a[k] == b[k]
    {
      if k > 0 {
        assert b[k] == ReadBackBonds(bonds[m + 1..])[k - 1];
        assert bonds[m + 1..][k - 1] == bonds[m..][k];
      }
    }
  }

  lemma BondRecordsCons(s: string, b: Bond, tail: string)
    requires ReadBondRecord(s) == Parsed(b, tail)
    ensures BondRecords(s) == ([b] + BondRecords(tail).0, BondRecords(tail).1)
  {
  }

  /** `format_bond` followed by `read_bond_record` gives back both atoms and
      the bond kind, a quadruple bond coming back as single. */
  lemma BondRowReads(sn: nat, b: Bond, rest: string)
    ensures ReadBondRecord(BondRow(sn, b) + ("\n" + rest)) == Parsed(ReadBackBond(b), rest)
  {
    var code := BondOrder(b.kind);
    var r3 := code + (Spaces(Gap(code, 3)) + ("\n" + rest));
    var r2 := ShowNat(b.j) + (Spaces(1) + r3);
    var r1 := ShowNat(b.i) + (Spaces(Gap(ShowNat(b.j), 4) + 1) + r2);
    BondRowShape(sn, b, "\n" + rest, r1, r2, r3);
    BondFieldsRead(b.i, b.j, code, Gap(ShowNat(b.j), 4), r1, r2, r3, rest);
    BondIdRead(sn, Spaces(Gap(ShowNat(b.i), 4) + 1), r1, Bond(b.i, b.j, BondCode(code)), rest);
    BondOrderRoundTrip(b.kind);
  }

  /** The right-aligned bond id, then the fields after it. */
  lemma BondIdRead(sn: nat, w: string, r1: string, b: Bond, rest: string)
    requires w != [] && All(w, IsBlank)
    requires r1 != [] && IsDigit(r1[0])
    requires BondFields(r1) == Parsed(b, rest)
    ensures ReadBondRecord(PadLeft(ShowNat(sn), 4) + (w + r1)) == Parsed(b, rest)
  {
    IdPrefix(sn, w, r1);
    BondRecordOf(PadLeft(ShowNat(sn), 4) + (w + r1), sn, w + r1, w, r1, b, rest);
  }

  /** A right-aligned number, then blanks before a field that is not blank. */
  lemma IdPrefix(sn: nat, w: string, r1: string)
    requires w != [] && All(w, IsBlank)
    requires r1 != [] && IsDigit(r1[0])
    ensures UnsignedDigit(Space0(PadLeft(ShowNat(sn), 4) + (w + r1))) == Parsed(sn, w + r1)
    ensures Space1(w + r1) == Parsed(w, r1)
  {
    IdPrefixFacts(sn, w, r1);
    IndexBlanksAt(ShowNat(sn), w + r1);
    UnsignedDigitOf(sn, w + r1);
    Take1Of(w, r1, IsBlank);
  }

  lemma IdPrefixFacts(sn: nat, w: string, r1: string)
    requires w != [] && All(w, IsBlank)
    requires r1 != [] && IsDigit(r1[0])
    ensures ShowNat(sn) != [] && IsDigit(ShowNat(sn)[0])
    ensures !IsDigit((w + r1)[0]) && !IsBlank(r1[0])
  {
    assert (w + r1)[0] == w[0];
  }

  /** The two atom numbers and the type code after the bond id. */
  lemma BondFieldsRead(i: nat, j: nat, code: string, g: nat, r1: string, r2: string, r3: string, rest: string)
    requires code != [] && All(code, IsAlnum)
    requires r3 == code + (Spaces(Gap(code, 3)) + ("\n" + rest))
    requires r2 == ShowNat(j) + (Spaces(1) + r3)
    requires r1 == ShowNat(i) + (Spaces(g + 1) + r2)
    ensures r1 != [] && IsDigit(r1[0])
    ensures BondFields(r1) == Parsed(Bond(i, j, BondCode(code)), rest)
  {
    BondFieldFacts(i, j, code, g, r1, r2, r3, rest);
    BondFieldsOf(r1, i, Spaces(g + 1) + r2, Spaces(g + 1), r2, j, Spaces(1) + r3, Spaces(1), r3, code,
                 Spaces(Gap(code, 3)) + ("\n" + rest), rest);
  }

  lemma BondFieldFacts(i: nat, j: nat, code: string, g: nat, r1: string, r2: string, r3: string, rest: string)
    requires code != [] && All(code, IsAlnum)
    requires r3 == code + (Spaces(Gap(code, 3)) + ("\n" + rest))
    requires r2 == ShowNat(j) + (Spaces(1) + r3)
    requires r1 == ShowNat(i) + (Spaces(g + 1) + r2)
    ensures r1 != [] && IsDigit(r1[0])
    ensures UnsignedDigit(r1) == Parsed(i, Spaces(g + 1) + r2)
    ensures Space1(Spaces(g + 1) + r2) == Parsed(Spaces(g + 1), r2)
    ensures UnsignedDigit(r2) == Parsed(j, Spaces(1) + r3)
    ensures Space1(Spaces(1) + r3) == Parsed(Spaces(1), r3)
    ensures Alphanumeric1(r3) == Parsed(code, Spaces(Gap(code, 3)) + ("\n" + rest))
    ensures ReadLine(Space0(Spaces(Gap(code, 3)) + ("\n" + rest))).rest == rest
  {
    BondLeads(i, j, code, g, r1, r2, r3, rest);
    BondCodeRead(code, Gap(code, 3), rest);
    IndexDigitsAt(i, g, r2);
    IndexDigitsAt(j, 0, r3);
  }

  /** The first characters of the bond fields. */
  lemma BondLeads(i: nat, j: nat, code: string, g: nat, r1: string, r2: string, r3: string, rest: string)
    requires code != [] && All(code, IsAlnum)
    requires r3 == code + (Spaces(Gap(code, 3)) + ("\n" + rest))
    requires r2 == ShowNat(j) + (Spaces(1) + r3)
    requires r1 == ShowNat(i) + (Spaces(g + 1) + r2)
    ensures r1 != [] && IsDigit(r1[0])
    ensures r2 != [] && !IsBlank(r2[0]) && r3 != [] && !IsBlank(r3[0])
    ensures Spaces(0 + 1) == Spaces(1)
  {
    assert r1[0] == ShowNat(i)[0];
    assert r2[0] == ShowNat(j)[0];
    assert r3[0] == code[0];
  }

  lemma BondRecordOf(s: string, sn: nat, r1: string, g: string, r2: string, b: Bond, rest: string)
    requires UnsignedDigit(Space0(s)) == Parsed(sn, r1)
    requires Space1(r1) == Parsed(g, r2)
    requires BondFields(r2) == Parsed(b, rest)
    ensures ReadBondRecord(s) == Parsed(b, rest)
  {
  }

  lemma BondFieldsOf(s: string, i: nat, r1: string, g1: string, r2: string, j: nat, r3: string, g2: string,
                     r4: string, code: string, r5: string, rest: string)
    requires UnsignedDigit(s) == Parsed(i, r1)
    requires Space1(r1) == Parsed(g1, r2)
    requires UnsignedDigit(r2) == Parsed(j, r3)
    requires Space1(r3) == Parsed(g2, r4)
    requires Alphanumeric1(r4) == Parsed(code, r5)
    requires ReadLine(Space0(r5)).rest == rest
    ensures BondFields(s) == Parsed(Bond(i, j, BondCode(code)), rest)
  {
  }

  /** The written bond line, regrouped as the reader meets its fields. */
  lemma BondRowShape(sn: nat, b: Bond, e: string, r1: string, r2: string, r3: string)
    requires r3 == BondOrder(b.kind) + (Spaces(Gap(BondOrder(b.kind), 3)) + e)
    requires r2 == ShowNat(b.j) + (Spaces(1) + r3)
    requires r1 == ShowNat(b.i) + (Spaces(Gap(ShowNat(b.j), 4) + 1) + r2)
    ensures BondRow(sn, b) + e == PadLeft(ShowNat(sn), 4) + (Spaces(Gap(ShowNat(b.i), 4) + 1) + r1)
  {
    var code := BondOrder(b.kind);
    var c3 := " " + PadRight(code, 3);
    var x2 := " " + (PadLeft(ShowNat(b.j), 4) + c3);
    var x1 := " " + (PadLeft(ShowNat(b.i), 4) + x2);
    CodeField(code, e);
    LeadField(ShowNat(b.j), 4, c3, e);
    LeadField(ShowNat(b.i), 4, x2, e);
    AppendAssoc(PadLeft(ShowNat(sn), 4), x1, e);
  }

  lemma CodeField(code: string, e: string)
    ensures (" " + PadRight(code, 3)) + e == Spaces(1) + (code + (Spaces(Gap(code, 3)) + e))
  {
    assert Spaces(1) == " ";
    PadRightSplit(code, 3);
    assert (if |code| < 3 then 3 - |code| else 0) == Gap(code, 3);
    AppendAssoc(" ", code + Spaces(Gap(code, 3)), e);
    AppendAssoc(code, Spaces(Gap(code, 3)), e);
  }

  /** A blank, then a right-aligned field and what follows it. */
  lemma LeadField(d: string, w: nat, t: string, e: string)
    ensures (" " + (PadLeft(d, w) + t)) + e == Spaces(Gap(d, w) + 1) + (d + (t + e))
  {
    assert Spaces(1) == " ";
    PadLeftGap(d, w);
    SpacesAdd(1, Gap(d, w));
    AppendAssoc(Spaces(Gap(d, w)), d, t);
    AppendAssoc(" ", PadLeft(d, w) + t, e);
    AppendAssoc(PadLeft(d, w), t, e);
    AppendAssoc(Spaces(Gap(d, w)), d, t + e);
    AppendAssoc(Spaces(1), Spaces(Gap(d, w)), d + (t + e));
  }

  /** The bond type code, the blanks that pad it, and the line break. */
  lemma BondCodeRead(code: string, g: nat, rest: string)
    requires code != [] && All(code, IsAlnum)
    ensures Alphanumeric1(code + (Spaces(g) + ("\n" + rest))) == Parsed(code, Spaces(g) + ("\n" + rest))
    ensures ReadLine(Space0(Spaces(g) + ("\n" + rest))).rest == rest
  {
    var e := "\n" + rest;
    if g == 0 {
      assert Spaces(g) + e == e;
    } else {
      assert (Spaces(g) + e)[0] == ' ';
    }
    Take1Of(code, Spaces(g) + e, IsAlnum);
    Space0Of(Spaces(g), e);
    ReadLineOf([], rest);
    assert [] + e == e;
  }

  /** A number, then one or more blanks before a field that is not blank. */
  lemma IndexDigitsAt(n: nat, g: nat, r: string)
    requires r != [] && !IsBlank(r[0])
    ensures UnsignedDigit(ShowNat(n) + (Spaces(g + 1) + r)) == Parsed(n, Spaces(g + 1) + r)
    ensures Space1(Spaces(g + 1) + r) == Parsed(Spaces(g + 1), r)
  {
    UnsignedDigitOf(n, Spaces(g + 1) + r);
    Take1Of(Spaces(g + 1), r, IsBlank);
  }

  /** Blanks before a right-aligned number are skipped. */
  lemma IndexBlanksAt(d: string, r: string)
    requires d != [] && IsDigit(d[0])
    ensures Space0(PadLeft(d, 4) + r) == d + r
  {
    PadLeftGap(d, 4);
    AppendAssoc(Spaces(Gap(d, 4)), d, r);
    LeadingNat(d, Gap(d, 4), r);
  }

  // Record boundaries.

  /** A MOL2 record starts at a line beginning `@<TRIPOS>MOLECULE`. */
  predicate IsMoleculeStart(line: string) {
    MoleculeSection <= line
  }

  /** The records of a MOL2 stream: lines before the first MOLECULE header are
      skipped, each MOLECULE header opens one record, and so a stream with six
      headers yields six records. */
  lemma Mol2Records(lines: seq<string>)
    ensures Flatten(PrecededParts(lines, IsMoleculeStart)) == lines[FirstMatch(lines, IsMoleculeStart)..]
    ensures |PrecededParts(lines, IsMoleculeStart)| == CountMatching(lines, IsMoleculeStart)
    ensures forall j | 0 <= j < |PrecededParts(lines, IsMoleculeStart)| ::
      PrecededRecord(PrecededParts(lines, IsMoleculeStart)[j], IsMoleculeStart)
  {
    PrecededPartsSound(lines, IsMoleculeStart);
  }
}
