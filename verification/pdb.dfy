/** The PDB format (`text/pdb`): fixed-column `ATOM`/`HETATM` records, the
    `CRYST1` cell, `CONECT` connectivity, the writer's layout, and the record
    boundary at `ENDMDL`. */
module Pdb {
  import opened Wrappers
  import opened Text
  import opened Numerals
  import opened Nom
  import opened Chem
  import opened Partition

  const Cryst1Tag := "CRYST1"
  const AtomTag := "ATOM  "
  const HetatmTag := "HETATM"
  const ConectTag := "CONECT"

  // Fields.

  /** `map_res(take_s(5), |x| x.trim().parse::<usize>())`: a serial number. */
  function ReadSerial(s: string): (r: Parsed<nat>)
    ensures r.Parsed? ==> |r.rest| + 5 == |s|
  {
    TakeNat(5, s)
  }

  // The crystal cell.

  /** `read_lattice`: `CRYST1`, three lengths in 9 columns, three angles in 7,
      one column, the space group in 11, and the rest of the line. */
  function ReadLattice(s: string, core: Core): Parsed<Lattice> {
    match Tag(Cryst1Tag, s)
    case NoParse => NoParse
    case Parsed(_, r0) =>
      match CellFields(r0)
      case NoParse => NoParse
      case Parsed(cell, r1) =>
        match TakeS(1, r1)
        case NoParse => NoParse
        case Parsed(_, r2) =>
          match TakeS(11, r2)
          case NoParse => NoParse
          case Parsed(_, r3) => Parsed(core.fromParams(cell), ReadLine(r3).rest)
  }

  function CellFields(s: string): Parsed<CellParams> {
    match TakeFloat(9, s)
    case NoParse => NoParse
    case Parsed(a, r1) =>
      match TakeFloat(9, r1)
      case NoParse => NoParse
      case Parsed(b, r2) =>
        match TakeFloat(9, r2)
        case NoParse => NoParse
        case Parsed(c, r3) =>
          match TakeFloat(7, r3)
          case NoParse => NoParse
          case Parsed(alpha, r4) =>
            match TakeFloat(7, r4)
            case NoParse => NoParse
            case Parsed(beta, r5) =>
              match TakeFloat(7, r5)
              case NoParse => NoParse
              case Parsed(gamma, r6) => Parsed(CellParams(a, b, c, alpha, beta, gamma), r6)
  }

  // Atoms.

  /** `guess_element`: the element columns 77-78 (characters 22..24 of what
      follows the coordinates) when they hold anything but blanks; otherwise
      the first character of the atom name, or its second when the first is
      not a letter. */
  function GuessElement(name: string, r: string): (e: Option<string>)
    ensures |name| >= 2 ==> e.Some?
  {
    if |r| >= 24 && Trim(r[22..24]) != [] then Some(Trim(r[22..24]))
    else if name != [] && !IsAlpha(name[0]) then (if |name| >= 2 then Some(name[1..2]) else None)
    else if name != [] then Some(name[..1])
    else None
  }

  /** `alt((tag("ATOM  "), tag("HETATM")))`. */
  function RecordTag(s: string): Parsed<string> {
    match Tag(AtomTag, s)
    case Parsed(t, r) => Parsed(t, r)
    case NoParse => Tag(HetatmTag, s)
  }

  /** `read_atom_record`: the serial number and an atom whose element is
      guessed from its name and the element columns. */
  function ReadAtomRecord(s: string, core: Core): (r: Parsed<(nat, Atom)>)
    ensures r.Parsed? ==> |r.rest| < |s|
  {
    match RecordTag(s)
    case NoParse => NoParse
    case Parsed(_, r1) =>
      match ReadSerial(r1)
      case NoParse => NoParse
      case Parsed(sn, r2) =>
        match AtomBody(r2, core)
        case NoParse => NoParse
        case Parsed(a, r3) => Parsed((sn, a), r3)
  }

  /** Columns 12 on: a blank, the name in 4, the alternate location, residue
      name, chain, residue number and insertion code, three skipped columns,
      the coordinates in 8 columns each, and the rest of the line. */
  function AtomBody(s: string, core: Core): (r: Parsed<Atom>)
    ensures r.Parsed? ==> |r.rest| < |s|
  {
    match TakeS(1, s)
    case NoParse => NoParse
    case Parsed(_, r1) =>
      match TakeS(4, r1)
      case NoParse => NoParse
      case Parsed(name, r2) =>
        match ResidueFields(r2)
        case NoParse => NoParse
        case Parsed(_, r3) =>
          match Coords(r3)
          case NoParse => NoParse
          case Parsed(xyz, r4) =>
            var line := ReadLine(r4);
            Parsed(NewAtom(GuessElement(name, line.value).value, xyz, core), line.rest)
  }

  /** Columns 17-30, which the reader skips: `take1`, `take3`, `take1`,
      `take1`, `take4`, `take1`, `take3`. */
  function ResidueFields(s: string): (r: Parsed<string>)
    ensures r.Parsed? <==> 14 <= |s|
    ensures r.Parsed? ==> r.rest == s[14..]
  {
    match TakeS(1, s)
    case NoParse => NoParse
    case Parsed(_, r1) =>
      match TakeS(3, r1)
      case NoParse => NoParse
      case Parsed(_, r2) =>
        match TakeS(1, r2)
        case NoParse => NoParse
        case Parsed(_, r3) =>
          match TakeS(1, r3)
          case NoParse => NoParse
          case Parsed(_, r4) =>
            match TakeS(4, r4)
            case NoParse => NoParse
            case Parsed(_, r5) =>
              match TakeS(1, r5)
              case NoParse => NoParse
              case Parsed(_, r6) =>
                match TakeS(3, r6)
                case NoParse => NoParse
                case Parsed(_, r7) => Parsed(s[..14], r7)
  }

  function Coords(s: string): (r: Parsed<Vec3>)
    ensures r.Parsed? ==> |r.rest| + 24 == |s|
  {
    match TakeFloat(8, s)
    case NoParse => NoParse
    case Parsed(x, r1) =>
      match TakeFloat(8, r1)
      case NoParse => NoParse
      case Parsed(y, r2) =>
        match TakeFloat(8, r2)
        case NoParse => NoParse
        case Parsed(z, r3) => Parsed(Vec3(x, y, z), r3)
  }

  /** `many0(read_atom_record)`. */
  function AtomRecords(s: string, core: Core): (r: (seq<(nat, Atom)>, string))
    ensures |r.1| <= |s|
    decreases |s|
  {
    match ReadAtomRecord(s, core)
    case NoParse => ([], s)
    case Parsed(a, rest) =>
      var more := AtomRecords(rest, core);
      ([a] + more.0, more.1)
  }

  // Connectivity.

  /** The pairs a `CONECT` line stands for: its host with each other atom, in
      the order listed. */
  function Pairs(host: nat, others: seq<nat>): (ps: seq<(nat, nat)>)
    ensures |ps| == |others|
    ensures forall k | 0 <= k < |others| :: ps[k] == (host, others[k])
  {
    seq(|others|, k requires 0 <= k < |others| => (host, others[k]))
  }

  /** `many0` of 5-column serial numbers. */
  function Serials(s: string): (r: (seq<nat>, string))
    ensures |r.1| <= |s|
    decreases |s|
  {
    match ReadSerial(s)
    case NoParse => ([], s)
    case Parsed(n, rest) =>
      var more := Serials(rest);
      ([n] + more.0, more.1)
  }

  /** `read_bond_record`: `CONECT`, the host atom, at least one bonded atom,
      and the line end. */
  function ReadBondRecord(s: string): (r: Parsed<seq<(nat, nat)>>)
    ensures r.Parsed? ==> |r.rest| < |s|
  {
    match Tag(ConectTag, s)
    case NoParse => NoParse
    case Parsed(_, r1) =>
      match ReadSerial(r1)
      case NoParse => NoParse
      case Parsed(host, r2) =>
        var others := Serials(r2);
        if others.0 == [] then NoParse
        else
          match Eol(others.1)
          case NoParse => NoParse
          case Parsed(_, r3) => Parsed(Pairs(host, others.0), r3)
  }

  /** `many0(read_bond_record)`, the pairs of all lines together. */
  function BondRecords(s: string): (r: (seq<(nat, nat)>, string, nat))
    decreases |s|
  {
    match ReadBondRecord(s)
    case NoParse => ([], s, 0)
    case Parsed(ps, rest) =>
      var more := BondRecords(rest);
      (ps + more.0, more.1, more.2 + 1)
  }

  /** `read_bonds`: one or more `CONECT` lines. */
  function ReadBonds(s: string): Parsed<seq<(nat, nat)>> {
    var bonds := BondRecords(s);
    if bonds.2 == 0 then NoParse else Parsed(bonds.0, bonds.1)
  }

  // The molecule.

  /** `alt((tag("CRYST1"), tag("ATOM  "), tag("HETATM")))`, peeked. */
  predicate AtStart(s: string) {
    Cryst1Tag <= s || AtomTag <= s || HetatmTag <= s
  }

  /** `jump1`: whole lines are skipped until one starts a cell or an atom
      record; running out of lines is a failure. */
  function Jump(s: string): (r: Parsed<()>)
    ensures r.Parsed? ==> AtStart(r.rest)
    decreases |s|
  {
    if AtStart(s) then Parsed((), s)
    else if s == [] then NoParse
    else Jump(ReadLine(s).rest)
  }

  /** The optional separator between atoms and bonds: a `TER` line, or
      `END` on a line of its own. */
  function Separator(s: string): string {
    match Tag("TER", s)
    case Parsed(_, r) => ReadLine(r).rest
    case NoParse =>
      match Tag("END\n", s)
      case Parsed(_, r) => r
      case NoParse => s
  }

  function Sited(atoms: seq<(nat, Atom)>): (sites: seq<Site>)
    ensures |sites| == |atoms|
    ensures forall k | 0 <= k < |atoms| :: sites[k] == Site(atoms[k].0, atoms[k].1)
  {
    seq(|atoms|, k requires 0 <= k < |atoms| => Site(atoms[k].0, atoms[k].1))
  }

  /** Every pair read from `CONECT` lines becomes a single bond. */
  function SingleBonds(pairs: seq<(nat, nat)>): (bonds: seq<Bond>)
    ensures |bonds| == |pairs|
    ensures forall k | 0 <= k < |pairs| :: bonds[k] == Bond(pairs[k].0, pairs[k].1, Single)
  {
    seq(|pairs|, k requires 0 <= k < |pairs| => Bond(pairs[k].0, pairs[k].1, Single))
  }

  const PdbTitle := "for pdb"

  /** `read_molecule`: skip to the first cell or atom line, an optional cell,
      the atoms (possibly none), an optional separator and optional bonds. */
  function ReadMolecule(s: string, core: Core): (r: Parsed<Molecule>)
    ensures r.Parsed? <==> Jump(s).Parsed?
    ensures r.Parsed? ==> r.value.title == PdbTitle
    ensures r.Parsed? ==> forall k | 0 <= k < |r.value.bonds| :: r.value.bonds[k].kind == Single
  {
    match Jump(s)
    case NoParse => NoParse
    case Parsed(_, r0) =>
      var lat := ReadLattice(r0, core);
      var r1 := if lat.Parsed? then lat.rest else r0;
      var atoms := AtomRecords(r1, core);
      var r2 := Separator(atoms.1);
      var bonds := ReadBonds(r2);
      Parsed(Molecule(PdbTitle, PutSites([], Sited(atoms.0)),
                      if bonds.Parsed? then SingleBonds(bonds.value) else [],
                      if lat.Parsed? then Some(lat.value) else None),
             if bonds.Parsed? then bonds.rest else r2)
  }

  /** `parse_molecule`. */
  function ParseMolecule(input: string, core: Core): (r: Result<Molecule>)
    ensures r.Ok? <==> Jump(input).Parsed?
  {
    match ReadMolecule(input, core)
    case NoParse => Err("parse PDB format failure")
    case Parsed(mol, _) => Ok(mol)
  }

  // Writing.

  const RemarkRow := "REMARK Created by gchemol"
  const EndRow := "END"

  /** Columns 17-30 as `format_atom` fills them: alternate location blank,
      residue `xx`, chain 1, residue number 1, no insertion code, three
      blanks. */
  const ResidueText := " xx  1   1    "

  /** Occupancy 1.00 and temperature factor 0.00, then the blanks before the
      element columns. */
  const OccupancyText := "  1.00  0.00          "

  /** What follows the coordinates: the fixed columns and `{symbol:>2}`. */
  function ElementText(symbol: string): string {
    OccupancyText + PadLeft(symbol, 2)
  }

  /** `format_atom`: `ATOM  {index:>5} {name:<4}` then the residue columns,
      `{x:-8.3}{y:-8.3}{z:-8.3}` and the element columns. */
  function AtomRow(sn: nat, a: Atom): string {
    AtomTag + (PadLeft(ShowNat(sn), 5) + (" " + (PadRight(Label(a), 4) + (ResidueText
      + (PadLeft(a.position.x, 8) + (PadLeft(a.position.y, 8) + (PadLeft(a.position.z, 8)
      + ElementText(a.symbol))))))))
  }

  function AtomRows(sites: seq<Site>): (rows: seq<string>)
    ensures |rows| == |sites|
    ensures forall k | 0 <= k < |sites| :: rows[k] == AtomRow(sites[k].sn, sites[k].atom)
  {
    seq(|sites|, k requires 0 <= k < |sites| => AtomRow(sites[k].sn, sites[k].atom))
  }

  /** `{:>5}` for each serial number. */
  function SerialsText(ns: seq<nat>): string
    decreases |ns|
  {
    if ns == [] then [] else PadLeft(ShowNat(ns[0]), 5) + SerialsText(ns[1..])
  }

  /** `CONECT{:>5}` for the host, then its bonded atoms. */
  function ConectRow(host: nat, others: seq<nat>): string {
    ConectTag + (PadLeft(ShowNat(host), 5) + SerialsText(others))
  }

  /** The atoms `format_bonds` lists after `i`: the second atom of every bond
      whose first atom is `i`, in bond order. */
  function Neighbours(bonds: seq<Bond>, i: nat): (ns: seq<nat>)
    ensures |ns| <= |bonds|
  {
    if bonds == [] then []
    else
      var b := bonds[|bonds| - 1];
      Neighbours(bonds[..|bonds| - 1], i) + (if b.i == i then [b.j] else [])
  }

  /** The lines `format_bonds` writes, as host and neighbours: one per atom,
      in atom order, for each atom that is the first atom of some bond. */
  function Conects(sites: seq<Site>, bonds: seq<Bond>): (cs: seq<(nat, seq<nat>)>)
    ensures |cs| <= |sites|
    ensures forall k | 0 <= k < |cs| :: cs[k].1 != [] && cs[k].1 == Neighbours(bonds, cs[k].0)
  {
    if sites == [] then []
    else
      var sn := sites[|sites| - 1].sn;
      var ns := Neighbours(bonds, sn);
      Conects(sites[..|sites| - 1], bonds) + (if ns != [] then [(sn, ns)] else [])
  }

  function ConectLines(cs: seq<(nat, seq<nat>)>): (rows: seq<string>)
    ensures |rows| == |cs|
    ensures forall k | 0 <= k < |cs| :: rows[k] == ConectRow(cs[k].0, cs[k].1)
  {
    seq(|cs|, k requires 0 <= k < |cs| => ConectRow(cs[k].0, cs[k].1))
  }

  function ConectRows(sites: seq<Site>, bonds: seq<Bond>): seq<string> {
    ConectLines(Conects(sites, bonds))
  }

  /** The space group and Z value written after the angles. */
  const SpaceGroupText := " P1            1"

  /** `CRYST1{a:9.4}{b:9.4}{c:9.4}{alpha:7.2}{beta:7.2}{gamma:7.2} P1            1`. */
  function Cryst1Row(lat: Lattice, core: Core): string {
    var l := core.lengths(lat);
    var g := core.angles(lat);
    Cryst1Tag + (PadLeft(l.x, 9) + (PadLeft(l.y, 9) + (PadLeft(l.z, 9)
      + (PadLeft(g.x, 7) + (PadLeft(g.y, 7) + (PadLeft(g.z, 7) + SpaceGroupText))))))
  }

  function CrystRows(lattice: Option<Lattice>, core: Core): (rows: seq<string>)
    ensures rows == [] <==> lattice.None?
  {
    match lattice
    case None => []
    case Some(lat) => [Cryst1Row(lat, core)]
  }

  /** What `format_molecule` writes: the remark, the cell, the atoms, the
      connectivity when there are bonds, and `END`. */
  function PdbRows(mol: Molecule, core: Core): seq<string> {
    [RemarkRow] + CrystRows(mol.lattice, core) + AtomRows(mol.sites)
      + (if |mol.bonds| > 0 then ConectRows(mol.sites, mol.bonds) else []) + [EndRow]
  }

  function PdbText(mol: Molecule, core: Core): string {
    Terminate(PdbRows(mol, core), "\n")
  }

  /** The neighbour lists of the bonds seen so far, as `format_bonds` keeps
      them in its map. */
  ghost predicate NeighbourMap(m: map<nat, seq<nat>>, bonds: seq<Bond>) {
    forall i: nat :: (i in m <==> Neighbours(bonds, i) != []) && (i in m ==> m[i] == Neighbours(bonds, i))
  }

  /** `map.entry(i).or_insert(vec![]).push(j)` for one more bond. */
  lemma MapStep(m: map<nat, seq<nat>>, bonds: seq<Bond>, k: nat, m': map<nat, seq<nat>>)
    requires k < |bonds| && NeighbourMap(m, bonds[..k])
    requires m' == if bonds[k].i in m then m[bonds[k].i := m[bonds[k].i] + [bonds[k].j]]
                   else m[bonds[k].i := [bonds[k].j]]
    ensures NeighbourMap(m', bonds[..k + 1])
  {
    assert bonds[..k + 1][..k] == bonds[..k];
    forall i: nat
      ensures Neighbours(bonds[..k + 1], i)
        == Neighbours(bonds[..k], i) + (if bonds[k].i == i then [bonds[k].j] else [])
    {
    }
  }

  /** One more atom's line, or none. */
  lemma ConectStep(sites: seq<Site>, bonds: seq<Bond>, m: map<nat, seq<nat>>, n: nat)
    requires n < |sites| && NeighbourMap(m, bonds)
    ensures sites[n].sn in m ==>
      ConectRows(sites[..n + 1], bonds) == ConectRows(sites[..n], bonds) + [ConectRow(sites[n].sn, m[sites[n].sn])]
    ensures sites[n].sn !in m ==> ConectRows(sites[..n + 1], bonds) == ConectRows(sites[..n], bonds)
  {
    assert sites[..n + 1][..n] == sites[..n];
    var sn := sites[n].sn;
    assert sn in m <==> Neighbours(bonds, sn) != [];
    var a := ConectRows(sites[..n + 1], bonds);
    var b := ConectRows(sites[..n], bonds);
    if sn in m {
      assert Conects(sites[..n + 1], bonds) == Conects(sites[..n], bonds) + [(sn, m[sn])];
      assert a == b + [ConectRow(sn, m[sn])];
    } else {
      assert Conects(sites[..n + 1], bonds) == Conects(sites[..n], bonds);
    }
  }

  /** `format_bonds`: gathers each atom's neighbours in a map, then writes a
      line for each atom that has some, in atom order. */
  method FormatBonds(sites: seq<Site>, bonds: seq<Bond>) returns (text: string)
    ensures text == Terminate(ConectRows(sites, bonds), "\n")
  {
    var m: map<nat, seq<nat>> := map[];
    var k := 0;
    while k < |bonds|
      invariant 0 <= k <= |bonds|
      invariant NeighbourMap(m, bonds[..k])
    {
      var b := bonds[k];
      var m' := if b.i in m then m[b.i := m[b.i] + [b.j]] else m[b.i := [b.j]];
      MapStep(m, bonds, k, m');
      m := m';
      k := k + 1;
    }
    assert bonds[..k] == bonds;
    text := [];
    var n := 0;
    while n < |sites|
      invariant 0 <= n <= |sites|
      invariant text == Terminate(ConectRows(sites[..n], bonds), "\n")
    {
      var sn := sites[n].sn;
      ConectStep(sites, bonds, m, n);
      if sn in m {
        var row := ConectRow(sn, m[sn]);
        TerminateSnoc(ConectRows(sites[..n], bonds), row);
        text := text + row + "\n";
      }
      n := n + 1;
    }
    assert sites[..n] == sites;
  }

  lemma AtomRowsSnoc(sites: seq<Site>, i: nat)
    requires i < |sites|
    ensures AtomRows(sites[..i + 1]) == AtomRows(sites[..i]) + [AtomRow(sites[i].sn, sites[i].atom)]
  {
  }

  /** The remark and the cell lines. */
  lemma HeadText(mol: Molecule, core: Core, text: string, rows: seq<string>)
    requires rows == [RemarkRow] + CrystRows(mol.lattice, core)
    requires text == RemarkRow + "\n" + (if mol.lattice.Some? then Cryst1Row(mol.lattice.value, core) + "\n" else [])
    ensures text == Terminate(rows + AtomRows(mol.sites[..0]), "\n")
  {
    assert AtomRows(mol.sites[..0]) == [];
    assert rows + [] == rows;
    TerminateRows(RemarkRow, CrystRows(mol.lattice, core));
  }

  /** One row, then none or one more. */
  lemma TerminateRows(first: string, more: seq<string>)
    requires |more| <= 1
    ensures Terminate([first] + more, "\n") == first + "\n" + (if more != [] then more[0] + "\n" else [])
  {
    if more != [] {
      assert [first] + more == [first, more[0]];
      TerminateTwo(first, more[0]);
    } else {
      assert [first] + more == [first];
      TerminateOne(first);
    }
  }

  lemma TerminateOne(first: string)
    ensures Terminate([first], "\n") == first + "\n"
  {
    TerminateSnoc([], first);
    assert [] + [first] == [first];
  }

  lemma TerminateTwo(first: string, second: string)
    ensures Terminate([first, second], "\n") == first + "\n" + (second + "\n")
  {
    TerminateOne(first);
    TerminateSnoc([first], second);
    assert [first] + [second] == [first, second];
  }

  /** The connectivity and `END` complete the text. */
  lemma TailText(mol: Molecule, core: Core, rows: seq<string>, text: string, more: string)
    requires rows == [RemarkRow] + CrystRows(mol.lattice, core)
    requires text == Terminate(rows + AtomRows(mol.sites), "\n")
    requires more == if |mol.bonds| > 0 then Terminate(ConectRows(mol.sites, mol.bonds), "\n") else []
    ensures text + more + EndRow + "\n" == PdbText(mol, core)
  {
    var bonds := if |mol.bonds| > 0 then ConectRows(mol.sites, mol.bonds) else [];
    TerminateAppend(rows + AtomRows(mol.sites), bonds);
    TerminateSnoc(rows + AtomRows(mol.sites) + bonds, EndRow);
  }

  /** `format_molecule`; the warning for more than 9999 atoms is only logged. */
  method FormatMolecule(mol: Molecule, core: Core) returns (text: string)
    ensures text == PdbText(mol, core)
  {
    text := RemarkRow + "\n";
    if mol.lattice.Some? {
      text := text + Cryst1Row(mol.lattice.value, core) + "\n";
    }
    var rows := [RemarkRow] + CrystRows(mol.lattice, core);
    HeadText(mol, core, text, rows);
    var i := 0;
    while i < |mol.sites|
      invariant 0 <= i <= |mol.sites|
      invariant text == Terminate(rows + AtomRows(mol.sites[..i]), "\n")
    {
      var row := AtomRow(mol.sites[i].sn, mol.sites[i].atom);
      TerminateRow(rows, AtomRows(mol.sites[..i]), row, text);
      AtomRowsSnoc(mol.sites, i);
      text := text + row + "\n";
      i := i + 1;
    }
    assert mol.sites[..i] == mol.sites;
    var more := [];
    if |mol.bonds| > 0 {
      more := FormatBonds(mol.sites, mol.bonds);
    }
    TailText(mol, core, rows, text, more);
    text := text + more + EndRow + "\n";
  }

  // Reading back what is written.

  /** The serial-number range a 5-column field holds. */
  const MaxSerial := 100000

  /** A site whose line fits the fixed columns: a serial number of at most
      five digits, a label of at most four characters, coordinates of at most
      eight, and an element symbol of one or two visible characters. */
  predicate AtomReadable(sn: nat, a: Atom) {
    sn < MaxSerial && |Label(a)| <= 4
    && IsNumeral(a.position.x) && |a.position.x| <= 8
    && IsNumeral(a.position.y) && |a.position.y| <= 8
    && IsNumeral(a.position.z) && |a.position.z| <= 8
    && 1 <= |a.symbol| <= 2 && All(a.symbol, NotWhite)
  }

  /** What a written atom line gives back: its position, and its symbol
      when that is standard. */
  function ReadBackAtom(a: Atom, core: Core): (r: Atom)
    ensures r.position == a.position
    ensures IsStandard(a.symbol, core) ==> r.symbol == a.symbol
  {
    NewAtom(a.symbol, a.position, core)
  }

  lemma SerialOf(n: nat, r: string)
    requires n < MaxSerial
    ensures ReadSerial(PadLeft(ShowNat(n), 5) + r) == Parsed(n, r)
  {
    ShowNatWidth(n, 5);
    TakeNatOf(n, 5, r);
  }

  lemma CoordsOf(v: Vec3, e: string)
    requires IsNumeral(v.x) && |v.x| <= 8 && IsNumeral(v.y) && |v.y| <= 8 && IsNumeral(v.z) && |v.z| <= 8
    ensures Coords(PadLeft(v.x, 8) + (PadLeft(v.y, 8) + (PadLeft(v.z, 8) + e))) == Parsed(v, e)
  {
    TakeFloatOf(v.x, 8, PadLeft(v.y, 8) + (PadLeft(v.z, 8) + e));
    TakeFloatOf(v.y, 8, PadLeft(v.z, 8) + e);
    TakeFloatOf(v.z, 8, e);
  }

  /** The element columns of a written line give the symbol back. */
  lemma ElementOf(name: string, symbol: string, rest: string)
    requires 1 <= |symbol| <= 2 && All(symbol, NotWhite)
    ensures ReadLine(ElementText(symbol) + ("\n" + rest)) == Parsed(ElementText(symbol), rest)
    ensures GuessElement(name, ElementText(symbol)) == Some(symbol)
  {
    OccupancyFacts();
    ElementColumns(OccupancyText, name, symbol, rest);
  }

  lemma OccupancyFacts()
    ensures |OccupancyText| == 22 && '\n' !in OccupancyText
  {
  }

  lemma ElementColumns(occ: string, name: string, symbol: string, rest: string)
    requires |occ| == 22 && '\n' !in occ
    requires 1 <= |symbol| <= 2 && All(symbol, NotWhite)
    ensures ReadLine(occ + PadLeft(symbol, 2) + ("\n" + rest)) == Parsed(occ + PadLeft(symbol, 2), rest)
    ensures GuessElement(name, occ + PadLeft(symbol, 2)) == Some(symbol)
  {
    var p := PadLeft(symbol, 2);
    PadLeftGap(symbol, 2);
    SpacesAreWhite(Gap(symbol, 2));
    TrimOf(Spaces(Gap(symbol, 2)), symbol);
    var t := occ + p;
    assert t[22..24] == p;
    assert '\n' !in p by {
      NoBreak(p);
    }
    ReadLineOf(t, rest);
  }

  /** A written atom line laid out field by field. */
  lemma AtomRowShape(sn: nat, a: Atom, e: string)
    ensures AtomRow(sn, a) + e
      == AtomTag + (PadLeft(ShowNat(sn), 5) + (" " + (PadRight(Label(a), 4) + (ResidueText
         + (PadLeft(a.position.x, 8) + (PadLeft(a.position.y, 8) + (PadLeft(a.position.z, 8)
         + (ElementText(a.symbol) + e))))))))
  {
    var t := ElementText(a.symbol);
    var z := PadLeft(a.position.z, 8);
    var y := PadLeft(a.position.y, 8);
    var x := PadLeft(a.position.x, 8);
    var l := PadRight(Label(a), 4);
    var d := PadLeft(ShowNat(sn), 5);
    AppendAssoc(z, t, e);
    AppendAssoc(y, z + t, e);
    AppendAssoc(x, y + (z + t), e);
    AppendAssoc(ResidueText, x + (y + (z + t)), e);
    AppendAssoc(l, ResidueText + (x + (y + (z + t))), e);
    AppendAssoc(" ", l + (ResidueText + (x + (y + (z + t)))), e);
    AppendAssoc(d, " " + (l + (ResidueText + (x + (y + (z + t))))), e);
    AppendAssoc(AtomTag, d + (" " + (l + (ResidueText + (x + (y + (z + t)))))), e);
  }

  /** The fields after the serial number, read in turn. */
  lemma AtomBodyOf(l: string, v: Vec3, symbol: string, rest: string, core: Core)
    requires |l| == 4
    requires IsNumeral(v.x) && |v.x| <= 8 && IsNumeral(v.y) && |v.y| <= 8 && IsNumeral(v.z) && |v.z| <= 8
    requires 1 <= |symbol| <= 2 && All(symbol, NotWhite)
    ensures AtomBody(" " + (l + (ResidueText + (PadLeft(v.x, 8) + (PadLeft(v.y, 8) + (PadLeft(v.z, 8)
      + (ElementText(symbol) + ("\n" + rest))))))), core) == Parsed(NewAtom(symbol, v, core), rest)
  {
    var e := ElementText(symbol) + ("\n" + rest);
    var c := PadLeft(v.x, 8) + (PadLeft(v.y, 8) + (PadLeft(v.z, 8) + e));
    var r2 := ResidueText + c;
    var r1 := l + r2;
    var s := " " + r1;
    assert s[..1] == " " && s[1..] == r1;
    assert r1[..4] == l && r1[4..] == r2;
    assert |ResidueText| == 14 && r2[14..] == c;
    CoordsOf(v, e);
    ElementOf(l, symbol, rest);
  }

  /** A written atom line reads back as its serial number, symbol and
      position. */
  lemma AtomRowReads(sn: nat, a: Atom, rest: string, core: Core)
    requires AtomReadable(sn, a)
    ensures ReadAtomRecord(AtomRow(sn, a) + ("\n" + rest), core) == Parsed((sn, ReadBackAtom(a, core)), rest)
  {
    var l := PadRight(Label(a), 4);
    PadRightSplit(Label(a), 4);
    var body := " " + (l + (ResidueText + (PadLeft(a.position.x, 8) + (PadLeft(a.position.y, 8)
      + (PadLeft(a.position.z, 8) + (ElementText(a.symbol) + ("\n" + rest)))))));
    AtomRowShape(sn, a, "\n" + rest);
    TagOf(AtomTag, PadLeft(ShowNat(sn), 5) + body);
    SerialOf(sn, body);
    AtomBodyOf(l, a.position, a.symbol, rest, core);
  }

  /** Serial numbers written in 5 columns each read back, up to the first
      field that is not one. */
  lemma {:induction false} SerialsOf(ns: seq<nat>, e: string)
    requires forall k | 0 <= k < |ns| :: ns[k] < MaxSerial
    requires ReadSerial(e) == NoParse
    ensures Serials(SerialsText(ns) + e) == (ns, e)
    decreases |ns|
  {
    if ns != [] {
      var more := SerialsText(ns[1..]);
      AppendAssoc(PadLeft(ShowNat(ns[0]), 5), more, e);
      SerialOf(ns[0], more + e);
      SerialsOf(ns[1..], e);
      assert [ns[0]] + ns[1..] == ns;
    } else {
      assert [] + e == e;
    }
  }

  /** Trimming keeps a visible first character. */
  lemma TrimEndFirst(t: string)
    requires t != [] && NotWhite(t[0])
    ensures TrimEnd(t) != [] && TrimEnd(t)[0] == t[0]
  {
  }

  /** A line break followed by a record name is not a serial number. */
  lemma NoSerialAfter(rest: string)
    requires rest == [] || IsAlpha(rest[0])
    ensures ReadSerial("\n" + rest) == NoParse
  {
    var s := "\n" + rest;
    if 5 <= |s| {
      var x := s[..5];
      assert x == "\n" + rest[..4];
      SpanOf("\n", rest[..4], IsWhite);
      assert TrimStart(x) == rest[..4];
      TrimEndFirst(rest[..4]);
    }
  }

  lemma EolBreak(rest: string)
    ensures Eol("\n" + rest) == Parsed("\n", rest)
  {
    var s := "\n" + rest;
    assert s[0] == '\n';
    assert Span(s, IsBlank) == 0;
    assert s[0..] == s;
    assert s[..1] == "\n" && s[1..] == rest;
  }

  /** A written `CONECT` line reads back as the pairs of its host with each
      listed atom, when the next line starts with a record name. */
  lemma ConectRowReads(host: nat, others: seq<nat>, rest: string)
    requires host < MaxSerial && others != []
    requires forall k | 0 <= k < |others| :: others[k] < MaxSerial
    requires rest == [] || IsAlpha(rest[0])
    ensures ReadBondRecord(ConectRow(host, others) + ("\n" + rest)) == Parsed(Pairs(host, others), rest)
  {
    var e := "\n" + rest;
    var tail := SerialsText(others) + e;
    AppendAssoc(PadLeft(ShowNat(host), 5), SerialsText(others), e);
    AppendAssoc(ConectTag, PadLeft(ShowNat(host), 5) + SerialsText(others), e);
    TagOf(ConectTag, PadLeft(ShowNat(host), 5) + tail);
    SerialOf(host, tail);
    NoSerialAfter(rest);
    SerialsOf(others, e);
    EolBreak(rest);
  }

  /** A cell whose parameters fit their columns: lengths in 9, angles in 7. */
  predicate CellReadable(lat: Lattice, core: Core) {
    var l := core.lengths(lat);
    var g := core.angles(lat);
    IsNumeral(l.x) && |l.x| <= 9 && IsNumeral(l.y) && |l.y| <= 9 && IsNumeral(l.z) && |l.z| <= 9
    && IsNumeral(g.x) && |g.x| <= 7 && IsNumeral(g.y) && |g.y| <= 7 && IsNumeral(g.z) && |g.z| <= 7
  }

  /** The cell a written `CRYST1` line reads back as: the one built from the
      lengths and angles written. */
  function ReadBackCell(lat: Lattice, core: Core): Lattice {
    var l := core.lengths(lat);
    var g := core.angles(lat);
    core.fromParams(CellParams(l.x, l.y, l.z, g.x, g.y, g.z))
  }

  lemma Cryst1RowShape(lat: Lattice, core: Core, e: string)
    ensures Cryst1Row(lat, core) + e
      == Cryst1Tag + (PadLeft(core.lengths(lat).x, 9) + (PadLeft(core.lengths(lat).y, 9)
         + (PadLeft(core.lengths(lat).z, 9) + (PadLeft(core.angles(lat).x, 7)
         + (PadLeft(core.angles(lat).y, 7) + (PadLeft(core.angles(lat).z, 7) + (SpaceGroupText + e)))))))
  {
    var l := core.lengths(lat);
    var g := core.angles(lat);
    var t := SpaceGroupText;
    AppendAssoc(PadLeft(g.z, 7), t, e);
    AppendAssoc(PadLeft(g.y, 7), PadLeft(g.z, 7) + t, e);
    AppendAssoc(PadLeft(g.x, 7), PadLeft(g.y, 7) + (PadLeft(g.z, 7) + t), e);
    AppendAssoc(PadLeft(l.z, 9), PadLeft(g.x, 7) + (PadLeft(g.y, 7) + (PadLeft(g.z, 7) + t)), e);
    AppendAssoc(PadLeft(l.y, 9), PadLeft(l.z, 9) + (PadLeft(g.x, 7) + (PadLeft(g.y, 7) + (PadLeft(g.z, 7) + t))), e);
    AppendAssoc(PadLeft(l.x, 9), PadLeft(l.y, 9) + (PadLeft(l.z, 9) + (PadLeft(g.x, 7) + (PadLeft(g.y, 7)
      + (PadLeft(g.z, 7) + t)))), e);
    AppendAssoc(Cryst1Tag, PadLeft(l.x, 9) + (PadLeft(l.y, 9) + (PadLeft(l.z, 9) + (PadLeft(g.x, 7)
      + (PadLeft(g.y, 7) + (PadLeft(g.z, 7) + t))))), e);
  }

  lemma CellFieldsOf(p: CellParams, e: string)
    requires IsNumeral(p.a) && |p.a| <= 9 && IsNumeral(p.b) && |p.b| <= 9 && IsNumeral(p.c) && |p.c| <= 9
    requires IsNumeral(p.alpha) && |p.alpha| <= 7 && IsNumeral(p.beta) && |p.beta| <= 7
    requires IsNumeral(p.gamma) && |p.gamma| <= 7
    ensures CellFields(PadLeft(p.a, 9) + (PadLeft(p.b, 9) + (PadLeft(p.c, 9) + (PadLeft(p.alpha, 7)
      + (PadLeft(p.beta, 7) + (PadLeft(p.gamma, 7) + e)))))) == Parsed(p, e)
  {
    var r6 := PadLeft(p.gamma, 7) + e;
    var r5 := PadLeft(p.beta, 7) + r6;
    var r4 := PadLeft(p.alpha, 7) + r5;
    var r3 := PadLeft(p.c, 9) + r4;
    var r2 := PadLeft(p.b, 9) + r3;
    TakeFloatOf(p.a, 9, r2);
    TakeFloatOf(p.b, 9, r3);
    TakeFloatOf(p.c, 9, r4);
    TakeFloatOf(p.alpha, 7, r5);
    TakeFloatOf(p.beta, 7, r6);
    TakeFloatOf(p.gamma, 7, e);
  }

  lemma SpaceGroupFacts()
    ensures |SpaceGroupText| == 16 && '\n' !in SpaceGroupText[12..]
  {
  }

  /** The space group columns and the rest of the line. */
  lemma CellTailOf(sg: string, rest: string)
    requires |sg| >= 12 && '\n' !in sg[12..]
    ensures TakeS(1, sg + ("\n" + rest)) == Parsed(sg[..1], sg[1..] + ("\n" + rest))
    ensures TakeS(11, sg[1..] + ("\n" + rest)) == Parsed(sg[1..12], sg[12..] + ("\n" + rest))
    ensures ReadLine(sg[12..] + ("\n" + rest)) == Parsed(sg[12..], rest)
  {
    var e := "\n" + rest;
    assert (sg + e)[..1] == sg[..1] && (sg + e)[1..] == sg[1..] + e;
    assert (sg[1..] + e)[..11] == sg[1..12] && (sg[1..] + e)[11..] == sg[12..] + e;
    ReadLineOf(sg[12..], rest);
  }

  /** A written `CRYST1` line reads back as the cell built from the written
      parameters. */
  lemma Cryst1RowReads(lat: Lattice, core: Core, rest: string)
    requires CellReadable(lat, core)
    ensures ReadLattice(Cryst1Row(lat, core) + ("\n" + rest), core) == Parsed(ReadBackCell(lat, core), rest)
  {
    var l := core.lengths(lat);
    var g := core.angles(lat);
    var e := SpaceGroupText + ("\n" + rest);
    var cells := PadLeft(l.x, 9) + (PadLeft(l.y, 9) + (PadLeft(l.z, 9) + (PadLeft(g.x, 7)
      + (PadLeft(g.y, 7) + (PadLeft(g.z, 7) + e)))));
    Cryst1RowShape(lat, core, "\n" + rest);
    TagOf(Cryst1Tag, cells);
    CellFieldsOf(CellParams(l.x, l.y, l.z, g.x, g.y, g.z), e);
    SpaceGroupFacts();
    CellTailOf(SpaceGroupText, rest);
  }

  // Reading back a whole written text.

  /** The atom records `read_atoms` gives for written sites. */
  function ReadBackSites(sites: seq<Site>, core: Core): (r: seq<(nat, Atom)>)
    ensures |r| == |sites|
    ensures forall k | 0 <= k < |sites| :: r[k] == (sites[k].sn, ReadBackAtom(sites[k].atom, core))
  {
    seq(|sites|, k requires 0 <= k < |sites| => (sites[k].sn, ReadBackAtom(sites[k].atom, core)))
  }

  /** The pairs the `CONECT` lines of `cs` stand for, line by line. */
  function ConectPairs(cs: seq<(nat, seq<nat>)>): seq<(nat, nat)>
    decreases |cs|
  {
    if cs == [] then [] else Pairs(cs[0].0, cs[0].1) + ConectPairs(cs[1..])
  }

  lemma AtomRecordsCons(s: string, a: (nat, Atom), tail: string, core: Core)
    requires ReadAtomRecord(s, core) == Parsed(a, tail)
    ensures AtomRecords(s, core) == ([a] + AtomRecords(tail, core).0, AtomRecords(tail, core).1)
  {
  }

  lemma SitesReadFrom(sites: seq<Site>, m: nat, core: Core)
    requires m < |sites|
    ensures ReadBackSites(sites[m..], core) == [(sites[m].sn, ReadBackAtom(sites[m].atom, core))] + ReadBackSites(sites[m + 1..], core)
  {
    var a := ReadBackSites(sites[m..], core);
    var b := [(sites[m].sn, ReadBackAtom(sites[m].atom, core))] + ReadBackSites(sites[m + 1..], core);
    assert |a| == |b|;
    forall k | 0 <= k < |a|
      ensures a[k] == b[k]
    {
      if k > 0 {
        assert b[k] == ReadBackSites(sites[m + 1..], core)[k - 1];
        assert sites[m + 1..][k - 1] == sites[m..][k];
      }
    }
  }

  /** Written atom lines read back one by one, up to the first line that is
      not an atom record. */
  lemma {:induction false} AtomRowsRead(sites: seq<Site>, m: nat, rest: string, core: Core)
    requires m <= |sites|
    requires forall k | m <= k < |sites| :: AtomReadable(sites[k].sn, sites[k].atom)
    requires ReadAtomRecord(rest, core) == NoParse
    ensures AtomRecords(Terminate(AtomRows(sites)[m..], "\n") + rest, core) == (ReadBackSites(sites[m..], core), rest)
    decreases |sites| - m
  {
    if m == |sites| {
      assert AtomRows(sites)[m..] == [];
      assert [] + rest == rest;
      assert ReadBackSites(sites[m..], core) == [];
    } else {
      var rows := AtomRows(sites)[m..];
      var tail := Terminate(rows[1..], "\n") + rest;
      TerminateHead(rows, rest);
      assert rows[0] == AtomRow(sites[m].sn, sites[m].atom);
      assert rows[1..] == AtomRows(sites)[m + 1..];
      AtomRowReads(sites[m].sn, sites[m].atom, tail, core);
      AtomRowsRead(sites, m + 1, rest, core);
      AtomRecordsCons(rows[0] + ("\n" + tail), (sites[m].sn, ReadBackAtom(sites[m].atom, core)), tail, core);
      SitesReadFrom(sites, m, core);
    }
  }

  /** Host and neighbours that fit their 5 columns. */
  predicate ConectReadable(c: (nat, seq<nat>)) {
    c.0 < MaxSerial && c.1 != [] && forall n | 0 <= n < |c.1| :: c.1[n] < MaxSerial
  }

  lemma BondRecordsCons(s: string, ps: seq<(nat, nat)>, tail: string, more: (seq<(nat, nat)>, string, nat))
    requires ReadBondRecord(s) == Parsed(ps, tail)
    requires BondRecords(tail) == more
    ensures BondRecords(s).0 == ps + more.0
    ensures BondRecords(s).1 == more.1
    ensures BondRecords(s).2 == more.2 + 1
  {
  }

  /** The text after a `CONECT` line starts with the next one, or is `rest`. */
  lemma ConectNext(cs: seq<(nat, seq<nat>)>, m: nat, rest: string)
    requires m < |cs|
    requires rest == [] || IsAlpha(rest[0])
    ensures var t := Terminate(ConectLines(cs)[m + 1..], "\n") + rest; t == [] || IsAlpha(t[0])
  {
    var rows := ConectLines(cs)[m + 1..];
    if rows != [] {
      TerminateHead(rows, rest);
      assert rows[0] == ConectRow(cs[m + 1].0, cs[m + 1].1);
      assert rows[0][0] == 'C';
    } else {
      assert [] + rest == rest;
    }
  }

  /** Written `CONECT` lines read back one by one. */
  lemma {:induction false} ConectRowsRead(cs: seq<(nat, seq<nat>)>, m: nat, rest: string)
    requires m <= |cs|
    requires forall k | m <= k < |cs| :: ConectReadable(cs[k])
    requires rest == [] || IsAlpha(rest[0])
    requires ReadBondRecord(rest) == NoParse
    ensures BondRecords(Terminate(ConectLines(cs)[m..], "\n") + rest) == (ConectPairs(cs[m..]), rest, |cs| - m)
    decreases |cs| - m
  {
    if m == |cs| {
      assert ConectLines(cs)[m..] == [];
      assert [] + rest == rest;
      assert cs[m..] == [];
    } else {
      var rows := ConectLines(cs)[m..];
      var tail := Terminate(rows[1..], "\n") + rest;
      TerminateHead(rows, rest);
      assert rows[0] == ConectRow(cs[m].0, cs[m].1);
      assert rows[1..] == ConectLines(cs)[m + 1..];
      ConectNext(cs, m, rest);
      ConectRowReads(cs[m].0, cs[m].1, tail);
      ConectRowsRead(cs, m + 1, rest);
      BondRecordsCons(rows[0] + ("\n" + tail), Pairs(cs[m].0, cs[m].1), tail, BondRecords(tail));
      ConectPairsFrom(cs, m);
    }
  }

  lemma ConectPairsFrom(cs: seq<(nat, seq<nat>)>, m: nat)
    requires m < |cs|
    ensures ConectPairs(cs[m..]) == Pairs(cs[m].0, cs[m].1) + ConectPairs(cs[m + 1..])
  {
    assert cs[m..][1..] == cs[m + 1..];
  }

  lemma {:induction false} NeighboursBelow(bonds: seq<Bond>, i: nat)
    requires forall k | 0 <= k < |bonds| :: bonds[k].j < MaxSerial
    ensures forall n | 0 <= n < |Neighbours(bonds, i)| :: Neighbours(bonds, i)[n] < MaxSerial
    decreases |bonds|
  {
    if bonds != [] {
      NeighboursBelow(bonds[..|bonds| - 1], i);
    }
  }

  /** The `CONECT` lines of sites and bonds whose numbers fit 5 columns fit
      them too. */
  lemma {:induction false} ConectsReadable(sites: seq<Site>, bonds: seq<Bond>)
    requires forall k | 0 <= k < |sites| :: sites[k].sn < MaxSerial
    requires forall k | 0 <= k < |bonds| :: bonds[k].j < MaxSerial
    ensures forall k | 0 <= k < |Conects(sites, bonds)| :: ConectReadable(Conects(sites, bonds)[k])
    decreases |sites|
  {
    if sites != [] {
      ConectsReadable(sites[..|sites| - 1], bonds);
      NeighboursBelow(bonds, sites[|sites| - 1].sn);
    }
  }

  lemma {:induction false} NoConects(sites: seq<Site>)
    ensures Conects(sites, []) == []
    decreases |sites|
  {
    if sites != [] {
      NoConects(sites[..|sites| - 1]);
    }
  }

  /** The molecule a written text reads back as: the title `for pdb`, each
      atom's symbol and position under its serial number, each `CONECT` pair
      as a single bond, and the cell built from the written parameters. */
  function ReadBackMolecule(mol: Molecule, core: Core): Molecule {
    Molecule(PdbTitle, PutSites([], Sited(ReadBackSites(mol.sites, core))),
             SingleBonds(ConectPairs(Conects(mol.sites, mol.bonds))),
             match mol.lattice
             case None => None
             case Some(lat) => Some(ReadBackCell(lat, core)))
  }

  /** A molecule whose lines fit the fixed columns and that has atoms or a
      cell (otherwise nothing marks where the structure starts). */
  predicate MoleculeReadable(mol: Molecule, core: Core) {
    (mol.sites != [] || mol.lattice.Some?)
    && (forall k | 0 <= k < |mol.sites| :: AtomReadable(mol.sites[k].sn, mol.sites[k].atom))
    && (mol.lattice.Some? ==> CellReadable(mol.lattice.value, core))
    && (forall k | 0 <= k < |mol.bonds| :: mol.bonds[k].j < MaxSerial)
  }

  /** The written text, piece by piece. */
  lemma PdbTextShape(mol: Molecule, core: Core)
    ensures PdbText(mol, core)
      == RemarkRow + ("\n" + (Terminate(CrystRows(mol.lattice, core), "\n")
         + (Terminate(AtomRows(mol.sites), "\n")
         + (Terminate(ConectLines(Conects(mol.sites, mol.bonds)), "\n") + (EndRow + "\n")))))
  {
    PdbRowsParts(mol, core);
    TerminateParts(RemarkRow, CrystRows(mol.lattice, core), AtomRows(mol.sites),
                   ConectLines(Conects(mol.sites, mol.bonds)), EndRow);
  }

  lemma PdbRowsParts(mol: Molecule, core: Core)
    ensures PdbRows(mol, core) == [RemarkRow] + CrystRows(mol.lattice, core) + AtomRows(mol.sites)
      + ConectLines(Conects(mol.sites, mol.bonds)) + [EndRow]
  {
    if |mol.bonds| == 0 {
      NoConects(mol.sites);
      assert mol.bonds == [];
    }
  }

  lemma TerminateParts(first: string, b: seq<string>, c: seq<string>, d: seq<string>, last: string)
    ensures Terminate([first] + b + c + d + [last], "\n")
      == first + ("\n" + (Terminate(b, "\n") + (Terminate(c, "\n") + (Terminate(d, "\n") + (last + "\n")))))
  {
    var a := [first];
    TerminateSnoc(a + b + c + d, last);
    TerminateAppend(a + b + c, d);
    TerminateAppend(a + b, c);
    TerminateAppend(a, b);
    TerminateSnoc([], first);
    var tb := Terminate(b, "\n");
    var tc := Terminate(c, "\n");
    var td := Terminate(d, "\n");
    var e := last + "\n";
    AppendAssoc(td, last, "\n");
    AppendAssoc(first + "\n" + tb + tc, td, e);
    AppendAssoc(first + "\n" + tb, tc, td + e);
    AppendAssoc(first + "\n", tb, tc + (td + e));
    AppendAssoc(first, "\n", tb + (tc + (td + e)));
  }

  lemma RemarkFacts(x: string)
    ensures '\n' !in RemarkRow && !AtStart(RemarkRow + x)
  {
    assert (RemarkRow + x)[0] == 'R';
  }

  /** The lines before the first cell or atom line are skipped. */
  lemma JumpLine(line: string, x: string)
    requires '\n' !in line && !AtStart(line + ("\n" + x)) && AtStart(x)
    ensures Jump(line + ("\n" + x)) == Parsed((), x)
  {
    ReadLineOf(line, x);
  }

  lemma NoAtomRecord(z: string, core: Core)
    requires z != [] && z[0] != 'A' && z[0] != 'H'
    ensures ReadAtomRecord(z, core) == NoParse
  {
  }

  lemma NoCell(y: string, core: Core)
    requires y != [] && y[0] != 'C'
    ensures ReadLattice(y, core) == NoParse
  {
  }

  lemma EndFacts(core: Core)
    ensures EndRow + "\n" == "END\n"
    ensures Separator("END\n") == []
    ensures ReadBondRecord("END\n") == NoParse
    ensures ReadAtomRecord("END\n", core) == NoParse
    ensures ReadBonds([]) == NoParse
  {
  }

  /** Text starting with a `CONECT` line is no separator. */
  lemma SeparatorConect(z: string)
    requires z != [] && z[0] == 'C'
    ensures Separator(z) == z
  {
  }

  /** The head of a non-empty terminated text is the head of its first row. */
  lemma FirstChar(rows: seq<string>, rest: string)
    requires rows != [] && rows[0] != []
    ensures Terminate(rows, "\n") + rest != [] && (Terminate(rows, "\n") + rest)[0] == rows[0][0]
  {
    TerminateHead(rows, rest);
  }

  /** Written `CONECT` lines are no atom record and no separator, and read
      back as the pairs of the lines. */
  lemma ConectTailReads(cs: seq<(nat, seq<nat>)>, rest: string, core: Core)
    requires cs != [] && forall k | 0 <= k < |cs| :: ConectReadable(cs[k])
    requires rest == [] || IsAlpha(rest[0])
    requires ReadBondRecord(rest) == NoParse
    ensures var z := Terminate(ConectLines(cs), "\n") + rest;
      z != [] && z[0] == 'C' && ReadAtomRecord(z, core) == NoParse
      && ReadBonds(Separator(z)) == Parsed(ConectPairs(cs), rest)
  {
    var z := Terminate(ConectLines(cs), "\n") + rest;
    FirstChar(ConectLines(cs), rest);
    assert ConectLines(cs)[0] == ConectRow(cs[0].0, cs[0].1);
    NoAtomRecord(z, core);
    SeparatorConect(z);
    ConectRowsRead(cs, 0, rest);
    assert ConectLines(cs)[0..] == ConectLines(cs) && cs[0..] == cs;
  }

  /** Written atom lines read back, and start with an atom record. */
  lemma AtomsTailReads(sites: seq<Site>, z: string, core: Core)
    requires forall k | 0 <= k < |sites| :: AtomReadable(sites[k].sn, sites[k].atom)
    requires ReadAtomRecord(z, core) == NoParse
    ensures var y := Terminate(AtomRows(sites), "\n") + z;
      AtomRecords(y, core) == (ReadBackSites(sites, core), z)
      && (sites != [] ==> y != [] && y[0] == 'A' && AtStart(y))
      && (sites == [] ==> y == z)
  {
    var rows := AtomRows(sites);
    var y := Terminate(rows, "\n") + z;
    AtomRowsRead(sites, 0, z, core);
    assert rows[0..] == rows && sites[0..] == sites;
    if sites != [] {
      AtomRowTag(sites[0].sn, sites[0].atom);
      RowPrefix(rows, z, AtomTag);
    } else {
      assert rows == [];
      assert [] + z == z;
    }
  }

  lemma AtomRowTag(sn: nat, a: Atom)
    ensures AtomTag <= AtomRow(sn, a)
  {
  }

  /** What the first row starts with, the text starts with. */
  lemma RowPrefix(rows: seq<string>, z: string, t: string)
    requires rows != [] && t != [] && t <= rows[0]
    ensures var y := Terminate(rows, "\n") + z; y != [] && y[0] == t[0] && t <= y
  {
    TerminateHead(rows, z);
    var y := rows[0] + ("\n" + (Terminate(rows[1..], "\n") + z));
    assert forall k | 0 <= k < |t| :: y[k] == rows[0][k];
  }

  /** The cell line, when there is one, reads back and starts the structure. */
  lemma CellHeadReads(lattice: Option<Lattice>, core: Core, y: string)
    requires lattice.Some? ==> CellReadable(lattice.value, core)
    requires lattice.None? ==> y != [] && y[0] == 'A' && AtStart(y)
    ensures var x := Terminate(CrystRows(lattice, core), "\n") + y;
      AtStart(x)
      && (lattice.Some? ==> ReadLattice(x, core) == Parsed(ReadBackCell(lattice.value, core), y))
      && (lattice.None? ==> x == y && ReadLattice(x, core) == NoParse)
  {
    if lattice.Some? {
      var row := Cryst1Row(lattice.value, core);
      TerminateHead([row], y);
      assert [row][1..] == [];
      assert [] + y == y;
      Cryst1RowReads(lattice.value, core, y);
      assert (row + ("\n" + y))[..6] == row[..6] == Cryst1Tag;
    } else {
      assert [] + y == y;
      NoCell(y, core);
    }
  }

  /** A written molecule whose fields fit their columns reads back as
      `ReadBackMolecule`: serial numbers, symbols, positions, the cell and
      every `CONECT` pair come back. */
  lemma PdbTextReads(mol: Molecule, core: Core)
    requires MoleculeReadable(mol, core)
    ensures ParseMolecule(PdbText(mol, core), core) == Ok(ReadBackMolecule(mol, core))
  {
    var cs := Conects(mol.sites, mol.bonds);
    var z := Terminate(ConectLines(cs), "\n") + (EndRow + "\n");
    var y := Terminate(AtomRows(mol.sites), "\n") + z;
    var x := Terminate(CrystRows(mol.lattice, core), "\n") + y;
    PdbTextShape(mol, core);
    ConectPart(mol, core);
    AtomsTailReads(mol.sites, z, core);
    CellHeadReads(mol.lattice, core, y);
    RemarkFacts("\n" + x);
    JumpLine(RemarkRow, x);
    ReadMoleculeOf(PdbText(mol, core), x, ReadLattice(x, core), y, ReadBackSites(mol.sites, core), z,
                   ReadBonds(Separator(z)), core);
  }

  /** The `CONECT` lines and `END` of a readable molecule. */
  lemma ConectPart(mol: Molecule, core: Core)
    requires MoleculeReadable(mol, core)
    ensures var cs := Conects(mol.sites, mol.bonds);
      var z := Terminate(ConectLines(cs), "\n") + (EndRow + "\n");
      z != [] && z[0] != 'A' && z[0] != 'H' && ReadAtomRecord(z, core) == NoParse
      && (if ReadBonds(Separator(z)).Parsed? then SingleBonds(ReadBonds(Separator(z)).value) else [])
         == SingleBonds(ConectPairs(cs))
  {
    var cs := Conects(mol.sites, mol.bonds);
    if cs != [] {
      forall k | 0 <= k < |mol.sites|
        ensures mol.sites[k].sn < MaxSerial
      {
        assert AtomReadable(mol.sites[k].sn, mol.sites[k].atom);
      }
      ConectsReadable(mol.sites, mol.bonds);
      ConectLinesEnd(cs, core);
    } else {
      NoConectLines(cs, core);
    }
  }

  lemma ConectLinesEnd(cs: seq<(nat, seq<nat>)>, core: Core)
    requires cs != [] && forall k | 0 <= k < |cs| :: ConectReadable(cs[k])
    ensures var z := Terminate(ConectLines(cs), "\n") + (EndRow + "\n");
      z != [] && z[0] == 'C' && ReadAtomRecord(z, core) == NoParse
      && ReadBonds(Separator(z)) == Parsed(ConectPairs(cs), EndRow + "\n")
  {
    EndStops(core);
    ConectTailReads(cs, EndRow + "\n", core);
  }

  /** `END` stops the `CONECT` lines. */
  lemma EndStops(core: Core)
    ensures EndRow + "\n" != [] && IsAlpha((EndRow + "\n")[0])
    ensures ReadBondRecord(EndRow + "\n") == NoParse
  {
    EndFacts(core);
  }

  lemma NoConectLines(cs: seq<(nat, seq<nat>)>, core: Core)
    requires cs == []
    ensures var z := Terminate(ConectLines(cs), "\n") + (EndRow + "\n");
      z == "END\n" && ReadBonds(Separator(z)) == NoParse && ConectPairs(cs) == []
  {
    EndFacts(core);
    assert ConectLines(cs) == [];
  }

  /** `read_molecule` from the results of its parts. */
  lemma ReadMoleculeOf(s: string, x: string, lat: Parsed<Lattice>, y: string, atoms: seq<(nat, Atom)>,
                       z: string, bonds: Parsed<seq<(nat, nat)>>, core: Core)
    requires Jump(s) == Parsed((), x)
    requires ReadLattice(x, core) == lat
    requires y == if lat.Parsed? then lat.rest else x
    requires AtomRecords(y, core) == (atoms, z)
    requires ReadBonds(Separator(z)) == bonds
    ensures ParseMolecule(s, core)
      == Ok(Molecule(PdbTitle, PutSites([], Sited(atoms)), if bonds.Parsed? then SingleBonds(bonds.value) else [],
                     if lat.Parsed? then Some(lat.value) else None))
  {
  }

  // No bond is lost or repeated by the `CONECT` lines.

  /** The serial numbers of the sites. */
  function SerialSet(sites: seq<Site>): set<nat> {
    if sites == [] then {} else SerialSet(sites[..|sites| - 1]) + {sites[|sites| - 1].sn}
  }

  /** Each site's serial number is new: a molecule stores one atom per
      number. */
  predicate DistinctSerials(sites: seq<Site>) {
    sites == [] || (DistinctSerials(sites[..|sites| - 1]) && sites[|sites| - 1].sn !in SerialSet(sites[..|sites| - 1]))
  }

  /** The pairs of the bonds whose first atom is one of `hosts`, in bond
      order. */
  function HostedPairs(bonds: seq<Bond>, hosts: set<nat>): seq<(nat, nat)> {
    if bonds == [] then []
    else
      var b := bonds[|bonds| - 1];
      HostedPairs(bonds[..|bonds| - 1], hosts) + (if b.i in hosts then [(b.i, b.j)] else [])
  }

  /** The pairs of all bonds, in bond order. */
  function BondPairs(bonds: seq<Bond>): (ps: seq<(nat, nat)>)
    ensures |ps| == |bonds|
    ensures forall k | 0 <= k < |bonds| :: ps[k] == (bonds[k].i, bonds[k].j)
  {
    seq(|bonds|, k requires 0 <= k < |bonds| => (bonds[k].i, bonds[k].j))
  }

  lemma {:induction false} ConectPairsAppend(a: seq<(nat, seq<nat>)>, b: seq<(nat, seq<nat>)>)
    ensures ConectPairs(a + b) == ConectPairs(a) + ConectPairs(b)
    decreases |a|
  {
    if a == [] {
      assert a + b == b;
    } else {
      assert (a + b)[1..] == a[1..] + b;
      ConectPairsAppend(a[1..], b);
    }
  }

  /** One atom's line holds exactly the pairs of the bonds it hosts. */
  lemma {:induction false} NeighbourPairs(bonds: seq<Bond>, i: nat)
    ensures multiset(Pairs(i, Neighbours(bonds, i))) == multiset(HostedPairs(bonds, {i}))
    decreases |bonds|
  {
    if bonds != [] {
      var init := bonds[..|bonds| - 1];
      var b := bonds[|bonds| - 1];
      NeighbourPairs(init, i);
      var ns := Neighbours(init, i);
      if b.i == i {
        assert Neighbours(bonds, i) == ns + [b.j];
        assert Pairs(i, ns + [b.j]) == Pairs(i, ns) + [(i, b.j)];
        assert HostedPairs(bonds, {i}) == HostedPairs(init, {i}) + [(i, b.j)];
      } else {
        assert Neighbours(bonds, i) == ns + [];
        assert ns + [] == ns;
        assert HostedPairs(bonds, {i}) == HostedPairs(init, {i}) + [];
        assert HostedPairs(init, {i}) + [] == HostedPairs(init, {i});
      }
    }
  }

  /** Hosting one more atom adds exactly the pairs of its bonds. */
  lemma {:induction false} HostedAdd(bonds: seq<Bond>, hosts: set<nat>, i: nat)
    requires i !in hosts
    ensures multiset(HostedPairs(bonds, hosts + {i}))
      == multiset(HostedPairs(bonds, hosts)) + multiset(HostedPairs(bonds, {i}))
    decreases |bonds|
  {
    if bonds != [] {
      HostedAdd(bonds[..|bonds| - 1], hosts, i);
    }
  }

  /** The `CONECT` lines of a molecule hold, line after line, exactly the
      pairs of the bonds whose first atom is one of its atoms, each once. */
  lemma {:induction false} ConectPairsComplete(sites: seq<Site>, bonds: seq<Bond>)
    requires DistinctSerials(sites)
    ensures multiset(ConectPairs(Conects(sites, bonds))) == multiset(HostedPairs(bonds, SerialSet(sites)))
    decreases |sites|
  {
    if sites != [] {
      var init := sites[..|sites| - 1];
      var sn := sites[|sites| - 1].sn;
      var ns := Neighbours(bonds, sn);
      var extra := if ns != [] then [(sn, ns)] else [];
      ConectPairsComplete(init, bonds);
      ConectPairsAppend(Conects(init, bonds), extra);
      assert ConectPairs(extra) == Pairs(sn, ns) by {
        if ns != [] {
          assert extra[1..] == [];
        }
      }
      NeighbourPairs(bonds, sn);
      HostedAdd(bonds, SerialSet(init), sn);
    } else {
      assert HostedPairs(bonds, {}) == [] by {
        HostedNone(bonds);
      }
    }
  }

  lemma {:induction false} HostedNone(bonds: seq<Bond>)
    ensures HostedPairs(bonds, {}) == []
    decreases |bonds|
  {
    if bonds != [] {
      HostedNone(bonds[..|bonds| - 1]);
    }
  }

  lemma {:induction false} HostedAll(bonds: seq<Bond>, hosts: set<nat>)
    requires forall k | 0 <= k < |bonds| :: bonds[k].i in hosts
    ensures HostedPairs(bonds, hosts) == BondPairs(bonds)
    decreases |bonds|
  {
    if bonds != [] {
      HostedAll(bonds[..|bonds| - 1], hosts);
    }
  }

  /** When every bond starts at an atom of the molecule, as in a molecule
      graph, the bonds read back from a written text are the written bonds,
      each once, as single bonds. */
  lemma PdbBondsRead(mol: Molecule, core: Core)
    requires MoleculeReadable(mol, core) && DistinctSerials(mol.sites)
    requires forall k | 0 <= k < |mol.bonds| :: mol.bonds[k].i in SerialSet(mol.sites)
    ensures var back := ReadBackMolecule(mol, core).bonds;
      multiset(BondPairs(back)) == multiset(BondPairs(mol.bonds))
      && forall k | 0 <= k < |back| :: back[k].kind == Single
  {
    ConectPairsComplete(mol.sites, mol.bonds);
    HostedAll(mol.bonds, SerialSet(mol.sites));
    var ps := ConectPairs(Conects(mol.sites, mol.bonds));
    assert BondPairs(SingleBonds(ps)) == ps;
  }

  // Element guessing, on the cases the source documents.

  /** The element columns win when they hold a symbol. */
  lemma GuessFromColumns()
    ensures GuessElement("1CA ", "  1.00  0.00      UC1 SI") == Some("SI")
    ensures GuessElement("1CA ", "  1.00  0.00      UC1  I") == Some("I")
  {
    var r1 := "  1.00  0.00      UC1 SI";
    assert r1[22..24] == "SI";
    TrimOf([], "SI");
    var r2 := "  1.00  0.00      UC1  I";
    assert r2[22..24] == " I";
    TrimOf(" ", "I");
  }

  /** Otherwise the name's first letter is taken, skipping a leading
      character that is not a letter. */
  lemma GuessFromName()
    ensures GuessElement("CA  ", "") == Some("C")
    ensures GuessElement("1SA  ", "") == Some("S")
    ensures GuessElement(" N B ", "") == Some("N")
  {
    assert "CA  "[..1] == "C";
    assert "1SA  "[1..2] == "S";
    assert " N B "[1..2] == "N";
  }

  /** Blank element columns count as none. */
  lemma GuessFromBlankColumns()
    ensures GuessElement(" H   ", "                        ") == Some("H")
  {
    var r := "                        ";
    assert r[22..24] == "  ";
    assert Trim("  ") == [];
    assert " H   "[1..2] == "H";
  }

  // The empty structure.

  /** A molecule with neither atoms nor a cell is written as a remark and
      `END` only, which does not read back. */
  lemma EmptyNotRead(mol: Molecule, core: Core)
    requires mol.sites == [] && mol.lattice.None?
    ensures ParseMolecule(PdbText(mol, core), core).Err?
  {
    PdbTextShape(mol, core);
    assert Conects(mol.sites, mol.bonds) == [];
    assert Terminate(ConectLines([]), "\n") == [];
    assert PdbText(mol, core) == RemarkRow + ("\n" + "END\n");
    EndJump();
  }

  lemma EndJump()
    ensures Jump(RemarkRow + ("\n" + "END\n")) == NoParse
  {
    RemarkFacts("\n" + "END\n");
    ReadLineOf(RemarkRow, "END\n");
    ReadLineOf("END", []);
    assert "END\n" == "END" + ("\n" + []);
    assert Jump([]) == NoParse;
  }

  // Record boundaries.

  /** `PdbFile::read_next`: a model ends at an `ENDMDL` line. */
  predicate IsModelEnd(line: string) {
    line == "ENDMDL\n"
  }

  /** Cutting a multi-model file into models loses no line, and every model
      but the last ends at its only `ENDMDL` line. */
  lemma PdbRecords(lines: seq<string>)
    ensures Flatten(TerminatedParts(lines, IsModelEnd)) == lines
    ensures forall j | 0 <= j < |TerminatedParts(lines, IsModelEnd)| ::
      TerminatedRecord(TerminatedParts(lines, IsModelEnd)[j], IsModelEnd)
    ensures forall j | 0 <= j < |TerminatedParts(lines, IsModelEnd)| - 1 ::
      ClosedBy(TerminatedParts(lines, IsModelEnd)[j], IsModelEnd)
  {
    TerminatedPartsFlatten(lines, IsModelEnd);
    TerminatedPartsRecords(lines, IsModelEnd);
  }
}
