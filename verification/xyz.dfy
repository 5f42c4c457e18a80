/** The XYZ format (`text/xyz`) and the plain XYZ format (`text/pxyz`): atom
    lines `symbol x y z [vx vy vz]`, the XYZ count and title lines, and the
    three `TV` dummy atoms that carry a lattice. */
module Xyz {
  import opened Wrappers
  import opened Text
  import opened Numerals
  import opened Nom
  import opened Chem
  import opened Partition

  /** One atom line as read: the element field, the position, and the rest of
      the line. */
  datatype AtomLine = AtomLine(symbol: string, position: Vec3, remained: string)

  /** `alt((digit1, alpha1))`: an atomic number or an element symbol. */
  function Element(s: string): Parsed<string> {
    var d := Digit1(s);
    if d.Parsed? then d else Alpha1(s)
  }

  /** `read_atom_xyz`. */
  function ReadAtomXyz(s: string): (r: Parsed<AtomLine>)
    ensures r.Parsed? ==> |r.rest| < |s|
  {
    match Element(Space0(s))
    case NoParse => NoParse
    case Parsed(sym, r1) =>
      match Space1(r1)
      case NoParse => NoParse
      case Parsed(_, r2) =>
        match XyzArray(r2)
        case NoParse => NoParse
        case Parsed(p, r3) =>
          var line := ReadLine(r3);
          Parsed(AtomLine(sym, p, line.value), line.rest)
  }

  /** `many0(read_atom_xyz)`: atom lines up to the first line that is not one. */
  function ManyAtoms(s: string): (seq<AtomLine>, string)
    decreases |s|
  {
    match ReadAtomXyz(s)
    case NoParse => ([], s)
    case Parsed(a, r) =>
      var more := ManyAtoms(r);
      ([a] + more.0, more.1)
  }

  /** `read_atoms_pxyz`: `many1(read_atom_xyz)`. */
  function ReadAtomsPxyz(s: string): Parsed<seq<AtomLine>> {
    var atoms := ManyAtoms(s);
    if atoms.0 == [] then NoParse else Parsed(atoms.0, atoms.1)
  }

  /** `read_atoms_xyz`: count line, title line, atom lines.  The stated count is
      read but not compared with anything (a mismatch is only logged). */
  function ReadAtomsXyz(s: string): Parsed<(string, seq<AtomLine>)> {
    match ReadUsize(s)
    case NoParse => NoParse
    case Parsed(_, r1) =>
      var title := ReadLine(r1);
      match ReadAtomsPxyz(title.rest)
      case NoParse => NoParse
      case Parsed(atoms, r3) => Parsed((Trim(title.value), atoms), r3)
  }

  /** `parse_velocities`: the words of the line, if they are exactly three
      numbers. */
  function ParseVelocities(line: string): Option<Vec3> {
    var ws := Words(line);
    if |ws| == 3 && IsNumeral(ws[0]) && IsNumeral(ws[1]) && IsNumeral(ws[2])
    then Some(Vec3(ws[0], ws[1], ws[2]))
    else None
  }

  /** The atom an atom line describes: at rest unless the rest of the line holds
      a velocity. */
  function ToAtom(l: AtomLine, core: Core): Atom {
    var a := NewAtom(l.symbol, l.position, core);
    if Trim(l.remained) != [] then
      match ParseVelocities(l.remained)
      case Some(v) => a.(velocity := v)
      case None => a
    else a
  }

  /** A `TV` dummy atom: a lattice vector, not an atom. */
  predicate IsTv(l: AtomLine, core: Core) {
    !core.isElement(l.symbol) && l.symbol == "TV"
  }

  /** The atoms `build_mol` keeps: every line naming an element, in order. */
  function KeptAtoms(ls: seq<AtomLine>, core: Core): seq<Atom> {
    if ls == [] then []
    else
      var l := ls[|ls| - 1];
      KeptAtoms(ls[..|ls| - 1], core) + (if core.isElement(l.symbol) then [ToAtom(l, core)] else [])
  }

  /** The positions of the `TV` lines, in order. */
  function TvVectors(ls: seq<AtomLine>, core: Core): seq<Vec3> {
    if ls == [] then []
    else
      var l := ls[|ls| - 1];
      TvVectors(ls[..|ls| - 1], core) + (if IsTv(l, core) then [l.position] else [])
  }

  /** Exactly three `TV` vectors make a lattice; any other number makes none. */
  function TvLattice(vs: seq<Vec3>): Option<Lattice> {
    if |vs| == 3 then Some(Lattice(vs[0], vs[1], vs[2])) else None
  }

  /** The molecule `build_mol` assembles from atom lines. */
  function MolFromLines(ls: seq<AtomLine>, core: Core): Molecule {
    Molecule(DefaultTitle, NumberFrom(1, KeptAtoms(ls, core)), [], TvLattice(TvVectors(ls, core)))
  }

  /** `build_mol`: drops every dummy atom, collects the `TV` ones and numbers
      the remaining atoms from 1. */
  method BuildMol(ls: seq<AtomLine>, core: Core) returns (mol: Molecule)
    ensures mol == MolFromLines(ls, core)
  {
    var latVectors: seq<Vec3> := [];
    var atoms: seq<Atom> := [];
    var i := 0;
    while i < |ls|
      invariant 0 <= i <= |ls|
      invariant atoms == KeptAtoms(ls[..i], core)
      invariant latVectors == TvVectors(ls[..i], core)
    {
      var a := ToAtom(ls[i], core);
      if !core.isElement(ls[i].symbol) {
        if ls[i].symbol == "TV" {
          latVectors := latVectors + [a.position];
        }
      } else {
        atoms := atoms + [a];
      }
      assert ls[..i + 1][..i] == ls[..i];
      i := i + 1;
    }
    assert ls[..i] == ls;
    var lattice: Option<Lattice> := None;
    if |latVectors| == 3 {
      lattice := Some(Lattice(latVectors[0], latVectors[1], latVectors[2]));
    }
    mol := Molecule(DefaultTitle, NumberFrom(1, atoms), [], lattice);
  }

  /** No dummy atom survives `build_mol`: every atom kept is made from a line
      that names an element. */
  lemma {:induction false} KeptAtomsAreElements(ls: seq<AtomLine>, core: Core)
    ensures forall k | 0 <= k < |KeptAtoms(ls, core)| ::
      exists j | 0 <= j < |ls| :: core.isElement(ls[j].symbol) && KeptAtoms(ls, core)[k] == ToAtom(ls[j], core)
    decreases |ls|
  {
    if ls != [] {
      var init, l := ls[..|ls| - 1], ls[|ls| - 1];
      KeptAtomsAreElements(init, core);
      var before := KeptAtoms(init, core);
      var kept := KeptAtoms(ls, core);
      assert kept == before + (if core.isElement(l.symbol) then [ToAtom(l, core)] else []);
      forall k | 0 <= k < |kept|
        ensures exists j | 0 <= j < |ls| :: core.isElement(ls[j].symbol) && kept[k] == ToAtom(ls[j], core)
      {
        if k < |before| {
          assert kept[k] == before[k];
          var j :| 0 <= j < |init| && core.isElement(init[j].symbol) && before[k] == ToAtom(init[j], core);
          assert ls[j] == init[j];
        } else {
          assert core.isElement(ls[|ls| - 1].symbol) && kept[k] == ToAtom(ls[|ls| - 1], core);
        }
      }
    } else {
      assert KeptAtoms(ls, core) == [];
    }
  }

  /** `parse_molecule(input, plain)`: plain XYZ is atom lines only; XYZ adds the
      count and title lines, and the title replaces the default one. */
  function ParseMolecule(input: string, plain: bool, core: Core): Result<Molecule> {
    if plain then
      match ReadAtomsPxyz(input)
      case NoParse => Err("Failed to parse atoms in plain xyz format")
      case Parsed(atoms, _) => Ok(MolFromLines(atoms, core))
    else
      match ReadAtomsXyz(input)
      case NoParse => Err("Failed to parse atoms in xyz format")
      case Parsed((title, atoms), _) => Ok(MolFromLines(atoms, core).(title := title))
  }

  /** `PlainXyzFile::parse_molecule`: leading blank lines are dropped first. */
  function ParsePlain(input: string, core: Core): Result<Molecule> {
    ParseMolecule(TrimStart(input), true, core)
  }

  // Writing.

  predicate IsZeroVec(v: Vec3) {
    IsZero(v.x) && IsZero(v.y) && IsZero(v.z)
  }

  /** Velocities are written only when some atom is moving. */
  predicate WritesVelocity(mol: Molecule) {
    exists k | 0 <= k < |mol.sites| :: !IsZeroVec(mol.sites[k].atom.velocity)
  }

  /** `{:6} {:-18.6}{:-18.6}{:-18.6}` and, with velocities, three more columns. */
  function AtomRow(a: Atom, withVelocity: bool): string {
    PadRight(a.symbol, 6) + (" " + (PadLeft(a.position.x, 18) + (PadLeft(a.position.y, 18) + (PadLeft(a.position.z, 18)
    + VelocityColumns(a, withVelocity)))))
  }

  function VelocityColumns(a: Atom, withVelocity: bool): string {
    if withVelocity then PadLeft(a.velocity.x, 18) + (PadLeft(a.velocity.y, 18) + PadLeft(a.velocity.z, 18))
    else []
  }

  /** `TV {:-12.8} {:-12.8} {:-12.8}`. */
  function TvRow(v: Vec3): string {
    "TV" + (" " + (PadLeft(v.x, 12) + (" " + (PadLeft(v.y, 12) + (" " + PadLeft(v.z, 12))))))
  }

  function LatticeRows(lattice: Option<Lattice>): seq<string> {
    match lattice
    case None => []
    case Some(lat) => [TvRow(lat.va), TvRow(lat.vb), TvRow(lat.vc)]
  }

  function AtomRows(sites: seq<Site>, withVelocity: bool): (rows: seq<string>)
    ensures |rows| == |sites|
    ensures forall k | 0 <= k < |sites| :: rows[k] == AtomRow(sites[k].atom, withVelocity)
  {
    seq(|sites|, k requires 0 <= k < |sites| => AtomRow(sites[k].atom, withVelocity))
  }

  lemma AtomRowsSnoc(sites: seq<Site>, i: nat, withVelocity: bool)
    requires i < |sites|
    ensures AtomRows(sites[..i + 1], withVelocity) == AtomRows(sites[..i], withVelocity) + [AtomRow(sites[i].atom, withVelocity)]
  {
  }

  /** The number the count line states: the atoms, plus three `TV` lines for a
      periodic molecule. */
  function StatedCount(mol: Molecule): nat {
    if mol.lattice.Some? then NAtoms(mol) + 3 else NAtoms(mol)
  }

  /** The text `XyzFile::format_molecule` produces. */
  function XyzText(mol: Molecule): string {
    ShowNat(StatedCount(mol)) + ("\n" + (mol.title + ("\n"
    + Terminate(AtomRows(mol.sites, WritesVelocity(mol)) + LatticeRows(mol.lattice), "\n"))))
  }

  /** `XyzFile::format_molecule`. */
  method FormatMolecule(mol: Molecule) returns (text: string)
    ensures text == XyzText(mol)
  {
    var writeVelocity := WritesVelocity(mol);
    var rows: seq<string> := [];
    var i := 0;
    while i < |mol.sites|
      invariant 0 <= i <= |mol.sites|
      invariant rows == AtomRows(mol.sites[..i], writeVelocity)
    {
      AtomRowsSnoc(mol.sites, i, writeVelocity);
      rows := rows + [AtomRow(mol.sites[i].atom, writeVelocity)];
      i := i + 1;
    }
    assert mol.sites[..i] == mol.sites;
    var tvs := LatticeRows(mol.lattice);
    var j := 0;
    while j < |tvs|
      invariant 0 <= j <= |tvs|
      invariant rows == AtomRows(mol.sites, writeVelocity) + tvs[..j]
    {
      assert tvs[..j + 1] == tvs[..j] + [tvs[j]];
      rows := rows + [tvs[j]];
      j := j + 1;
    }
    assert tvs[..j] == tvs;
    assert rows == AtomRows(mol.sites, writeVelocity) + LatticeRows(mol.lattice);
    var body := JoinLines(rows);
    var count := if mol.lattice.Some? then |mol.sites| + 3 else |mol.sites|;
    assert count == StatedCount(mol);
    text := ShowNat(count) + ("\n" + (mol.title + ("\n" + body)));
  }

  /** `PlainXyzFile::format_molecule`: the `Display` text of each atom, the `TV`
      lines, and a blank line that ends the record. */
  function PlainText(mol: Molecule, core: Core): string {
    Terminate(DisplayRows(mol.sites, core) + LatticeRows(mol.lattice), "\n") + "\n"
  }

  function DisplayRows(sites: seq<Site>, core: Core): (rows: seq<string>)
    ensures |rows| == |sites|
    ensures forall k | 0 <= k < |sites| :: rows[k] == core.display(sites[k].atom)
  {
    seq(|sites|, k requires 0 <= k < |sites| => core.display(sites[k].atom))
  }

  method FormatPlain(mol: Molecule, core: Core) returns (text: string)
    ensures text == PlainText(mol, core)
  {
    var body := JoinLines(DisplayRows(mol.sites, core) + LatticeRows(mol.lattice));
    text := body;
    text := text + "\n";
  }

  // Record boundaries.

  /** `XyzFile::read_next` on the lines read so far (line 1 first). */
  function ReadNext(context: seq<string>): (a: ReadAction)
    requires |context| >= 1
    ensures a.Error? <==> ParseNat(Trim(context[0])).None?
    ensures a.Done? ==> a.n == |context| && |context| >= ParseNat(Trim(context[0])).value + 2
    ensures a.Need? ==> a.n > 0 && |context| + a.n == ParseNat(Trim(context[0])).value + 2
  {
    match ParseNat(Trim(context[0]))
    case Some(natoms) =>
      if |context| >= natoms + 2 then Done(|context|) else Need(natoms + 2 - |context|)
    case None => Error("invalid xyz title")
  }

  /** Asking for the missing lines is enough: with them the record is done. */
  lemma NeedThenDone(context: seq<string>, more: seq<string>)
    requires |context| >= 1 && ReadNext(context).Need?
    requires |more| == ReadNext(context).n
    ensures ReadNext(context + more) == Done(|context| + |more|)
  {
    assert (context + more)[0] == context[0];
  }

  /** `PlainXyzFile::read_next`: a record ends at a line that is blank once
      trimmed. */
  predicate PlainTerminator(line: string) {
    Trim(line) == []
  }
}

/** Reading back what `XyzFile::format_molecule` writes.  Rows are taken
    apart right-nested (`a + (b + c)`), the way the readers consume them. */
module XyzRoundTrip {
  import opened Wrappers
  import opened Text
  import opened Numerals
  import opened Nom
  import opened Chem
  import opened Xyz

  /** A symbol the element field reads whole: an atomic number or letters. */
  predicate SymbolOk(sym: string) {
    sym != [] && (All(sym, IsDigit) || All(sym, IsAlpha))
  }

  lemma ElementOf(sym: string, rest: string)
    requires SymbolOk(sym)
    requires rest == [] || IsBlank(rest[0])
    ensures Element(sym + rest) == Parsed(sym, rest)
  {
    if All(sym, IsDigit) {
      Take1Of(sym, rest, IsDigit);
    } else {
      assert (sym + rest)[0] == sym[0];
      assert Digit1(sym + rest) == NoParse;
      Take1Of(sym, rest, IsAlpha);
    }
  }

  lemma SymbolStart(sym: string, r1: string)
    requires SymbolOk(sym)
    requires r1 == [] || IsBlank(r1[0])
    ensures Space0(sym + r1) == sym + r1 && Element(sym + r1) == Parsed(sym, r1)
  {
    var s := sym + r1;
    assert s[0] == sym[0];
    Space0Of([], s);
    assert [] + s == s;
    ElementOf(sym, r1);
  }

  lemma GapThenNumeral(g: string, x: Numeral, r: string)
    requires g != [] && All(g, IsBlank) && IsNumeral(x)
    ensures Space1(g + (x + r)) == Parsed(g, x + r)
  {
    NumeralNotWhite(x);
    assert (x + r)[0] == x[0];
    Take1Of(g, x + r, IsBlank);
  }

  lemma LineTail(tail: string, r: string)
    requires tail == [] || IsWhite(tail[0])
    ensures tail + ("\n" + r) == [] || IsWhite((tail + ("\n" + r))[0])
  {
    var r3 := tail + ("\n" + r);
    if tail == [] { assert r3[0] == '\n'; } else { assert r3[0] == tail[0]; }
  }

  lemma ReadAtomXyzSteps(s: string, sym: string, r1: string, r2: string, v: Vec3, r3: string, tail: string, rest: string)
    requires Space0(s) == s
    requires Element(s) == Parsed(sym, r1)
    requires Space1(r1).Parsed? && Space1(r1).rest == r2
    requires XyzArray(r2) == Parsed(v, r3)
    requires ReadLine(r3) == Parsed(tail, rest)
    ensures ReadAtomXyz(s) == Parsed(AtomLine(sym, v, tail), rest)
  {
  }

  /** An atom-like line: symbol, blanks, three numbers, then a tail that is
      empty or starts with white space. */
  predicate RowParts(sym: string, g0: string, v: Vec3, g1: string, g2: string, tail: string) {
    SymbolOk(sym)
    && g0 != [] && All(g0, IsBlank) && g1 != [] && All(g1, IsBlank) && g2 != [] && All(g2, IsBlank)
    && IsNumeral(v.x) && IsNumeral(v.y) && IsNumeral(v.z)
    && '\n' !in tail && (tail == [] || IsWhite(tail[0]))
  }

  lemma RowReads(sym: string, g0: string, v: Vec3, g1: string, g2: string, tail: string, rest: string)
    requires RowParts(sym, g0, v, g1, g2, tail)
    ensures ReadAtomXyz(sym + (g0 + (v.x + (g1 + (v.y + (g2 + (v.z + (tail + ("\n" + rest))))))))) == Parsed(AtomLine(sym, v, tail), rest)
  {
    var r3 := tail + ("\n" + rest);
    var r2 := v.x + (g1 + (v.y + (g2 + (v.z + r3))));
    var r1 := g0 + r2;
    GapThenNumeral(g0, v.x, g1 + (v.y + (g2 + (v.z + r3))));
    SymbolStart(sym, r1);
    LineTail(tail, rest);
    XyzArrayOf(v, g1, g2, r3);
    ReadLineOf(tail, rest);
    ReadAtomXyzSteps(sym + r1, sym, r1, r2, v, r3, tail, rest);
  }

  lemma ManyAtomsEnd()
    ensures ManyAtoms([]) == ([], [])
  {
    assert Digit1([]) == NoParse && Alpha1([]) == NoParse;
  }

  lemma ManyAtomsStep(s: string, l: AtomLine, r: string, more: seq<AtomLine>)
    requires ReadAtomXyz(s) == Parsed(l, r)
    requires ManyAtoms(r) == (more, [])
    ensures ManyAtoms(s) == ([l] + more, [])
  {
  }

  /** A coordinate that leaves at least one blank in its 18-character column. */
  predicate FitsColumn(x: Numeral) {
    IsNumeral(x) && |x| < 18
  }

  /** The numbers of an atom fit their columns and its symbol reads whole. */
  predicate AtomFits(a: Atom, withVelocity: bool) {
    SymbolOk(a.symbol)
    && IsNumeral(a.position.x) && FitsColumn(a.position.y) && FitsColumn(a.position.z)
    && (withVelocity ==> FitsColumn(a.velocity.x) && FitsColumn(a.velocity.y) && FitsColumn(a.velocity.z))
  }

  predicate NumeralVec(v: Vec3) {
    IsNumeral(v.x) && IsNumeral(v.y) && IsNumeral(v.z)
  }

  predicate LatticeFits(lattice: Option<Lattice>) {
    lattice.Some? ==> NumeralVec(lattice.value.va) && NumeralVec(lattice.value.vb) && NumeralVec(lattice.value.vc)
  }

  /** Every atom names an element by its standard symbol, and `TV` names
      none. */
  predicate ElementsOnly(mol: Molecule, core: Core) {
    (forall k | 0 <= k < |mol.sites| ::
       core.isElement(mol.sites[k].atom.symbol) && IsStandard(mol.sites[k].atom.symbol, core))
    && !core.isElement("TV")
  }

  /** What the XYZ writer can write so that it reads back: a one-line title,
      at least one atom, atoms whose numbers fit their columns and whose
      symbols are standard element symbols, and a `TV` symbol that names no
      element. */
  predicate Writable(mol: Molecule, core: Core) {
    '\n' !in mol.title && NAtoms(mol) > 0 && RowsFit(mol) && ElementsOnly(mol, core)
  }

  /** Every written row has its numbers in their columns. */
  predicate RowsFit(mol: Molecule) {
    (forall k | 0 <= k < |mol.sites| :: AtomFits(mol.sites[k].atom, WritesVelocity(mol)))
    && LatticeFits(mol.lattice)
  }

  /** A right-aligned column that keeps a blank before its number. */
  lemma Column(x: Numeral, w: nat, r: string)
    requires IsNumeral(x) && |x| < w
    ensures PadLeft(x, w) + r == Spaces(w - |x|) + (x + r)
    ensures Spaces(w - |x|) != [] && All(Spaces(w - |x|), IsBlank) && All(Spaces(w - |x|), IsWhite)
  {
    SpacesAreWhite(w - |x|);
  }

  /** A written number holds no line break. */
  lemma PaddedNoBreak(x: Numeral, w: nat)
    requires IsNumeral(x)
    ensures '\n' !in PadLeft(x, w)
  {
    NumeralNotWhite(x);
    PadLeftSplit(x, w);
    var sp := Spaces(if |x| < w then w - |x| else 0);
    var t := sp + x;
    forall i | 0 <= i < |t|
      ensures IsBlank(t[i]) || NotWhite(t[i])
    {
      if i < |sp| {
        assert t[i] == sp[i];
      } else {
        assert t[i] == x[i - |sp|];
      }
    }
    NoBreak(t);
  }

  /** The velocity columns read as words are the velocity. */
  lemma VelocityWords(v: Vec3)
    requires FitsColumn(v.x) && FitsColumn(v.y) && FitsColumn(v.z)
    ensures Words(PadLeft(v.x, 18) + (PadLeft(v.y, 18) + PadLeft(v.z, 18))) == [v.x, v.y, v.z]
    ensures (PadLeft(v.x, 18) + (PadLeft(v.y, 18) + PadLeft(v.z, 18)))[0] == ' '
  {
    var sx, sy, sz := Spaces(18 - |v.x|), Spaces(18 - |v.y|), Spaces(18 - |v.z|);
    var t := PadLeft(v.x, 18) + (PadLeft(v.y, 18) + PadLeft(v.z, 18));
    assert t == (sx + v.x) + ((sy + v.y) + (sz + v.z));
    assert t[0] == sx[0] == ' ';
    NumeralNotWhite(v.x);
    NumeralNotWhite(v.y);
    NumeralNotWhite(v.z);
    ThreeWords(sx, v.x, sy, v.y, sz, v.z);
  }

  /** The velocity columns trim to something visible. */
  lemma VelocityVisible(v: Vec3)
    requires FitsColumn(v.x) && FitsColumn(v.y) && FitsColumn(v.z)
    ensures Trim(PadLeft(v.x, 18) + (PadLeft(v.y, 18) + PadLeft(v.z, 18))) != []
  {
    NumeralNotWhite(v.x);
    NumeralNotWhite(v.z);
    var r := PadLeft(v.y, 18) + PadLeft(v.z, 18);
    Column(v.x, 18, r);
    var u := v.x + r;
    assert u[0] == v.x[0];
    assert u[|u| - 1] == v.z[|v.z| - 1];
    TrimOf(Spaces(18 - |v.x|), u);
  }

  /** The velocity columns as a tail: empty, or three blank-led numbers. */
  lemma VelocityTail(a: Atom, withVelocity: bool)
    requires withVelocity ==> FitsColumn(a.velocity.x) && FitsColumn(a.velocity.y) && FitsColumn(a.velocity.z)
    ensures '\n' !in VelocityColumns(a, withVelocity)
    ensures VelocityColumns(a, withVelocity) == [] || IsWhite(VelocityColumns(a, withVelocity)[0])
    ensures withVelocity ==> Trim(VelocityColumns(a, withVelocity)) != []
    ensures withVelocity ==> ParseVelocities(VelocityColumns(a, withVelocity)) == Some(a.velocity)
    ensures !withVelocity ==> VelocityColumns(a, withVelocity) == []
  {
    if withVelocity {
      var v := a.velocity;
      PaddedNoBreak(v.x, 18);
      PaddedNoBreak(v.y, 18);
      PaddedNoBreak(v.z, 18);
      VelocityWords(v);
      VelocityVisible(v);
    }
  }

  /** The blanks between the symbol and the x coordinate of an atom row. */
  function SymbolGap(sym: string, x: string): (g: string)
    ensures g != [] && All(g, IsBlank)
  {
    Spaces(if |sym| < 6 then 6 - |sym| else 0) + (" " + Spaces(if |x| < 18 then 18 - |x| else 0))
  }

  /** The fields of an atom row, taken apart. */
  lemma AtomFields(sym: string, x: string, y: string, z: string, tail: string)
    requires |y| < 18 && |z| < 18
    ensures PadRight(sym, 6) + (" " + (PadLeft(x, 18) + (PadLeft(y, 18) + (PadLeft(z, 18) + tail))))
         == sym + (SymbolGap(sym, x) + (x + (Spaces(18 - |y|) + (y + (Spaces(18 - |z|) + (z + tail))))))
  {
    var pr := Spaces(if |sym| < 6 then 6 - |sym| else 0);
    var px := Spaces(if |x| < 18 then 18 - |x| else 0);
    PadLeftCons(z, 18, tail);
    var rz := PadLeft(z, 18) + tail;
    PadLeftCons(y, 18, rz);
    var ry := PadLeft(y, 18) + rz;
    PadLeftSplit(x, 18);
    assert PadLeft(x, 18) + ry == px + (x + ry);
    PadRightSplit(sym, 6);
    assert (sym + pr) + (" " + (px + (x + ry))) == sym + (pr + (" " + (px + (x + ry))));
    assert pr + (" " + (px + (x + ry))) == (pr + (" " + px)) + (x + ry);
  }

  lemma AtomRowFields(a: Atom, withVelocity: bool)
    requires |a.position.y| < 18 && |a.position.z| < 18
    ensures AtomRow(a, withVelocity)
         == a.symbol + (SymbolGap(a.symbol, a.position.x) + (a.position.x + (Spaces(18 - |a.position.y|) + (a.position.y
            + (Spaces(18 - |a.position.z|) + (a.position.z + VelocityColumns(a, withVelocity)))))))
  {
    AtomFields(a.symbol, a.position.x, a.position.y, a.position.z, VelocityColumns(a, withVelocity));
  }

  /** One written atom row reads back as its symbol, position and velocity
      columns. */
  lemma AtomRowReads(a: Atom, withVelocity: bool, rest: string)
    requires AtomFits(a, withVelocity)
    ensures ReadAtomXyz(AtomRow(a, withVelocity) + ("\n" + rest)) == Parsed(AtomLine(a.symbol, a.position, VelocityColumns(a, withVelocity)), rest)
  {
    var p := a.position;
    var tail := VelocityColumns(a, withVelocity);
    var g1, g2 := Spaces(18 - |p.y|), Spaces(18 - |p.z|);
    AtomRowFields(a, withVelocity);
    assert AtomRow(a, withVelocity) == a.symbol + (SymbolGap(a.symbol, p.x) + (p.x + (g1 + (p.y + (g2 + (p.z + tail))))));
    RowAppend(a.symbol, SymbolGap(a.symbol, p.x), p, g1, g2, tail, rest);
    VelocityTail(a, withVelocity);
    assert RowParts(a.symbol, SymbolGap(a.symbol, p.x), p, g1, g2, tail);
    var g0 := SymbolGap(a.symbol, p.x);
    RowReads(a.symbol, g0, p, g1, g2, tail, rest);
    var text := a.symbol + (g0 + (p.x + (g1 + (p.y + (g2 + (p.z + (tail + ("\n" + rest))))))));
    assert AtomRow(a, withVelocity) + ("\n" + rest) == text;
  }

  /** Appending the rest of the text to a right-nested row. */
  lemma RowAppend(sym: string, g0: string, v: Vec3, g1: string, g2: string, tail: string, rest: string)
    ensures (sym + (g0 + (v.x + (g1 + (v.y + (g2 + (v.z + tail))))))) + ("\n" + rest)
         == sym + (g0 + (v.x + (g1 + (v.y + (g2 + (v.z + (tail + ("\n" + rest))))))))
  {
    var e := "\n" + rest;
    assert (v.z + tail) + e == v.z + (tail + e);
    assert (g2 + (v.z + tail)) + e == g2 + (v.z + (tail + e));
    assert (v.y + (g2 + (v.z + tail))) + e == v.y + (g2 + (v.z + (tail + e)));
    assert (g1 + (v.y + (g2 + (v.z + tail)))) + e == g1 + (v.y + (g2 + (v.z + (tail + e))));
    assert (v.x + (g1 + (v.y + (g2 + (v.z + tail))))) + e == v.x + (g1 + (v.y + (g2 + (v.z + (tail + e)))));
    assert (g0 + (v.x + (g1 + (v.y + (g2 + (v.z + tail)))))) + e == g0 + (v.x + (g1 + (v.y + (g2 + (v.z + (tail + e))))));
  }

  function TvGap(x: string): (g: string)
    ensures g != [] && All(g, IsBlank)
  {
    " " + Spaces(if |x| < 12 then 12 - |x| else 0)
  }

  /** One padded field of a `TV` row with the blank in front of it. */
  lemma GapField(x: string, r: string)
    ensures " " + (PadLeft(x, 12) + r) == TvGap(x) + (x + r)
  {
    PadLeftSplit(x, 12);
    AppendAssoc(Spaces(if |x| < 12 then 12 - |x| else 0), x, r);
  }

  /** The fields of a `TV` row, taken apart. */
  lemma TvFields(v: Vec3)
    ensures TvRow(v) == "TV" + (TvGap(v.x) + (v.x + (TvGap(v.y) + (v.y + (TvGap(v.z) + (v.z + []))))))
  {
    assert PadLeft(v.z, 12) + [] == PadLeft(v.z, 12);
    GapField(v.z, []);
    var rz := TvGap(v.z) + (v.z + []);
    GapField(v.y, rz);
    var ry := TvGap(v.y) + (v.y + rz);
    GapField(v.x, ry);
  }

  /** A `TV` row reads back as a `TV` line with its vector. */
  lemma TvRowReads(v: Vec3, rest: string)
    requires NumeralVec(v)
    ensures ReadAtomXyz(TvRow(v) + ("\n" + rest)) == Parsed(AtomLine("TV", v, []), rest)
  {
    TvFields(v);
    RowAppend("TV", TvGap(v.x), v, TvGap(v.y), TvGap(v.z), [], rest);
    assert SymbolOk("TV");
    assert RowParts("TV", TvGap(v.x), v, TvGap(v.y), TvGap(v.z), []);
    RowReads("TV", TvGap(v.x), v, TvGap(v.y), TvGap(v.z), [], rest);
  }

  /** The rows `XyzFile::format_molecule` writes after the title. */
  function WrittenRows(mol: Molecule): seq<string> {
    AtomRows(mol.sites, WritesVelocity(mol)) + LatticeRows(mol.lattice)
  }

  /** The atom lines a written molecule reads back as. */
  function WrittenLines(mol: Molecule): (ls: seq<AtomLine>)
    ensures |ls| == |WrittenRows(mol)|
  {
    AtomLines(mol.sites, WritesVelocity(mol)) + TvLines(mol.lattice)
  }

  function AtomLines(sites: seq<Site>, withVelocity: bool): (ls: seq<AtomLine>)
    ensures |ls| == |sites|
    ensures forall k | 0 <= k < |sites| :: ls[k] == AtomLine(sites[k].atom.symbol, sites[k].atom.position, VelocityColumns(sites[k].atom, withVelocity))
  {
    seq(|sites|, k requires 0 <= k < |sites| => AtomLine(sites[k].atom.symbol, sites[k].atom.position, VelocityColumns(sites[k].atom, withVelocity)))
  }

  function TvLines(lattice: Option<Lattice>): (ls: seq<AtomLine>)
    ensures |ls| == |LatticeRows(lattice)|
  {
    match lattice
    case None => []
    case Some(lat) => [AtomLine("TV", lat.va, []), AtomLine("TV", lat.vb, []), AtomLine("TV", lat.vc, [])]
  }

  lemma LatticeRowReads(lattice: Option<Lattice>, k: nat, rest: string)
    requires LatticeFits(lattice)
    requires k < |LatticeRows(lattice)|
    ensures ReadAtomXyz(LatticeRows(lattice)[k] + ("\n" + rest)) == Parsed(TvLines(lattice)[k], rest)
  {
    var lat := lattice.value;
    if k == 0 {
      TvRowReads(lat.va, rest);
    } else if k == 1 {
      TvRowReads(lat.vb, rest);
    } else {
      TvRowReads(lat.vc, rest);
    }
  }

  lemma WrittenRowReads(mol: Molecule, i: nat, rest: string)
    requires RowsFit(mol)
    requires i < |WrittenRows(mol)|
    ensures ReadAtomXyz(WrittenRows(mol)[i] + ("\n" + rest)) == Parsed(WrittenLines(mol)[i], rest)
  {
    if i < |mol.sites| {
      AtomRowReads(mol.sites[i].atom, WritesVelocity(mol), rest);
    } else {
      LatticeRowReads(mol.lattice, i - |mol.sites|, rest);
    }
  }

  /** Rows that each read back, whatever follows them, read back together
      from the `i`-th on. */
  lemma {:induction false} ManyAtomsFrom(rows: seq<string>, ls: seq<AtomLine>, i: nat)
    requires |rows| == |ls| && i <= |rows|
    requires forall k: nat, rest: string | k < |rows| :: ReadAtomXyz(rows[k] + ("\n" + rest)) == Parsed(ls[k], rest)
    ensures ManyAtoms(Terminate(rows[i..], "\n")) == (ls[i..], [])
    decreases |rows| - i
  {
    if i == |rows| {
      assert rows[i..] == [] && ls[i..] == [];
      ManyAtomsEnd();
    } else {
      assert ls[i..] == [ls[i]] + ls[i + 1..];
      assert rows[i..] == [rows[i]] + rows[i + 1..];
      var tail := Terminate(rows[i + 1..], "\n");
      assert rows[i] + "\n" + tail == rows[i] + ("\n" + tail);
      TerminateCons(rows[i], rows[i + 1..], "\n");
      ManyAtomsFrom(rows, ls, i + 1);
      ManyAtomsStep(rows[i] + ("\n" + tail), ls[i], tail, ls[i + 1..]);
    }
  }

  lemma WrittenRowsRead(mol: Molecule)
    requires RowsFit(mol)
    ensures ManyAtoms(Terminate(WrittenRows(mol), "\n")) == (WrittenLines(mol), [])
  {
    forall k: nat, rest: string | k < |WrittenRows(mol)|
      ensures ReadAtomXyz(WrittenRows(mol)[k] + ("\n" + rest)) == Parsed(WrittenLines(mol)[k], rest)
    {
      WrittenRowReads(mol, k, rest);
    }
    ManyAtomsFrom(WrittenRows(mol), WrittenLines(mol), 0);
    assert WrittenRows(mol)[0..] == WrittenRows(mol);
    assert WrittenLines(mol)[0..] == WrittenLines(mol);
  }

  // `build_mol` on what was written.

  lemma {:induction false} KeptAtomsAppendDummies(ls: seq<AtomLine>, tv: seq<AtomLine>, core: Core)
    requires forall k | 0 <= k < |tv| :: !core.isElement(tv[k].symbol)
    ensures KeptAtoms(ls + tv, core) == KeptAtoms(ls, core)
    decreases |tv|
  {
    if tv == [] {
      assert ls + tv == ls;
    } else {
      var init := tv[..|tv| - 1];
      assert (ls + tv)[..|ls + tv| - 1] == ls + init;
      assert (ls + tv)[|ls + tv| - 1] == tv[|tv| - 1];
      KeptAtomsAppendDummies(ls, init, core);
    }
  }

  lemma {:induction false} KeptAtomsAllElements(ls: seq<AtomLine>, core: Core)
    requires forall k | 0 <= k < |ls| :: core.isElement(ls[k].symbol)
    ensures |KeptAtoms(ls, core)| == |ls|
    ensures forall k | 0 <= k < |ls| :: KeptAtoms(ls, core)[k] == ToAtom(ls[k], core)
    ensures TvVectors(ls, core) == []
    decreases |ls|
  {
    if ls != [] {
      var init, l := ls[..|ls| - 1], ls[|ls| - 1];
      assert core.isElement(l.symbol);
      assert forall k | 0 <= k < |init| :: core.isElement(init[k].symbol) by {
        assert forall k | 0 <= k < |init| :: init[k] == ls[k];
      }
      KeptAtomsAllElements(init, core);
      KeptElementLast(ls, init, l, core);
      KeptSnoc(ls, init, l, KeptAtoms(init, core), KeptAtoms(ls, core), core);
    }
  }

  /** A last line naming an element is kept and is no `TV` line. */
  lemma KeptElementLast(ls: seq<AtomLine>, init: seq<AtomLine>, l: AtomLine, core: Core)
    requires ls != [] && init == ls[..|ls| - 1] && l == ls[|ls| - 1]
    requires core.isElement(l.symbol)
    ensures ls == init + [l]
    ensures KeptAtoms(ls, core) == KeptAtoms(init, core) + [ToAtom(l, core)]
    ensures TvVectors(ls, core) == TvVectors(init, core)
  {
  }

  /** One more element line kept after the ones before it. */
  lemma KeptSnoc(ls: seq<AtomLine>, init: seq<AtomLine>, l: AtomLine, before: seq<Atom>, kept: seq<Atom>, core: Core)
    requires ls == init + [l]
    requires |before| == |init| && forall k | 0 <= k < |init| :: before[k] == ToAtom(init[k], core)
    requires kept == before + [ToAtom(l, core)]
    ensures |kept| == |ls| && forall k | 0 <= k < |ls| :: kept[k] == ToAtom(ls[k], core)
  {
    forall k | 0 <= k < |ls|
      ensures kept[k] == ToAtom(ls[k], core)
    {
      if k < |init| {
        calc {
          kept[k];
          before[k];
          ToAtom(init[k], core);
          ToAtom(ls[k], core);
        }
      } else {
        assert kept[k] == ToAtom(l, core) && ls[k] == l;
      }
    }
  }

  lemma {:induction false} TvVectorsAppend(ls: seq<AtomLine>, tv: seq<AtomLine>, core: Core)
    ensures TvVectors(ls + tv, core) == TvVectors(ls, core) + TvVectors(tv, core)
    decreases |tv|
  {
    if tv == [] {
      assert ls + tv == ls;
    } else {
      var init := tv[..|tv| - 1];
      assert (ls + tv)[..|ls + tv| - 1] == ls + init;
      assert (ls + tv)[|ls + tv| - 1] == tv[|tv| - 1];
      TvVectorsAppend(ls, init, core);
    }
  }

  lemma TvLinesVectors(lattice: Option<Lattice>, core: Core)
    requires !core.isElement("TV")
    ensures TvLattice(TvVectors(TvLines(lattice), core)) == lattice
    ensures forall k | 0 <= k < |TvLines(lattice)| :: !core.isElement(TvLines(lattice)[k].symbol)
  {
    if lattice.Some? {
      var lat := lattice.value;
      var t := TvLines(lattice);
      assert t[..1][..0] == [] && t[..2][..1] == t[..1] && t[..3] == t;
      assert TvVectors(t[..1], core) == [lat.va];
      assert TvVectors(t[..2], core) == [lat.va, lat.vb];
      assert TvVectors(t, core) == [lat.va, lat.vb, lat.vc];
    }
  }

  /** The velocity an atom reads back with: its own when velocities were
      written, rest otherwise. */
  function ReadBackVelocity(a: Atom, withVelocity: bool): Vec3 {
    if withVelocity then a.velocity else Origin
  }

  lemma ToAtomOfWritten(a: Atom, withVelocity: bool, core: Core)
    requires AtomFits(a, withVelocity) && IsStandard(a.symbol, core)
    ensures ToAtom(AtomLine(a.symbol, a.position, VelocityColumns(a, withVelocity)), core).symbol == a.symbol
    ensures ToAtom(AtomLine(a.symbol, a.position, VelocityColumns(a, withVelocity)), core).position == a.position
    ensures ToAtom(AtomLine(a.symbol, a.position, VelocityColumns(a, withVelocity)), core).velocity == ReadBackVelocity(a, withVelocity)
  {
    VelocityTail(a, withVelocity);
    if !withVelocity {
      assert Trim([]) == [];
    }
  }

  /** Atom `b` is atom `a` read back: same symbol and position, and the
      velocity if it was written. */
  predicate SameAtom(b: Atom, a: Atom, withVelocity: bool) {
    b.symbol == a.symbol && b.position == a.position && b.velocity == ReadBackVelocity(a, withVelocity)
  }

  /** `build_mol` keeps exactly the written atom lines. */
  lemma KeptWrittenLines(mol: Molecule, core: Core)
    requires ElementsOnly(mol, core)
    ensures |KeptAtoms(WrittenLines(mol), core)| == NAtoms(mol)
    ensures forall k | 0 <= k < NAtoms(mol) :: KeptAtoms(WrittenLines(mol), core)[k] == ToAtom(AtomLines(mol.sites, WritesVelocity(mol))[k], core)
  {
    var atomLines := AtomLines(mol.sites, WritesVelocity(mol));
    TvLinesVectors(mol.lattice, core);
    KeptAtomsAppendDummies(atomLines, TvLines(mol.lattice), core);
    KeptAtomsAllElements(atomLines, core);
  }

  lemma ReadBackAtoms(sites: seq<Site>, withVelocity: bool, core: Core)
    requires forall k | 0 <= k < |sites| :: AtomFits(sites[k].atom, withVelocity) && IsStandard(sites[k].atom.symbol, core)
    ensures forall k | 0 <= k < |sites| :: SameAtom(ToAtom(AtomLines(sites, withVelocity)[k], core), sites[k].atom, withVelocity)
  {
    forall k | 0 <= k < |sites|
      ensures SameAtom(ToAtom(AtomLines(sites, withVelocity)[k], core), sites[k].atom, withVelocity)
    {
      ToAtomOfWritten(sites[k].atom, withVelocity, core);
    }
  }

  lemma KeptWrittenAtoms(mol: Molecule, core: Core)
    requires Writable(mol, core)
    ensures |KeptAtoms(WrittenLines(mol), core)| == NAtoms(mol)
    ensures forall k | 0 <= k < NAtoms(mol) :: SameAtom(KeptAtoms(WrittenLines(mol), core)[k], mol.sites[k].atom, WritesVelocity(mol))
  {
    KeptWrittenLines(mol, core);
    ReadBackAtoms(mol.sites, WritesVelocity(mol), core);
  }

  lemma WrittenLattice(mol: Molecule, core: Core)
    requires ElementsOnly(mol, core)
    ensures TvLattice(TvVectors(WrittenLines(mol), core)) == mol.lattice
  {
    var atomLines := AtomLines(mol.sites, WritesVelocity(mol));
    TvLinesVectors(mol.lattice, core);
    KeptAtomsAllElements(atomLines, core);
    TvVectorsAppend(atomLines, TvLines(mol.lattice), core);
  }

  /** The molecule `build_mol` makes of the written lines. */
  lemma BuildWritten(mol: Molecule, core: Core)
    requires Writable(mol, core)
    ensures NAtoms(MolFromLines(WrittenLines(mol), core)) == NAtoms(mol)
    ensures MolFromLines(WrittenLines(mol), core).lattice == mol.lattice
    ensures forall k | 0 <= k < NAtoms(mol) ::
      MolFromLines(WrittenLines(mol), core).sites[k].sn == k + 1
      && SameAtom(MolFromLines(WrittenLines(mol), core).sites[k].atom, mol.sites[k].atom, WritesVelocity(mol))
  {
    KeptWrittenAtoms(mol, core);
    WrittenLattice(mol, core);
  }

  /** The text up to the atom lines reads as the count and the title. */
  lemma HeaderReads(n: nat, title: string, body: string)
    requires '\n' !in title
    ensures ReadUsize(ShowNat(n) + ("\n" + (title + ("\n" + body)))) == Parsed(n, title + ("\n" + body))
    ensures ReadLine(title + ("\n" + body)) == Parsed(title, body)
  {
    ReadUsizeOf(n, title + ("\n" + body));
    ReadLineOf(title, body);
  }

  /** The written atom and lattice rows read back as their atom lines. */
  lemma BodyReads(mol: Molecule)
    requires RowsFit(mol) && |mol.sites| > 0
    ensures ReadAtomsPxyz(Terminate(WrittenRows(mol), "\n")) == Parsed(WrittenLines(mol), [])
  {
    WrittenRowsRead(mol);
    assert |WrittenLines(mol)| >= |mol.sites| > 0;
  }

  lemma ReadWritten(mol: Molecule)
    requires '\n' !in mol.title && RowsFit(mol) && |mol.sites| > 0
    ensures ReadAtomsXyz(XyzText(mol)) == Parsed((Trim(mol.title), WrittenLines(mol)), [])
  {
    var body := Terminate(WrittenRows(mol), "\n");
    assert XyzText(mol) == ShowNat(StatedCount(mol)) + ("\n" + (mol.title + ("\n" + body)));
    HeaderReads(StatedCount(mol), mol.title, body);
    BodyReads(mol);
  }

  /** Formatting a molecule as XYZ and parsing the text gives back the atom
      count, every symbol, position and written velocity in order, the trimmed
      title and the lattice; atoms are numbered from 1. */
  lemma XyzFormatParse(mol: Molecule, core: Core)
    requires Writable(mol, core)
    ensures ParseMolecule(XyzText(mol), false, core).Ok?
    ensures var m := ParseMolecule(XyzText(mol), false, core).value;
      NAtoms(m) == NAtoms(mol) && m.title == Trim(mol.title) && m.lattice == mol.lattice
      && forall k | 0 <= k < NAtoms(mol) :: m.sites[k].sn == k + 1 && SameAtom(m.sites[k].atom, mol.sites[k].atom, WritesVelocity(mol))
  {
    ReadWritten(mol);
    BuildWritten(mol, core);
    assert ParseMolecule(XyzText(mol), false, core) == Ok(MolFromLines(WrittenLines(mol), core).(title := Trim(mol.title)));
  }

  /** The stated atom count never changes what is read. */
  lemma StatedCountIgnored(n1: nat, n2: nat, rest: string)
    ensures ReadAtomsXyz(ShowNat(n1) + ("\n" + rest)) == ReadAtomsXyz(ShowNat(n2) + ("\n" + rest))
  {
    ReadUsizeOf(n1, rest);
    ReadUsizeOf(n2, rest);
  }
}
