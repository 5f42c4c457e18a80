/** The VASP POSCAR format (`vasp/input`): title, scale factor, cell vectors,
    element names and counts, the optional selective-dynamics line, the
    Direct/Cartesian line, then one position line per atom. */
module Vasp {
  import opened Wrappers
  import opened Text
  import opened Numerals
  import opened Nom
  import opened Chem
  import opened Paths

  // Reading.

  /** `space0 >> xyz_array >> eol`: one cell vector. */
  function VectorLine(s: string): (r: Parsed<Vec3>)
    ensures r.Parsed? ==> |r.rest| < |s|
  {
    match XyzArray(Space0(s))
    case NoParse => NoParse
    case Parsed(v, r1) =>
      match Eol(r1)
      case NoParse => NoParse
      case Parsed(_, r2) => Parsed(v, r2)
  }

  /** `poscar_cell_vectors`: the vectors a, b and c, one per line. */
  function CellVectors(s: string): Parsed<Lattice> {
    match VectorLine(s)
    case NoParse => NoParse
    case Parsed(va, r1) =>
      match VectorLine(r1)
      case NoParse => NoParse
      case Parsed(vb, r2) =>
        match VectorLine(r2)
        case NoParse => NoParse
        case Parsed(vc, r3) => Parsed(Lattice(va, vb, vc), r3)
  }

  /** The rest of `separated_list0(space1, alpha1)` after its first item. */
  function MoreNames(s: string): (r: (seq<string>, string))
    ensures |r.1| <= |s|
    decreases |s|
  {
    match Space1(s)
    case NoParse => ([], s)
    case Parsed(_, r1) =>
      match Alpha1(r1)
      case NoParse => ([], s)
      case Parsed(w, r2) =>
        var more := MoreNames(r2);
        ([w] + more.0, more.1)
  }

  /** `separated_list0(space1, alpha1)`: element names separated by blanks
      (possibly none). */
  function Names(s: string): (seq<string>, string) {
    match Alpha1(s)
    case NoParse => ([], s)
    case Parsed(w, r) =>
      var more := MoreNames(r);
      ([w] + more.0, more.1)
  }

  /** The rest of `separated_list0(space1, unsigned_digit)`. */
  function MoreCounts(s: string): (r: (seq<nat>, string))
    ensures |r.1| <= |s|
    decreases |s|
  {
    match Space1(s)
    case NoParse => ([], s)
    case Parsed(_, r1) =>
      match UnsignedDigit(r1)
      case NoParse => ([], s)
      case Parsed(n, r2) =>
        var more := MoreCounts(r2);
        ([n] + more.0, more.1)
  }

  /** `separated_list0(space1, unsigned_digit)`: atom counts. */
  function Counts(s: string): (seq<nat>, string) {
    match UnsignedDigit(s)
    case NoParse => ([], s)
    case Parsed(n, r) =>
      var more := MoreCounts(r);
      ([n] + more.0, more.1)
  }

  /** `poscar_ion_types`: the element line and the count line. */
  function IonTypes(s: string): Parsed<(seq<string>, seq<nat>)> {
    var names := Names(Space0(s));
    match Eol(names.1)
    case NoParse => NoParse
    case Parsed(_, r1) =>
      var counts := Counts(Space0(r1));
      match Eol(counts.1)
      case NoParse => NoParse
      case Parsed(_, r2) => Parsed((names.0, counts.0), r2)
  }

  /** `one_of("TF")`. */
  function TfFlag(s: string): Parsed<char> {
    if s != [] && (s[0] == 'T' || s[0] == 'F') then Parsed(s[0], s[1..]) else NoParse
  }

  /** `one_of("TF") >> space1`: a flag and the blanks after it. */
  function FlagThenBlank(s: string): (r: Parsed<char>)
    ensures r.Parsed? ==> |r.rest| < |s|
  {
    match TfFlag(s)
    case NoParse => NoParse
    case Parsed(x, r1) =>
      match Space1(r1)
      case NoParse => NoParse
      case Parsed(_, r2) => Parsed(x, r2)
  }

  /** `selective_dynamics_flags`: three `T`/`F` letters separated by blanks;
      `T` (may move) is `true`. */
  function SelectiveFlags(s: string): (r: Parsed<Flags3>)
    ensures r.Parsed? ==> |r.rest| < |s|
  {
    match FlagThenBlank(s)
    case NoParse => NoParse
    case Parsed(x, r1) =>
      match FlagThenBlank(r1)
      case NoParse => NoParse
      case Parsed(y, r2) =>
        match TfFlag(r2)
        case NoParse => NoParse
        case Parsed(z, r3) => Parsed(Flags3(x == 'T', y == 'T', z == 'T'), r3)
  }

  /** `selective_dynamics`: a line starting with `S` or `s`. */
  function SelectiveLine(s: string): Parsed<string> {
    match TagNoCase("S", s)
    case NoParse => NoParse
    case Parsed(x, r) => Parsed(x, ReadLine(r).rest)
  }

  /** `direct_or_catersian`: a line starting with `D`, `d`, `C` or `c`; the
      value is that first letter. */
  function DirectLine(s: string): Parsed<string> {
    var d := TagNoCase("D", s);
    var t := if d.Parsed? then d else TagNoCase("C", s);
    match t
    case NoParse => NoParse
    case Parsed(x, r) => Parsed(x, ReadLine(r).rest)
  }

  /** `poscar_select_direct`: (selective dynamics, direct coordinates). */
  function SelectDirect(s: string): (r: Parsed<(bool, bool)>)
    ensures r.Parsed? ==> r.value.0 == SelectiveLine(s).Parsed?
  {
    var sel := SelectiveLine(s);
    var r1 := if sel.Parsed? then sel.rest else s;
    match DirectLine(r1)
    case NoParse => NoParse
    case Parsed(d, r2) => Parsed((sel.Parsed?, Lower(d) == "d"), r2)
  }

  /** A position line as read: coordinates and the optional flags. */
  datatype PositionLine = PositionLine(position: Vec3, flags: Option<Flags3>)

  /** `poscar_position`: blanks, three numbers, blanks, optional flags, and
      the rest of the line. */
  function Position(s: string): (r: Parsed<PositionLine>)
    ensures r.Parsed? ==> |r.rest| < |s|
  {
    match XyzArray(Space0(s))
    case NoParse => NoParse
    case Parsed(p, r1) =>
      var r2 := Space0(r1);
      var f := SelectiveFlags(r2);
      var r3 := if f.Parsed? then f.rest else r2;
      Parsed(PositionLine(p, if f.Parsed? then Some(f.value) else None), ReadLine(r3).rest)
  }

  /** `many0(poscar_position)`. */
  function Positions(s: string): (seq<PositionLine>, string)
    decreases |s|
  {
    match Position(s)
    case NoParse => ([], s)
    case Parsed(p, r) =>
      var more := Positions(r);
      ([p] + more.0, more.1)
  }

  // Assembling the molecule.

  /** An element name repeated `n` times. */
  function Repeat(sym: string, n: nat): (r: seq<string>)
    ensures |r| == n && forall k | 0 <= k < n :: r[k] == sym
  {
    seq(n, _ => sym)
  }

  /** Element names and counts paired up to the shorter of the two lines. */
  function Zip(syms: seq<string>, nums: seq<nat>): (runs: seq<(string, nat)>)
    ensures |runs| == if |syms| < |nums| then |syms| else |nums|
    ensures forall k | 0 <= k < |runs| :: runs[k] == (syms[k], nums[k])
  {
    var n := if |syms| < |nums| then |syms| else |nums|;
    seq(n, k requires 0 <= k < n => (syms[k], nums[k]))
  }

  /** Each name repeated its count, run after run. */
  function Expand(runs: seq<(string, nat)>): seq<string> {
    if runs == [] then [] else Expand(runs[..|runs| - 1]) + Repeat(runs[|runs| - 1].0, runs[|runs| - 1].1)
  }

  /** The symbol-expansion loop of `parse_poscar_molecule`. */
  method ExpandSymbols(syms: seq<string>, nums: seq<nat>) returns (symbols: seq<string>)
    ensures symbols == Expand(Zip(syms, nums))
  {
    var runs := Zip(syms, nums);
    symbols := [];
    var i := 0;
    while i < |runs|
      invariant 0 <= i <= |runs|
      invariant symbols == Expand(runs[..i])
    {
      var j := 0;
      while j < nums[i]
        invariant 0 <= j <= nums[i]
        invariant symbols == Expand(runs[..i]) + Repeat(syms[i], j)
      {
        assert Repeat(syms[i], j + 1) == Repeat(syms[i], j) + [syms[i]];
        symbols := symbols + [syms[i]];
        j := j + 1;
      }
      assert runs[..i + 1][..i] == runs[..i];
      i := i + 1;
    }
    assert runs[..i] == runs;
  }

  /** Selective-dynamics flags say which axes may move; the freezing mask
      says which may not. */
  function Freeze(flags: Flags3): Flags3 {
    Flags3(!flags.x, !flags.y, !flags.z)
  }

  /** Freezing and mobility flags determine each other. */
  lemma FreezeInverse(flags: Flags3)
    ensures Freeze(Freeze(flags)) == flags
  {
  }

  /** One atom: direct coordinates are converted through the scaled cell;
      under selective dynamics the flags of its line set its freezing. */
  function PoscarAtom(sym: string, line: PositionLine, selective: bool, direct: bool, lat: Lattice, core: Core): (a: Atom)
    ensures a.symbol == core.standardSymbol(sym) && a.velocity == Origin && a.name.None?
    ensures a.position == if direct then core.toCart(lat, line.position) else line.position
    ensures a.freezing == if selective && line.flags.Some? then Freeze(line.flags.value) else AllFree
  {
    var pos := if direct then core.toCart(lat, line.position) else line.position;
    var a := NewAtom(sym, pos, core);
    if selective && line.flags.Some? then a.(freezing := Freeze(line.flags.value)) else a
  }

  /** The atoms of a POSCAR record: symbols and position lines paired up to
      the shorter list (a length mismatch is only logged). */
  function PoscarAtoms(symbols: seq<string>, lines: seq<PositionLine>, selective: bool, direct: bool,
                       lat: Lattice, core: Core): (atoms: seq<Atom>)
    ensures |atoms| == if |symbols| < |lines| then |symbols| else |lines|
    ensures forall k | 0 <= k < |atoms| :: atoms[k] == PoscarAtom(symbols[k], lines[k], selective, direct, lat, core)
  {
    var n := if |symbols| < |lines| then |symbols| else |lines|;
    seq(n, k requires 0 <= k < n => PoscarAtom(symbols[k], lines[k], selective, direct, lat, core))
  }

  /** The header fields of a POSCAR record. */
  datatype Header = Header(title: string, scale: Numeral, cell: Lattice, syms: seq<string>, nums: seq<nat>,
                           selective: bool, direct: bool)

  /** The molecule of a POSCAR record: trimmed title, the cell scaled by the
      scale factor, atoms numbered from 1. */
  function PoscarMolecule(h: Header, lines: seq<PositionLine>, core: Core): (mol: Molecule)
    ensures mol.title == Trim(h.title) && mol.bonds == []
    ensures mol.lattice == Some(core.scaleBy(h.cell, h.scale))
    ensures Numbered(mol.sites)
    ensures AtomsOf(mol.sites) == PoscarAtoms(Expand(Zip(h.syms, h.nums)), lines, h.selective, h.direct,
      core.scaleBy(h.cell, h.scale), core)
  {
    var lat := core.scaleBy(h.cell, h.scale);
    var atoms := PoscarAtoms(Expand(Zip(h.syms, h.nums)), lines, h.selective, h.direct, lat, core);
    Molecule(Trim(h.title), NumberFrom(1, atoms), [], Some(lat))
  }

  /** The header of `parse_poscar_molecule`, up to the position lines. */
  function ReadHeader(s: string): Parsed<Header> {
    var title := ReadLine(s);
    match ReadDouble(title.rest)
    case NoParse => NoParse
    case Parsed(scale, r1) =>
      match CellVectors(r1)
      case NoParse => NoParse
      case Parsed(cell, r2) =>
        match IonTypes(r2)
        case NoParse => NoParse
        case Parsed(types, r3) =>
          match SelectDirect(r3)
          case NoParse => NoParse
          case Parsed(sd, r4) => Parsed(Header(title.value, scale, cell, types.0, types.1, sd.0, sd.1), r4)
  }

  /** `parse_poscar_molecule` and `PoscarFile::parse_molecule`: at least one
      position line is needed. */
  function ParseText(s: string, core: Core): (r: Result<Molecule>)
    ensures r.Ok? <==> ReadHeader(s).Parsed? && Positions(ReadHeader(s).rest).0 != []
  {
    match ReadHeader(s)
    case NoParse => Err("parse POSCAR format failure")
    case Parsed(h, r) =>
      var lines := Positions(r).0;
      if lines == [] then Err("parse POSCAR format failure")
      else Ok(PoscarMolecule(h, lines, core))
  }

  /** The atom loop of `parse_poscar_molecule`: `add_atom(i + 1, atom)` on a
      molecule holding atoms 1..i. */
  method AddAtoms(mol0: Molecule, atoms: seq<Atom>) returns (mol: Molecule)
    requires mol0.sites == []
    ensures mol == mol0.(sites := NumberFrom(1, atoms))
  {
    mol := mol0;
    var i := 0;
    while i < |atoms|
      invariant 0 <= i <= |atoms|
      invariant mol == mol0.(sites := NumberFrom(1, atoms[..i]))
    {
      PutSiteNumbered(mol.sites, Site(i + 1, atoms[i]), 1);
      mol := mol.(sites := PutSite(mol.sites, Site(i + 1, atoms[i])));
      assert mol.sites == NumberFrom(1, atoms[..i + 1]);
      i := i + 1;
    }
    assert atoms[..i] == atoms;
  }

  /** `PoscarFile::parse_molecule`, expanding the symbols and adding the atoms
      with loops. */
  method ParseMolecule(s: string, core: Core) returns (r: Result<Molecule>)
    ensures r == ParseText(s, core)
  {
    var header := ReadHeader(s);
    if header.NoParse? {
      return Err("parse POSCAR format failure");
    }
    var h := header.value;
    var lines := Positions(header.rest).0;
    if lines == [] {
      return Err("parse POSCAR format failure");
    }
    var lat := core.scaleBy(h.cell, h.scale);
    var symbols := ExpandSymbols(h.syms, h.nums);
    var atoms := PoscarAtoms(symbols, lines, h.selective, h.direct, lat, core);
    var mol := AddAtoms(Molecule(Trim(h.title), [], [], None), atoms);
    mol := mol.(lattice := Some(lat));
    r := Ok(mol);
  }

  // Element runs.

  /** Every count is positive and neighbouring runs name different elements. */
  predicate IsRuns(runs: seq<(string, nat)>) {
    (forall k | 0 <= k < |runs| :: runs[k].1 >= 1) &&
    (forall k | 0 < k < |runs| :: NewRunAt(runs, k))
  }

  /** Run `k` names another element than the run before it. */
  predicate NewRunAt(runs: seq<(string, nat)>, k: nat)
    requires 0 < k < |runs|
  {
    runs[k - 1].0 != runs[k].0
  }

  /** One more symbol: it lengthens the last run or starts a new one. */
  function PushRun(runs: seq<(string, nat)>, x: string): (r: seq<(string, nat)>)
    ensures r != [] && r[|r| - 1].0 == x
  {
    if runs != [] && runs[|runs| - 1].0 == x then runs[..|runs| - 1] + [(x, runs[|runs| - 1].1 + 1)]
    else runs + [(x, 1)]
  }

  /** The run-length encoding of a symbol list. */
  function Rle(symbols: seq<string>): seq<(string, nat)> {
    if symbols == [] then [] else PushRun(Rle(symbols[..|symbols| - 1]), symbols[|symbols| - 1])
  }

  lemma RleSnoc(s: seq<string>, x: string)
    ensures Rle(s + [x]) == PushRun(Rle(s), x)
  {
    assert (s + [x])[..|s|] == s;
  }

  lemma RepeatSnoc(sym: string, n: nat)
    ensures Repeat(sym, n + 1) == Repeat(sym, n) + [sym]
  {
  }

  lemma ExpandSnoc(runs: seq<(string, nat)>, r: (string, nat))
    ensures Expand(runs + [r]) == Expand(runs) + Repeat(r.0, r.1)
  {
    assert (runs + [r])[..|runs|] == runs;
  }

  /** Pushing a symbol keeps proper runs and appends it to their expansion. */
  lemma PushRunSound(runs: seq<(string, nat)>, x: string)
    requires IsRuns(runs)
    ensures IsRuns(PushRun(runs, x))
    ensures Expand(PushRun(runs, x)) == Expand(runs) + [x]
  {
    var r := PushRun(runs, x);
    if runs != [] && runs[|runs| - 1].0 == x {
      var last := runs[|runs| - 1];
      var front := runs[..|runs| - 1];
      assert runs == front + [last];
      ExpandSnoc(front, last);
      ExpandSnoc(front, (x, last.1 + 1));
      RepeatSnoc(x, last.1);
      forall k | 0 < k < |r|
        ensures NewRunAt(r, k)
      {
        assert NewRunAt(runs, k);
      }
    } else {
      ExpandSnoc(runs, (x, 1));
      assert Repeat(x, 1) == [x];
      forall k | 0 < k < |r|
        ensures NewRunAt(r, k)
      {
        if k < |runs| {
          assert NewRunAt(runs, k);
        }
      }
    }
  }

  /** `count_symbols` describes its input: the runs expand back to it, and
      they are proper runs. */
  lemma {:induction false} RleSound(symbols: seq<string>)
    ensures Expand(Rle(symbols)) == symbols
    ensures IsRuns(Rle(symbols))
    decreases |symbols|
  {
    if symbols != [] {
      var init := symbols[..|symbols| - 1];
      var x := symbols[|symbols| - 1];
      RleSound(init);
      PushRunSound(Rle(init), x);
      assert symbols == init + [x];
      RleSnoc(init, x);
    }
  }

  /** One more run of a different element extends the encoding by that run. */
  lemma {:induction false} RleAppendRun(e: seq<string>, x: string, n: nat)
    requires n >= 1
    requires Rle(e) == [] || Rle(e)[|Rle(e)| - 1].0 != x
    ensures Rle(e + Repeat(x, n)) == Rle(e) + [(x, n)]
    decreases n
  {
    RepeatSnoc(x, n - 1);
    var e' := e + Repeat(x, n - 1);
    assert e + Repeat(x, n) == e' + [x];
    RleSnoc(e', x);
    if n > 1 {
      RleAppendRun(e, x, n - 1);
      PushRunOnto(Rle(e), x, n - 1);
    } else {
      assert e' == e;
    }
  }

  lemma PushRunOnto(runs: seq<(string, nat)>, x: string, c: nat)
    ensures PushRun(runs + [(x, c)], x) == runs + [(x, c + 1)]
  {
    assert (runs + [(x, c)])[..|runs|] == runs;
  }

  /** ... and it is the only encoding with those properties. */
  lemma {:induction false} RleUnique(runs: seq<(string, nat)>)
    requires IsRuns(runs)
    ensures Rle(Expand(runs)) == runs
    decreases |runs|
  {
    if runs != [] {
      var front := runs[..|runs| - 1];
      var last := runs[|runs| - 1];
      forall k | 0 < k < |front|
        ensures NewRunAt(front, k)
      {
        assert NewRunAt(runs, k);
      }
      RleUnique(front);
      if front != [] {
        assert NewRunAt(runs, |runs| - 1);
      }
      RleAppendRun(Expand(front), last.0, last.1);
      assert front + [last] == runs;
      ExpandSnoc(front, last);
    }
  }

  /** `count_symbols`: the runs of equal neighbouring symbols; the source
      indexes the first symbol, so it needs at least one. */
  method CountSymbols(symbols: seq<string>) returns (counts: seq<(string, nat)>)
    requires |symbols| > 0
    ensures counts == Rle(symbols)
  {
    counts := [];
    var c := 1;
    var s := symbols[0];
    var i := 0;
    assert symbols[..1] == [] + [s];
    while i + 1 < |symbols|
      invariant 0 <= i < |symbols|
      invariant s == symbols[i]
      invariant Rle(symbols[..i + 1]) == counts + [(s, c)]
    {
      var sym1, sym2 := symbols[i], symbols[i + 1];
      assert symbols[..i + 2] == symbols[..i + 1] + [sym2];
      RleSnoc(symbols[..i + 1], sym2);
      if sym2 == sym1 {
        c := c + 1;
      } else {
        counts := counts + [(sym1, c)];
        c := 1;
      }
      s := sym2;
      i := i + 1;
    }
    assert symbols[..i + 1] == symbols;
    counts := counts + [(s, c)];
  }

  // Writing.

  /** `{:12.8}{:12.8}{:12.8}`: one cell vector. */
  function VectorRow(v: Vec3): string {
    PadLeft(v.x, 12) + PadLeft(v.y, 12) + PadLeft(v.z, 12)
  }

  /** ` {:^4}` per run: the element line and the count line. */
  function NamesRow(runs: seq<(string, nat)>): string {
    if runs == [] then [] else NamesRow(runs[..|runs| - 1]) + (" " + Center(runs[|runs| - 1].0, 4))
  }

  function CountsRow(runs: seq<(string, nat)>): string {
    if runs == [] then [] else CountsRow(runs[..|runs| - 1]) + (" " + Center(ShowNat(runs[|runs| - 1].1), 4))
  }

  /** The loop over `count_symbols` that builds the two lines. */
  method RunRows(runs: seq<(string, nat)>) returns (line1: string, line2: string)
    ensures line1 == NamesRow(runs) && line2 == CountsRow(runs)
  {
    line1, line2 := [], [];
    var i := 0;
    while i < |runs|
      invariant 0 <= i <= |runs|
      invariant line1 == NamesRow(runs[..i]) && line2 == CountsRow(runs[..i])
    {
      assert runs[..i + 1][..i] == runs[..i];
      line1 := line1 + (" " + Center(runs[i].0, 4));
      line2 := line2 + (" " + Center(ShowNat(runs[i].1), 4));
      i := i + 1;
    }
    assert runs[..i] == runs;
  }

  /** `F` for a frozen axis, `T` for a free one. */
  function FlagChar(frozen: bool): char {
    if frozen then 'F' else 'T'
  }

  function FlagText(f: Flags3): string {
    [FlagChar(f.x)] + (" " + ([FlagChar(f.y)] + (" " + [FlagChar(f.z)])))
  }

  /** `{x:18.12} {y:18.12} {z:18.12} {fx} {fy} {fz}`: fractional coordinates
      and the freezing flags. */
  function PositionRow(p: Vec3, freezing: Flags3): string {
    PadLeft(p.x, 18) + (" " + (PadLeft(p.y, 18) + (" " + (PadLeft(p.z, 18) + (" " + FlagText(freezing))))))
  }

  function PositionRows(sites: seq<Site>, lat: Lattice, core: Core): (rows: seq<string>)
    ensures |rows| == |sites|
    ensures forall k | 0 <= k < |sites| ::
      rows[k] == PositionRow(core.toFrac(lat, sites[k].atom.position), sites[k].atom.freezing)
  {
    seq(|sites|, k requires 0 <= k < |sites| =>
      PositionRow(core.toFrac(lat, sites[k].atom.position), sites[k].atom.freezing))
  }

  /** `{:18.12} {:18.12} {:18.12}`: one velocity. */
  function VelocityRow(v: Vec3): string {
    PadLeft(v.x, 18) + " " + PadLeft(v.y, 18) + " " + PadLeft(v.z, 18)
  }

  /** Velocities are written when some component of some atom is not zero. */
  predicate MovingAtoms(sites: seq<Site>) {
    exists k | 0 <= k < |sites| :: var v := sites[k].atom.velocity; !IsZero(v.x) || !IsZero(v.y) || !IsZero(v.z)
  }

  function VelocityRows(sites: seq<Site>): (rows: seq<string>)
    ensures |rows| == |sites|
    ensures forall k | 0 <= k < |sites| :: rows[k] == VelocityRow(sites[k].atom.velocity)
  {
    seq(|sites|, k requires 0 <= k < |sites| => VelocityRow(sites[k].atom.velocity))
  }

  function Symbols(sites: seq<Site>): (syms: seq<string>)
    ensures |syms| == |sites|
    ensures forall k | 0 <= k < |sites| :: syms[k] == sites[k].atom.symbol
  {
    seq(|sites|, k requires 0 <= k < |sites| => sites[k].atom.symbol)
  }

  /** The lines before the atoms: title, scale 1.0, cell vectors, element
      and count lines, `Selective dynamics` and `Direct`. */
  function HeadRows(title: string, lat: Lattice, line1: string, line2: string): seq<string> {
    [title, "1.0", VectorRow(lat.va), VectorRow(lat.vb), VectorRow(lat.vc),
     line1, line2, "Selective dynamics", "Direct"]
  }

  /** A blank line and one velocity line per atom, when some atom moves. */
  function VelocityBlock(sites: seq<Site>): seq<string> {
    if MovingAtoms(sites) then [""] + VelocityRows(sites) else []
  }

  /** Every line `format_molecule` writes, in order; the last is blank. */
  function PoscarRows(mol: Molecule, lat: Lattice, core: Core): seq<string> {
    var runs := Rle(Symbols(mol.sites));
    HeadRows(mol.title, lat, NamesRow(runs), CountsRow(runs))
    + PositionRows(mol.sites, lat, core) + VelocityBlock(mol.sites) + [""]
  }

  /** The text `format_molecule` writes.  The source needs a lattice (it
      panics without one) and at least one atom (`count_symbols` panics on an
      empty list); both are errors here. */
  function PoscarText(mol: Molecule, core: Core): (r: Result<string>)
    ensures r.Ok? <==> mol.lattice.Some? && mol.sites != []
  {
    if mol.lattice.None? then Err("poscar lattice")
    else if mol.sites == [] then Err("no atoms")
    else Ok(Terminate(PoscarRows(mol, mol.lattice.value, core), "\n"))
  }

  /** `format_molecule`. */
  method FormatMolecule(mol: Molecule, core: Core) returns (r: Result<string>)
    ensures r == PoscarText(mol, core)
  {
    if mol.lattice.None? {
      return Err("poscar lattice");
    }
    if mol.sites == [] {
      return Err("no atoms");
    }
    var lat := mol.lattice.value;
    var runs := CountSymbols(Symbols(mol.sites));
    var line1, line2 := RunRows(runs);
    var rows := HeadRows(mol.title, lat, line1, line2) + PositionRows(mol.sites, lat, core);
    rows := rows + VelocityBlock(mol.sites);
    rows := rows + [""];
    var text := JoinLines(rows);
    r := Ok(text);
  }

  // Round trips.

  /** A written position line reads back as its coordinates and flags, and
      the flags give back the atom's freezing. */
  lemma PositionRowReads(p: Vec3, freezing: Flags3, rest: string)
    requires IsNumeral(p.x) && IsNumeral(p.y) && IsNumeral(p.z)
    ensures Position(PositionRow(p, freezing) + ("\n" + rest)) == Parsed(PositionLine(p, Some(Freeze(freezing))), rest)
  {
    var ft := FlagText(freezing);
    AppendAssoc(" ", ft, "\n" + rest);
    RowAppend(p, " " + ft, "\n" + rest);
    RowShape(p, " " + (ft + ("\n" + rest)));
    var tail := " " + (ft + ("\n" + rest));
    var body := p.x + ((" " + Spaces(Gap(p.y, 18))) + (p.y + ((" " + Spaces(Gap(p.z, 18))) + (p.z + tail))));
    FieldsRead(p, freezing, rest, PositionRow(p, freezing) + ("\n" + rest), body, tail);
  }

  /** Reading the fields of a position line. */
  lemma FieldsRead(p: Vec3, freezing: Flags3, rest: string, line: string, body: string, tail: string)
    requires IsNumeral(p.x) && IsNumeral(p.y) && IsNumeral(p.z)
    requires tail == " " + (FlagText(freezing) + ("\n" + rest))
    requires body == p.x + ((" " + Spaces(Gap(p.y, 18))) + (p.y + ((" " + Spaces(Gap(p.z, 18))) + (p.z + tail))))
    requires line == Spaces(Gap(p.x, 18)) + body
    ensures Position(line) == Parsed(PositionLine(p, Some(Freeze(freezing))), rest)
  {
    LeadRead(p.x, Gap(p.x, 18), body);
    XyzArrayOf(p, " " + Spaces(Gap(p.y, 18)), " " + Spaces(Gap(p.z, 18)), tail);
    TailRead(freezing, rest, tail);
    PositionOf(line, p, tail, Freeze(freezing), rest);
  }

  lemma LeadRead(x: Numeral, g: nat, body: string)
    requires IsNumeral(x) && x <= body
    ensures Space0(Spaces(g) + body) == body
  {
    NumeralNotWhite(x);
    assert body[0] == x[0];
    Space0Of(Spaces(g), body);
  }

  lemma TailRead(freezing: Flags3, rest: string, tail: string)
    requires tail == " " + (FlagText(freezing) + ("\n" + rest))
    ensures SelectiveFlags(Space0(tail)) == Parsed(Freeze(freezing), "\n" + rest)
  {
    var ft := FlagText(freezing);
    assert (ft + ("\n" + rest))[0] == ft[0];
    Space0Of(" ", ft + ("\n" + rest));
    FlagsRead(freezing, "\n" + rest);
  }

  /** `poscar_position` on a line whose numbers and flags have been read. */
  lemma PositionOf(s: string, p: Vec3, r1: string, f: Flags3, rest: string)
    requires XyzArray(Space0(s)) == Parsed(p, r1)
    requires SelectiveFlags(Space0(r1)) == Parsed(f, "\n" + rest)
    ensures Position(s) == Parsed(PositionLine(p, Some(f)), rest)
  {
    ReadLineOf([], rest);
    assert [] + ("\n" + rest) == "\n" + rest;
  }

  /** How a position line is laid out, right-nested. */
  lemma RowShape(p: Vec3, tail: string)
    ensures PadLeft(p.x, 18) + (" " + (PadLeft(p.y, 18) + (" " + (PadLeft(p.z, 18) + tail)))) ==
      Spaces(Gap(p.x, 18)) + (p.x + ((" " + Spaces(Gap(p.y, 18))) + (p.y + ((" " + Spaces(Gap(p.z, 18))) + (p.z + tail)))))
  {
    PadLeftGap(p.x, 18);
    PadLeftGap(p.y, 18);
    PadLeftGap(p.z, 18);
    var sx, sy, sz := Spaces(Gap(p.x, 18)), Spaces(Gap(p.y, 18)), Spaces(Gap(p.z, 18));
    AppendAssoc(sz, p.z, tail);
    AppendAssoc(" ", sz, p.z + tail);
    var rz := (" " + sz) + (p.z + tail);
    AppendAssoc(sy, p.y, rz);
    AppendAssoc(" ", sy, p.y + rz);
    var ry := (" " + sy) + (p.y + rz);
    AppendAssoc(sx, p.x, ry);
  }

  /** Text after a position line joins its last field. */
  lemma RowAppend(p: Vec3, t: string, rest: string)
    ensures PadLeft(p.x, 18) + (" " + (PadLeft(p.y, 18) + (" " + (PadLeft(p.z, 18) + t)))) + rest ==
      PadLeft(p.x, 18) + (" " + (PadLeft(p.y, 18) + (" " + (PadLeft(p.z, 18) + (t + rest)))))
  {
    AppendAssoc(PadLeft(p.z, 18), t, rest);
    var z := PadLeft(p.z, 18) + t;
    AppendAssoc(" ", z, rest);
    AppendAssoc(PadLeft(p.y, 18), " " + z, rest);
    var y := PadLeft(p.y, 18) + (" " + z);
    AppendAssoc(" ", y, rest);
    AppendAssoc(PadLeft(p.x, 18), " " + y, rest);
  }

  /** The flags written for a freezing mask read back as its negation. */
  lemma FlagsRead(f: Flags3, rest: string)
    ensures SelectiveFlags(FlagText(f) + rest) == Parsed(Freeze(f), rest)
  {
    var cz := [FlagChar(f.z)];
    var cy := [FlagChar(f.y)];
    AppendAssoc(" ", cz, rest);
    AppendAssoc(cy, " " + cz, rest);
    AppendAssoc(" ", cy + (" " + cz), rest);
    AppendAssoc([FlagChar(f.x)], " " + (cy + (" " + cz)), rest);
    FlagLettersRead(FlagChar(f.x), FlagChar(f.y), FlagChar(f.z), rest);
  }

  lemma FlagLettersRead(x: char, y: char, z: char, rest: string)
    requires x == 'T' || x == 'F'
    requires y == 'T' || y == 'F'
    requires z == 'T' || z == 'F'
    ensures SelectiveFlags([x] + (" " + ([y] + (" " + ([z] + rest))))) ==
      Parsed(Flags3(x == 'T', y == 'T', z == 'T'), rest)
  {
    FlagThenBlankOf(x, [y] + (" " + ([z] + rest)));
    FlagThenBlankOf(y, [z] + rest);
    TfFlagOf(z, rest);
  }

  lemma FlagThenBlankOf(c: char, rest: string)
    requires c == 'T' || c == 'F'
    requires rest != [] && !IsBlank(rest[0])
    ensures FlagThenBlank([c] + (" " + rest)) == Parsed(c, rest)
  {
    TfFlagOf(c, " " + rest);
    Take1Of(" ", rest, IsBlank);
  }

  lemma TfFlagOf(c: char, rest: string)
    requires c == 'T' || c == 'F'
    ensures TfFlag([c] + rest) == Parsed(c, rest)
  {
    assert ([c] + rest)[1..] == rest;
  }

  // File names.

  /** `PoscarFile::parsable`: the extension `poscar` or `vasp` in any case;
      without an extension, a file name starting with `CONTCAR` or `POSCAR`
      in any case. */
  predicate Parsable(path: string) {
    match Extension(path)
    case Some(e) => Lower(e) == "poscar" || Lower(e) == "vasp"
    case None =>
      match FileName(path)
      case Some(f) => "CONTCAR" <= Upper(f) || "POSCAR" <= Upper(f)
      case None => false
  }

  /** A file with an extension is judged by the extension alone: `POSCAR.1`
      is not a POSCAR file. */
  lemma ExtensionDecides(dir: string, stem: string, ext: string)
    requires stem != [] && ext != [] && '/' !in stem && '/' !in ext && '.' !in ext
    ensures Parsable(dir + "/" + (stem + "." + ext)) <==> Lower(ext) == "poscar" || Lower(ext) == "vasp"
  {
    ExtensionOf(dir, stem, ext);
  }

  /** A file name without a dot is judged by its start: `POSCAR-1` and
      `contcar2` are POSCAR files. */
  lemma NameDecides(dir: string, name: string)
    requires name != [] && name != ".." && '/' !in name && '.' !in name
    ensures Parsable(dir + "/" + name) <==> "CONTCAR" <= Upper(name) || "POSCAR" <= Upper(name)
  {
    NoExtension(dir, name);
  }

  /** A trailing separator or `.` component is skipped before the tests. */
  lemma TrailingIgnoredParsable(path: string)
    ensures Parsable(path + "/") == Parsable(path)
    ensures Parsable(path + "/.") == Parsable(path)
  {
    TrailingIgnored(path);
  }

  lemma UpperPoscar()
    ensures "POSCAR" <= Upper("POSCAR")
  {
    assert Upper("POSCAR") == "POSCAR";
  }

  /** `dir/POSCAR/` is a POSCAR file, whatever the directory. */
  lemma PoscarDirectory(dir: string)
    ensures Parsable(dir + "/" + "POSCAR" + "/")
  {
    var path := dir + "/" + "POSCAR";
    UpperPoscar();
    NameDecides(dir, "POSCAR");
    assert Parsable(path);
    TrailingIgnoredParsable(path);
  }
}
