/** The CIF format (`text/cif`): numbers with uncertainties, the `_cell_`
    parameters, the `_atom_site_` table, the `data_` title, the `loop_`
    sections and the writer's site labels. */
module Cif {
  import opened Wrappers
  import opened Text
  import opened Numerals
  import opened Nom
  import opened Chem
  import opened Partition

  // Numbers with an uncertainty.

  /** `delimited(tag("("), digit1, tag(")"))`: the uncertainty digits. */
  function Uncertainty(s: string): (r: Parsed<string>)
    ensures r.Parsed? ==> |r.rest| < |s|
  {
    match Tag("(", s)
    case NoParse => NoParse
    case Parsed(_, r1) =>
      match Digit1(r1)
      case NoParse => NoParse
      case Parsed(d, r2) =>
        match Tag(")", r2)
        case NoParse => NoParse
        case Parsed(_, r3) => Parsed(d, r3)
  }

  /** `double_cif`: a number, optionally followed by an uncertainty in
      parentheses, whose digits are appended to the number's text. */
  function DoubleCif(s: string): (r: Parsed<Numeral>)
    ensures r.Parsed? ==> |r.rest| < |s|
  {
    match Nom.Double(s)
    case NoParse => NoParse
    case Parsed(v, r1) =>
      match Uncertainty(r1)
      case NoParse => Parsed(v, r1)
      case Parsed(d, r2) => Parsed(v + d, r2)
  }

  lemma UncertaintyOf(d: string, rest: string)
    requires d != [] && All(d, IsDigit)
    ensures Uncertainty("(" + (d + (")" + rest))) == Parsed(d, rest)
  {
    TagOf("(", d + (")" + rest));
    Take1Of(d, ")" + rest, IsDigit);
    TagOf(")", rest);
  }

  /** A number without an uncertainty reads as itself. */
  lemma DoubleCifPlain(v: Numeral, rest: string)
    requires IsNumeral(v) && StopsFloat(rest) && (rest == [] || rest[0] != '(')
    ensures DoubleCif(v + rest) == Parsed(v, rest)
  {
    DoubleBefore(v, rest);
  }

  /** A number with an uncertainty reads as the number with the uncertainty
      digits appended: they are kept, not dropped. */
  lemma DoubleCifUncertain(v: Numeral, d: string, rest: string)
    requires IsNumeral(v) && d != [] && All(d, IsDigit)
    ensures DoubleCif(v + ("(" + (d + (")" + rest)))) == Parsed(v + d, rest)
  {
    DoubleBefore(v, "(" + (d + (")" + rest)));
    UncertaintyOf(d, rest);
  }

  // Cell parameters.

  /** `cell_params_xx`: `_cell_<name>`, blanks, a number, the line end. */
  function CellParam(s: string): (r: Parsed<(string, Numeral)>)
    ensures r.Parsed? ==> |r.rest| < |s|
  {
    match Tag("_cell_", Space0(s))
    case NoParse => NoParse
    case Parsed(_, r1) =>
      match NotSpace(r1)
      case NoParse => NoParse
      case Parsed(name, r2) =>
        match Space1(r2)
        case NoParse => NoParse
        case Parsed(_, r3) =>
          match DoubleCif(r3)
          case NoParse => NoParse
          case Parsed(v, r4) =>
            match Eol(r4)
            case NoParse => NoParse
            case Parsed(_, r5) => Parsed((name, v), r5)
  }

  /** The parameter lines that follow one another. */
  function ParamLines(s: string): seq<(string, Numeral)>
    decreases |s|
  {
    match CellParam(s)
    case NoParse => []
    case Parsed(p, r) => [p] + ParamLines(r)
  }

  /** `read_cell_params`: skip to the first `_cell_`, then at least one
      parameter line. */
  function ReadCellParams(s: string): Option<seq<(string, Numeral)>> {
    match TakeUntil("_cell_", s)
    case NoParse => None
    case Parsed(_, r) =>
      var ps := ParamLines(r);
      if ps == [] then None else Some(ps)
  }

  /** A `HashMap` collected from pairs: the last pair with the key wins. */
  function Lookup<V>(pairs: seq<(string, V)>, key: string): (r: Option<V>)
    ensures r.Some? ==> (key, r.value) in pairs
    ensures r.None? <==> forall i | 0 <= i < |pairs| :: pairs[i].0 != key
  {
    if pairs == [] then None
    else if pairs[|pairs| - 1].0 == key then Some(pairs[|pairs| - 1].1)
    else Lookup(pairs[..|pairs| - 1], key)
  }

  /** No key occurs twice. */
  predicate DistinctKeys<V>(pairs: seq<(string, V)>) {
    forall i, j | 0 <= i < j < |pairs| :: pairs[i].0 != pairs[j].0
  }

  /** With distinct keys the value of a key is the one paired with it. */
  lemma LookupDistinct<V>(pairs: seq<(string, V)>, key: string, v: V)
    requires DistinctKeys(pairs) && (key, v) in pairs
    ensures Lookup(pairs, key) == Some(v)
  {
    var w := Lookup(pairs, key).value;
    var i :| 0 <= i < |pairs| && pairs[i] == (key, v);
    var j :| 0 <= j < |pairs| && pairs[j] == (key, w);
    assert i == j;
  }

  /** Pairs with distinct keys give the same answer whatever their order. */
  lemma LookupReordered<V>(p1: seq<(string, V)>, p2: seq<(string, V)>, key: string)
    requires DistinctKeys(p1)
    requires forall x :: x in p1 <==> x in p2
    ensures Lookup(p1, key) == Lookup(p2, key)
  {
    if Lookup(p2, key).Some? {
      LookupDistinct(p1, key, Lookup(p2, key).value);
    } else {
      forall i | 0 <= i < |p1|
        ensures p1[i].0 != key
      {
        assert p1[i] in p2;
      }
    }
  }

  const CellKeys: seq<string> := ["length_a", "length_b", "length_c", "angle_alpha", "angle_beta", "angle_gamma"]

  /** `parse_cell` once the lines are read: the six parameters looked up by
      name, in the order a, b, c, alpha, beta, gamma; a missing one is an
      error (the lookup panics). */
  function CellFromPairs(pairs: seq<(string, Numeral)>): (r: Result<CellParams>)
    ensures r.Ok? ==> (("length_a", r.value.a) in pairs && ("length_b", r.value.b) in pairs
      && ("length_c", r.value.c) in pairs && ("angle_alpha", r.value.alpha) in pairs
      && ("angle_beta", r.value.beta) in pairs && ("angle_gamma", r.value.gamma) in pairs)
  {
    var a := Lookup(pairs, "length_a");
    var b := Lookup(pairs, "length_b");
    var c := Lookup(pairs, "length_c");
    var alpha := Lookup(pairs, "angle_alpha");
    var beta := Lookup(pairs, "angle_beta");
    var gamma := Lookup(pairs, "angle_gamma");
    if a.Some? && b.Some? && c.Some? && alpha.Some? && beta.Some? && gamma.Some? then
      Ok(CellParams(a.value, b.value, c.value, alpha.value, beta.value, gamma.value))
    else
      Err("missing cell params")
  }

  /** Some pair has the key. */
  predicate HasKey<V>(pairs: seq<(string, V)>, key: string) {
    exists i | 0 <= i < |pairs| :: pairs[i].0 == key
  }

  /** The cell is read iff all six parameters are present. */
  lemma CellFromPairsOk(pairs: seq<(string, Numeral)>)
    ensures CellFromPairs(pairs).Ok? <==> forall k | 0 <= k < |CellKeys| :: HasKey(pairs, CellKeys[k])
  {
    assert CellKeys[0] == "length_a" && CellKeys[1] == "length_b" && CellKeys[2] == "length_c";
    assert CellKeys[3] == "angle_alpha" && CellKeys[4] == "angle_beta" && CellKeys[5] == "angle_gamma";
  }

  /** The order of the parameter lines does not matter. */
  lemma CellOrderIrrelevant(p1: seq<(string, Numeral)>, p2: seq<(string, Numeral)>)
    requires DistinctKeys(p1)
    requires forall x :: x in p1 <==> x in p2
    ensures CellFromPairs(p1) == CellFromPairs(p2)
  {
    LookupReordered(p1, p2, "length_a");
    LookupReordered(p1, p2, "length_b");
    LookupReordered(p1, p2, "length_c");
    LookupReordered(p1, p2, "angle_alpha");
    LookupReordered(p1, p2, "angle_beta");
    LookupReordered(p1, p2, "angle_gamma");
  }

  /** `parse_cell`. */
  function ParseCell(s: string): Result<CellParams> {
    match ReadCellParams(s)
    case None => Err("read cell failure")
    case Some(pairs) => CellFromPairs(pairs)
  }

  // The atom-site table.

  /** `atom_site_column_name`: `_atom_site_<name>` alone on a line. */
  function ColumnName(s: string): (r: Parsed<string>)
    ensures r.Parsed? ==> |r.rest| < |s|
  {
    match Tag("_atom_site_", Space0(s))
    case NoParse => NoParse
    case Parsed(_, r1) =>
      match NotSpace(r1)
      case NoParse => NoParse
      case Parsed(name, r2) =>
        match Eol(r2)
        case NoParse => NoParse
        case Parsed(_, r3) => Parsed(name, r3)
  }

  function ColumnNames(s: string): (seq<string>, string)
    decreases |s|
  {
    match ColumnName(s)
    case NoParse => ([], s)
    case Parsed(n, r) =>
      var more := ColumnNames(r);
      ([n] + more.0, more.1)
  }

  /** `separated_list1(space1, not_space)`: words separated by blanks; a
      separator not followed by a word is left unread. */
  function Items(s: string): (r: Parsed<seq<string>>)
    ensures r.Parsed? ==> |r.rest| < |s|
    decreases |s|
  {
    match NotSpace(s)
    case NoParse => NoParse
    case Parsed(w, r1) =>
      match Space1(r1)
      case NoParse => Parsed([w], r1)
      case Parsed(_, r2) =>
        match Items(r2)
        case NoParse => Parsed([w], r1)
        case Parsed(ws, r3) => Parsed([w] + ws, r3)
  }

  /** `atom_site_row`: the items of one line. */
  function SiteRow(s: string): (r: Parsed<seq<string>>)
    ensures r.Parsed? ==> |r.rest| < |s|
  {
    match Items(Space0(s))
    case NoParse => NoParse
    case Parsed(items, r1) =>
      match Eol(r1)
      case NoParse => NoParse
      case Parsed(_, r2) => Parsed(items, r2)
  }

  function SiteRows(s: string): seq<seq<string>>
    decreases |s|
  {
    match SiteRow(s)
    case NoParse => []
    case Parsed(row, r) => [row] + SiteRows(r)
  }

  /** The column a header names: the last column of that name, as in a
      `HashMap` collected from `(name, index)` pairs. */
  function ColumnIndex(headers: seq<string>, name: string): (r: Option<nat>)
    ensures r.Some? ==> (r.value < |headers| && headers[r.value] == name
      && forall k | r.value < k < |headers| :: headers[k] != name)
    ensures r.None? <==> name !in headers
  {
    if headers == [] then None
    else if headers[|headers| - 1] == name then Some(|headers| - 1)
    else ColumnIndex(headers[..|headers| - 1], name)
  }

  /** Where the fields of a row are: the number of columns, the three
      fractional coordinates, the label and, optionally, the element symbol. */
  datatype Columns = Columns(count: nat, fx: nat, fy: nat, fz: nat, name: nat, symbol: Option<nat>)

  predicate ColumnsFit(cols: Columns) {
    cols.fx < cols.count && cols.fy < cols.count && cols.fz < cols.count && cols.name < cols.count
    && (cols.symbol.Some? ==> cols.symbol.value < cols.count)
  }

  /** The column table of `parse_atoms`; the three coordinate columns and the
      label column are required (their lookups panic). */
  function ColumnsOf(headers: seq<string>): (r: Result<Columns>)
    ensures r.Ok? <==> "fract_x" in headers && "fract_y" in headers && "fract_z" in headers && "label" in headers
    ensures r.Ok? ==> (ColumnsFit(r.value) && r.value.count == |headers|
      && headers[r.value.fx] == "fract_x" && headers[r.value.fy] == "fract_y"
      && headers[r.value.fz] == "fract_z" && headers[r.value.name] == "label")
    ensures r.Ok? ==> (r.value.symbol.Some? <==> "type_symbol" in headers)
  {
    match (ColumnIndex(headers, "fract_x"), ColumnIndex(headers, "fract_y"), ColumnIndex(headers, "fract_z"), ColumnIndex(headers, "label"))
    case (Some(fx), Some(fy), Some(fz), Some(name)) =>
      Ok(Columns(|headers|, fx, fy, fz, name, ColumnIndex(headers, "type_symbol")))
    case (None, _, _, _) => Err("missing fract x col")
    case (_, None, _, _) => Err("missing fract y col")
    case (_, _, None, _) => Err("missing fract z col")
    case (_, _, _, None) => Err("missing atom label col")
  }

  /** A fractional coordinate; one that is not a number is an error (the
      reader panics). */
  function Coordinate(item: string): Result<Numeral> {
    match DoubleCif(item)
    case NoParse => Err("invalid fcoords")
    case Parsed(v, _) => Ok(v)
  }

  /** The element symbol of a row: the `type_symbol` column if there is one,
      else the letters that start the label. */
  function RowSymbol(row: seq<string>, cols: Columns): string
    requires ColumnsFit(cols) && |row| == cols.count
  {
    match cols.symbol
    case Some(i) => row[i]
    case None => AlphaPrefix(row[cols.name])
  }

  /** The atom one well-formed row describes, labelled with its `label`. */
  function RowAtom(row: seq<string>, cols: Columns, core: Core): (r: Result<Atom>)
    requires ColumnsFit(cols) && |row| == cols.count
    ensures r.Ok? <==> Coordinate(row[cols.fx]).Ok? && Coordinate(row[cols.fy]).Ok? && Coordinate(row[cols.fz]).Ok?
    ensures r.Ok? ==> (r.value.symbol == core.standardSymbol(RowSymbol(row, cols)) && r.value.name == Some(row[cols.name])
      && r.value.position == Vec3(Coordinate(row[cols.fx]).value, Coordinate(row[cols.fy]).value, Coordinate(row[cols.fz]).value))
  {
    var x :- Coordinate(row[cols.fx]);
    var y :- Coordinate(row[cols.fy]);
    var z :- Coordinate(row[cols.fz]);
    Ok(NewAtom(RowSymbol(row, cols), Vec3(x, y, z), core).(name := Some(row[cols.name])))
  }

  /** The rows with as many items as there are columns. */
  function WellFormed(rows: seq<seq<string>>, n: nat): (r: seq<seq<string>>)
    ensures forall k | 0 <= k < |r| :: |r[k]| == n
  {
    if rows == [] then []
    else WellFormed(rows[..|rows| - 1], n) + (if |rows[|rows| - 1]| == n then [rows[|rows| - 1]] else [])
  }

  /** The atoms of the rows in order; a row with the wrong number of items is
      skipped, and the first bad coordinate aborts. */
  function RowAtoms(rows: seq<seq<string>>, cols: Columns, core: Core): Result<seq<Atom>>
    requires ColumnsFit(cols)
  {
    if rows == [] then Ok([])
    else
      var atoms :- RowAtoms(rows[..|rows| - 1], cols, core);
      var row := rows[|rows| - 1];
      if |row| != cols.count then Ok(atoms)
      else
        var a :- RowAtom(row, cols, core);
        Ok(atoms + [a])
  }

  /** One atom per well-formed row, in order. */
  lemma {:induction false} RowAtomsKept(rows: seq<seq<string>>, cols: Columns, core: Core)
    requires ColumnsFit(cols) && RowAtoms(rows, cols, core).Ok?
    ensures |RowAtoms(rows, cols, core).value| == |WellFormed(rows, cols.count)|
    ensures forall k | 0 <= k < |WellFormed(rows, cols.count)| ::
      RowAtom(WellFormed(rows, cols.count)[k], cols, core) == Ok(RowAtoms(rows, cols, core).value[k])
    decreases |rows|
  {
    if rows != [] {
      RowAtomsKept(rows[..|rows| - 1], cols, core);
    }
  }

  /** The column table and the rows `parse_atoms` reads; both must be
      present. */
  function SiteTable(s: string): (r: Result<(Columns, seq<seq<string>>)>)
    ensures r.Ok? ==> ColumnsFit(r.value.0)
  {
    var (headers, rest) := ColumnNames(s);
    if headers == [] then Err("no atom site columns")
    else
      var cols :- ColumnsOf(headers);
      var rows := SiteRows(rest);
      if rows == [] then Err("no atom site rows") else Ok((cols, rows))
  }

  /** What `parse_atoms` returns. */
  function AtomSites(s: string, core: Core): Result<seq<Atom>> {
    var table :- SiteTable(s);
    RowAtoms(table.1, table.0, core)
  }

  /** `parse_atoms`: the rows are read one by one; a malformed row is skipped
      and a bad coordinate aborts. */
  method ParseAtoms(s: string, core: Core) returns (r: Result<seq<Atom>>)
    ensures r == AtomSites(s, core)
  {
    var table := SiteTable(s);
    if table.Err? {
      return Err(table.msg);
    }
    r := ReadRows(table.value.1, table.value.0, core);
  }

  /** The loop of `parse_atoms` over the rows of the site table. */
  method ReadRows(rows: seq<seq<string>>, cols: Columns, core: Core) returns (r: Result<seq<Atom>>)
    requires ColumnsFit(cols)
    ensures r == RowAtoms(rows, cols, core)
  {
    var atoms: seq<Atom> := [];
    var i := 0;
    while i < |rows|
      invariant 0 <= i <= |rows|
      invariant RowAtoms(rows[..i], cols, core) == Ok(atoms)
    {
      RowsStep(rows, cols, core, i, atoms);
      var row := rows[i];
      if |row| != cols.count {
        i := i + 1;
        continue;
      }
      var a := RowAtom(row, cols, core);
      if a.Err? {
        RowAtomsAbort(rows, cols, core, i + 1);
        return Err(a.msg);
      }
      atoms := atoms + [a.value];
      i := i + 1;
    }
    assert rows[..i] == rows;
    r := Ok(atoms);
  }

  /** One more row: skipped when it has the wrong width, else read. */
  lemma RowsStep(rows: seq<seq<string>>, cols: Columns, core: Core, i: nat, atoms: seq<Atom>)
    requires ColumnsFit(cols) && i < |rows| && RowAtoms(rows[..i], cols, core) == Ok(atoms)
    ensures RowAtoms(rows[..i + 1], cols, core) ==
      if |rows[i]| != cols.count then Ok(atoms)
      else match RowAtom(rows[i], cols, core)
        case Ok(a) => Ok(atoms + [a])
        case Err(e) => Err(e)
  {
    assert rows[..i + 1][..i] == rows[..i];
  }

  /** Once a prefix of the rows fails, all of them do, with the same error. */
  lemma {:induction false} RowAtomsAbort(rows: seq<seq<string>>, cols: Columns, core: Core, i: nat)
    requires ColumnsFit(cols) && i <= |rows| && RowAtoms(rows[..i], cols, core).Err?
    ensures RowAtoms(rows, cols, core) == RowAtoms(rows[..i], cols, core)
    decreases |rows| - i
  {
    if i < |rows| {
      assert rows[..i + 1][..i] == rows[..i];
      RowAtomsAbort(rows, cols, core, i + 1);
    } else {
      assert rows[..i] == rows;
    }
  }

  // The molecule.

  /** `cif_title`: `data_<title>` on the first line. */
  function CifTitle(s: string): Parsed<string> {
    match Tag("data_", s)
    case NoParse => NoParse
    case Parsed(_, r1) =>
      match NotSpace(r1)
      case NoParse => NoParse
      case Parsed(t, r2) =>
        match Eol(r2)
        case NoParse => NoParse
        case Parsed(_, r3) => Parsed(t, r3)
  }

  /** What one `loop_` part does to the molecule: a part naming
      `_cell_length_a` sets the lattice, a part naming `_atom_site_fract_x`
      adds its atoms under serial numbers from 1. */
  function ApplyPart(mol: Molecule, part: string, core: Core): (r: Result<Molecule>)
    ensures r.Ok? ==> r.value.title == mol.title
    ensures r.Ok? && Contains(part, "_cell_length_a") ==>
      ParseCell(TrimStart(part)).Ok? && r.value.lattice == Some(core.fromParams(ParseCell(TrimStart(part)).value))
    ensures r.Ok? && !Contains(part, "_cell_length_a") ==> r.value.lattice == mol.lattice
  {
    var mol1 :- if Contains(part, "_cell_length_a") then
        var cell :- ParseCell(TrimStart(part));
        Ok(mol.(lattice := Some(core.fromParams(cell))))
      else Ok(mol);
    if Contains(part, "_atom_site_fract_x") then
      var atoms :- AtomSites(TrimStart(part), core);
      Ok(mol1.(sites := PutSites(mol1.sites, NumberFrom(1, atoms))))
    else Ok(mol1)
  }

  /** The parts applied in order; the first failure aborts. */
  function ApplyParts(mol: Molecule, parts: seq<string>, core: Core): Result<Molecule> {
    if parts == [] then Ok(mol)
    else
      var m :- ApplyParts(mol, parts[..|parts| - 1], core);
      ApplyPart(m, parts[|parts| - 1], core)
  }

  /** `parse_molecule`: the title, then each part of the text split at
      `loop_` lines. */
  function ParseMoleculeText(s: string, core: Core): Result<Molecule> {
    match CifTitle(s)
    case NoParse => Err("no data_ title")
    case Parsed(title, r) => ApplyParts(Molecule(title, [], [], None), SplitOn(r, "loop_\n"), core)
  }

  /** `parse_molecule`, updating the molecule part by part. */
  method ParseMolecule(s: string, core: Core) returns (r: Result<Molecule>)
    ensures r == ParseMoleculeText(s, core)
  {
    var t := CifTitle(s);
    if t.NoParse? {
      return Err("no data_ title");
    }
    var parts := SplitOn(t.rest, "loop_\n");
    var mol := Molecule(t.value, [], [], None);
    var i := 0;
    while i < |parts|
      invariant 0 <= i <= |parts|
      invariant ApplyParts(Molecule(t.value, [], [], None), parts[..i], core) == Ok(mol)
    {
      PartsStep(Molecule(t.value, [], [], None), parts, core, i);
      var next := ApplyPart(mol, parts[i], core);
      if next.Err? {
        PartsAbort(Molecule(t.value, [], [], None), parts, core, i + 1);
        return Err(next.msg);
      }
      mol := next.value;
      i := i + 1;
    }
    assert parts[..i] == parts;
    r := Ok(mol);
  }

  lemma PartsStep(mol: Molecule, parts: seq<string>, core: Core, i: nat)
    requires i < |parts| && ApplyParts(mol, parts[..i], core).Ok?
    ensures ApplyParts(mol, parts[..i + 1], core) == ApplyPart(ApplyParts(mol, parts[..i], core).value, parts[i], core)
  {
    assert parts[..i + 1][..i] == parts[..i];
  }

  lemma {:induction false} PartsAbort(mol: Molecule, parts: seq<string>, core: Core, i: nat)
    requires i <= |parts| && ApplyParts(mol, parts[..i], core).Err?
    ensures ApplyParts(mol, parts, core) == ApplyParts(mol, parts[..i], core)
    decreases |parts| - i
  {
    if i < |parts| {
      assert parts[..i + 1][..i] == parts[..i];
      PartsAbort(mol, parts, core, i + 1);
    } else {
      assert parts[..i] == parts;
    }
  }

  /** Some part names the cell. */
  predicate HasCell(parts: seq<string>) {
    exists k | 0 <= k < |parts| :: Contains(parts[k], "_cell_length_a")
  }

  /** The molecule read keeps the title; it is periodic iff some part names
      the cell; its atoms are numbered from 1. */
  lemma {:induction false} ApplyPartsShape(mol: Molecule, parts: seq<string>, core: Core)
    requires mol.lattice.None? && Numbered(mol.sites)
    requires ApplyParts(mol, parts, core).Ok?
    ensures ApplyParts(mol, parts, core).value.title == mol.title
    ensures ApplyParts(mol, parts, core).value.lattice.Some? <==> HasCell(parts)
    ensures Numbered(ApplyParts(mol, parts, core).value.sites)
    decreases |parts|
  {
    if parts != [] {
      var init := parts[..|parts| - 1];
      var last := parts[|parts| - 1];
      ApplyPartsShape(mol, init, core);
      var m := ApplyParts(mol, init, core).value;
      HasCellSnoc(parts);
      PartNumbered(m, last, core);
    }
  }

  /** The parts name the cell iff the earlier ones do or the last one does. */
  lemma HasCellSnoc(parts: seq<string>)
    requires parts != []
    ensures HasCell(parts) <==> HasCell(parts[..|parts| - 1]) || Contains(parts[|parts| - 1], "_cell_length_a")
  {
    var init := parts[..|parts| - 1];
    if HasCell(parts) && !Contains(parts[|parts| - 1], "_cell_length_a") {
      var k :| 0 <= k < |parts| && Contains(parts[k], "_cell_length_a");
      assert k < |init| && init[k] == parts[k];
    }
    if HasCell(init) {
      var k :| 0 <= k < |init| && Contains(init[k], "_cell_length_a");
      assert parts[k] == init[k];
    }
  }

  /** One part keeps the atoms numbered from 1. */
  lemma PartNumbered(m: Molecule, part: string, core: Core)
    requires Numbered(m.sites)
    requires ApplyPart(m, part, core).Ok?
    ensures Numbered(ApplyPart(m, part, core).value.sites)
  {
    if Contains(part, "_atom_site_fract_x") {
      var mol1 := if Contains(part, "_cell_length_a")
        then m.(lattice := Some(core.fromParams(ParseCell(TrimStart(part)).value))) else m;
      AddNumbered(mol1.sites, AtomSites(TrimStart(part), core).value);
    }
  }

  /** `CifFile::parse_molecule`: the fractional coordinates read become
      Cartesian ones, which needs a lattice. */
  function ReadCif(s: string, core: Core): Result<Molecule> {
    var mol :- ParseMoleculeText(s, core);
    SetScaledPositions(mol, core)
  }

  /** Reading CIF text succeeds only for a periodic structure; the title is the
      token after `data_` and the atoms are numbered from 1. */
  lemma ReadCifShape(s: string, core: Core)
    requires ReadCif(s, core).Ok?
    ensures CifTitle(s).Parsed? && ReadCif(s, core).value.title == CifTitle(s).value
    ensures HasCell(SplitOn(CifTitle(s).rest, "loop_\n"))
    ensures Numbered(ReadCif(s, core).value.sites)
  {
    var t := CifTitle(s);
    var parts := SplitOn(t.rest, "loop_\n");
    ApplyPartsShape(Molecule(t.value, [], [], None), parts, core);
  }

  // Writing.

  /** How many of the sites hold an atom of the symbol. */
  function Occurrences(sites: seq<Site>, symbol: string): nat {
    if sites == [] then 0
    else Occurrences(sites[..|sites| - 1], symbol) + (if sites[|sites| - 1].atom.symbol == symbol then 1 else 0)
  }

  /** The site label written for atom `k`: its own label, or its symbol and
      how many atoms of that symbol have been written so far, itself included
      (`Fe12`). */
  function SiteName(sites: seq<Site>, k: nat): string
    requires k < |sites|
  {
    match sites[k].atom.name
    case Some(l) => l
    case None => sites[k].atom.symbol + ShowNat(Occurrences(sites[..k + 1], sites[k].atom.symbol))
  }

  lemma {:induction false} OccurrencesGrow(sites: seq<Site>, j: nat, k: nat)
    requires j < k < |sites| && sites[k].atom.symbol == sites[j].atom.symbol
    ensures Occurrences(sites[..j + 1], sites[j].atom.symbol) < Occurrences(sites[..k + 1], sites[j].atom.symbol)
    decreases k - j
  {
    var sym := sites[j].atom.symbol;
    assert sites[..k + 1][..k] == sites[..k];
    if j + 1 < k {
      OccurrencesMonotone(sites, j + 1, k, sym);
    } else {
      assert k == j + 1;
    }
  }

  lemma {:induction false} OccurrencesMonotone(sites: seq<Site>, i: nat, k: nat, sym: string)
    requires i <= k <= |sites|
    ensures Occurrences(sites[..i], sym) <= Occurrences(sites[..k], sym)
    decreases k - i
  {
    if i < k {
      assert sites[..k][..k - 1] == sites[..k - 1];
      OccurrencesMonotone(sites, i, k - 1, sym);
    }
  }

  /** Unlabelled atoms of the same element get different site labels. */
  lemma SiteNamesDistinct(sites: seq<Site>, j: nat, k: nat)
    requires j < k < |sites|
    requires sites[j].atom.name.None? && sites[k].atom.name.None?
    requires sites[j].atom.symbol == sites[k].atom.symbol
    ensures SiteName(sites, j) != SiteName(sites, k)
  {
    var sym := sites[j].atom.symbol;
    var cj := Occurrences(sites[..j + 1], sym);
    var ck := Occurrences(sites[..k + 1], sym);
    OccurrencesGrow(sites, j, k);
    if SiteName(sites, j) == SiteName(sites, k) {
      assert sym + ShowNat(cj) == sym + ShowNat(ck);
      assert ShowNat(cj) == (sym + ShowNat(cj))[|sym|..];
      assert ShowNat(ck) == (sym + ShowNat(ck))[|sym|..];
      ParseShowNat(cj);
      ParseShowNat(ck);
      assert false;
    }
  }

  const HeaderRows: seq<string> := [
    "data_test",
    "_audit_creation_method            'gchemol'",
    "_symmetry_space_group_name_H-M    'P1'",
    "_symmetry_Int_Tables_number       1",
    "_symmetry_cell_setting            triclinic",
    "",
    "loop_",
    "_symmetry_equiv_pos_as_xyz",
    " x,y,z"]

  const SiteColumnRows: seq<string> := [
    "",
    "loop_",
    "_atom_site_type_symbol",
    "_atom_site_label",
    "_atom_site_fract_x",
    "_atom_site_fract_y",
    "_atom_site_fract_z"]

  /** The six `_cell_` lines (`{:10.4}` fields). */
  function CellRows(lat: Lattice, core: Core): seq<string> {
    var l := core.lengths(lat);
    var a := core.angles(lat);
    ["_cell_length_a     " + PadLeft(l.x, 10),
     "_cell_length_b     " + PadLeft(l.y, 10),
     "_cell_length_c     " + PadLeft(l.z, 10),
     "_cell_angle_alpha  " + PadLeft(a.x, 10),
     "_cell_angle_beta   " + PadLeft(a.y, 10),
     "_cell_angle_gamma  " + PadLeft(a.z, 10)]
  }

  /** Everything before the atom lines. */
  function HeadRows(lat: Lattice, core: Core): seq<string> {
    HeaderRows + CellRows(lat, core) + SiteColumnRows
  }

  /** `{:4}{:6}{:12.5}{:12.5}{:12.5}`: symbol, site label, fractional
      coordinates. */
  function SiteLine(sites: seq<Site>, k: nat, lat: Lattice, core: Core): string
    requires k < |sites|
  {
    var p := core.toFrac(lat, sites[k].atom.position);
    PadRight(sites[k].atom.symbol, 4) + PadRight(SiteName(sites, k), 6)
      + PadLeft(p.x, 12) + PadLeft(p.y, 12) + PadLeft(p.z, 12)
  }

  function SiteLines(sites: seq<Site>, lat: Lattice, core: Core): (rows: seq<string>)
    ensures |rows| == |sites|
    ensures forall k | 0 <= k < |sites| :: rows[k] == SiteLine(sites, k, lat, core)
  {
    seq(|sites|, k requires 0 <= k < |sites| => SiteLine(sites, k, lat, core))
  }

  /** The text `format_molecule` writes; a molecule without a lattice cannot
      be written. */
  function CifText(mol: Molecule, core: Core): (r: Result<string>)
    ensures r.Err? <==> mol.lattice.None?
  {
    match mol.lattice
    case None => Err("Not a periodic moelcule.")
    case Some(lat) =>
      Ok(Terminate(HeadRows(lat, core) + SiteLines(mol.sites, lat, core), "\n"))
  }

  /** A prefix of the sites names its atoms as the whole does. */
  lemma SiteLinePrefix(sites: seq<Site>, i: nat, lat: Lattice, core: Core)
    requires i < |sites|
    ensures SiteLine(sites[..i + 1], i, lat, core) == SiteLine(sites, i, lat, core)
  {
    assert sites[..i + 1][..i + 1] == sites[..i + 1];
  }

  lemma OccurrencesSnoc(sites: seq<Site>, i: nat, sym: string)
    requires i < |sites|
    ensures Occurrences(sites[..i + 1], sym) == Occurrences(sites[..i], sym) + (if sites[i].atom.symbol == sym then 1 else 0)
  {
    assert sites[..i + 1][..i] == sites[..i];
  }

  lemma SiteLinesSnoc(sites: seq<Site>, i: nat, lat: Lattice, core: Core)
    requires i < |sites|
    ensures SiteLines(sites[..i + 1], lat, core) == SiteLines(sites[..i], lat, core) + [SiteLine(sites, i, lat, core)]
  {
    SiteLinePrefix(sites, i, lat, core);
    var p := sites[..i + 1];
    forall k | 0 <= k < i
      ensures SiteLine(p, k, lat, core) == SiteLine(sites[..i], k, lat, core)
    {
      assert p[..k + 1] == sites[..i][..k + 1];
    }
  }

  /** The count an `element_count` map holds for a symbol (none yet: 0). */
  function CountOf(counts: map<string, nat>, sym: string): nat {
    if sym in counts then counts[sym] else 0
  }

  /** The atom lines written for the first `i` sites. */
  ghost function WrittenSites(sites: seq<Site>, i: nat, lat: Lattice, core: Core): string
    requires i <= |sites|
  {
    Terminate(SiteLines(sites[..i], lat, core), "\n")
  }

  /** `element_count` after the first `i` sites: how many atoms of each
      element have been written. */
  ghost predicate CountsMatch(sites: seq<Site>, i: nat, counts: map<string, nat>)
    requires i <= |sites|
  {
    forall sym :: Occurrences(sites[..i], sym) == CountOf(counts, sym)
  }

  /** One more atom: its element's count goes up by one, and the count is
      the number in its site label. */
  lemma CountStep(sites: seq<Site>, i: nat, counts: map<string, nat>, c: nat)
    requires i < |sites| && CountsMatch(sites, i, counts)
    requires c == CountOf(counts, sites[i].atom.symbol) + 1
    ensures CountsMatch(sites, i + 1, counts[sites[i].atom.symbol := c])
    ensures SiteName(sites, i) == (if sites[i].atom.name.Some? then sites[i].atom.name.value
      else sites[i].atom.symbol + ShowNat(c))
  {
    var next := counts[sites[i].atom.symbol := c];
    forall sym
      ensures Occurrences(sites[..i + 1], sym) == CountOf(next, sym)
    {
      OccurrencesSnoc(sites, i, sym);
    }
  }

  /** One more atom line. */
  lemma LinesStep(sites: seq<Site>, i: nat, lat: Lattice, core: Core, line: string, head: string, lines: string)
    requires i < |sites| && line == SiteLine(sites, i, lat, core)
    requires lines == head + WrittenSites(sites, i, lat, core)
    ensures lines + line + "\n" == head + WrittenSites(sites, i + 1, lat, core)
  {
    SiteLinesSnoc(sites, i, lat, core);
    TerminateSnoc(SiteLines(sites[..i], lat, core), line);
    var w := WrittenSites(sites, i, lat, core);
    AppendAssoc(head, w, line);
    AppendAssoc(head, w + line, "\n");
  }

  /** `format_molecule`: the header and cell lines, then one line per atom,
      counting the atoms of each element as it goes. */
  method FormatMolecule(mol: Molecule, core: Core) returns (r: Result<string>)
    ensures r == CifText(mol, core)
  {
    if mol.lattice.None? {
      return Err("Not a periodic moelcule.");
    }
    var lat := mol.lattice.value;
    var head := HeadRows(lat, core);
    var headText := JoinLines(head);
    var lines := headText;
    var elementCount: map<string, nat> := map[];
    var sites := mol.sites;
    var i := 0;
    while i < |sites|
      invariant 0 <= i <= |sites|
      invariant lines == headText + WrittenSites(sites, i, lat, core)
      invariant CountsMatch(sites, i, elementCount)
    {
      var a := sites[i].atom;
      var c := if a.symbol in elementCount then elementCount[a.symbol] + 1 else 1;
      CountStep(sites, i, elementCount, c);
      elementCount := elementCount[a.symbol := c];
      var name := if a.name.Some? then a.name.value else a.symbol + ShowNat(c);
      var p := core.toFrac(lat, a.position);
      var line := PadRight(a.symbol, 4) + PadRight(name, 6) + PadLeft(p.x, 12) + PadLeft(p.y, 12) + PadLeft(p.z, 12);
      LinesStep(sites, i, lat, core, line, headText, lines);
      lines := lines + line + "\n";
      i := i + 1;
    }
    assert sites[..i] == mol.sites;
    TerminateAppend(head, SiteLines(mol.sites, lat, core));
    r := Ok(lines);
  }

  // Record boundaries.

  /** A CIF record starts at a line beginning `data_`. */
  predicate IsDataStart(line: string) {
    "data_" <= line
  }

  /** The records of a CIF stream: whatever precedes the first `data_` line is
      skipped, every `data_` line opens one record, and no record holds a
      second one. */
  lemma CifRecords(lines: seq<string>)
    ensures Flatten(PrecededParts(lines, IsDataStart)) == lines[FirstMatch(lines, IsDataStart)..]
    ensures |PrecededParts(lines, IsDataStart)| == CountMatching(lines, IsDataStart)
    ensures forall j | 0 <= j < |PrecededParts(lines, IsDataStart)| ::
      PrecededParts(lines, IsDataStart)[j] != [] && "data_" <= PrecededParts(lines, IsDataStart)[j][0]
  {
    PrecededPartsSound(lines, IsDataStart);
  }
}
