/** The Gaussian input format (`.gjf`, `.com`, `.gau`): the Link 0 commands, the
    route and title sections, then the molecule specification (charge and spin,
    one line per atom with optional MM type, MM charge, key-value parameters,
    frozen code and ONIOM layer, a blank line, optional connectivity lines). */
module Gaussian {
  import opened Wrappers
  import opened Text
  import opened Numerals
  import opened Nom
  import opened Chem
  import opened Partition

  // Link 0, route and title sections.

  /** `link0_cmd`: `%` and the rest of the line. */
  function Link0Cmd(s: string): (r: Parsed<string>)
    ensures r.Parsed? ==> |r.rest| < |s|
  {
    match Tag("%", s)
    case NoParse => NoParse
    case Parsed(_, t) => ReadLine(t)
  }

  /** `link0_section`: as many Link 0 commands as there are. */
  function Link0Section(s: string): (r: Parsed<seq<string>>)
    ensures r.Parsed? && |r.rest| <= |s|
    decreases |s|
  {
    match Link0Cmd(s)
    case NoParse => Parsed([], s)
    case Parsed(cmd, t) =>
      var more := Link0Section(t);
      Parsed([cmd] + more.value, more.rest)
  }

  /** `blank_line`: blanks, then a line ending. */
  function BlankLine(s: string): (r: Parsed<string>)
    ensures r.Parsed? ==> |r.rest| < |s|
  {
    Eol(Space0(s))
  }

  /** `many_till(read_until_eol, blank_line)`: the lines before the first
      blank one, which is consumed.  A line that consumes nothing (the end of
      the input) stops nom's loop with an error. */
  function LinesTillBlank(s: string): (r: Parsed<seq<string>>)
    ensures r.Parsed? ==> |r.rest| < |s|
    decreases |s|
  {
    if BlankLine(s).Parsed? then Parsed([], BlankLine(s).rest)
    else if s == [] then NoParse
    else
      var line := ReadLine(s);
      match LinesTillBlank(line.rest)
      case NoParse => NoParse
      case Parsed(ls, t) => Parsed([line.value] + ls, t)
  }

  /** The optional print level after `#`: `N`, `P` or `T` in either case. */
  function PrintLevel(t: string): (r: string)
    ensures |r| <= |t|
  {
    if TagNoCase("N", t).Parsed? then TagNoCase("N", t).rest
    else if TagNoCase("P", t).Parsed? then TagNoCase("P", t).rest
    else if TagNoCase("T", t).Parsed? then TagNoCase("T", t).rest
    else t
  }

  /** `route_section`: `#`, the print level, then the keyword lines up to a
      blank line, joined by blanks. */
  function RouteSection(s: string): (r: Parsed<string>)
    ensures r.Parsed? ==> |r.rest| < |s|
  {
    match Tag("#", s)
    case NoParse => NoParse
    case Parsed(_, t) =>
      var u := Space0(PrintLevel(t));
      assert |u| <= |t| < |s|;
      match LinesTillBlank(u)
      case NoParse => NoParse
      case Parsed(ls, rest) => Parsed(Join(ls, " "), rest)
  }

  /** `title_section`: the lines up to a blank line, joined by blanks. */
  function TitleSection(s: string): (r: Parsed<string>)
    ensures r.Parsed? ==> |r.rest| < |s|
  {
    match LinesTillBlank(s)
    case NoParse => NoParse
    case Parsed(ls, rest) => Parsed(Join(ls, " "), rest)
  }

  /** `parse_molecule_meta`: the Link 0 commands, the route and the title;
      the value is the title. */
  function MoleculeMeta(s: string): (r: Parsed<string>)
    ensures r.Parsed? ==> |r.rest| < |s|
  {
    match RouteSection(Link0Section(s).rest)
    case NoParse => NoParse
    case Parsed(_, t) => TitleSection(t)
  }

  // Charge and spin multiplicity.

  /** What follows the first value of `separated_list1(space1, signed_digit)`:
      a failed separator or a failed value after it ends the list before the
      separator. */
  function SignedTail(s: string): (r: Parsed<seq<int>>)
    ensures r.Parsed? && |r.rest| <= |s|
    decreases |s|
  {
    match Space1(s)
    case NoParse => Parsed([], s)
    case Parsed(_, t) =>
      match SignedDigit(t)
      case NoParse => Parsed([], s)
      case Parsed(v, u) =>
        var more := SignedTail(u);
        Parsed([v] + more.value, more.rest)
  }

  /** `read_charge_and_spin_list`: blanks, integers separated by blanks, the
      end of the line. */
  function ChargeAndSpin(s: string): (r: Parsed<seq<int>>)
    ensures r.Parsed? ==> r.value != [] && |r.rest| < |s|
  {
    match SignedDigit(Space0(s))
    case NoParse => NoParse
    case Parsed(v, t) =>
      var more := SignedTail(t);
      match Eol(more.rest)
      case NoParse => NoParse
      case Parsed(_, rest) => Parsed([v] + more.value, rest)
  }

  // ONIOM layer, link atom and link host.

  /** `OniomInfo::from_str`: the first three words are the layer, the link
      atom and the link host; a host that is not an integer is absent. */
  function OniomOf(s: string): (o: OniomInfo)
    ensures o.linkAtom.Some? ==> o.layer.Some?
    ensures o.linkHost.Some? ==> o.linkAtom.Some?
  {
    var ws := Words(s);
    OniomInfo(if |ws| >= 1 then Some(ws[0]) else None,
              if |ws| >= 2 then Some(ws[1]) else None,
              if |ws| >= 3 then ParseNat(ws[2]) else None)
  }

  /** `OniomInfo::from_str` as written: fills in a default value word by word. */
  method FromStr(s: string) returns (oniom: OniomInfo)
    ensures oniom == OniomOf(s)
  {
    oniom := OniomInfo(None, None, None);
    var parts := Words(s);
    if parts == [] {
      return;
    }
    oniom := oniom.(layer := Some(parts[0]));
    if |parts| >= 2 {
      oniom := oniom.(linkAtom := Some(parts[1]));
      if |parts| >= 3 {
        oniom := oniom.(linkHost := ParseNat(parts[2]));
      }
    }
  }

  /** `OniomInfo`'s `Display`: the layer; the link atom only after a layer;
      the host only after both. */
  function OniomText(o: OniomInfo): string {
    match o.layer
    case None => []
    case Some(layer) =>
      match o.linkAtom
      case None => layer
      case Some(link) =>
        match o.linkHost
        case None => layer + (" " + link)
        case Some(host) => layer + (" " + (link + (" " + ShowNat(host))))
  }

  /** `atom_oniom_info`: the rest of the line, read as ONIOM information. */
  function AtomOniom(s: string): (r: Parsed<OniomInfo>)
    ensures r.Parsed? && |r.rest| <= |s|
  {
    var line := ReadLine(s);
    Parsed(OniomOf(line.value), line.rest)
  }

  // The atom line.

  /** The characters `is_not("- \t")` accepts. */
  predicate MmTypeChar(c: char) {
    c != '-' && c != ' ' && c != '\t'
  }

  /** `atom_mm_info`: `-` and an MM type, then optionally `-` and an MM
      partial charge. */
  function MmInfo(s: string): (r: Parsed<(string, Option<Numeral>)>)
    ensures r.Parsed? ==> |r.rest| < |s|
  {
    match Tag("-", s)
    case NoParse => NoParse
    case Parsed(_, t) =>
      match Take1(t, MmTypeChar)
      case NoParse => NoParse
      case Parsed(mmType, u) =>
        match Tag("-", u)
        case NoParse => Parsed((mmType, None), u)
        case Parsed(_, v) =>
          match Nom.Double(v)
          case NoParse => Parsed((mmType, None), u)
          case Parsed(q, w) => Parsed((mmType, Some(q)), w)
  }

  /** `atom_param`: `key=value`, both alphanumeric. */
  function AtomParam(s: string): (r: Parsed<(string, string)>)
    ensures r.Parsed? ==> |r.rest| < |s|
  {
    match Alphanumeric1(s)
    case NoParse => NoParse
    case Parsed(key, t) =>
      match Tag("=", t)
      case NoParse => NoParse
      case Parsed(_, u) =>
        match Alphanumeric1(u)
        case NoParse => NoParse
        case Parsed(value, v) => Parsed((key, value), v)
  }

  /** The parameters after the first of `separated_list1(tag(","), atom_param)`. */
  function ParamTail(s: string): (r: Parsed<seq<(string, string)>>)
    ensures r.Parsed? && |r.rest| <= |s|
    decreases |s|
  {
    match Tag(",", s)
    case NoParse => Parsed([], s)
    case Parsed(_, t) =>
      match AtomParam(t)
      case NoParse => Parsed([], s)
      case Parsed(p, u) =>
        var more := ParamTail(u);
        Parsed([p] + more.value, more.rest)
  }

  /** `atom_params`: `(key=value,...)`. */
  function AtomParams(s: string): (r: Parsed<seq<(string, string)>>)
    ensures r.Parsed? ==> r.value != [] && |r.rest| < |s|
  {
    match Tag("(", s)
    case NoParse => NoParse
    case Parsed(_, t) =>
      match AtomParam(t)
      case NoParse => NoParse
      case Parsed(p, u) =>
        var more := ParamTail(u);
        match Tag(")", more.rest)
        case NoParse => NoParse
        case Parsed(_, v) => Parsed([p] + more.value, v)
  }

  /** The parameters collected into a map; a later key overrides an earlier
      one, as `collect` into a `HashMap` does. */
  function ParamMap(ps: seq<(string, string)>): (m: map<string, string>)
    ensures m.Keys == set k | 0 <= k < |ps| :: ps[k].0
  {
    if ps == [] then map[]
    else
      var last := ps[|ps| - 1];
      var m := ParamMap(ps[..|ps| - 1])[last.0 := last.1];
      assert forall k | 0 <= k < |ps| - 1 :: ps[..|ps| - 1][k] == ps[k];
      m
  }

  /** `frozen_code`: an integer followed by blanks. */
  function FrozenCode(s: string): (r: Parsed<int>)
    ensures r.Parsed? ==> |r.rest| < |s|
  {
    match SignedDigit(s)
    case NoParse => NoParse
    case Parsed(f, t) =>
      match Space1(t)
      case NoParse => NoParse
      case Parsed(_, u) => Parsed(f, u)
  }

  /** `atom_line`: blanks, the element label, the optional MM information and
      parameters, blanks, the optional frozen code, the coordinates and the
      ONIOM information on the rest of the line. */
  function AtomLine(s: string): (r: Parsed<GaussianAtomInfo>)
    ensures r.Parsed? ==> |r.rest| < |s|
  {
    match Alphanumeric1(Space0(s))
    case NoParse => NoParse
    case Parsed(elem, t1) =>
      var mm := MmInfo(t1);
      var t2 := if mm.Parsed? then mm.rest else t1;
      var ps := AtomParams(t2);
      var t3 := if ps.Parsed? then ps.rest else t2;
      match Space1(t3)
      case NoParse => NoParse
      case Parsed(_, t4) =>
        var fz := FrozenCode(t4);
        var t5 := if fz.Parsed? then fz.rest else t4;
        match XyzArray(t5)
        case NoParse => NoParse
        case Parsed(position, t6) =>
          var oniom := AtomOniom(t6);
          Parsed(GaussianAtomInfo(
                   elem,
                   if mm.Parsed? then Some(mm.value.0) else None,
                   if mm.Parsed? then mm.value.1 else None,
                   if fz.Parsed? then Some(fz.value) else None,
                   position,
                   if ps.Parsed? then ParamMap(ps.value) else map[],
                   oniom.value),
                 oniom.rest)
  }

  /** `many0(atom_line)`. */
  function MoreAtomLines(s: string): (r: Parsed<seq<GaussianAtomInfo>>)
    ensures r.Parsed? && |r.rest| <= |s|
    decreases |s|
  {
    match AtomLine(s)
    case NoParse => Parsed([], s)
    case Parsed(x, t) =>
      var more := MoreAtomLines(t);
      Parsed([x] + more.value, more.rest)
  }

  /** `many1(atom_line)`. */
  function AtomLines(s: string): (r: Parsed<seq<GaussianAtomInfo>>)
    ensures r.Parsed? ==> r.value != [] && |r.rest| < |s|
  {
    match AtomLine(s)
    case NoParse => NoParse
    case Parsed(x, t) =>
      var more := MoreAtomLines(t);
      Parsed([x] + more.value, more.rest)
  }

  // Connectivity lines.

  /** `bond_item`: blanks, the bonded atom, blanks, the bond order. */
  function BondItem(s: string): (r: Parsed<(nat, Numeral)>)
    ensures r.Parsed? ==> |r.rest| < |s|
  {
    match Space1(s)
    case NoParse => NoParse
    case Parsed(_, t) =>
      match UnsignedDigit(t)
      case NoParse => NoParse
      case Parsed(j, u) =>
        match Space1(u)
        case NoParse => NoParse
        case Parsed(_, v) =>
          match Nom.Double(v)
          case NoParse => NoParse
          case Parsed(o, w) => Parsed((j, o), w)
  }

  /** `many0(bond_item)`. */
  function BondItems(s: string): (r: Parsed<seq<(nat, Numeral)>>)
    ensures r.Parsed? && |r.rest| <= |s|
    decreases |s|
  {
    match BondItem(s)
    case NoParse => Parsed([], s)
    case Parsed(item, t) =>
      var more := BondItems(t);
      Parsed([item] + more.value, more.rest)
  }

  /** A single bond from `host` to each listed atom; the orders are dropped. */
  function HostBonds(host: nat, items: seq<(nat, Numeral)>): (bs: seq<Bond>)
    ensures |bs| == |items|
    ensures forall k | 0 <= k < |items| :: bs[k] == Bond(host, items[k].0, Single)
  {
    seq(|items|, k requires 0 <= k < |items| => Bond(host, items[k].0, Single))
  }

  /** `read_connect_line`: the host atom, its bond items, the end of the line. */
  function ConnectLine(s: string): (r: Parsed<seq<Bond>>)
    ensures r.Parsed? ==> |r.rest| < |s|
  {
    match UnsignedDigit(Space0(s))
    case NoParse => NoParse
    case Parsed(host, t) =>
      var items := BondItems(t);
      match Eol(items.rest)
      case NoParse => NoParse
      case Parsed(_, rest) => Parsed(HostBonds(host, items.value), rest)
  }

  /** `many0(read_connect_line)`, flattened. */
  function MoreConnectLines(s: string): (r: Parsed<seq<Bond>>)
    ensures r.Parsed? && |r.rest| <= |s|
    decreases |s|
  {
    match ConnectLine(s)
    case NoParse => Parsed([], s)
    case Parsed(bs, t) =>
      var more := MoreConnectLines(t);
      Parsed(bs + more.value, more.rest)
  }

  /** `opt(many1(read_connect_line))`, flattened: no bonds when there is no
      connectivity line. */
  function ConnectSection(s: string): (r: Parsed<seq<Bond>>)
    ensures r.Parsed?
  {
    match ConnectLine(s)
    case NoParse => Parsed([], s)
    case Parsed(bs, t) =>
      var more := MoreConnectLines(t);
      Parsed(bs + more.value, more.rest)
  }

  // Building the molecule.

  /** A line labelled `TV` in any case gives a translation vector, not an atom. */
  predicate IsTv(x: GaussianAtomInfo) {
    Upper(x.elementLabel) == "TV"
  }

  /** The atom an atom line gives: `Atom::new` with the line's label and
      position, frozen on all three axes when the frozen code is -1, with the
      line's record attached. */
  function AtomFrom(x: GaussianAtomInfo, core: Core): (a: Atom)
    ensures a.freezing == AllFrozen <==> x.frozenCode == Some(-1)
    ensures a.freezing == AllFrozen || a.freezing == AllFree
    ensures a.symbol == core.standardSymbol(x.elementLabel) && a.position == x.position && a.gaussian == Some(x)
  {
    var a := NewAtom(x.elementLabel, x.position, core);
    a.(freezing := if x.frozenCode == Some(-1) then AllFrozen else a.freezing, gaussian := Some(x))
  }

  /** The positions of the `TV` lines, in order. */
  function TvVectors(xs: seq<GaussianAtomInfo>): seq<Vec3> {
    if xs == [] then []
    else
      var x := xs[|xs| - 1];
      TvVectors(xs[..|xs| - 1]) + (if IsTv(x) then [x.position] else [])
  }

  /** The atoms of the other lines, in order. */
  function SpecAtoms(xs: seq<GaussianAtomInfo>, core: Core): seq<Atom> {
    if xs == [] then []
    else
      var x := xs[|xs| - 1];
      SpecAtoms(xs[..|xs| - 1], core) + (if IsTv(x) then [] else [AtomFrom(x, core)])
  }

  /** A lattice from exactly three translation vectors, none otherwise. */
  function LatticeOf(vs: seq<Vec3>): (lat: Option<Lattice>)
    ensures lat.Some? <==> |vs| == 3
  {
    if |vs| == 3 then Some(Lattice(vs[0], vs[1], vs[2])) else None
  }

  /** The molecule `parse_molecule_specs` builds: the non-`TV` atoms numbered
      from 1, the lattice of the `TV` lines, the bonds in the order read. */
  function SpecMolecule(xs: seq<GaussianAtomInfo>, bonds: seq<Bond>, core: Core): Molecule {
    Molecule(DefaultTitle, PutSites([], NumberFrom(1, SpecAtoms(xs, core))), bonds, LatticeOf(TvVectors(xs)))
  }

  /** Every line is either a translation vector or an atom, and no atom
      comes from a `TV` line. */
  lemma {:induction false} TvSplit(xs: seq<GaussianAtomInfo>, core: Core)
    ensures |TvVectors(xs)| + |SpecAtoms(xs, core)| == |xs|
    ensures forall k | 0 <= k < |SpecAtoms(xs, core)| ::
      SpecAtoms(xs, core)[k].gaussian.Some? && !IsTv(SpecAtoms(xs, core)[k].gaussian.value)
    decreases |xs|
  {
    if xs != [] {
      TvSplit(xs[..|xs| - 1], core);
    }
  }

  /** The assembled molecule: atoms numbered from 1, one per non-`TV` line,
      none of them a `TV` atom, and a lattice exactly when there are three
      `TV` lines. */
  lemma SpecMoleculeShape(xs: seq<GaussianAtomInfo>, bonds: seq<Bond>, core: Core)
    ensures Numbered(SpecMolecule(xs, bonds, core).sites)
    ensures |SpecMolecule(xs, bonds, core).sites| == |SpecAtoms(xs, core)|
    ensures |SpecMolecule(xs, bonds, core).sites| + |TvVectors(xs)| == |xs|
    ensures forall k | 0 <= k < |SpecMolecule(xs, bonds, core).sites| ::
      SpecMolecule(xs, bonds, core).sites[k].atom == SpecAtoms(xs, core)[k]
    ensures forall k | 0 <= k < |SpecMolecule(xs, bonds, core).sites| ::
      SpecMolecule(xs, bonds, core).sites[k].atom.gaussian.Some?
      && !IsTv(SpecMolecule(xs, bonds, core).sites[k].atom.gaussian.value)
    ensures SpecMolecule(xs, bonds, core).lattice.Some? <==> |TvVectors(xs)| == 3
  {
    AddNumbered([], SpecAtoms(xs, core));
    TvSplit(xs, core);
  }

  /** The loop of `parse_molecule_specs` for one more line. */
  lemma SpecStep(xs: seq<GaussianAtomInfo>, k: nat, core: Core)
    requires k < |xs|
    ensures TvVectors(xs[..k + 1]) == TvVectors(xs[..k]) + (if IsTv(xs[k]) then [xs[k].position] else [])
    ensures SpecAtoms(xs[..k + 1], core) == SpecAtoms(xs[..k], core) + (if IsTv(xs[k]) then [] else [AtomFrom(xs[k], core)])
  {
    assert xs[..k + 1][..k] == xs[..k];
  }

  /** The body of `parse_molecule_specs`: each `TV` line's position is pushed
      onto the translation vectors, every other line becomes an atom; the
      atoms are added numbered from 1, the lattice is set from exactly three
      vectors, and the bonds are added one by one. */
  method BuildMolecule(xs: seq<GaussianAtomInfo>, bonds: seq<Bond>, core: Core) returns (mol: Molecule)
    ensures mol == SpecMolecule(xs, bonds, core)
  {
    var latVectors: seq<Vec3> := [];
    var atoms: seq<Atom> := [];
    var k := 0;
    while k < |xs|
      invariant 0 <= k <= |xs|
      invariant latVectors == TvVectors(xs[..k])
      invariant atoms == SpecAtoms(xs[..k], core)
    {
      var x := xs[k];
      SpecStep(xs, k, core);
      if Upper(x.elementLabel) == "TV" {
        latVectors := latVectors + [x.position];
      } else {
        var a := NewAtom(x.elementLabel, x.position, core);
        if x.frozenCode.Some? && x.frozenCode.value == -1 {
          a := a.(freezing := AllFrozen);
        }
        a := a.(gaussian := Some(x));
        atoms := atoms + [a];
      }
      k := k + 1;
    }
    assert xs[..k] == xs;
    mol := Molecule(DefaultTitle, PutSites([], NumberFrom(1, atoms)), [], None);
    if |latVectors| == 3 {
      mol := mol.(lattice := Some(Lattice(latVectors[0], latVectors[1], latVectors[2])));
    }
    var i := 0;
    while i < |bonds|
      invariant 0 <= i <= |bonds|
      invariant mol == SpecMolecule(xs, bonds[..i], core)
    {
      assert bonds[..i + 1] == bonds[..i] + [bonds[i]];
      mol := mol.(bonds := mol.bonds + [bonds[i]]);
      i := i + 1;
    }
    assert bonds[..i] == bonds;
  }

  /** `parse_molecule_specs`: charge and spin, the atom lines, a blank line
      and the optional connectivity lines. */
  function MoleculeSpecs(s: string, core: Core): (r: Parsed<Molecule>)
  {
    match ChargeAndSpin(s)
    case NoParse => NoParse
    case Parsed(_, t1) =>
      match AtomLines(t1)
      case NoParse => NoParse
      case Parsed(xs, t2) =>
        match BlankLine(t2)
        case NoParse => NoParse
        case Parsed(_, t3) =>
          var bonds := ConnectSection(t3);
          Parsed(SpecMolecule(xs, bonds.value, core), bonds.rest)
  }

  /** Stands for the text of nom's error, which is not modelled. */
  const NomError := "nom parsing error"

  /** `parse_molecule`: the title section, then the molecule specification
      with every comma read as a blank; the title is set last. */
  function ParseMolecule(s: string, core: Core): (r: Result<Molecule>)
    ensures r.Ok? <==> MoleculeMeta(s).Parsed? && MoleculeSpecs(ReplaceChar(MoleculeMeta(s).rest, ',', ' '), core).Parsed?
    ensures r.Ok? ==> r.value.title == MoleculeMeta(s).value
  {
    match MoleculeMeta(s)
    case NoParse => Err(NomError)
    case Parsed(title, r) =>
      match MoleculeSpecs(ReplaceChar(r, ',', ' '), core)
      case NoParse => Err("parsing gaussian input molecule specification failure")
      case Parsed(mol, _) => Ok(mol.(title := title))
  }

  // Writing.

  /** The frozen code `format_atom` writes: -1 when all three axes are
      frozen, 0 otherwise. */
  function FrozenCodeOf(f: Flags3): int {
    if f == AllFrozen then -1 else 0
  }

  /** The ONIOM part of an atom line: a blank and the ONIOM information when
      the atom carries a Gaussian record, nothing otherwise. */
  function OniomTail(a: Atom): string {
    match a.gaussian
    case None => []
    case Some(x) => " " + OniomText(x.oniom)
  }

  /** `format_atom` without its line break:
      ` {symbol:15} {fcode:2} {x:14.8} {y:14.8} {z:14.8}`, then the ONIOM part. */
  function AtomRow(a: Atom): string {
    " " + (PadRight(a.symbol, 15) + (" " + (PadLeft(ShowInt(FrozenCodeOf(a.freezing)), 2)
      + (" " + (PadLeft(a.position.x, 14) + (" " + (PadLeft(a.position.y, 14)
      + (" " + (PadLeft(a.position.z, 14) + OniomTail(a))))))))))
  }

  function AtomRows(sites: seq<Site>): (rows: seq<string>)
    ensures |rows| == |sites|
    ensures forall k | 0 <= k < |sites| :: rows[k] == AtomRow(sites[k].atom)
  {
    seq(|sites|, k requires 0 <= k < |sites| => AtomRow(sites[k].atom))
  }

  /** ` TV              {:14.8}{:14.8}{:14.8}`: one cell vector. */
  function TvRow(v: Vec3): string {
    " TV              " + (PadLeft(v.x, 14) + (PadLeft(v.y, 14) + PadLeft(v.z, 14)))
  }

  function TvRowsOf(vs: seq<Vec3>): (rows: seq<string>)
    ensures |rows| == |vs|
    ensures forall k | 0 <= k < |vs| :: rows[k] == TvRow(vs[k])
  {
    seq(|vs|, k requires 0 <= k < |vs| => TvRow(vs[k]))
  }

  /** The three cell vectors of a periodic molecule, none otherwise. */
  function TvRows(lattice: Option<Lattice>): (rows: seq<string>)
    ensures |rows| == (if lattice.Some? then 3 else 0)
  {
    match lattice
    case None => []
    case Some(lat) => TvRowsOf([lat.va, lat.vb, lat.vc])
  }

  /** The bonded atoms and bond orders listed after atom `i`: one for each
      bond whose first atom is `i`, in bond order. */
  function Neighbours(bonds: seq<Bond>, i: nat, core: Core): (ns: seq<(nat, Numeral)>)
    ensures |ns| <= |bonds|
  {
    if bonds == [] then []
    else
      var b := bonds[|bonds| - 1];
      Neighbours(bonds[..|bonds| - 1], i, core) + (if b.i == i then [(b.j, core.bondOrder(b.kind))] else [])
  }

  /** ` {j} {order:.1}`: one bond item. */
  function ItemText(item: (nat, Numeral)): string {
    " " + (ShowNat(item.0) + (" " + item.1))
  }

  function ItemsText(items: seq<(nat, Numeral)>): string {
    if items == [] then [] else ItemText(items[0]) + ItemsText(items[1..])
  }

  /** A connectivity line: the atom's serial number as `{:<5}`, then its
      bond items. */
  function ConnectRow(i: nat, items: seq<(nat, Numeral)>): string {
    PadRight(ShowNat(i), 5) + ItemsText(items)
  }

  /** One connectivity line for every atom, in atom order, whether or not it
      has bonds. */
  function ConnectRows(sites: seq<Site>, bonds: seq<Bond>, core: Core): (rows: seq<string>)
    ensures |rows| == |sites|
    ensures forall k | 0 <= k < |sites| :: rows[k] == ConnectRow(sites[k].sn, Neighbours(bonds, sites[k].sn, core))
  {
    seq(|sites|, k requires 0 <= k < |sites| => ConnectRow(sites[k].sn, Neighbours(bonds, sites[k].sn, core)))
  }

  /** The fixed Link 0 commands, route, title and charge and spin. */
  function HeadRows(): seq<string> {
    ["%nproc=1", "%mem=20MW", "#p sp scf=tight HF/3-21G* geom=connect test", "",
     "Title Card Required", "", "0 1"]
  }

  /** What `format_molecule` writes: the fixed head, the atoms, the cell
      vectors of a periodic molecule, a blank line, the connectivity and a
      closing blank line. */
  function GaussianRows(mol: Molecule, core: Core): seq<string> {
    HeadRows() + AtomRows(mol.sites) + TvRows(mol.lattice) + [""] + ConnectRows(mol.sites, mol.bonds, core) + [""]
  }

  function GaussianText(mol: Molecule, core: Core): string {
    Terminate(GaussianRows(mol, core), "\n")
  }

  /** The neighbour lists of the bonds seen so far, as the map of
      `format_molecule` holds them. */
  ghost predicate NeighbourMap(m: map<nat, seq<(nat, Numeral)>>, bonds: seq<Bond>, core: Core) {
    forall i: nat :: (i in m <==> Neighbours(bonds, i, core) != []) && (i in m ==> m[i] == Neighbours(bonds, i, core))
  }

  /** `map.entry(i).or_insert(vec![]).push((j, b.order()))` for one more bond. */
  lemma MapStep(m: map<nat, seq<(nat, Numeral)>>, bonds: seq<Bond>, k: nat, core: Core,
                m': map<nat, seq<(nat, Numeral)>>)
    requires k < |bonds| && NeighbourMap(m, bonds[..k], core)
    requires m' == var item := (bonds[k].j, core.bondOrder(bonds[k].kind));
                   if bonds[k].i in m then m[bonds[k].i := m[bonds[k].i] + [item]] else m[bonds[k].i := [item]]
    ensures NeighbourMap(m', bonds[..k + 1], core)
  {
    assert bonds[..k + 1][..k] == bonds[..k];
  }

  /** One more bond item on a connectivity line. */
  lemma ItemsSnoc(items: seq<(nat, Numeral)>, k: nat)
    requires k < |items|
    ensures ItemsText(items[..k + 1]) == ItemsText(items[..k]) + ItemText(items[k])
  {
    ItemsAppend(items[..k], items[k]);
    assert items[..k + 1] == items[..k] + [items[k]];
  }

  lemma {:induction false} ItemsAppend(items: seq<(nat, Numeral)>, item: (nat, Numeral))
    ensures ItemsText(items + [item]) == ItemsText(items) + ItemText(item)
    decreases |items|
  {
    if items == [] {
      assert [] + [item] == [item] + [];
      ItemsConsOf(item, [], ItemText(item), []);
    } else {
      ItemsAppend(items[1..], item);
      assert items + [item] == [items[0]] + (items[1..] + [item]);
      ItemsConsOf(items[0], items[1..] + [item], ItemText(items[0]), ItemsText(items[1..]) + ItemText(item));
      AppendAssoc(ItemText(items[0]), ItemsText(items[1..]), ItemText(item));
    }
  }

  /** Writes one connectivity line: the serial number, then each bond item
      in turn. */
  method FormatConnect(i: nat, m: map<nat, seq<(nat, Numeral)>>) returns (line: string)
    ensures line == ConnectRow(i, if i in m then m[i] else [])
  {
    line := PadRight(ShowNat(i), 5);
    if i in m {
      var ns := m[i];
      var k := 0;
      while k < |ns|
        invariant 0 <= k <= |ns|
        invariant line == PadRight(ShowNat(i), 5) + ItemsText(ns[..k])
      {
        ItemsSnoc(ns, k);
        line := line + ItemText(ns[k]);
        k := k + 1;
      }
      assert ns[..k] == ns;
    } else {
      assert ItemsText([]) == [];
    }
  }

  /** One more atom row. */
  lemma AtomRowsSnoc(sites: seq<Site>, i: nat)
    requires i < |sites|
    ensures AtomRows(sites[..i + 1]) == AtomRows(sites[..i]) + [AtomRow(sites[i].atom)]
  {
  }

  /** One more connectivity row. */
  lemma ConnectRowsSnoc(sites: seq<Site>, bonds: seq<Bond>, core: Core, m: map<nat, seq<(nat, Numeral)>>, n: nat)
    requires n < |sites| && NeighbourMap(m, bonds, core)
    ensures ConnectRows(sites[..n + 1], bonds, core)
      == ConnectRows(sites[..n], bonds, core) + [ConnectRow(sites[n].sn, if sites[n].sn in m then m[sites[n].sn] else [])]
  {
    var sn := sites[n].sn;
    assert sn in m <==> Neighbours(bonds, sn, core) != [];
  }

  /** Writes the cell vectors of a lattice. */
  method FormatTv(lat: Lattice) returns (text: string)
    ensures text == Terminate(TvRows(Some(lat)), "\n")
  {
    var vs := [lat.va, lat.vb, lat.vc];
    text := [];
    var k := 0;
    while k < 3
      invariant 0 <= k <= 3
      invariant text == Terminate(TvRowsOf(vs[..k]), "\n")
    {
      assert TvRowsOf(vs[..k + 1]) == TvRowsOf(vs[..k]) + [TvRow(vs[k])];
      TerminateSnoc(TvRowsOf(vs[..k]), TvRow(vs[k]));
      text := text + TvRow(vs[k]) + "\n";
      k := k + 1;
    }
    assert vs[..k] == vs;
  }

  /** Writes the atom lines. */
  method FormatAtoms(sites: seq<Site>) returns (text: string)
    ensures text == Terminate(AtomRows(sites), "\n")
  {
    text := [];
    var i := 0;
    while i < |sites|
      invariant 0 <= i <= |sites|
      invariant text == Terminate(AtomRows(sites[..i]), "\n")
    {
      var row := AtomRow(sites[i].atom);
      AtomRowsSnoc(sites, i);
      TerminateSnoc(AtomRows(sites[..i]), row);
      text := text + row + "\n";
      i := i + 1;
    }
    assert sites[..i] == sites;
  }

  /** The connectivity part of `format_molecule`: the neighbour lists
      gathered in a map, then one line for every atom. */
  method FormatConnectivity(sites: seq<Site>, bonds: seq<Bond>, core: Core) returns (text: string)
    ensures text == Terminate(ConnectRows(sites, bonds, core), "\n")
  {
    var m: map<nat, seq<(nat, Numeral)>> := map[];
    var k := 0;
    while k < |bonds|
      invariant 0 <= k <= |bonds|
      invariant NeighbourMap(m, bonds[..k], core)
    {
      var b := bonds[k];
      var item := (b.j, core.bondOrder(b.kind));
      var m' := if b.i in m then m[b.i := m[b.i] + [item]] else m[b.i := [item]];
      MapStep(m, bonds, k, core, m');
      m := m';
      k := k + 1;
    }
    assert bonds[..k] == bonds;
    text := [];
    var n := 0;
    while n < |sites|
      invariant 0 <= n <= |sites|
      invariant text == Terminate(ConnectRows(sites[..n], bonds, core), "\n")
    {
      var line := FormatConnect(sites[n].sn, m);
      ConnectRowsSnoc(sites, bonds, core, m, n);
      TerminateSnoc(ConnectRows(sites[..n], bonds, core), line);
      text := text + line + "\n";
      n := n + 1;
    }
    assert sites[..n] == sites;
  }

  /** Rows written part by part, with a blank line after the third and
      after the fourth part. */
  lemma TerminateParts(h: seq<string>, a: seq<string>, t: seq<string>, c: seq<string>)
    ensures Terminate(h + a + t + [""] + c + [""], "\n")
      == Terminate(h, "\n") + Terminate(a, "\n") + Terminate(t, "\n") + "\n" + Terminate(c, "\n") + "\n"
  {
    TerminateAppend(h, a);
    TerminateAppend(h + a, t);
    TerminateSnoc(h + a + t, "");
    TerminateAppend(h + a + t + [""], c);
    TerminateSnoc(h + a + t + [""] + c, "");
  }

  /** `format_molecule`: the fixed head, the atoms, the cell vectors of a
      periodic molecule, a blank line, the connectivity and a blank line. */
  method FormatMolecule(mol: Molecule, core: Core) returns (lines: string)
    ensures lines == GaussianText(mol, core)
  {
    var head := JoinLines(HeadRows());
    var atoms := FormatAtoms(mol.sites);
    var cell := [];
    if mol.lattice.Some? {
      cell := FormatTv(mol.lattice.value);
    }
    assert cell == Terminate(TvRows(mol.lattice), "\n");
    var bonds := FormatConnectivity(mol.sites, mol.bonds, core);
    lines := head + atoms + cell + "\n" + bonds + "\n";
    TerminateParts(HeadRows(), AtomRows(mol.sites), TvRows(mol.lattice), ConnectRows(mol.sites, mol.bonds, core));
  }

  // Reading back what is written: ONIOM information.

  /** A single word: visible characters only. */
  predicate IsWord(w: string) {
    w != [] && All(w, NotWhite)
  }

  /** ONIOM information `Display` writes in full: no link atom without a
      layer, no host without a link atom, and layer and link atom single
      words. */
  predicate OniomWritable(o: OniomInfo) {
    (o.linkAtom.Some? ==> o.layer.Some?) && (o.linkHost.Some? ==> o.linkAtom.Some?)
    && (o.layer.Some? ==> IsWord(o.layer.value)) && (o.linkAtom.Some? ==> IsWord(o.linkAtom.value))
  }

  lemma DigitsNotWhite(d: string)
    requires All(d, IsDigit)
    ensures All(d, NotWhite)
  {
  }

  /** The words of the written ONIOM text. */
  lemma OniomWords(o: OniomInfo)
    requires OniomWritable(o)
    ensures Words(OniomText(o)) ==
      (if o.layer.None? then []
       else if o.linkAtom.None? then [o.layer.value]
       else if o.linkHost.None? then [o.layer.value, o.linkAtom.value]
       else [o.layer.value, o.linkAtom.value, ShowNat(o.linkHost.value)])
  {
    WordsOfWhite([]);
    if o.layer.Some? {
      var l := o.layer.value;
      if o.linkAtom.None? {
        WordsCons([], l, []);
        assert [] + (l + []) == l;
      } else {
        var k := o.linkAtom.value;
        if o.linkHost.None? {
          WordsCons(" ", k, []);
          assert " " + (k + []) == " " + k;
          WordsCons([], l, " " + k);
          assert [] + (l + (" " + k)) == l + (" " + k);
        } else {
          var h := ShowNat(o.linkHost.value);
          DigitsNotWhite(h);
          WordsCons(" ", h, []);
          assert " " + (h + []) == " " + h;
          WordsCons(" ", k, " " + h);
          WordsCons([], l, " " + (k + (" " + h)));
          assert [] + (l + (" " + (k + (" " + h)))) == l + (" " + (k + (" " + h)));
        }
      }
    }
  }

  /** Writing ONIOM information and reading it back gives it back, for
      every value `Display` writes in full. */
  lemma OniomRoundTrip(o: OniomInfo)
    requires OniomWritable(o)
    ensures OniomOf(OniomText(o)) == o
  {
    OniomWords(o);
    if o.linkHost.Some? {
      ParseShowNat(o.linkHost.value);
    }
  }

  /** A link atom without a layer, or a host without a link atom, is not
      written, so it does not come back. */
  lemma OniomHostLost(link: string)
    requires IsWord(link)
    ensures OniomOf(OniomText(OniomInfo(None, Some(link), Some(3)))) == OniomInfo(None, None, None)
  {
    WordsOfWhite([]);
  }

  /** Blanks before the ONIOM text do not change it. */
  lemma OniomLead(ws: string, t: string)
    requires All(ws, IsWhite)
    requires t == [] || NotWhite(t[0])
    ensures OniomOf(ws + t) == OniomOf(t)
  {
    TrimStartOf(ws, t);
    TrimStartOf([], t);
    assert [] + t == t;
  }

  /** The full ONIOM information of the unit test at the end of an atom line. */
  lemma OniomFullExample()
    ensures AtomOniom(" L H-Ha-0.1 3\n") == Parsed(OniomInfo(Some("L"), Some("H-Ha-0.1"), Some(3)), [])
  {
    var o := OniomInfo(Some("L"), Some("H-Ha-0.1"), Some(3));
    var t := "L H-Ha-0.1 3";
    OniomFullText(o, t);
    assert '\n' !in " " + t;
    ReadLineOf(" " + t, []);
    OniomLead(" ", t);
    OniomRoundTrip(o);
  }

  lemma OniomFullText(o: OniomInfo, t: string)
    requires o == OniomInfo(Some("L"), Some("H-Ha-0.1"), Some(3))
    requires t == "L H-Ha-0.1 3"
    ensures OniomWritable(o) && OniomText(o) == t && t[0] == 'L'
    ensures " " + t + ("\n" + []) == " L H-Ha-0.1 3\n"
  {
    LinkWord();
    assert ShowNat(3) == "3";
    assert "H-Ha-0.1" + (" " + "3") == "H-Ha-0.1 3";
  }

  lemma LinkWord()
    ensures IsWord("H-Ha-0.1")
  {
  }

  /** A layer alone, as in the second unit test. */
  lemma OniomLayerExample()
    ensures AtomOniom(" L\n") == Parsed(OniomInfo(Some("L"), None, None), [])
  {
    var o := OniomInfo(Some("L"), None, None);
    ReadLineOf(" L", []);
    assert " L" + ("\n" + []) == " L\n";
    assert OniomText(o) == "L";
    OniomLead(" ", "L");
    OniomRoundTrip(o);
  }

  // The unit tests of the atom-line and connectivity grammars.

  lemma ChargeNumeral()
    ensures IsNumeral("-0.25")
  {
    DecimalText("0", "25", "0.25");
    assert SignLen("0.25") == 0;
    NegateNumeral("0.25");
    assert "-" + "0.25" == "-0.25";
  }

  /** An MM type and a charge read back. */
  lemma MmInfoOf(mmType: string, q: Numeral, rest: string)
    requires mmType != [] && All(mmType, MmTypeChar)
    requires IsNumeral(q) && StopsFloat(rest)
    ensures MmInfo("-" + (mmType + ("-" + (q + rest)))) == Parsed((mmType, Some(q)), rest)
  {
    TagOf("-", mmType + ("-" + (q + rest)));
    Take1Of(mmType, "-" + (q + rest), MmTypeChar);
    TagOf("-", q + rest);
    DoubleBefore(q, rest);
  }

  /** An MM type without a charge read back. */
  lemma MmTypeOf(mmType: string, rest: string)
    requires mmType != [] && All(mmType, MmTypeChar)
    requires rest == [] || (!MmTypeChar(rest[0]) && rest[0] != '-')
    ensures MmInfo("-" + (mmType + rest)) == Parsed((mmType, None), rest)
  {
    TagOf("-", mmType + rest);
    Take1Of(mmType, rest, MmTypeChar);
  }

  /** `-CA--0.25` is the MM type `CA` with the MM charge -0.25. */
  lemma MmInfoWithCharge()
    ensures MmInfo("-CA--0.25") == Parsed(("CA", Some("-0.25")), [])
  {
    MmChargeLine();
    assert All("CA", MmTypeChar);
    ChargeNumeral();
    MmInfoOf("CA", "-0.25", []);
  }

  lemma MmChargeLine()
    ensures "-" + ("CA" + ("-" + ("-0.25" + []))) == "-CA--0.25"
  {
    assert "-0.25" + [] == "-0.25";
    assert "-" + "-0.25" == "--0.25";
    assert "CA" + "--0.25" == "CA--0.25";
  }

  /** `-CA` is the MM type `CA` without a charge. */
  lemma MmInfoWithoutCharge()
    ensures MmInfo("-CA") == Parsed(("CA", None), [])
  {
    MmTypeOf("CA", []);
    assert "-" + ("CA" + []) == "-CA";
  }

  /** Parameters as `key=value` items separated by commas. */
  function ParamsText(ps: seq<(string, string)>): string
    requires ps != []
  {
    ps[0].0 + ("=" + (ps[0].1 + ParamsRest(ps[1..])))
  }

  /** The items after the first, each after a comma. */
  function ParamsRest(ps: seq<(string, string)>): string
  {
    if ps == [] then [] else "," + (ps[0].0 + ("=" + (ps[0].1 + ParamsRest(ps[1..]))))
  }

  /** Parameters whose keys and values are alphanumeric words. */
  predicate ParamsWritable(ps: seq<(string, string)>) {
    forall k | 0 <= k < |ps| ::
      ps[k].0 != [] && All(ps[k].0, IsAlnum) && ps[k].1 != [] && All(ps[k].1, IsAlnum)
  }

  lemma AtomParamOf(key: string, value: string, rest: string)
    requires key != [] && All(key, IsAlnum) && value != [] && All(value, IsAlnum)
    requires rest == [] || !IsAlnum(rest[0])
    ensures AtomParam(key + ("=" + (value + rest))) == Parsed((key, value), rest)
  {
    Take1Of(key, "=" + (value + rest), IsAlnum);
    TagOf("=", value + rest);
    Take1Of(value, rest, IsAlnum);
  }

  /** One more parameter after a comma. */
  lemma ParamStep(key: string, value: string, t: string)
    requires key != [] && All(key, IsAlnum) && value != [] && All(value, IsAlnum)
    requires t == [] || !IsAlnum(t[0])
    ensures ParamTail("," + (key + ("=" + (value + t))))
      == Parsed([(key, value)] + ParamTail(t).value, ParamTail(t).rest)
  {
    AtomParamOf(key, value, t);
    TagOf(",", key + ("=" + (value + t)));
  }

  lemma ParamsTextShape(ps: seq<(string, string)>, rest: string)
    requires ps != []
    ensures ParamsText(ps) + rest == ps[0].0 + ("=" + (ps[0].1 + (ParamsRest(ps[1..]) + rest)))
  {
  }

  lemma ParamsRestCons(key: string, value: string, qs: seq<(string, string)>, rest: string)
    ensures ParamsRest([(key, value)] + qs) + rest == "," + (key + ("=" + (value + (ParamsRest(qs) + rest))))
  {
    assert ([(key, value)] + qs)[1..] == qs;
  }

  lemma ParamsRestFirst(ps: seq<(string, string)>, rest: string)
    requires rest == [] || rest[0] == ')'
    ensures ParamsRest(ps) + rest == [] || (ParamsRest(ps) + rest)[0] == ',' || (ParamsRest(ps) + rest)[0] == ')'
  {
  }

  lemma ParamStepOf(key: string, value: string, t: string, qs: seq<(string, string)>, rest: string)
    requires key != [] && All(key, IsAlnum) && value != [] && All(value, IsAlnum)
    requires t == [] || !IsAlnum(t[0])
    requires ParamTail(t) == Parsed(qs, rest)
    ensures ParamTail("," + (key + ("=" + (value + t)))) == Parsed([(key, value)] + qs, rest)
  {
    ParamStep(key, value, t);
  }

  /** One more parameter in front of parameters that read back. */
  lemma ParamTailCons(key: string, value: string, qs: seq<(string, string)>, rest: string)
    requires key != [] && All(key, IsAlnum) && value != [] && All(value, IsAlnum)
    requires rest == [] || rest[0] == ')'
    requires ParamTail(ParamsRest(qs) + rest) == Parsed(qs, rest)
    ensures ParamTail(ParamsRest([(key, value)] + qs) + rest) == Parsed([(key, value)] + qs, rest)
  {
    var t := ParamsRest(qs) + rest;
    ParamsRestCons(key, value, qs, rest);
    ParamsRestFirst(qs, rest);
    ParamStepOf(key, value, t, qs, rest);
  }

  /** The parameters after the first read back, up to the closing `)`. */
  lemma {:induction false} ParamTailOf(ps: seq<(string, string)>, rest: string)
    requires ParamsWritable(ps)
    requires rest == [] || rest[0] == ')'
    ensures ParamTail(ParamsRest(ps) + rest) == Parsed(ps, rest)
    decreases |ps|
  {
    if ps == [] {
      assert [] + rest == rest;
    } else {
      ParamTailOf(ps[1..], rest);
      ParamTailCons(ps[0].0, ps[0].1, ps[1..], rest);
      assert ps == [(ps[0].0, ps[0].1)] + ps[1..];
    }
  }

  /** The first parameter after `(`, then the others and `)`. */
  lemma ParamsOpen(key: string, value: string, qs: seq<(string, string)>, rest: string)
    requires key != [] && All(key, IsAlnum) && value != [] && All(value, IsAlnum)
    requires ParamTail(ParamsRest(qs) + (")" + rest)) == Parsed(qs, ")" + rest)
    ensures AtomParams("(" + (ParamsText([(key, value)] + qs) + (")" + rest))) == Parsed([(key, value)] + qs, rest)
  {
    var t := ParamsRest(qs) + (")" + rest);
    var body := ParamsText([(key, value)] + qs) + (")" + rest);
    FirstParamRead(key, value, qs, ")" + rest);
    TagOf("(", body);
    TagOf(")", rest);
    AtomParamsFrom("(" + body, body, (key, value), t, qs, ")" + rest, rest);
  }

  /** The first parameter is read up to the comma or `)` after it. */
  lemma FirstParamRead(key: string, value: string, qs: seq<(string, string)>, r: string)
    requires key != [] && All(key, IsAlnum) && value != [] && All(value, IsAlnum)
    requires r == [] || r[0] == ')'
    ensures AtomParam(ParamsText([(key, value)] + qs) + r) == Parsed((key, value), ParamsRest(qs) + r)
  {
    var ps := [(key, value)] + qs;
    assert ps[1..] == qs;
    ParamsRestFirst(qs, r);
    ParamsTextShape(ps, r);
    AtomParamOf(key, value, ParamsRest(qs) + r);
  }

  /** `read_atom_params` from the results of its parts. */
  lemma AtomParamsFrom(s: string, t: string, p: (string, string), u: string,
                       qs: seq<(string, string)>, r: string, rest: string)
    requires Tag("(", s) == Parsed("(", t)
    requires AtomParam(t) == Parsed(p, u)
    requires ParamTail(u) == Parsed(qs, r)
    requires Tag(")", r) == Parsed(")", rest)
    ensures AtomParams(s) == Parsed([p] + qs, rest)
  {
  }

  /** Parameters written as `(key=value,...)` read back in order. */
  lemma AtomParamsOf(ps: seq<(string, string)>, rest: string)
    requires ps != [] && ParamsWritable(ps)
    ensures AtomParams("(" + (ParamsText(ps) + (")" + rest))) == Parsed(ps, rest)
  {
    ParamTailOf(ps[1..], ")" + rest);
    ParamsOpen(ps[0].0, ps[0].1, ps[1..], rest);
    assert ps == [(ps[0].0, ps[0].1)] + ps[1..];
  }

  /** `fragment=1 ` is the parameter `fragment` with the value `1`. */
  lemma AtomParamExample()
    ensures AtomParam("fragment=1 ") == Parsed(("fragment", "1"), " ")
  {
    AtomParamOf("fragment", "1", " ");
    assert "fragment" + ("=" + ("1" + " ")) == "fragment=1 ";
  }
  // Reading the connectivity lines back.

  /** Bond orders that read back as numbers. */
  predicate OrdersWritable(items: seq<(nat, Numeral)>) {
    forall k | 0 <= k < |items| :: IsNumeral(items[k].1)
  }

  lemma BondItemFrom(s: string, a: string, t: string, j: nat, u: string, b: string, v: string, o: Numeral, w: string)
    requires Space1(s) == Parsed(a, t) && UnsignedDigit(t) == Parsed(j, u)
    requires Space1(u) == Parsed(b, v) && Nom.Double(v) == Parsed(o, w)
    ensures BondItem(s) == Parsed((j, o), w)
  {
  }

  /** Blanks, then text that does not start with one. */
  lemma Space1Before(g: string, rest: string)
    requires g != [] && All(g, IsBlank)
    requires rest != [] && NotWhite(rest[0])
    ensures Space1(g + rest) == Parsed(g, rest)
  {
    Take1Of(g, rest, IsBlank);
  }

  /** One bond item, after any number of blanks, reads back. */
  lemma BondItemOf(g: string, j: nat, o: Numeral, t: string)
    requires All(g, IsBlank) && IsNumeral(o)
    requires t == [] || IsWhite(t[0])
    ensures BondItem(g + (" " + (ShowNat(j) + (" " + (o + t))))) == Parsed((j, o), t)
  {
    var d := ShowNat(j);
    var v := o + t;
    var u := " " + v;
    var s1 := d + u;
    var s := g + (" " + s1);
    assert s == (g + " ") + s1;
    assert NotWhite(s1[0]) by {
      assert s1[0] == d[0];
    }
    Space1Before(g + " ", s1);
    UnsignedDigitOf(j, u);
    assert NotWhite(v[0]) by {
      NumeralNotWhite(o);
      assert v[0] == o[0];
    }
    Space1Before(" ", v);
    DoubleOf(o, t);
    BondItemFrom(s, g + " ", s1, j, u, " ", v, o, t);
  }

  lemma BondItemsStep(s: string, item: (nat, Numeral), t: string)
    requires BondItem(s) == Parsed(item, t)
    ensures BondItems(s) == Parsed([item] + BondItems(t).value, BondItems(t).rest)
  {
  }

  /** No bond item is left: the line ends after the blanks. */
  lemma NoBondItem(g: string, rest: string)
    requires All(g, IsBlank)
    ensures BondItems(g + ("\n" + rest)) == Parsed([], g + ("\n" + rest))
    ensures Eol(g + ("\n" + rest)) == Parsed("\n", rest)
  {
    if g != [] {
      Take1Of(g, "\n" + rest, IsBlank);
    }
    Space0Of(g, "\n" + rest);
  }

  lemma ItemsTextFirst(items: seq<(nat, Numeral)>, rest: string)
    ensures (ItemsText(items) + ("\n" + rest))[0] == ' ' || (ItemsText(items) + ("\n" + rest))[0] == '\n'
  {
  }

  lemma ItemsTextCons(items: seq<(nat, Numeral)>, t: string)
    requires items != []
    ensures ItemsText(items) + t
      == " " + (ShowNat(items[0].0) + (" " + (items[0].1 + (ItemsText(items[1..]) + t))))
  {
  }

  /** The bond items written after the host read back in order, and the line
      ends after them. */
  lemma {:induction false} BondItemsOf(g: string, items: seq<(nat, Numeral)>, rest: string)
    requires All(g, IsBlank) && OrdersWritable(items)
    ensures BondItems(g + (ItemsText(items) + ("\n" + rest))).value == items
    ensures Eol(BondItems(g + (ItemsText(items) + ("\n" + rest))).rest) == Parsed("\n", rest)
    decreases |items|
  {
    if items == [] {
      assert g + (ItemsText(items) + ("\n" + rest)) == g + ("\n" + rest);
      NoBondItem(g, rest);
    } else {
      BondItemsOf([], items[1..], rest);
      BondItemsCons(g, items, rest);
    }
  }

  /** One more bond item in front of items that read back. */
  lemma BondItemsCons(g: string, items: seq<(nat, Numeral)>, rest: string)
    requires All(g, IsBlank) && items != [] && IsNumeral(items[0].1)
    requires BondItems([] + (ItemsText(items[1..]) + ("\n" + rest))).value == items[1..]
    requires Eol(BondItems([] + (ItemsText(items[1..]) + ("\n" + rest))).rest) == Parsed("\n", rest)
    ensures BondItems(g + (ItemsText(items) + ("\n" + rest))).value == items
    ensures Eol(BondItems(g + (ItemsText(items) + ("\n" + rest))).rest) == Parsed("\n", rest)
  {
    var t := ItemsText(items[1..]) + ("\n" + rest);
    var s := g + (ItemsText(items) + ("\n" + rest));
    assert [] + t == t;
    assert s == g + (" " + (ShowNat(items[0].0) + (" " + (items[0].1 + t)))) by {
      ItemsTextCons(items, "\n" + rest);
    }
    assert t == [] || IsWhite(t[0]) by {
      ItemsTextFirst(items[1..], rest);
    }
    BondItemsPrepend(g, items[0].0, items[0].1, t, s, BondItems(t).value, BondItems(t).rest);
    ItemsSplit(items);
  }

  lemma ItemsSplit(items: seq<(nat, Numeral)>)
    requires items != []
    ensures items == [(items[0].0, items[0].1)] + items[1..]
  {
  }

  lemma BondItemsPrepend(g: string, j: nat, o: Numeral, t: string, s: string, vs: seq<(nat, Numeral)>, r: string)
    requires All(g, IsBlank) && IsNumeral(o)
    requires t == [] || IsWhite(t[0])
    requires s == g + (" " + (ShowNat(j) + (" " + (o + t))))
    requires BondItems(t) == Parsed(vs, r)
    ensures BondItems(s) == Parsed([(j, o)] + vs, r)
  {
    BondItemOf(g, j, o, t);
    BondItemsStep(s, (j, o), t);
  }

  /** A connectivity line as written reads back as single bonds from its
      host atom to each listed atom. */
  lemma ConnectLineOf(i: nat, items: seq<(nat, Numeral)>, rest: string)
    requires OrdersWritable(items)
    ensures ConnectLine(ConnectRow(i, items) + ("\n" + rest)) == Parsed(HostBonds(i, items), rest)
  {
    ConnectRowShape(i, items, "\n" + rest);
    ConnectLineAt([], i, Spaces(Gap(ShowNat(i), 5)), items, rest);
    assert [] + (ConnectRow(i, items) + ("\n" + rest)) == ConnectRow(i, items) + ("\n" + rest);
  }

  lemma ConnectRowShape(i: nat, items: seq<(nat, Numeral)>, rest: string)
    ensures ConnectRow(i, items) + rest == ShowNat(i) + (Spaces(Gap(ShowNat(i), 5)) + (ItemsText(items) + rest))
  {
    PadRightGap(ShowNat(i), 5);
  }

  /** Leading blanks, the host's serial number, blanks, then the bond items
      and the line end. */
  lemma ConnectLineAt(lead: string, i: nat, g: string, items: seq<(nat, Numeral)>, rest: string)
    requires All(lead, IsBlank) && All(g, IsBlank) && OrdersWritable(items)
    ensures ConnectLine(lead + (ShowNat(i) + (g + (ItemsText(items) + ("\n" + rest)))))
      == Parsed(HostBonds(i, items), rest)
  {
    var d := ShowNat(i);
    var u := ItemsText(items) + ("\n" + rest);
    var s := d + (g + u);
    assert Space0(lead + s) == s by {
      assert s[0] == d[0];
      Space0Of(lead, s);
    }
    assert g + u == [] || !IsDigit((g + u)[0]) by {
      ItemsTextFirst(items, rest);
    }
    UnsignedDigitOf(i, g + u);
    BondItemsOf(g, items, rest);
    ConnectLineFrom(lead + s, i, g + u, rest);
  }

  lemma ConnectLineFrom(s: string, host: nat, t: string, rest: string)
    requires UnsignedDigit(Space0(s)) == Parsed(host, t)
    requires Eol(BondItems(t).rest) == Parsed("\n", rest)
    ensures ConnectLine(s) == Parsed(HostBonds(host, BondItems(t).value), rest)
  {
  }

  lemma OneNumeral()
    ensures IsNumeral("1.0")
  {
    DecimalText("1", "0", "1.0");
  }

  /** A bond item of order `1.0` to a one-digit atom number. */
  lemma SingleItemText(j: nat, u: string)
    requires 0 < j < 10 && u == [' ', DigitChar(j)] + " 1.0"
    ensures ItemText((j, "1.0")) == u
  {
  }

  lemma ItemsConsOf(item: (nat, Numeral), more: seq<(nat, Numeral)>, u: string, t: string)
    requires ItemText(item) == u && ItemsText(more) == t
    ensures ItemsText([item] + more) == u + t
  {
    assert ([item] + more)[0] == item && ([item] + more)[1..] == more;
  }

  /** The connectivity unit test: atom 1 bonded to atoms 2, 3, 4 and 5. */
  lemma ConnectExample()
    ensures ConnectLine(" 1 2 1.0 3 1.0 4 1.0 5 1.0\n")
      == Parsed([Bond(1, 2, Single), Bond(1, 3, Single), Bond(1, 4, Single), Bond(1, 5, Single)], [])
  {
    var items := [(2, "1.0"), (3, "1.0"), (4, "1.0"), (5, "1.0")];
    ExampleOrders(items);
    ConnectLineAt(" ", 1, [], items, []);
    ConnectExampleText(items);
    ExampleBonds(items);
  }

  lemma ExampleOrders(items: seq<(nat, Numeral)>)
    requires items == [(2, "1.0"), (3, "1.0"), (4, "1.0"), (5, "1.0")]
    ensures OrdersWritable(items)
  {
    OneNumeral();
  }

  lemma ExampleBonds(items: seq<(nat, Numeral)>)
    requires items == [(2, "1.0"), (3, "1.0"), (4, "1.0"), (5, "1.0")]
    ensures HostBonds(1, items) == [Bond(1, 2, Single), Bond(1, 3, Single), Bond(1, 4, Single), Bond(1, 5, Single)]
  {
  }

  lemma ConnectExampleText(items: seq<(nat, Numeral)>)
    requires items == [(2, "1.0"), (3, "1.0"), (4, "1.0"), (5, "1.0")]
    ensures " " + (ShowNat(1) + ([] + (ItemsText(items) + ("\n" + [])))) == " 1 2 1.0 3 1.0 4 1.0 5 1.0\n"
  {
    ExampleItems(items);
    assert ShowNat(1) == "1";
    ExampleLine();
  }

  lemma ExampleItems(items: seq<(nat, Numeral)>)
    requires items == [(2, "1.0"), (3, "1.0"), (4, "1.0"), (5, "1.0")]
    ensures ItemsText(items) == " 2 1.0" + (" 3 1.0" + (" 4 1.0" + " 5 1.0"))
  {
    SingleItemText(5, " 5 1.0");
    ItemsConsOf((5, "1.0"), [], " 5 1.0", []);
    SingleItemText(4, " 4 1.0");
    ItemsConsOf((4, "1.0"), [(5, "1.0")] + [], " 4 1.0", " 5 1.0" + []);
    SingleItemText(3, " 3 1.0");
    ItemsConsOf((3, "1.0"), [(4, "1.0")] + ([(5, "1.0")] + []), " 3 1.0", " 4 1.0" + (" 5 1.0" + []));
    SingleItemText(2, " 2 1.0");
    ItemsConsOf((2, "1.0"), [(3, "1.0")] + ([(4, "1.0")] + ([(5, "1.0")] + [])), " 2 1.0", " 3 1.0" + (" 4 1.0" + (" 5 1.0" + [])));
    assert items == [(2, "1.0")] + ([(3, "1.0")] + ([(4, "1.0")] + ([(5, "1.0")] + [])));
    assert " 5 1.0" + [] == " 5 1.0";
  }

  lemma ExampleLine()
    ensures " " + ("1" + ([] + ((" 2 1.0" + (" 3 1.0" + (" 4 1.0" + " 5 1.0"))) + ("\n" + []))))
      == " 1 2 1.0 3 1.0 4 1.0 5 1.0\n"
  {
  }

  // Reading the charge and spin line back.

  /** Integers, each after its own run of blanks. */
  function IntsRest(vs: seq<int>, gaps: seq<string>): string
    requires |gaps| == |vs|
  {
    if vs == [] then [] else gaps[0] + (ShowInt(vs[0]) + IntsRest(vs[1..], gaps[1..]))
  }

  /** Separators made of at least one blank or tab each. */
  predicate Gaps(gaps: seq<string>) {
    forall k | 0 <= k < |gaps| :: gaps[k] != [] && All(gaps[k], IsBlank)
  }

  lemma IntsRestFirst(vs: seq<int>, gaps: seq<string>, t: string)
    requires |gaps| == |vs| && Gaps(gaps)
    requires t != [] && IsWhite(t[0])
    ensures IntsRest(vs, gaps) + t != [] && IsWhite((IntsRest(vs, gaps) + t)[0])
  {
    if vs != [] {
      assert (IntsRest(vs, gaps) + t)[0] == gaps[0][0];
    }
  }

  lemma SignedTailStep(s: string, g: string, t: string, v: int, u: string)
    requires Space1(s) == Parsed(g, t) && SignedDigit(t) == Parsed(v, u)
    ensures SignedTail(s) == Parsed([v] + SignedTail(u).value, SignedTail(u).rest)
  {
  }

  /** Trailing blanks before the line end: no more integers. */
  lemma SignedTailEnd(trail: string, rest: string)
    requires All(trail, IsBlank)
    ensures SignedTail(trail + ("\n" + rest)) == Parsed([], trail + ("\n" + rest))
    ensures Eol(trail + ("\n" + rest)) == Parsed("\n", rest)
  {
    var nl := "\n" + rest;
    Space0Of(trail, nl);
    assert LineEnding(nl) == Parsed("\n", rest);
    if trail == [] {
      assert trail + nl == nl;
      NewlineNoBlank(rest);
    } else {
      Take1Of(trail, nl, IsBlank);
      NewlineNoDigit(rest);
    }
  }

  lemma NewlineNoBlank(rest: string)
    ensures Space1("\n" + rest) == NoParse
  {
    assert Span("\n" + rest, IsBlank) == 0;
  }

  lemma NewlineNoDigit(rest: string)
    ensures SignedDigit("\n" + rest) == NoParse
  {
    var s := "\n" + rest;
    assert SignLen(s) == 0;
    assert s[0..] == s;
    assert Span(s, IsDigit) == 0;
  }


  /** A separator and an integer, followed by text that starts with white space. */
  lemma SignedItemOf(g: string, v: int, u: string, s: string)
    requires g != [] && All(g, IsBlank)
    requires u != [] && IsWhite(u[0])
    requires s == g + (ShowInt(v) + u)
    ensures SignedTail(s) == Parsed([v] + SignedTail(u).value, SignedTail(u).rest)
  {
    var t := ShowInt(v) + u;
    assert t[0] == ShowInt(v)[0];
    Take1Of(g, t, IsBlank);
    SignedDigitOf(v, u);
    SignedTailStep(s, g, t, v, u);
  }

  lemma IntsRestCons(vs: seq<int>, gaps: seq<string>, t: string)
    requires |gaps| == |vs| && vs != []
    ensures IntsRest(vs, gaps) + t == gaps[0] + (ShowInt(vs[0]) + (IntsRest(vs[1..], gaps[1..]) + t))
  {
  }

  lemma IntsSplit(vs: seq<int>)
    requires vs != []
    ensures vs == [vs[0]] + vs[1..]
  {
  }

  /** Integers written after blanks read back in order, and the line ends
      after them. */
  lemma {:induction false} SignedTailOf(vs: seq<int>, gaps: seq<string>, trail: string, rest: string)
    requires |gaps| == |vs| && Gaps(gaps) && All(trail, IsBlank)
    ensures SignedTail(IntsRest(vs, gaps) + (trail + ("\n" + rest))).value == vs
    ensures Eol(SignedTail(IntsRest(vs, gaps) + (trail + ("\n" + rest))).rest) == Parsed("\n", rest)
    decreases |vs|
  {
    var e := trail + ("\n" + rest);
    if vs == [] {
      assert IntsRest(vs, gaps) + e == e;
      SignedTailEnd(trail, rest);
    } else {
      var u := IntsRest(vs[1..], gaps[1..]) + e;
      SignedTailOf(vs[1..], gaps[1..], trail, rest);
      assert u != [] && IsWhite(u[0]) by {
        assert e != [] && IsWhite(e[0]) by {
          if trail != [] {
            assert e[0] == trail[0];
          }
        }
        IntsRestFirst(vs[1..], gaps[1..], e);
      }
      IntsRestCons(vs, gaps, e);
      SignedItemOf(gaps[0], vs[0], u, IntsRest(vs, gaps) + e);
      IntsSplit(vs);
    }
  }

  lemma ChargeAndSpinFrom(s: string, v: int, t: string, rest: string)
    requires SignedDigit(Space0(s)) == Parsed(v, t)
    requires Eol(SignedTail(t).rest) == Parsed("\n", rest)
    ensures ChargeAndSpin(s) == Parsed([v] + SignedTail(t).value, rest)
  {
  }

  /** A line of integers separated by blanks, with blanks before and after,
      reads back as those integers. */
  lemma ChargeAndSpinOf(lead: string, v: int, vs: seq<int>, gaps: seq<string>, trail: string, rest: string)
    requires All(lead, IsBlank) && All(trail, IsBlank)
    requires |gaps| == |vs| && Gaps(gaps)
    ensures ChargeAndSpin(lead + (ShowInt(v) + (IntsRest(vs, gaps) + (trail + ("\n" + rest)))))
      == Parsed([v] + vs, rest)
  {
    var e := trail + ("\n" + rest);
    var t := IntsRest(vs, gaps) + e;
    var s := ShowInt(v) + t;
    assert Space0(lead + s) == s by {
      assert s[0] == ShowInt(v)[0];
      Space0Of(lead, s);
    }
    assert t != [] && IsWhite(t[0]) by {
      assert e != [] && IsWhite(e[0]) by {
        if trail != [] {
          assert e[0] == trail[0];
        }
      }
      IntsRestFirst(vs, gaps, e);
    }
    SignedDigitOf(v, t);
    SignedTailOf(vs, gaps, trail, rest);
    ChargeAndSpinFrom(lead + s, v, t, rest);
  }

  lemma SmallInts()
    ensures ShowInt(0) == "0" && ShowInt(1) == "1" && ShowInt(2) == "2" && ShowInt(-3) == "-3"
  {
    assert ShowNat(3) == "3";
  }

  lemma Regroup(a: string, g: string, b: string, n: string)
    ensures [] + (a + ((g + (b + [])) + ([] + (n + [])))) == a + (g + (b + n))
  {
  }

  /** The charge 0 and the multiplicity 1 separated by blanks. */
  lemma NeutralSinglet(s: string, g: string)
    requires g != [] && All(g, IsBlank)
    requires s == "0" + (g + ("1" + "\n"))
    ensures ChargeAndSpin(s) == Parsed([0, 1], [])
  {
    assert s == [] + (ShowInt(0) + (IntsRest([1], [g]) + ([] + ("\n" + [])))) by {
      assert IntsRest([1], [g]) == g + (ShowInt(1) + []);
      SmallInts();
      Regroup(ShowInt(0), g, ShowInt(1), "\n");
    }
    assert [0] + [1] == [0, 1];
    ChargeAndSpinOf([], 0, [1], [g], [], []);
  }

  /** The first charge and spin unit test: two integers separated by a tab. */
  lemma ChargeAndSpinTab()
    ensures ChargeAndSpin("0\t1\n") == Parsed([0, 1], [])
  {
    NeutralSinglet("0\t1\n", "\t");
  }

  /** The second charge and spin unit test: six integers after mixed blanks. */
  lemma ChargeAndSpinSix()
    ensures ChargeAndSpin(" 0 1 \t 0  1 -3 2 \n") == Parsed([0, 1, 0, 1, -3, 2], [])
  {
    var vs := [1, 0, 1, -3, 2];
    var gaps := [" ", " \t ", "  ", " ", " "];
    assert Gaps(gaps);
    ChargeAndSpinOf(" ", 0, vs, gaps, " ", []);
    SixLine(vs, gaps);
    SixValues(vs);
  }

  lemma SixValues(vs: seq<int>)
    requires vs == [1, 0, 1, -3, 2]
    ensures [0] + vs == [0, 1, 0, 1, -3, 2]
  {
  }

  lemma SixRest(vs: seq<int>, gaps: seq<string>)
    requires vs == [1, 0, 1, -3, 2] && gaps == [" ", " \t ", "  ", " ", " "]
    ensures IntsRest(vs, gaps) == " " + ("1" + (" \t " + ("0" + ("  " + ("1" + (" " + ("-3" + (" " + "2"))))))))
  {
    SmallInts();
    assert vs[1..][1..] == vs[2..] && vs[2..][1..] == vs[3..] && vs[3..][1..] == vs[4..] && vs[4..][1..] == [];
    assert gaps[1..][1..] == gaps[2..] && gaps[2..][1..] == gaps[3..] && gaps[3..][1..] == gaps[4..] && gaps[4..][1..] == [];
    IntsRestCons(vs, gaps, []);
    IntsRestCons(vs[1..], gaps[1..], []);
    IntsRestCons(vs[2..], gaps[2..], []);
    IntsRestCons(vs[3..], gaps[3..], []);
    IntsRestCons(vs[4..], gaps[4..], []);
  }

  lemma SixLine(vs: seq<int>, gaps: seq<string>)
    requires vs == [1, 0, 1, -3, 2] && gaps == [" ", " \t ", "  ", " ", " "]
    ensures " " + (ShowInt(0) + (IntsRest(vs, gaps) + (" " + ("\n" + [])))) == " 0 1 \t 0  1 -3 2 \n"
  {
    SmallInts();
    SixRest(vs, gaps);
    SixText();
  }

  lemma SixText()
    ensures " " + ("0" + ((" " + ("1" + (" \t " + ("0" + ("  " + ("1" + (" " + ("-3" + (" " + "2"))))))))) + (" " + ("\n" + []))))
      == " 0 1 \t 0  1 -3 2 \n"
  {
  }

  /** Commas in the molecule specification are read as blanks, so `0,1`
      gives the charge 0 and the multiplicity 1. */
  lemma ChargeAndSpinComma()
    ensures ChargeAndSpin(ReplaceChar("0,1\n", ',', ' ')) == Parsed([0, 1], [])
  {
    CommaLine();
    NeutralSinglet("0 1\n", " ");
  }

  lemma CommaLine()
    ensures ReplaceChar("0,1\n", ',', ' ') == "0 1\n"
  {
  }

  // Reading Link 0 commands back.

  /** Link 0 commands, each written as `%` and the command on its own line. */
  function Link0Text(cmds: seq<string>): string {
    if cmds == [] then [] else "%" + (cmds[0] + ("\n" + Link0Text(cmds[1..])))
  }

  /** Commands that fit on one line. */
  predicate OneLine(cmds: seq<string>) {
    forall k | 0 <= k < |cmds| :: '\n' !in cmds[k]
  }

  /** A Link 0 command reads back up to the end of its line. */
  lemma Link0CmdOf(cmd: string, rest: string)
    requires '\n' !in cmd
    ensures Link0Cmd("%" + (cmd + ("\n" + rest))) == Parsed(cmd, rest)
  {
    TagOf("%", cmd + ("\n" + rest));
    ReadLineOf(cmd, rest);
  }

  lemma Link0SectionStep(s: string, cmd: string, t: string)
    requires Link0Cmd(s) == Parsed(cmd, t)
    ensures Link0Section(s) == Parsed([cmd] + Link0Section(t).value, Link0Section(t).rest)
  {
  }

  lemma Link0TextCons(cmds: seq<string>, rest: string)
    requires cmds != []
    ensures Link0Text(cmds) + rest == "%" + (cmds[0] + ("\n" + (Link0Text(cmds[1..]) + rest)))
  {
  }

  lemma CmdsSplit(cmds: seq<string>)
    requires cmds != []
    ensures cmds == [cmds[0]] + cmds[1..]
  {
  }

  /** Link 0 commands written one per line read back in order; the section
      ends at the first line that does not start with `%`. */
  lemma {:induction false} Link0SectionOf(cmds: seq<string>, rest: string)
    requires OneLine(cmds)
    requires rest == [] || rest[0] != '%'
    ensures Link0Section(Link0Text(cmds) + rest) == Parsed(cmds, rest)
    decreases |cmds|
  {
    if cmds == [] {
      assert Link0Text(cmds) + rest == rest;
    } else {
      var t := Link0Text(cmds[1..]) + rest;
      var s := Link0Text(cmds) + rest;
      Link0SectionOf(cmds[1..], rest);
      assert s == "%" + (cmds[0] + ("\n" + t)) by {
        Link0TextCons(cmds, rest);
      }
      Link0CmdOf(cmds[0], t);
      Link0SectionStep(s, cmds[0], t);
      CmdsSplit(cmds);
    }
  }

  /** The first Link 0 unit test: `%Mem=64MB` is the command `Mem=64MB`. */
  lemma Link0MemExample()
    ensures Link0Cmd("%Mem=64MB\n") == Parsed("Mem=64MB", [])
  {
    assert "%" + ("Mem=64MB" + ("\n" + [])) == "%Mem=64MB\n" by {
      assert "Mem=64MB" + "\n" == "Mem=64MB\n";
    }
    Link0CmdOf("Mem=64MB", []);
  }

  /** The second Link 0 unit test: `%save` is the command `save`. */
  lemma Link0SaveExample()
    ensures Link0Cmd("%save\n") == Parsed("save", [])
  {
    assert "%" + ("save" + ("\n" + [])) == "%save\n" by {
      assert "save" + "\n" == "save\n";
    }
    Link0CmdOf("save", []);
  }

  /** The Link 0 section unit test: three commands before the route line. */
  lemma Link0SectionExample(route: string)
    requires route == [] || route[0] == '#'
    ensures Link0Section("%chk=C5H12.chk\n" + ("%nproc=8\n" + ("%mem=5GB\n" + route)))
      == Parsed(["chk=C5H12.chk", "nproc=8", "mem=5GB"], route)
  {
    var cmds := ["chk=C5H12.chk", "nproc=8", "mem=5GB"];
    assert OneLine(cmds) by {
      assert '\n' !in cmds[0] && '\n' !in cmds[1] && '\n' !in cmds[2];
    }
    assert Link0Text(cmds) + route == "%chk=C5H12.chk\n" + ("%nproc=8\n" + ("%mem=5GB\n" + route)) by {
      Link0Lines(cmds, route);
    }
    Link0SectionOf(cmds, route);
  }

  lemma Link0Lines(cmds: seq<string>, route: string)
    requires cmds == ["chk=C5H12.chk", "nproc=8", "mem=5GB"]
    ensures Link0Text(cmds) + route == "%chk=C5H12.chk\n" + ("%nproc=8\n" + ("%mem=5GB\n" + route))
  {
    var t3 := Link0Text(cmds[3..]) + route;
    assert t3 == route by {
      assert cmds[3..] == [];
    }
    var t2 := Link0Text(cmds[2..]) + route;
    assert t2 == "%mem=5GB\n" + route by {
      Link0TextCons(cmds[2..], route);
      assert cmds[2..][1..] == cmds[3..];
      Link0Line("mem=5GB", "%mem=5GB\n", t3);
    }
    var t1 := Link0Text(cmds[1..]) + route;
    assert t1 == "%nproc=8\n" + t2 by {
      Link0TextCons(cmds[1..], route);
      assert cmds[1..][1..] == cmds[2..];
      Link0Line("nproc=8", "%nproc=8\n", t2);
    }
    assert Link0Text(cmds) + route == "%chk=C5H12.chk\n" + t1 by {
      Link0TextCons(cmds, route);
      Link0Line("chk=C5H12.chk", "%chk=C5H12.chk\n", t1);
    }
  }

  /** One command line, written out as a literal. */
  lemma Link0Line(cmd: string, line: string, rest: string)
    requires line == "%" + cmd + "\n"
    ensures "%" + (cmd + ("\n" + rest)) == line + rest
  {
  }

  // Reading an atom line back.

  /** What `format_atom` writes can be read: an alphanumeric element symbol,
      coordinates that are numbers, and ONIOM information written in full. */
  predicate AtomWritable(a: Atom) {
    a.symbol != [] && All(a.symbol, IsAlnum)
    && IsNumeral(a.position.x) && IsNumeral(a.position.y) && IsNumeral(a.position.z)
    && (a.gaussian.Some? ==> OniomWritable(a.gaussian.value.oniom))
  }

  /** The record an atom line written by `format_atom` reads back as: the
      symbol as label, the frozen code, the position and the ONIOM information;
      no MM type, no MM charge, no parameters. */
  function AtomReadBack(a: Atom): GaussianAtomInfo {
    GaussianAtomInfo(a.symbol, None, None, Some(FrozenCodeOf(a.freezing)), a.position, map[],
                     if a.gaussian.Some? then a.gaussian.value.oniom else OniomInfo(None, None, None))
  }

  /** The ONIOM text lies on one line and starts with a visible character. */
  lemma OniomTextLine(o: OniomInfo)
    requires OniomWritable(o)
    ensures '\n' !in OniomText(o)
    ensures OniomText(o) != [] ==> NotWhite(OniomText(o)[0])
  {
    if o.linkHost.Some? {
      DigitsNotWhite(ShowNat(o.linkHost.value));
    }
  }

  /** The ONIOM part of an atom line reads back as the atom's ONIOM information. */
  lemma OniomTailOf(a: Atom, more: string)
    requires a.gaussian.Some? ==> OniomWritable(a.gaussian.value.oniom)
    ensures AtomOniom(OniomTail(a) + ("\n" + more)) == Parsed(AtomReadBack(a).oniom, more)
    ensures OniomTail(a) + ("\n" + more) != [] && IsWhite((OniomTail(a) + ("\n" + more))[0])
  {
    if a.gaussian.Some? {
      var o := a.gaussian.value.oniom;
      OniomTextLine(o);
      assert '\n' !in OniomTail(a);
      ReadLineOf(OniomTail(a), more);
      OniomLead(" ", OniomText(o));
      OniomRoundTrip(o);
    } else {
      ReadLineOf([], more);
      assert [] + ("\n" + more) == "\n" + more;
      WordsOfWhite([]);
    }
  }

  lemma AtomLineFrom(s: string, elem: string, t1: string, g: string, t4: string, code: int,
                     t5: string, pos: Vec3, t6: string, oniom: OniomInfo, rest: string)
    requires Alphanumeric1(Space0(s)) == Parsed(elem, t1)
    requires MmInfo(t1) == NoParse && AtomParams(t1) == NoParse
    requires Space1(t1) == Parsed(g, t4) && FrozenCode(t4) == Parsed(code, t5)
    requires XyzArray(t5) == Parsed(pos, t6) && AtomOniom(t6) == Parsed(oniom, rest)
    ensures AtomLine(s) == Parsed(GaussianAtomInfo(elem, None, None, Some(code), pos, map[], oniom), rest)
  {
  }

  /** A field padded on the left, then more text. */
  lemma PadLeftThen(v: string, w: nat, r: string)
    ensures PadLeft(v, w) + r == Spaces(Gap(v, w)) + (v + r)
  {
    PadLeftGap(v, w);
  }

  /** A field padded on the right, then more text. */
  lemma PadRightThen(v: string, w: nat, r: string)
    ensures PadRight(v, w) + r == v + (Spaces(Gap(v, w)) + r)
  {
    PadRightGap(v, w);
  }

  /** The coordinates and what follows them, with their blanks grouped. */
  function XyzPart(pos: Vec3, tail: string): string {
    pos.x + ((" " + Spaces(Gap(pos.y, 14))) + (pos.y + ((" " + Spaces(Gap(pos.z, 14))) + (pos.z + tail))))
  }

  lemma XyzPartShape(pos: Vec3, tail: string)
    ensures PadLeft(pos.x, 14) + (" " + (PadLeft(pos.y, 14) + (" " + (PadLeft(pos.z, 14) + tail))))
      == Spaces(Gap(pos.x, 14)) + XyzPart(pos, tail)
  {
    PadLeftThen(pos.z, 14, tail);
    PadLeftThen(pos.y, 14, " " + (PadLeft(pos.z, 14) + tail));
    PadLeftThen(pos.x, 14, " " + (PadLeft(pos.y, 14) + (" " + (PadLeft(pos.z, 14) + tail))));
  }

  /** The frozen code, its blanks and the coordinates. */
  function CodePart(code: string, pos: Vec3, tail: string): string {
    code + ((" " + Spaces(Gap(pos.x, 14))) + XyzPart(pos, tail))
  }

  lemma CodePartShape(code: string, pos: Vec3, tail: string)
    ensures PadLeft(code, 2) + (" " + (PadLeft(pos.x, 14) + (" " + (PadLeft(pos.y, 14) + (" " + (PadLeft(pos.z, 14) + tail))))))
      == Spaces(Gap(code, 2)) + CodePart(code, pos, tail)
  {
    XyzPartShape(pos, tail);
    PadLeftThen(code, 2, " " + (PadLeft(pos.x, 14) + (" " + (PadLeft(pos.y, 14) + (" " + (PadLeft(pos.z, 14) + tail))))));
  }

  /** The line break after an atom line moves inside its last field. */
  lemma AtomRowThen(a: Atom, t: string)
    ensures AtomRow(a) + t
      == " " + (PadRight(a.symbol, 15) + (" " + (PadLeft(ShowInt(FrozenCodeOf(a.freezing)), 2)
         + (" " + (PadLeft(a.position.x, 14) + (" " + (PadLeft(a.position.y, 14)
         + (" " + (PadLeft(a.position.z, 14) + (OniomTail(a) + t))))))))))
  {
    var p := a.position;
    var r9 := PadLeft(p.z, 14) + OniomTail(a);
    var r8 := " " + r9;
    var r7 := PadLeft(p.y, 14) + r8;
    var r6 := " " + r7;
    var r5 := PadLeft(p.x, 14) + r6;
    var r4 := " " + r5;
    var r3 := PadLeft(ShowInt(FrozenCodeOf(a.freezing)), 2) + r4;
    var r2 := " " + r3;
    var r1 := PadRight(a.symbol, 15) + r2;
    assert AtomRow(a) == " " + r1;
    AppendAssoc(PadLeft(p.z, 14), OniomTail(a), t);
    AppendAssoc(" ", r9, t);
    AppendAssoc(PadLeft(p.y, 14), r8, t);
    AppendAssoc(" ", r7, t);
    AppendAssoc(PadLeft(p.x, 14), r6, t);
    AppendAssoc(" ", r5, t);
    AppendAssoc(PadLeft(ShowInt(FrozenCodeOf(a.freezing)), 2), r4, t);
    AppendAssoc(" ", r3, t);
    AppendAssoc(PadRight(a.symbol, 15), r2, t);
    AppendAssoc(" ", r1, t);
  }

  /** An atom line taken apart into the pieces the reader meets. */
  lemma AtomRowShape(a: Atom, more: string)
    ensures AtomRow(a) + ("\n" + more)
      == " " + (a.symbol + ((Spaces(Gap(a.symbol, 15)) + (" " + Spaces(Gap(ShowInt(FrozenCodeOf(a.freezing)), 2))))
           + CodePart(ShowInt(FrozenCodeOf(a.freezing)), a.position, OniomTail(a) + ("\n" + more))))
  {
    var code := ShowInt(FrozenCodeOf(a.freezing));
    var tail := OniomTail(a) + ("\n" + more);
    var p := a.position;
    var r := " " + (PadLeft(p.x, 14) + (" " + (PadLeft(p.y, 14) + (" " + (PadLeft(p.z, 14) + tail)))));
    AtomRowThen(a, "\n" + more);
    CodePartShape(code, p, tail);
    PadRightThen(a.symbol, 15, " " + (PadLeft(code, 2) + r));
    Regroup4(Spaces(Gap(a.symbol, 15)), " ", Spaces(Gap(code, 2)), CodePart(code, p, tail));
  }

  lemma Regroup4(a: string, b: string, c: string, d: string)
    ensures a + (b + (c + d)) == (a + (b + c)) + d
  {
  }

  /** Text after a blank holds no MM information and no parameters. */
  lemma NoMmNoParams(t: string)
    requires t != [] && t[0] == ' '
    ensures MmInfo(t) == NoParse && AtomParams(t) == NoParse
  {
  }

  lemma FrozenCodeFrom(t: string, code: int, u: string, g: string, v: string)
    requires SignedDigit(t) == Parsed(code, u) && Space1(u) == Parsed(g, v)
    ensures FrozenCode(t) == Parsed(code, v)
  {
  }

  /** The frozen code, then the coordinates. */
  lemma CodePartOf(code: int, pos: Vec3, tail: string)
    requires IsNumeral(pos.x)
    ensures FrozenCode(CodePart(ShowInt(code), pos, tail)) == Parsed(code, XyzPart(pos, tail))
  {
    var t5 := XyzPart(pos, tail);
    NumeralNotWhite(pos.x);
    assert t5[0] == pos.x[0];
    FrozenThen(code, " " + Spaces(Gap(pos.x, 14)), t5);
  }

  /** The coordinates, then the rest of the line. */
  lemma XyzPartOf(pos: Vec3, tail: string)
    requires IsNumeral(pos.x) && IsNumeral(pos.y) && IsNumeral(pos.z)
    requires tail != [] && IsWhite(tail[0])
    ensures XyzArray(XyzPart(pos, tail)) == Parsed(pos, tail)
  {
    XyzArrayOf(pos, " " + Spaces(Gap(pos.y, 14)), " " + Spaces(Gap(pos.z, 14)), tail);
  }

  /** A frozen code, blanks, then a visible character. */
  lemma FrozenThen(code: int, g: string, t: string)
    requires g != [] && g[0] == ' ' && All(g, IsBlank)
    requires t != [] && NotWhite(t[0])
    ensures FrozenCode(ShowInt(code) + (g + t)) == Parsed(code, t)
  {
    SignedDigitOf(code, g + t);
    Space1Before(g, t);
    FrozenCodeFrom(ShowInt(code) + (g + t), code, g + t, g, t);
  }

  /** An atom line written by `format_atom` reads back as `AtomReadBack`. */
  lemma AtomRowReads(a: Atom, more: string)
    requires AtomWritable(a)
    ensures AtomLine(AtomRow(a) + ("\n" + more)) == Parsed(AtomReadBack(a), more)
  {
    var code := FrozenCodeOf(a.freezing);
    var cs := ShowInt(code);
    var tail := OniomTail(a) + ("\n" + more);
    var g := Spaces(Gap(a.symbol, 15)) + (" " + Spaces(Gap(cs, 2)));
    assert AtomRow(a) + ("\n" + more) == " " + (a.symbol + (g + CodePart(cs, a.position, tail))) by {
      AtomRowShape(a, more);
    }
    BlankGap(Gap(a.symbol, 15), Gap(cs, 2));
    OniomTailOf(a, more);
    AtomPartsRead(a.symbol, g, code, a.position, tail, AtomReadBack(a).oniom, more);
  }

  /** Blanks around one space start with a space and are all blank. */
  lemma BlankGap(n: nat, m: nat)
    ensures var g := Spaces(n) + (" " + Spaces(m)); g != [] && g[0] == ' ' && All(g, IsBlank)
  {
    var g := Spaces(n) + (" " + Spaces(m));
    assert forall i | 0 <= i < |g| :: g[i] == ' ';
  }

  /** The parts of a written atom line, read one after the other. */
  lemma AtomPartsRead(sym: string, g: string, code: int, pos: Vec3, tail: string,
                      oniom: OniomInfo, more: string)
    requires sym != [] && All(sym, IsAlnum)
    requires g != [] && g[0] == ' ' && All(g, IsBlank)
    requires IsNumeral(pos.x) && IsNumeral(pos.y) && IsNumeral(pos.z)
    requires tail != [] && IsWhite(tail[0])
    requires AtomOniom(tail) == Parsed(oniom, more)
    ensures AtomLine(" " + (sym + (g + CodePart(ShowInt(code), pos, tail))))
      == Parsed(GaussianAtomInfo(sym, None, None, Some(code), pos, map[], oniom), more)
  {
    var t4 := CodePart(ShowInt(code), pos, tail);
    assert t4 != [] && NotWhite(t4[0]) by {
      assert t4[0] == ShowInt(code)[0];
    }
    LeadRead(sym, g, t4);
    CodePartOf(code, pos, tail);
    XyzPartOf(pos, tail);
    AtomLineFrom(" " + (sym + (g + t4)), sym, g + t4, g, t4, code, XyzPart(pos, tail), pos, tail, oniom, more);
  }

  /** The element label, the blanks after it, and nothing read as MM
      information or parameters. */
  lemma LeadRead(sym: string, g: string, t4: string)
    requires sym != [] && All(sym, IsAlnum)
    requires g != [] && g[0] == ' ' && All(g, IsBlank)
    requires t4 != [] && NotWhite(t4[0])
    ensures Alphanumeric1(Space0(" " + (sym + (g + t4)))) == Parsed(sym, g + t4)
    ensures MmInfo(g + t4) == NoParse && AtomParams(g + t4) == NoParse
    ensures Space1(g + t4) == Parsed(g, t4)
  {
    var t1 := g + t4;
    assert t1[0] == ' ';
    assert Space0(" " + (sym + t1)) == sym + t1 by {
      assert (sym + t1)[0] == sym[0];
      Space0Of(" ", sym + t1);
    }
    Take1Of(sym, t1, IsAlnum);
    NoMmNoParams(t1);
    Space1Before(g, t4);
  }

  /** The frozen flag survives writing and reading: the atom read back is
      frozen on all axes exactly when the atom written was. */
  lemma FrozenRoundTrip(a: Atom, core: Core)
    ensures AtomFrom(AtomReadBack(a), core).freezing == AllFrozen <==> a.freezing == AllFrozen
  {
  }

  // Reading a `TV` line back.

  /** A number whose sign and integer digits are followed by something other
      than a blank, so that `frozen_code` cannot take it for a frozen code. */
  predicate NotInteger(x: Numeral) {
    var i := SignLen(x);
    var n := Span(x[i..], IsDigit);
    i + n < |x| && !IsBlank(x[i + n])
  }

  /** No frozen code is read in front of such a number. */
  lemma NoFrozenCode(x: Numeral, r: string)
    requires NotInteger(x)
    ensures FrozenCode(x + r) == NoParse
  {
    var i := SignLen(x);
    var n := Span(x[i..], IsDigit);
    var s := x + r;
    assert SignLen(s) == i;
    assert s[i..] == x[i..i + n] + (x[i + n..] + r);
    assert (x[i + n..] + r)[0] == x[i + n];
    var d := x[i..i + n];
    assert All(d, IsDigit) by {
      forall k | 0 <= k < |d|
        ensures IsDigit(d[k])
      {
        assert d[k] == x[i..][k];
      }
    }
    SpanOf(x[i..i + n], x[i + n..] + r, IsDigit);
    if n > 0 {
      assert s[i..][n..] == x[i + n..] + r;
    }
  }

  /** What a `TV` line reads back as. */
  function TvInfo(v: Vec3): (x: GaussianAtomInfo)
    ensures IsTv(x)
  {
    GaussianAtomInfo("TV", None, None, None, v, map[], OniomInfo(None, None, None))
  }

  /** Cell vectors `format_molecule` can write and read back: numbers, the
      first not an integer, and the second and third narrower than their
      fields so that a blank separates them from what precedes them. */
  predicate TvWritable(v: Vec3) {
    IsNumeral(v.x) && IsNumeral(v.y) && IsNumeral(v.z)
    && NotInteger(v.x) && |v.y| < 14 && |v.z| < 14
  }

  lemma AtomLineNoCode(s: string, elem: string, t1: string, g: string, t4: string,
                       pos: Vec3, t6: string, oniom: OniomInfo, rest: string)
    requires Alphanumeric1(Space0(s)) == Parsed(elem, t1)
    requires MmInfo(t1) == NoParse && AtomParams(t1) == NoParse
    requires Space1(t1) == Parsed(g, t4) && FrozenCode(t4) == NoParse
    requires XyzArray(t4) == Parsed(pos, t6) && AtomOniom(t6) == Parsed(oniom, rest)
    ensures AtomLine(s) == Parsed(GaussianAtomInfo(elem, None, None, None, pos, map[], oniom), rest)
  {
  }

  /** The coordinates of a `TV` line, with the blanks before the second and
      third. */
  function TvPart(v: Vec3, tail: string): string {
    v.x + (Spaces(Gap(v.y, 14)) + (v.y + (Spaces(Gap(v.z, 14)) + (v.z + tail))))
  }

  lemma TvRowShape(v: Vec3, more: string)
    ensures TvRow(v) + ("\n" + more)
      == " " + ("TV" + ((Spaces(14) + Spaces(Gap(v.x, 14))) + TvPart(v, "\n" + more)))
  {
    var tail := "\n" + more;
    PadLeftThen(v.z, 14, tail);
    PadLeftThen(v.y, 14, PadLeft(v.z, 14) + tail);
    PadLeftThen(v.x, 14, PadLeft(v.y, 14) + (PadLeft(v.z, 14) + tail));
    assert " TV              " == " " + ("TV" + Spaces(14));
    AppendAssoc(PadLeft(v.y, 14), PadLeft(v.z, 14), tail);
    AppendAssoc(PadLeft(v.x, 14), PadLeft(v.y, 14) + PadLeft(v.z, 14), tail);
    AppendAssoc(" TV              ", PadLeft(v.x, 14) + (PadLeft(v.y, 14) + PadLeft(v.z, 14)), tail);
  }

  lemma TvPartOf(v: Vec3, more: string)
    requires TvWritable(v)
    ensures XyzArray(TvPart(v, "\n" + more)) == Parsed(v, "\n" + more)
  {
    XyzArrayOf(v, Spaces(Gap(v.y, 14)), Spaces(Gap(v.z, 14)), "\n" + more);
  }

  /** The label, the blanks and the first number of a `TV` line. */
  lemma TvLead(v: Vec3, g: string, t4: string, more: string)
    requires TvWritable(v)
    requires g == Spaces(14) + Spaces(Gap(v.x, 14)) && t4 == TvPart(v, "\n" + more)
    ensures Alphanumeric1(Space0(" " + ("TV" + (g + t4)))) == Parsed("TV", g + t4)
    ensures MmInfo(g + t4) == NoParse && AtomParams(g + t4) == NoParse
    ensures Space1(g + t4) == Parsed(g, t4) && FrozenCode(t4) == NoParse
  {
    assert g != [] && g[0] == ' ' && All(g, IsBlank) by {
      assert forall i | 0 <= i < |g| :: g[i] == ' ';
    }
    assert t4 != [] && NotWhite(t4[0]) by {
      NumeralNotWhite(v.x);
      assert t4[0] == v.x[0];
    }
    assert All("TV", IsAlnum);
    LeadRead("TV", g, t4);
    NoFrozenCode(v.x, Spaces(Gap(v.y, 14)) + (v.y + (Spaces(Gap(v.z, 14)) + (v.z + ("\n" + more)))));
  }

  /** A `TV` line written by `format_molecule` reads back as a translation
      vector. */
  lemma TvRowReads(v: Vec3, more: string)
    requires TvWritable(v)
    ensures AtomLine(TvRow(v) + ("\n" + more)) == Parsed(TvInfo(v), more)
  {
    var t4 := TvPart(v, "\n" + more);
    var g := Spaces(14) + Spaces(Gap(v.x, 14));
    TvRowShape(v, more);
    TvLead(v, g, t4, more);
    TvPartOf(v, more);
    NoOniom(more);
    AtomLineNoCode(" " + ("TV" + (g + t4)), "TV", g + t4, g, t4, v, "\n" + more, OniomInfo(None, None, None), more);
  }

  /** An empty rest of line holds no ONIOM information. */
  lemma NoOniom(more: string)
    ensures AtomOniom("\n" + more) == Parsed(OniomInfo(None, None, None), more)
  {
    ReadLineOf([], more);
    assert [] + ("\n" + more) == "\n" + more;
    WordsOfWhite([]);
  }


  // Record boundaries.

  /** `GaussianInputFile::read_next`: a job ends at a `--Link1--` line, in
      any case. */
  predicate IsLink1(line: string) {
    Lower(line) == "--link1--\n"
  }

  /** The separator is recognised whatever its case. */
  lemma Link1AnyCase()
    ensures IsLink1("--Link1--\n") && IsLink1("--LINK1--\n") && !IsLink1("--Link1--")
  {
  }

  /** Cutting a multi-job input into jobs loses no line, and every job but
      the last ends at its only `--Link1--` line. */
  lemma GaussianRecords(lines: seq<string>)
    ensures Flatten(TerminatedParts(lines, IsLink1)) == lines
    ensures forall j | 0 <= j < |TerminatedParts(lines, IsLink1)| ::
      TerminatedRecord(TerminatedParts(lines, IsLink1)[j], IsLink1)
    ensures forall j | 0 <= j < |TerminatedParts(lines, IsLink1)| - 1 ::
      ClosedBy(TerminatedParts(lines, IsLink1)[j], IsLink1)
  {
    TerminatedPartsFlatten(lines, IsLink1);
    TerminatedPartsRecords(lines, IsLink1);
  }
}
