/** The MDL SD file format (V2000 connection table): the counts line, atom
    lines and bond lines, each a row of fixed-width columns. */
module Sdf {
  import Wrappers
  import opened Text
  import opened Numerals
  import opened Nom
  import opened Chem

  // The counts line.

  /** `counts_line`: the number of atoms and the number of bonds, each in
      3 columns; the rest of the line is ignored. */
  function CountsLine(s: string): (r: Parsed<(nat, nat)>)
    ensures r.Parsed? ==> |r.rest| < |s|
  {
    match TakeNat(3, s)
    case NoParse => NoParse
    case Parsed(na, r1) =>
      match TakeNat(3, r1)
      case NoParse => NoParse
      case Parsed(nb, r2) =>
        var line := ReadLine(r2);
        Parsed((na, nb), line.rest)
  }

  /** Counts below 1000, right-aligned in their 3 columns, read back
      whatever the rest of the line holds. */
  lemma CountsLineOf(na: nat, nb: nat, tail: string, rest: string)
    requires na < 1000 && nb < 1000
    requires '\n' !in tail
    ensures CountsLine(PadLeft(ShowNat(na), 3) + (PadLeft(ShowNat(nb), 3) + (tail + ("\n" + rest))))
         == Parsed((na, nb), rest)
  {
    ShowNatWidth(na, 3);
    ShowNatWidth(nb, 3);
    TakeNatOf(na, 3, PadLeft(ShowNat(nb), 3) + (tail + ("\n" + rest)));
    TakeNatOf(nb, 3, tail + ("\n" + rest));
    ReadLineOf(tail, rest);
  }

  lemma SixteenFourteen()
    ensures PadLeft(ShowNat(16), 3) == " 16" && PadLeft(ShowNat(14), 3) == " 14"
  {
    assert ShowNat(16) == ShowNat(1) + [DigitChar(6)];
    assert ShowNat(14) == ShowNat(1) + [DigitChar(4)];
  }

  /** The counts-line example: 16 atoms and 14 bonds. */
  lemma CountsExample()
    ensures CountsLine(" 16 14  0  0  0  0  0" + "  0  0  0999 V2000\n") == Parsed((16, 14), [])
  {
    SixteenFourteen();
    var tail := "  0  0  0  0  0" + "  0  0  0999 V2000";
    CountsExampleText();
    CountsLineOf(16, 14, tail, []);
  }

  /** The counts example line split at its first two fields. */
  lemma CountsExampleText()
    ensures " 16 14  0  0  0  0  0" + "  0  0  0999 V2000\n"
         == " 16" + (" 14" + (("  0  0  0  0  0" + "  0  0  0999 V2000") + ("\n" + [])))
  {
    var a := "  0  0  0  0  0";
    var b := "  0  0  0999 V2000";
    assert " 16 14  0  0  0  0  0" == " 16" + (" 14" + a);
    assert b + "\n" == b + ("\n" + []);
    AppendAssoc(" 16", " 14" + a, b + "\n");
    AppendAssoc(" 14", a, b + "\n");
    AppendAssoc(a, b, "\n");
  }

  // Atom lines.

  /** `get_atom_from`: x, y and z in 10 columns each, the element symbol in
      the next 3 (trimmed) made standard by `Atom::new`, and the rest of the
      line ignored. */
  function AtomLine(s: string, core: Core): (r: Parsed<Atom>)
    ensures r.Parsed? ==> |r.rest| < |s|
    ensures r.Parsed? ==> 33 <= |s| && r.value == NewAtom(Trim(s[30..33]), r.value.position, core)
  {
    match TakeFloat(10, s)
    case NoParse => NoParse
    case Parsed(x, r1) =>
      match TakeFloat(10, r1)
      case NoParse => NoParse
      case Parsed(y, r2) =>
        match TakeFloat(10, r2)
        case NoParse => NoParse
        case Parsed(z, r3) =>
          match TakeS(3, r3)
          case NoParse => NoParse
          case Parsed(sym, r4) =>
            var line := ReadLine(r4);
            assert sym == s[30..33];
            Parsed(NewAtom(Trim(sym), Vec3(x, y, z), core), line.rest)
  }

  /** The nine zero fields after the symbol. */
  const AtomFlags := " 0  0  0  0  0  0  0  0  0 "

  /** The first 34 columns of an atom line: three coordinates and the symbol. */
  function AtomColumns(a: Atom): string {
    PadLeft(a.position.x, 10) + (" " + (PadLeft(a.position.y, 9) + (" " + (PadLeft(a.position.z, 9)
      + (" " + PadRight(a.symbol, 3))))))
  }

  /** `format_atom`: `{x:-10.4} {y:-9.4} {z:-9.4} {sym:3}`, nine zero fields
      and the index in 2 columns.  Numbers are written as their numeral text;
      the rounding to 4 decimals is not modelled. */
  function FormatAtom(i: nat, a: Atom): (line: string)
    ensures AtomColumns(a) <= line
  {
    AtomColumns(a) + (AtomFlags + (PadLeft(ShowNat(i), 2) + "\n"))
  }

  /** An atom whose fields fit their columns: coordinates of at most 10, 9
      and 9 characters, a symbol of one or two visible characters. */
  predicate AtomFits(a: Atom) {
    IsNumeral(a.position.x) && |a.position.x| <= 10
    && IsNumeral(a.position.y) && |a.position.y| <= 9
    && IsNumeral(a.position.z) && |a.position.z| <= 9
    && 1 <= |a.symbol| <= 2 && All(a.symbol, NotWhite)
  }

  /** A blank and a field right-aligned in 9 columns is the field
      right-aligned in 10. */
  lemma WidenByOne(x: string, r: string)
    requires |x| <= 9
    ensures " " + (PadLeft(x, 9) + r) == PadLeft(x, 10) + r
  {
    PadLeftGap(x, 9);
    PadLeftGap(x, 10);
    assert " " + Spaces(Gap(x, 9)) == Spaces(Gap(x, 10));
  }

  /** The symbol columns: a blank and the symbol left-aligned in 3 columns
      are read as 3 columns that trim to the symbol. */
  lemma SymbolColumns(sym: string, r: string)
    requires 1 <= |sym| <= 2 && All(sym, NotWhite)
    ensures TakeS(3, " " + (PadRight(sym, 3) + r)) == Parsed(" " + (sym + Spaces(Gap(sym, 3) - 1)), " " + r)
    ensures Trim(" " + (sym + Spaces(Gap(sym, 3) - 1))) == sym
  {
    PadRightGap(sym, 3);
    var pad := Spaces(Gap(sym, 3) - 1);
    assert Spaces(Gap(sym, 3)) == pad + " ";
    var s := " " + (PadRight(sym, 3) + r);
    assert s == (" " + (sym + pad)) + (" " + r);
    SpacesAreWhite(Gap(sym, 3) - 1);
    TrimAround(" ", sym, pad);
  }

  /** The coordinate and symbol columns read back, field by field. */
  lemma AtomColumnsRead(a: Atom, r: string, t1: string, t2: string, t3: string, f: string)
    requires AtomFits(a)
    requires t3 == " " + (PadRight(a.symbol, 3) + r)
    requires t2 == " " + (PadLeft(a.position.z, 9) + t3)
    requires t1 == " " + (PadLeft(a.position.y, 9) + t2)
    requires f == " " + (a.symbol + Spaces(Gap(a.symbol, 3) - 1))
    ensures TakeFloat(10, AtomColumns(a) + r) == Parsed(a.position.x, t1)
    ensures TakeFloat(10, t1) == Parsed(a.position.y, t2)
    ensures TakeFloat(10, t2) == Parsed(a.position.z, t3)
    ensures TakeS(3, t3) == Parsed(f, " " + r)
    ensures Trim(f) == a.symbol
  {
    var v := a.position;
    assert AtomColumns(a) + r == PadLeft(v.x, 10) + t1 by {
      AppendAssoc(PadLeft(v.x, 10), " " + (PadLeft(v.y, 9) + (" " + (PadLeft(v.z, 9) + (" " + PadRight(a.symbol, 3))))), r);
      AppendAssoc(" ", PadLeft(v.y, 9) + (" " + (PadLeft(v.z, 9) + (" " + PadRight(a.symbol, 3)))), r);
      AppendAssoc(PadLeft(v.y, 9), " " + (PadLeft(v.z, 9) + (" " + PadRight(a.symbol, 3))), r);
      AppendAssoc(" ", PadLeft(v.z, 9) + (" " + PadRight(a.symbol, 3)), r);
      AppendAssoc(PadLeft(v.z, 9), " " + PadRight(a.symbol, 3), r);
      AppendAssoc(" ", PadRight(a.symbol, 3), r);
    }
    TakeFloatOf(v.x, 10, t1);
    WidenByOne(v.y, t2);
    TakeFloatOf(v.y, 10, t2);
    WidenByOne(v.z, t3);
    TakeFloatOf(v.z, 10, t3);
    SymbolColumns(a.symbol, r);
  }

  /** `AtomLine` from the results of its fields. */
  lemma AtomLineFrom(s: string, x: Numeral, y: Numeral, z: Numeral, sym: string,
                     r1: string, r2: string, r3: string, r4: string, rest: string, core: Core)
    requires TakeFloat(10, s) == Parsed(x, r1)
    requires TakeFloat(10, r1) == Parsed(y, r2)
    requires TakeFloat(10, r2) == Parsed(z, r3)
    requires TakeS(3, r3) == Parsed(sym, r4)
    requires ReadLine(r4).rest == rest
    ensures AtomLine(s, core) == Parsed(NewAtom(Trim(sym), Vec3(x, y, z), core), rest)
  {
  }

  /** Atom read-back: an atom line whose first 34 columns hold a fitting
      atom gives back its symbol and position, whatever follows on the line. */
  lemma AtomLineReads(a: Atom, tail: string, rest: string, core: Core)
    requires AtomFits(a)
    requires '\n' !in tail
    ensures AtomLine(AtomColumns(a) + (tail + ("\n" + rest)), core) == Parsed(NewAtom(a.symbol, a.position, core), rest)
  {
    var r := tail + ("\n" + rest);
    var t3 := " " + (PadRight(a.symbol, 3) + r);
    var t2 := " " + (PadLeft(a.position.z, 9) + t3);
    var t1 := " " + (PadLeft(a.position.y, 9) + t2);
    var f := " " + (a.symbol + Spaces(Gap(a.symbol, 3) - 1));
    AtomColumnsRead(a, r, t1, t2, t3, f);
    LineAfterBlank(tail, rest);
    AtomLineFrom(AtomColumns(a) + r, a.position.x, a.position.y, a.position.z, f, t1, t2, t3, " " + r, rest, core);
  }

  /** The rest of an atom line, after the blank that follows the symbol. */
  lemma LineAfterBlank(tail: string, rest: string)
    requires '\n' !in tail
    ensures ReadLine(" " + (tail + ("\n" + rest))).rest == rest
  {
    assert " " + (tail + ("\n" + rest)) == (" " + tail) + ("\n" + rest);
    ReadLineOf(" " + tail, rest);
  }

  /** A written atom line reads back as the atom's symbol and position. */
  lemma FormatAtomReads(i: nat, a: Atom, rest: string, core: Core)
    requires AtomFits(a) && i < 100
    ensures AtomLine(FormatAtom(i, a) + rest, core) == Parsed(NewAtom(a.symbol, a.position, core), rest)
  {
    var tail := AtomFlags + PadLeft(ShowNat(i), 2);
    assert '\n' !in tail by {
      ShowNatWidth(i, 2);
      PadLeftGap(ShowNat(i), 2);
      forall k | 0 <= k < |tail|
        ensures tail[k] != '\n'
      {
        if k >= |AtomFlags| + Gap(ShowNat(i), 2) {
          assert tail[k] == ShowNat(i)[k - |AtomFlags| - Gap(ShowNat(i), 2)];
        }
      }
    }
    assert FormatAtom(i, a) + rest == AtomColumns(a) + (tail + ("\n" + rest));
    AtomLineReads(a, tail, rest, core);
  }

  /** The coordinate and symbol columns of a fitting atom are 34 wide. */
  lemma ColumnsWidth(a: Atom)
    requires AtomFits(a)
    ensures |AtomColumns(a)| == 34
  {
    PadLeftGap(a.position.x, 10);
    PadLeftGap(a.position.y, 9);
    PadLeftGap(a.position.z, 9);
    PadRightGap(a.symbol, 3);
  }

  /** Two texts that start with the same 61 columns agree on the first 60. */
  lemma SameHead(p: string, u: string, w: string)
    requires |p| == 61
    ensures (p + u)[..60] == (p + w)[..60]
  {
    assert (p + u)[..60] == p[..60];
    assert (p + w)[..60] == p[..60];
  }

  /** Reformatting a parsed atom line reproduces its first 60 columns: the
      coordinates, the symbol and the zero fields, when the line holds a
      fitting atom in its standard symbol and then the zero fields. */
  lemma AtomPrefixKept(i: nat, a: Atom, more: string, rest: string, core: Core)
    requires AtomFits(a) && IsStandard(a.symbol, core)
    requires '\n' !in more
    ensures var line := AtomColumns(a) + (AtomFlags + (more + ("\n" + rest)));
      AtomLine(line, core) == Parsed(NewAtom(a.symbol, a.position, core), rest)
      && FormatAtom(i, NewAtom(a.symbol, a.position, core))[..60] == line[..60]
  {
    FlagsLineReads(a, more, rest, core);
    FormatPrefix(i, a, more + ("\n" + rest), core);
  }

  /** An atom line with the zero fields reads back as its atom. */
  lemma FlagsLineReads(a: Atom, more: string, rest: string, core: Core)
    requires AtomFits(a)
    requires '\n' !in more
    ensures AtomLine(AtomColumns(a) + (AtomFlags + (more + ("\n" + rest))), core) == Parsed(NewAtom(a.symbol, a.position, core), rest)
  {
    assert '\n' !in AtomFlags + more;
    AppendAssoc(AtomFlags, more, "\n" + rest);
    AtomLineReads(a, AtomFlags + more, rest, core);
  }

  /** A formatted atom line agrees with any line of the same atom and zero
      fields in its first 60 columns. */
  lemma FormatPrefix(i: nat, a: Atom, w: string, core: Core)
    requires AtomFits(a) && IsStandard(a.symbol, core)
    ensures FormatAtom(i, NewAtom(a.symbol, a.position, core))[..60] == (AtomColumns(a) + (AtomFlags + w))[..60]
  {
    var head := AtomColumns(a) + AtomFlags;
    ColumnsWidth(a);
    var u := PadLeft(ShowNat(i), 2) + "\n";
    assert AtomColumns(NewAtom(a.symbol, a.position, core)) == AtomColumns(a);
    AppendAssoc(AtomColumns(a), AtomFlags, u);
    AppendAssoc(AtomColumns(a), AtomFlags, w);
    SameHead(head, u, w);
  }

  /** The atom of the atom-line example. */
  function ExampleAtom(): Atom {
    Atom("C", Vec3("-13.5661", "206.9157", "111.5569"), Origin, AllFree, Wrappers.None, Wrappers.None)
  }

  lemma ExampleUnsignedX()
    ensures IsNumeral("13.5661") && SignLen("13.5661") == 0
  {
    DecimalText("13", "5661", "13.5661");
  }

  lemma ExampleX()
    ensures IsNumeral("-13.5661")
  {
    ExampleUnsignedX();
    NegateNumeral("13.5661");
    assert "-" + "13.5661" == "-13.5661";
  }

  lemma ExampleY()
    ensures IsNumeral("206.9157")
  {
    DecimalText("206", "9157", "206.9157");
  }

  lemma ExampleZ()
    ensures IsNumeral("111.5569")
  {
    DecimalText("111", "5569", "111.5569");
  }

  lemma ExampleAtomFits()
    ensures AtomFits(ExampleAtom())
  {
    ExampleX();
    ExampleY();
    ExampleZ();
  }

  lemma ExampleFields()
    ensures PadLeft("-13.5661", 10) == "  -13.5661"
    ensures PadLeft("206.9157", 9) == " 206.9157"
    ensures PadLeft("111.5569", 9) == " 111.5569"
    ensures PadRight("C", 3) == "C  "
  {
    PadTwo("-13.5661", 10);
    PadOne("206.9157", 9);
    PadOne("111.5569", 9);
    PadRightGap("C", 3);
  }

  /** A field one character wider than its text gets one blank in front. */
  lemma PadOne(t: string, n: nat)
    requires |t| + 1 == n
    ensures PadLeft(t, n) == " " + t
  {
    PadLeftGap(t, n);
  }

  /** A field two characters wider than its text gets two blanks in front. */
  lemma PadTwo(t: string, n: nat)
    requires |t| + 2 == n
    ensures PadLeft(t, n) == "  " + t
  {
    PadLeftGap(t, n);
  }

  lemma ExampleColumns()
    ensures AtomColumns(ExampleAtom()) == "  -13.5661  206.9157" + "  111.5569 C  "
  {
    ExampleFields();
    assert AtomColumns(ExampleAtom()) == "  -13.5661" + (" " + (" 206.9157" + (" " + (" 111.5569" + (" " + "C  ")))));
    assert "  -13.5661  206.9157" == "  -13.5661" + (" " + " 206.9157");
    assert "  111.5569 C  " == " " + (" 111.5569" + (" " + "C  "));
  }

  lemma AtomExampleText()
    ensures "  -13.5661  206.9157" + "  111.5569 C  " + " 0  0  0  0  0  0  0  0  0 " + "12 \n\n"
         == AtomColumns(ExampleAtom()) + (AtomFlags + ("12 " + ("\n" + "\n")))
  {
    ExampleColumns();
    AppendAssoc(AtomColumns(ExampleAtom()) + AtomFlags, "12 ", "\n\n");
    AppendAssoc(AtomColumns(ExampleAtom()), AtomFlags, "12 " + "\n\n");
  }

  /** The atom-line example: `  -13.5661  206.9157  111.5569 C   0 ...`
      reads as a carbon atom, and writing it again as atom 12 reproduces
      the first 60 columns, `C` being a standard symbol. */
  lemma AtomExample(core: Core)
    requires IsStandard("C", core)
    ensures var line := "  -13.5661  206.9157" + "  111.5569 C  " + " 0  0  0  0  0  0  0  0  0 " + "12 \n\n";
      AtomLine(line, core) == Parsed(ExampleAtom(), "\n")
      && FormatAtom(12, AtomLine(line, core).value)[..60] == line[..60]
  {
    AtomExampleText();
    ExampleAtomFits();
    var a := ExampleAtom();
    assert NewAtom(a.symbol, a.position, core) == a;
    AtomPrefixKept(12, a, "12 ", "\n", core);
  }

  // Bond lines.

  /** The V2000 bond codes 1 to 4; every other code is read as a single
      bond (the source logs a warning). */
  function BondKindOf(code: nat): (k: BondKind)
    ensures k in {Single, Double, Triple, Aromatic}
    ensures k == Single <==> code !in {2, 3, 4}
  {
    if code == 2 then Double
    else if code == 3 then Triple
    else if code == 4 then Aromatic
    else Single
  }

  /** The code written for each of the four kinds the format knows. */
  function KindCode(k: BondKind): nat {
    match k
    case Double => 2
    case Triple => 3
    case Aromatic => 4
    case _ => 1
  }

  /** The codes and the four kinds correspond one to one. */
  lemma BondCodeRoundTrip(k: BondKind, code: nat)
    ensures k in {Single, Double, Triple, Aromatic} ==> BondKindOf(KindCode(k)) == k
    ensures 1 <= code <= 4 ==> KindCode(BondKindOf(code)) == code
  {
  }

  /** `get_bond_from`: the two atom indices and the bond code, in 3
      columns each; the rest of the line is ignored. */
  function BondLine(s: string): (r: Parsed<Bond>)
    ensures r.Parsed? ==> |r.rest| < |s|
  {
    match TakeNat(3, s)
    case NoParse => NoParse
    case Parsed(i, r1) =>
      match TakeNat(3, r1)
      case NoParse => NoParse
      case Parsed(j, r2) =>
        match TakeNat(3, r2)
        case NoParse => NoParse
        case Parsed(code, r3) =>
          var line := ReadLine(r3);
          Parsed(Bond(i, j, BondKindOf(code)), line.rest)
  }

  /** `format_bond`: the two indices right-aligned in 3 columns and the
      order, always written as 1, whatever the bond. */
  function FormatBond(i: nat, j: nat, b: BondKind): string {
    PadLeft(ShowNat(i), 3) + (PadLeft(ShowNat(j), 3) + ("  1" + "  0  0  0 \n"))
  }

  lemma ThreeColumns(i: nat, j: nat, code: nat, tail: string, rest: string)
    requires i < 1000 && j < 1000 && code < 1000
    requires '\n' !in tail
    ensures BondLine(PadLeft(ShowNat(i), 3) + (PadLeft(ShowNat(j), 3) + (PadLeft(ShowNat(code), 3) + (tail + ("\n" + rest)))))
         == Parsed(Bond(i, j, BondKindOf(code)), rest)
  {
    ShowNatWidth(i, 3);
    ShowNatWidth(j, 3);
    ShowNatWidth(code, 3);
    var r3 := tail + ("\n" + rest);
    var r2 := PadLeft(ShowNat(code), 3) + r3;
    var r1 := PadLeft(ShowNat(j), 3) + r2;
    TakeNatOf(i, 3, r1);
    TakeNatOf(j, 3, r2);
    TakeNatOf(code, 3, r3);
    ReadLineOf(tail, rest);
  }

  lemma OneColumn()
    ensures PadLeft(ShowNat(1), 3) == "  1"
  {
  }

  /** Bond read-back: a written bond line reads back as a single bond
      between the same indices; any other kind comes back single. */
  lemma FormatBondReads(i: nat, j: nat, b: BondKind, rest: string)
    requires i < 1000 && j < 1000
    ensures BondLine(FormatBond(i, j, b) + rest) == Parsed(Bond(i, j, Single), rest)
  {
    OneColumn();
    assert FormatBond(i, j, b) + rest
        == PadLeft(ShowNat(i), 3) + (PadLeft(ShowNat(j), 3) + (PadLeft(ShowNat(1), 3) + ("  0  0  0 " + ("\n" + rest))));
    ThreeColumns(i, j, 1, "  0  0  0 ", rest);
  }

  /** Reformatting a parsed bond line reproduces its first 9 columns when
      the line holds two indices and the code 1. */
  lemma BondPrefixKept(i: nat, j: nat, tail: string, rest: string)
    requires i < 1000 && j < 1000
    requires '\n' !in tail
    ensures var line := PadLeft(ShowNat(i), 3) + (PadLeft(ShowNat(j), 3) + ("  1" + (tail + ("\n" + rest))));
      BondLine(line) == Parsed(Bond(i, j, Single), rest)
      && FormatBond(i, j, Single)[..9] == line[..9]
  {
    var pi := PadLeft(ShowNat(i), 3);
    var pj := PadLeft(ShowNat(j), 3);
    OneColumn();
    ThreeColumns(i, j, 1, tail, rest);
    ShowNatWidth(i, 3);
    ShowNatWidth(j, 3);
    PadLeftGap(ShowNat(i), 3);
    PadLeftGap(ShowNat(j), 3);
    SharedColumns(pi, pj, "  1", "  0  0  0 \n", tail + ("\n" + rest));
  }

  /** Two lines that share their first three 3-column fields agree on their
      first 9 columns. */
  lemma SharedColumns(a: string, b: string, c: string, x: string, y: string)
    requires |a| == 3 && |b| == 3 && |c| == 3
    ensures (a + (b + (c + x)))[..9] == (a + (b + (c + y)))[..9]
  {
    var head := a + (b + c);
    AppendAssoc(b, c, x);
    AppendAssoc(a, b + c, x);
    AppendAssoc(b, c, y);
    AppendAssoc(a, b + c, y);
    assert (head + x)[..9] == head;
    assert (head + y)[..9] == head;
  }

  lemma SixSeven()
    ensures PadLeft(ShowNat(6), 3) == "  6" && PadLeft(ShowNat(7), 3) == "  7"
  {
  }

  /** The bond-line example: `  6  7  1  0  0  0 ` reads as a single bond
      from atom 6 to atom 7 and is written again with the same first 9
      columns. */
  lemma BondExample()
    ensures BondLine("  6  7  1  0  0  0 \n") == Parsed(Bond(6, 7, Single), [])
    ensures FormatBond(6, 7, Single)[..9] == "  6  7  1  0  0  0 \n"[..9]
  {
    SixSeven();
    assert "  6  7  1  0  0  0 \n" == "  6" + ("  7" + ("  1" + ("  0  0  0 " + ("\n" + []))));
    BondPrefixKept(6, 7, "  0  0  0 ", []);
  }
}
