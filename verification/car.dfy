/** Accelrys/Materials Studio CAR and ARC files: the `PBC` line with the six
    cell parameters, and the atom lines whose name starts with the element
    symbol. */
module Car {
  import opened Text
  import opened Numerals
  import opened Nom
  import opened Chem

  /** The cell parameters of the first six tokens, in input order. */
  function CellOf(ps: seq<Numeral>): CellParams
    requires |ps| >= 6
  {
    CellParams(ps[0], ps[1], ps[2], ps[3], ps[4], ps[5])
  }

  /** `read_pbc_params`: the tag `PBC`, blanks, then blank-separated tokens.
      Of the first six tokens, those that are numbers are kept; fewer than
      six numbers is a parse error.  A seventh token (the space group) only
      draws a warning when it is not `(P1)`. */
  function ReadPbcParams(s: string): (r: Parsed<CellParams>)
    ensures r.Parsed? ==> Tag("PBC", s).Parsed? && |r.rest| < |s|
  {
    match Tag("PBC", s)
    case NoParse => NoParse
    case Parsed(_, r0) =>
      match Space1(r0)
      case NoParse => NoParse
      case Parsed(_, r1) =>
        match Tokens(r1)
        case NoParse => NoParse
        case Parsed(p, r) =>
          var params := Floats(if |p| <= 6 then p else p[..6]);
          if |params| < 6 then NoParse else Parsed(CellOf(params), r)
  }

  /** `ReadPbcParams` from the result of its token list. */
  lemma PbcFrom(g: string, r1: string, ws: seq<string>, rest: string)
    requires IsGap(g) && (r1 == [] || !IsBlank(r1[0]))
    requires Tokens(r1) == Parsed(ws, rest)
    ensures var params := Floats(if |ws| <= 6 then ws else ws[..6]);
      ReadPbcParams("PBC" + (g + r1)) == if |params| < 6 then NoParse else Parsed(CellOf(params), rest)
  {
    TagOf("PBC", g + r1);
    Take1Of(g, r1, IsBlank);
  }

  /** The `PBC` line read back: the line is accepted exactly when its first
      six tokens are numbers, and then gives them in order, whatever follows
      them (the space group included). */
  lemma PbcLineReads(g: string, ws: seq<string>, gaps: seq<string>, rest: string)
    requires IsGap(g) && ws != [] && |gaps| + 1 == |ws|
    requires forall k | 0 <= k < |ws| :: IsToken(ws[k])
    requires forall k | 0 <= k < |gaps| :: IsGap(gaps[k])
    requires StopsTokens(rest)
    ensures var r := ReadPbcParams("PBC" + (g + (Spaced(ws, gaps) + rest)));
      (r.Parsed? <==> |ws| >= 6 && forall k | 0 <= k < 6 :: IsNumeral(ws[k]))
      && (r.Parsed? ==> r == Parsed(CellOf(ws), rest))
  {
    var t := Spaced(ws, gaps) + rest;
    TokensOf(ws, gaps, rest);
    assert IsToken(ws[0]) && t[0] == ws[0][0];
    PbcFrom(g, t, ws, rest);
    var head := if |ws| <= 6 then ws else ws[..6];
    assert forall k | 0 <= k < |head| :: head[k] == ws[k];
  }

  lemma SixNumerals(a: string, b: string, c: string, d: string, e: string, f: string, more: seq<string>)
    requires IsNumeral(a) && IsNumeral(b) && IsNumeral(c)
    requires IsNumeral(d) && IsNumeral(e) && IsNumeral(f)
    ensures var ws := [a, b, c, d, e, f] + more;
      forall k | 0 <= k < 6 :: IsNumeral(ws[k])
  {
  }

  lemma SixTokens(a: string, b: string, c: string, d: string, e: string, f: string, more: seq<string>)
    requires IsToken(a) && IsToken(b) && IsToken(c) && IsToken(d) && IsToken(e) && IsToken(f)
    requires forall w | w in more :: IsToken(w)
    ensures var ws := [a, b, c, d, e, f] + more;
      forall k | 0 <= k < |ws| :: IsToken(ws[k])
  {
    var ws := [a, b, c, d, e, f] + more;
    forall k | 0 <= k < |ws| ensures IsToken(ws[k]) {
      if k >= 6 { assert ws[k] == more[k - 6] && more[k - 6] in more; }
    }
  }

  lemma FiveGaps(g1: string, g2: string, g3: string, g4: string, g5: string, moreGaps: seq<string>)
    requires IsGap(g1) && IsGap(g2) && IsGap(g3) && IsGap(g4) && IsGap(g5)
    requires forall w | w in moreGaps :: IsGap(w)
    ensures var gaps := [g1, g2, g3, g4, g5] + moreGaps;
      forall k | 0 <= k < |gaps| :: IsGap(gaps[k])
  {
    var gaps := [g1, g2, g3, g4, g5] + moreGaps;
    forall k | 0 <= k < |gaps| ensures IsGap(gaps[k]) {
      if k >= 5 { assert gaps[k] == moreGaps[k - 5] && moreGaps[k - 5] in moreGaps; }
    }
  }

  /** `PbcLineReads` for a line whose first six tokens are the numbers
      `a` to `f`. */
  lemma PbcNumbersRead(a: string, b: string, c: string, d: string, e: string, f: string,
                       g: string, g1: string, g2: string, g3: string, g4: string, g5: string,
                       more: seq<string>, moreGaps: seq<string>, rest: string)
    requires IsNumeral(a) && IsNumeral(b) && IsNumeral(c)
    requires IsNumeral(d) && IsNumeral(e) && IsNumeral(f)
    requires IsToken(a) && IsToken(b) && IsToken(c) && IsToken(d) && IsToken(e) && IsToken(f)
    requires forall w | w in more :: IsToken(w)
    requires IsGap(g) && IsGap(g1) && IsGap(g2) && IsGap(g3) && IsGap(g4) && IsGap(g5)
    requires |moreGaps| == |more| && forall w | w in moreGaps :: IsGap(w)
    requires StopsTokens(rest)
    ensures ReadPbcParams("PBC" + (g + (Spaced([a, b, c, d, e, f] + more, [g1, g2, g3, g4, g5] + moreGaps) + rest)))
         == Parsed(CellParams(a, b, c, d, e, f), rest)
  {
    var ws := [a, b, c, d, e, f] + more;
    var gaps := [g1, g2, g3, g4, g5] + moreGaps;
    SixTokens(a, b, c, d, e, f, more);
    FiveGaps(g1, g2, g3, g4, g5, moreGaps);
    SixNumerals(a, b, c, d, e, f, more);
    assert CellOf(ws) == CellParams(a, b, c, d, e, f);
    PbcLineReads(g, ws, gaps, rest);
  }

  lemma Numeral8_86010000()
    ensures IsNumeral("8.86010000")
  {
    DecimalText("8", "86010000", "8.86010000");
  }

  lemma Numeral21_50090000()
    ensures IsNumeral("21.50090000")
  {
    DecimalText("21", "50090000", "21.50090000");
  }

  lemma Numeral20_05100000()
    ensures IsNumeral("20.05100000")
  {
    DecimalText("20", "05100000", "20.05100000");
  }

  lemma Numeral90_00000000()
    ensures IsNumeral("90.00000000")
  {
    DecimalText("90", "00000000", "90.00000000");
  }

  lemma Numeral93_93820000()
    ensures IsNumeral("93.93820000")
  {
    assert All("93", IsDigit) && All("93820000", IsDigit);
    DecimalText("93", "93820000", "93.93820000");
  }

  lemma Numeral5_0256()
    ensures IsNumeral("5.0256")
  {
    DecimalText("5", "0256", "5.0256");
  }

  lemma Numeral13_6943()
    ensures IsNumeral("13.6943")
  {
    DecimalText("13", "6943", "13.6943");
  }

  lemma Numeral90_0000()
    ensures IsNumeral("90.0000")
  {
    DecimalText("90", "0000", "90.0000");
  }

  lemma Numeral120_0000()
    ensures IsNumeral("120.0000")
  {
    DecimalText("120", "0000", "120.0000");
  }

  lemma PbcExample1Text()
    ensures Spaced(["8.86010000", "21.50090000", "20.05100000", "90.00000000", "90.00000000", "93.93820000"] + [], ["   ", "   ", "   ", "   ", "   "] + []) + []
         == "8.86010000" + ("   " + ("21.50090000" + ("   " + ("20.05100000" + ("   " + ("90.00000000" + ("   " + ("90.00000000" + ("   " + ("93.93820000"))))))))))
  {
    var ws := ["8.86010000", "21.50090000", "20.05100000", "90.00000000", "90.00000000", "93.93820000"];
    var gaps := ["   ", "   ", "   ", "   ", "   "];
    assert ["8.86010000", "21.50090000", "20.05100000", "90.00000000", "90.00000000", "93.93820000"] + [] == ws && ["   ", "   ", "   ", "   ", "   "] + [] == gaps;
    SpacedStep(ws[0..], gaps[0..]);
    SpacedStep(ws[1..], gaps[1..]);
    SpacedStep(ws[2..], gaps[2..]);
    SpacedStep(ws[3..], gaps[3..]);
    SpacedStep(ws[4..], gaps[4..]);
    assert Spaced(ws[5..], gaps[5..]) == ws[5];
  }

  lemma PbcExample1Tokens()
    ensures IsToken("8.86010000")
    ensures IsToken("21.50090000")
    ensures IsToken("20.05100000")
    ensures IsToken("90.00000000")
    ensures IsToken("93.93820000")
    ensures IsGap("    ")
    ensures IsGap("   ")
  {
  }

  lemma PbcExample1Spaced()
    ensures ReadPbcParams("PBC" + ("    " + (Spaced(["8.86010000", "21.50090000", "20.05100000", "90.00000000", "90.00000000", "93.93820000"] + [], ["   ", "   ", "   ", "   ", "   "] + []) + [])))
         == Parsed(CellParams("8.86010000", "21.50090000", "20.05100000", "90.00000000", "90.00000000", "93.93820000"), [])
  {
    PbcExample1Tokens();
    Numeral8_86010000();
    Numeral21_50090000();
    Numeral20_05100000();
    Numeral90_00000000();
    Numeral93_93820000();
    PbcNumbersRead("8.86010000", "21.50090000", "20.05100000", "90.00000000", "90.00000000", "93.93820000", "    ", "   ", "   ", "   ", "   ", "   ", [], [], []);
  }

  /** The first `PBC` example: six numbers and nothing after them. */
  lemma PbcExample1()
    ensures ReadPbcParams("PBC" + ("    " + ("8.86010000" + ("   " + ("21.50090000" + ("   " + ("20.05100000" + ("   " + ("90.00000000" + ("   " + ("90.00000000" + ("   " + ("93.93820000")))))))))))))
         == Parsed(CellParams("8.86010000", "21.50090000", "20.05100000", "90.00000000", "90.00000000", "93.93820000"), [])
  {
    PbcExample1Spaced();
    PbcExample1Text();
  }

  lemma PbcExample2Text()
    ensures Spaced(["5.0256", "5.0256", "13.6943", "90.0000", "90.0000", "120.0000"] + ["(P1)"], ["    ", "   ", "   ", "   ", "  "] + [" "]) + []
         == "5.0256" + ("    " + ("5.0256" + ("   " + ("13.6943" + ("   " + ("90.0000" + ("   " + ("90.0000" + ("  " + ("120.0000" + (" " + ("(P1)"))))))))))))
  {
    var ws := ["5.0256", "5.0256", "13.6943", "90.0000", "90.0000", "120.0000", "(P1)"];
    var gaps := ["    ", "   ", "   ", "   ", "  ", " "];
    assert ["5.0256", "5.0256", "13.6943", "90.0000", "90.0000", "120.0000"] + ["(P1)"] == ws && ["    ", "   ", "   ", "   ", "  "] + [" "] == gaps;
    SpacedStep(ws[0..], gaps[0..]);
    SpacedStep(ws[1..], gaps[1..]);
    SpacedStep(ws[2..], gaps[2..]);
    SpacedStep(ws[3..], gaps[3..]);
    SpacedStep(ws[4..], gaps[4..]);
    SpacedStep(ws[5..], gaps[5..]);
    assert Spaced(ws[6..], gaps[6..]) == ws[6];
  }

  lemma PbcExample2Tokens()
    ensures IsToken("5.0256")
    ensures IsToken("13.6943")
    ensures IsToken("90.0000")
    ensures IsToken("120.0000")
    ensures IsToken("(P1)")
    ensures IsGap("    ")
    ensures IsGap("   ")
    ensures IsGap("  ")
    ensures IsGap(" ")
  {
  }

  lemma PbcExample2Spaced()
    ensures ReadPbcParams("PBC" + ("    " + (Spaced(["5.0256", "5.0256", "13.6943", "90.0000", "90.0000", "120.0000"] + ["(P1)"], ["    ", "   ", "   ", "   ", "  "] + [" "]) + [])))
         == Parsed(CellParams("5.0256", "5.0256", "13.6943", "90.0000", "90.0000", "120.0000"), [])
  {
    PbcExample2Tokens();
    Numeral5_0256();
    Numeral13_6943();
    Numeral90_0000();
    Numeral120_0000();
    PbcNumbersRead("5.0256", "5.0256", "13.6943", "90.0000", "90.0000", "120.0000", "    ", "    ", "   ", "   ", "   ", "  ", ["(P1)"], [" "], []);
  }

  /** The second `PBC` example: six numbers and the space group `(P1)`. */
  lemma PbcExample2()
    ensures ReadPbcParams("PBC" + ("    " + ("5.0256" + ("    " + ("5.0256" + ("   " + ("13.6943" + ("   " + ("90.0000" + ("   " + ("90.0000" + ("  " + ("120.0000" + (" " + ("(P1)")))))))))))))))
         == Parsed(CellParams("5.0256", "5.0256", "13.6943", "90.0000", "90.0000", "120.0000"), [])
  {
    PbcExample2Spaced();
    PbcExample2Text();
  }

  /** `read_atom_line`: the atom name, blanks, then the three coordinates;
      the element symbol is the run of ASCII letters the name starts with,
      and the rest of the name is dropped; `Atom::new` makes it standard. */
  function ReadAtomLine(s: string, core: Core): (r: Parsed<Atom>)
    ensures r.Parsed? ==> |r.rest| < |s|
    ensures r.Parsed? ==>
              NotSpace(s).Parsed? && r.value == NewAtom(AlphaPrefix(NotSpace(s).value), r.value.position, core)
  {
    match NotSpace(s)
    case NoParse => NoParse
    case Parsed(name, r0) =>
      match Space1(r0)
      case NoParse => NoParse
      case Parsed(_, r1) =>
        match XyzArray(r1)
        case NoParse => NoParse
        case Parsed(coords, r) =>
          Parsed(NewAtom(AlphaPrefix(name), coords, core), r)
  }

  /** An atom line read back: a name made of an element symbol and a suffix
      that does not start with a letter (a serial number, say) gives the
      symbol and the position, whatever follows the coordinates. */
  lemma AtomLineReads(symbol: string, suffix: string, g: string, v: Vec3, g1: string, g2: string, rest: string, core: Core)
    requires symbol != [] && All(symbol, IsAlpha)
    requires All(suffix, NotWhite) && (suffix == [] || !IsAlpha(suffix[0]))
    requires IsGap(g) && IsGap(g1) && IsGap(g2)
    requires IsNumeral(v.x) && IsNumeral(v.y) && IsNumeral(v.z)
    requires rest == [] || IsWhite(rest[0])
    ensures ReadAtomLine((symbol + suffix) + (g + (v.x + (g1 + (v.y + (g2 + (v.z + rest)))))), core)
         == Parsed(NewAtom(symbol, v, core), rest)
  {
    var name := symbol + suffix;
    var r1 := v.x + (g1 + (v.y + (g2 + (v.z + rest))));
    assert All(name, NotWhite) by {
      assert forall k | 0 <= k < |name| :: name[k] == if k < |symbol| then symbol[k] else suffix[k - |symbol|];
    }
    assert NotSpace(name + (g + r1)) == Parsed(name, g + r1) by {
      Take1Of(name, g + r1, NotWhite);
    }
    assert Space1(g + r1) == Parsed(g, r1) by {
      NumeralNotWhite(v.x);
      assert r1[0] == v.x[0];
      Take1Of(g, r1, IsBlank);
    }
    assert XyzArray(r1) == Parsed(v, rest) by {
      XyzArrayOf(v, g1, g2, rest);
    }
    AlphaPrefixOf(symbol, suffix);
  }

  /** `AlphaPrefix` on a typical CAR atom name. */
  lemma AtomNameExample()
    ensures AlphaPrefix("Si23") == "Si"
  {
    AlphaPrefixOf("Si", "23");
    assert "Si" + "23" == "Si23";
  }
}
