/** Section headers of Gaussian formatted checkpoint (fchk) files: a
    40-column name, a 7-column data-type field, a 2-column array marker and
    the rest of the line as the value or the array size. */
module GaussianFchk {
  import opened Wrappers
  import opened Text
  import opened Nom

  /** The fchk data types: I, R, L, C and H. */
  datatype DataType = Integer | Real | Logical | Character1 | Character2

  /** The type code written in a section header. */
  function Code(dt: DataType): char {
    match dt
    case Integer => 'I'
    case Real => 'R'
    case Logical => 'L'
    case Character1 => 'C'
    case Character2 => 'H'
  }

  /** Columns taken by one array item: 6I12, 5E16.8, 72L1, 5A12 and 9A8. */
  function Width(dt: DataType): (w: nat)
    ensures w == 1 <==> dt == Logical
    ensures w % 4 == 0 <==> dt != Logical
  {
    match dt
    case Integer => 12
    case Real => 16
    case Logical => 1
    case Character1 => 12
    case Character2 => 8
  }

  /** Items per data line, as the format comments give them. */
  function PerLine(dt: DataType): nat {
    match dt
    case Integer => 6
    case Real => 5
    case Logical => 72
    case Character1 => 5
    case Character2 => 9
  }

  /** Every data line fits in 80 columns. */
  lemma LineFits(dt: DataType)
    ensures 0 < PerLine(dt) * Width(dt) <= 80
  {
  }

  /** `DataType::from_str`: the trimmed text must be one of I, R, C or H;
      L is not accepted. */
  function ParseDataType(s: string): (r: Result<DataType>)
    ensures r.Ok? <==> Trim(s) in ["I", "R", "C", "H"]
    ensures r.Ok? ==> r.value != Logical && Trim(s) == [Code(r.value)]
    ensures r.Err? ==> r.msg == "unkown data type: " + Trim(s)
  {
    var t := Trim(s);
    if t == "I" then Ok(Integer)
    else if t == "R" then Ok(Real)
    else if t == "C" then Ok(Character1)
    else if t == "H" then Ok(Character2)
    else Err("unkown data type: " + t)
  }

  /** A type code with blanks around it parses back to its type. */
  lemma CodeRoundTrip(dt: DataType, ws1: string, ws2: string)
    requires dt != Logical
    requires All(ws1, IsWhite) && All(ws2, IsWhite)
    ensures ParseDataType(ws1 + ([Code(dt)] + ws2)) == Ok(dt)
  {
    TrimAround(ws1, [Code(dt)], ws2);
  }

  /** The logical type has a width but no code the parser accepts. */
  lemma LogicalRejected(s: string)
    ensures ParseDataType(s) != Ok(Logical)
    ensures Trim(s) == [Code(Logical)] ==> ParseDataType(s).Err?
  {
  }

  /** The parsing examples: `"  I"` is an integer 12 columns wide and
      `" R "` a real 16 columns wide. */
  lemma DataTypeExamples()
    ensures ParseDataType("  I") == Ok(Integer) && Width(Integer) == 12
    ensures ParseDataType(" R ") == Ok(Real) && Width(Real) == 16
  {
    assert "  I" == "  " + ([Code(Integer)] + "");
    CodeRoundTrip(Integer, "  ", "");
    assert " R " == " " + ([Code(Real)] + " ");
    CodeRoundTrip(Real, " ", " ");
  }

  /** One section of a formatted checkpoint file as its header describes it. */
  datatype Section = Section(name: string, dataType: DataType, isArray: bool, value: string)

  /** Reading a header either gives the section and the text after its line,
      fails because the line is shorter than the fixed columns, or stops on
      a type code the parser refuses (the source panics there). */
  datatype HeaderRead = Header(section: Section, rest: string) | Truncated | BadType(msg: string)

  /** `read_section_header`: `take_s` of 40, 7 and 2 columns for the name,
      the type and the array marker `N=`, then the value up to the end of
      the line; name, type, marker and value are trimmed. */
  function ReadSectionHeader(s: string): (r: HeaderRead)
    ensures r.Truncated? <==> |s| < 49
    ensures r.Header? ==> |r.rest| <= |s| - 49
    ensures r.Header? ==> r.section.dataType != Logical
    ensures r.Header? ==> [Code(r.section.dataType)] == Trim(s[40..47])
    ensures r.BadType? ==> Trim(s[40..47]) !in ["I", "R", "C", "H"]
  {
    if |s| < 49 then Truncated
    else
      var line := ReadLine(s[49..]);
      match ParseDataType(s[40..47])
      case Err(m) => BadType(m)
      case Ok(dt) =>
        Header(Section(Trim(s[..40]), dt, Trim(s[47..49]) == "N=", Trim(line.value)), line.rest)
  }

  /** The 7-column type field: the code in column 44. */
  function TypeField(dt: DataType): (f: string)
    ensures |f| == 7
  {
    "   " + ([Code(dt)] + "   ")
  }

  /** The 2-column array marker. */
  function ArrayField(isArray: bool): (f: string)
    ensures |f| == 2
  {
    if isArray then "N=" else "  "
  }

  predicate Visible(t: string) {
    t == [] || (NotWhite(t[0]) && NotWhite(t[|t| - 1]))
  }

  /** A header line as a writer lays it out. */
  function HeaderText(name: string, dt: DataType, isArray: bool, lead: string, value: string, trail: string): string {
    PadRight(name, 40) + (TypeField(dt) + (ArrayField(isArray) + (lead + (value + trail))))
  }

  lemma ArrayFieldReads(isArray: bool)
    ensures (Trim(ArrayField(isArray)) == "N=") == isArray
  {
    if isArray {
      TrimAround([], "N=", []);
      assert [] + ("N=" + []) == "N=";
    } else {
      TrimAround("  ", [], []);
      assert "  " + ([] + []) == "  ";
    }
  }

  lemma LabelReads(name: string)
    requires |name| <= 40 && Visible(name)
    ensures |PadRight(name, 40)| == 40
    ensures Trim(PadRight(name, 40)) == name
  {
    PadRightGap(name, 40);
    SpacesAreWhite(Gap(name, 40));
    TrimAround([], name, Spaces(Gap(name, 40)));
    assert [] + (name + Spaces(Gap(name, 40))) == PadRight(name, 40);
  }

  lemma ValueReads(lead: string, value: string, trail: string, rest: string)
    requires All(lead, IsBlank) && All(trail, IsBlank)
    requires '\n' !in value && Visible(value)
    ensures ReadLine(lead + (value + (trail + ("\n" + rest)))) == Parsed(lead + (value + trail), rest)
    ensures Trim(lead + (value + trail)) == value
  {
    var line := lead + (value + trail);
    assert '\n' !in line by {
      forall i | 0 <= i < |line|
        ensures line[i] != '\n'
      {
        if i < |lead| {
          assert line[i] == lead[i];
        } else if i < |lead| + |value| {
          assert line[i] == value[i - |lead|];
        } else {
          assert line[i] == trail[i - |lead| - |value|];
        }
      }
    }
    assert lead + (value + (trail + ("\n" + rest))) == line + ("\n" + rest);
    ReadLineOf(line, rest);
    TrimAround(lead, value, trail);
  }

  /** Header read-back: a header line laid out in the fixed columns reads
      back as its name, type, array marker and value, and leaves the
      following lines. */
  lemma HeaderRoundTrip(name: string, dt: DataType, isArray: bool, lead: string, value: string, trail: string, rest: string)
    requires |name| <= 40 && Visible(name)
    requires dt != Logical
    requires All(lead, IsBlank) && All(trail, IsBlank)
    requires '\n' !in value && Visible(value)
    ensures ReadSectionHeader(HeaderText(name, dt, isArray, lead, value, trail + ("\n" + rest)))
         == Header(Section(name, dt, isArray, value), rest)
  {
    var tail := lead + (value + (trail + ("\n" + rest)));
    LabelReads(name);
    ArrayFieldReads(isArray);
    ValueReads(lead, value, trail, rest);
    TypeFieldReads(dt);
    HeaderFrom(PadRight(name, 40), TypeField(dt), ArrayField(isArray), tail,
               name, dt, isArray, lead + (value + trail), value, rest);
  }

  /** The written type field parses back to its type. */
  lemma TypeFieldReads(dt: DataType)
    requires dt != Logical
    ensures ParseDataType(TypeField(dt)) == Ok(dt)
  {
    CodeRoundTrip(dt, "   ", "   ");
  }

  /** A header line whose fields each read back reads back as a whole. */
  lemma HeaderFrom(f40: string, ft: string, fa: string, tail: string,
                   name: string, dt: DataType, isArray: bool, line: string, value: string, rest: string)
    requires |f40| == 40 && |ft| == 7 && |fa| == 2
    requires Trim(f40) == name && ParseDataType(ft) == Ok(dt) && (Trim(fa) == "N=") == isArray
    requires ReadLine(tail) == Parsed(line, rest) && Trim(line) == value
    ensures ReadSectionHeader(f40 + (ft + (fa + tail))) == Header(Section(name, dt, isArray, value), rest)
  {
    FieldSlices(f40, ft, fa, tail);
    HeaderOf(f40 + (ft + (fa + tail)), dt, line, rest);
  }

  /** `read_section_header` from the results of its fields. */
  lemma HeaderOf(s: string, dt: DataType, line: string, rest: string)
    requires |s| >= 49
    requires ParseDataType(s[40..47]) == Ok(dt)
    requires ReadLine(s[49..]) == Parsed(line, rest)
    ensures ReadSectionHeader(s) == Header(Section(Trim(s[..40]), dt, Trim(s[47..49]) == "N=", Trim(line)), rest)
  {
  }

  /** The fixed columns of a header line: 40 for the name, 7 for the type,
      2 for the array marker, then the value. */
  lemma FieldSlices(f40: string, ft: string, fa: string, tail: string)
    requires |f40| == 40 && |ft| == 7 && |fa| == 2
    ensures var s := f40 + (ft + (fa + tail));
      s[..40] == f40 && s[40..47] == ft && s[47..49] == fa && s[49..] == tail
  {
    var s := f40 + (ft + (fa + tail));
    assert s[..40] == f40;
    assert s[40..] == ft + (fa + tail);
    assert s[40..][..7] == ft && s[40..][7..] == fa + tail;
    assert s[40..47] == s[40..][..7];
    assert s[47..] == fa + tail;
    assert s[47..49] == s[47..][..2] == fa;
    assert s[49..] == s[47..][2..] == tail;
  }

  /** A literal run of blanks is `Spaces` of its length. */
  lemma BlankRun(t: string)
    requires forall i | 0 <= i < |t| :: t[i] == ' '
    ensures Spaces(|t|) == t
  {
  }

  /** A name padded to 40 columns by a literal run of blanks. */
  lemma PaddedName(name: string, pad: string)
    requires |name| + |pad| == 40
    requires forall i | 0 <= i < |pad| :: pad[i] == ' '
    ensures PadRight(name, 40) == name + pad
  {
    PadRightGap(name, 40);
    BlankRun(pad);
  }

  /** The name columns of the NuclearCharges example. */
  lemma NuclearChargesName()
    ensures "Nuclear charges                         " == PadRight("Nuclear charges", 40)
  {
    PaddedName("Nuclear charges", "                         ");
    assert "Nuclear charges                         " == "Nuclear charges" + "                         ";
  }

  /** The type, marker and value columns of the NuclearCharges example. */
  lemma NuclearChargesTail()
    ensures "   R   N=          11 \n" == TypeField(Real) + (ArrayField(true) + (Spaces(10) + ("11" + (" " + ("\n" + [])))))
  {
    BlankRun("          ");
    assert TypeField(Real) == "   R   " && ArrayField(true) == "N=";
    assert "\n" + [] == "\n";
    assert "   R   N=          11 \n" == "   R   " + "N=          11 \n";
    assert "N=          11 \n" == "N=" + "          11 \n";
    assert "          11 \n" == "          " + "11 \n";
    assert "11 \n" == "11" + " \n";
    assert " \n" == " " + "\n";
  }

  /** The first header example reads as an array of 11 reals named
      `Nuclear charges`. */
  lemma NuclearChargesHeader()
    ensures ReadSectionHeader("Nuclear charges                         " + "   R   N=          11 \n")
         == Header(Section("Nuclear charges", Real, true, "11"), [])
  {
    NuclearChargesName();
    NuclearChargesTail();
    HeaderRoundTrip("Nuclear charges", Real, true, Spaces(10), "11", " ", []);
  }

  /** The name columns of the AlphaElectrons example. */
  lemma AlphaElectronsName()
    ensures "Number of alpha electrons               " == PadRight("Number of alpha electrons", 40)
  {
    PaddedName("Number of alpha electrons", "               ");
    assert "Number of alpha electrons               " == "Number of alpha electrons" + "               ";
  }

  /** The type, marker and value columns of the AlphaElectrons example. */
  lemma AlphaElectronsTail()
    ensures "   I              225\n" == TypeField(Integer) + (ArrayField(false) + (Spaces(9) + ("225" + ([] + ("\n" + [])))))
  {
    BlankRun("         ");
    assert TypeField(Integer) == "   I   " && ArrayField(false) == "  ";
    assert "\n" + [] == "\n";
    assert "   I              225\n" == "   I   " + "           225\n";
    assert "           225\n" == "  " + "         225\n";
    assert "         225\n" == "         " + "225\n";
    assert "225\n" == "225" + "\n";
  }

  /** The second header example is a single integer, not an array. */
  lemma AlphaElectronsHeader()
    ensures ReadSectionHeader("Number of alpha electrons               " + "   I              225\n")
         == Header(Section("Number of alpha electrons", Integer, false, "225"), [])
  {
    AlphaElectronsName();
    AlphaElectronsTail();
    HeaderRoundTrip("Number of alpha electrons", Integer, false, Spaces(9), "225", [], []);
  }

  /** The name columns of the TotalEnergy example. */
  lemma TotalEnergyName()
    ensures "Total Energy                            " == PadRight("Total Energy", 40)
  {
    PaddedName("Total Energy", "                            ");
    assert "Total Energy                            " == "Total Energy" + "                            ";
  }

  /** The type, marker and value columns of the TotalEnergy example. */
  lemma TotalEnergyTail()
    ensures "   R   " + ("  " + ("-1.177266205968928E+02" + "\n"))
         == TypeField(Real) + (ArrayField(false) + ([] + ("-1.177266205968928E+02" + ([] + ("\n" + [])))))
  {
    var v := "-1.177266205968928E+02";
    assert TypeField(Real) == "   R   " && ArrayField(false) == "  ";
    assert [] + (v + ([] + ("\n" + []))) == v + "\n";
  }

  /** The third header example is a single real, not an array. */
  lemma TotalEnergyHeader()
    ensures ReadSectionHeader("Total Energy                            " + ("   R   " + ("  " + ("-1.177266205968928E+02" + "\n"))))
         == Header(Section("Total Energy", Real, false, "-1.177266205968928E+02"), [])
  {
    TotalEnergyName();
    TotalEnergyTail();
    HeaderRoundTrip("Total Energy", Real, false, [], "-1.177266205968928E+02", [], []);
  }
}
