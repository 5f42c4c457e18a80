/** The extended XYZ title line (ASE's `extxyz`): the cell, written as
    `Lattice="ax ay az bx by bz cx cy cz"` at the start of the line. */
module ExtXyz {
  import opened Wrappers
  import opened Text
  import opened Numerals
  import opened Chem

  const LatticeKey := "Lattice="

  /** The cell whose vectors are the nine numbers, three by three. */
  function LatticeOf(xs: seq<Numeral>): Lattice
    requires |xs| == 9
  {
    Lattice(Vec3(xs[0], xs[1], xs[2]), Vec3(xs[3], xs[4], xs[5]), Vec3(xs[6], xs[7], xs[8]))
  }

  /** `ExtxyzFile::read_lattice`.  The key must open the line; the character
      after it (the opening quote) is skipped unchecked, and the value runs
      up to the next `"`.  Its blank-separated words that are numbers are
      kept, and there must be exactly nine of them.  A line that is the bare
      key makes the byte slice `line[9..]` panic, which is the `Err` case. */
  function ReadLattice(line: string): (r: Result<Option<Lattice>>)
    ensures r.Err? <==> line == LatticeKey
    ensures r.Ok? && r.value.Some? ==> LatticeKey <= line && '"' in line[9..]
  {
    if !(LatticeKey <= line) then Ok(None)
    else if |line| < 9 then Err("byte index 9 is out of range of `Lattice=`")
    else Ok(QuotedLattice(line[9..]))
  }

  /** The text after the opening quote: the cell its numbers give, up to the
      closing quote. */
  function QuotedLattice(text: string): (r: Option<Lattice>)
    ensures r.Some? ==> '"' in text
  {
    match IndexOf(text, "\"")
    case None => None
    case Some(pos) =>
      assert text[pos] == '"';
      var xs := Floats(Words(text[..pos]));
      if |xs| != 9 then None else Some(LatticeOf(xs))
  }

  /** A line that does not start with the key carries no lattice. */
  lemma NoKeyNoLattice(line: string)
    requires !(LatticeKey <= line)
    ensures ReadLattice(line) == Ok(None)
  {
  }

  /** Numbers joined by single spaces: the value text of a lattice. */
  lemma JoinedNumbers(xs: seq<Numeral>, rest: string)
    requires forall k | 0 <= k < |xs| :: IsNumeral(xs[k])
    ensures var j := Join(xs, " ");
      IndexOf(j + ("\"" + rest), "\"") == Some(|j|) && Words(j) == xs
  {
    var j := Join(xs, " ");
    forall k | 0 <= k < |xs|
      ensures xs[k] != [] && All(xs[k], NotWhite) && '"' !in xs[k]
    {
      NumeralChars(xs[k]);
      assert forall i | 0 <= i < |xs[k]| :: xs[k][i] != '"' && NotWhite(xs[k][i]);
    }
    JoinAvoids(xs, '"');
    IndexOfChar(j, '"', rest);
    WordsJoin([], xs);
    assert [] + j == j;
  }

  /** Lattice read-back: numbers written between the quotes with single
      spaces give a cell exactly when there are nine of them, and then the
      cell with those vectors; the opening character and whatever follows
      the closing quote are not looked at. */
  lemma LatticeReads(open: char, xs: seq<Numeral>, rest: string)
    requires forall k | 0 <= k < |xs| :: IsNumeral(xs[k])
    ensures ReadLattice(LatticeKey + ([open] + (Join(xs, " ") + ("\"" + rest))))
         == if |xs| == 9 then Ok(Some(LatticeOf(xs))) else Ok(None)
  {
    var j := Join(xs, " ");
    var tail := j + ("\"" + rest);
    var line := LatticeKey + ([open] + tail);
    assert LatticeKey <= line && line[9..] == tail by {
      assert line == (LatticeKey + [open]) + tail;
    }
    JoinedNumbers(xs, rest);
    assert Floats(Words(j)) == xs;
    ReadLatticeFrom(line, j, rest, xs);
  }

  /** The value text `j` closed by a quote: its numbers decide the cell. */
  lemma ReadLatticeFrom(line: string, j: string, rest: string, xs: seq<Numeral>)
    requires LatticeKey <= line && |line| >= 9 && line[9..] == j + ("\"" + rest)
    requires IndexOf(j + ("\"" + rest), "\"") == Some(|j|)
    requires Floats(Words(j)) == xs
    ensures ReadLattice(line) == if |xs| == 9 then Ok(Some(LatticeOf(xs))) else Ok(None)
  {
    QuotedLatticeOf(j, rest, xs);
  }

  lemma QuotedLatticeOf(j: string, rest: string, xs: seq<Numeral>)
    requires IndexOf(j + ("\"" + rest), "\"") == Some(|j|)
    requires Floats(Words(j)) == xs
    ensures QuotedLattice(j + ("\"" + rest)) == if |xs| == 9 then Some(LatticeOf(xs)) else None
  {
    assert (j + ("\"" + rest))[..|j|] == j;
  }

  lemma Numeral13_5142()
    ensures IsNumeral("13.5142")
  {
    DecimalText("13", "5142", "13.5142");
  }

  lemma Numeral0_0()
    ensures IsNumeral("0.0")
  {
    DecimalText("0", "0", "0.0");
  }

  lemma Numeral14_9833()
    ensures IsNumeral("14.9833")
  {
    DecimalText("14", "9833", "14.9833");
  }

  lemma Numeral20_0()
    ensures IsNumeral("20.0")
  {
    DecimalText("20", "0", "20.0");
  }

  /** Three numerals on the diagonal, zeros elsewhere. */
  lemma DiagonalNumerals(a: Numeral, b: Numeral, c: Numeral, z: Numeral)
    requires IsNumeral(a) && IsNumeral(b) && IsNumeral(c) && IsNumeral(z)
    ensures var xs := [a, z, z, z, b, z, z, z, c];
      forall k | 0 <= k < |xs| :: IsNumeral(xs[k])
  {
    var xs := [a, z, z, z, b, z, z, z, c];
    forall k | 0 <= k < |xs|
      ensures IsNumeral(xs[k])
    {
      if k == 0 {
        assert xs[k] == a;
      } else if k == 4 {
        assert xs[k] == b;
      } else if k == 8 {
        assert xs[k] == c;
      } else {
        assert xs[k] == z;
      }
    }
  }

  /** The title line of an ASE extended XYZ file: an orthorhombic cell, then
      other key-value pairs that do not matter to the cell. */
  lemma LatticeExample()
    ensures ReadLattice(LatticeKey + ("\"" + (Join(["13.5142", "0.0", "0.0", "0.0", "14.9833", "0.0", "0.0", "0.0", "20.0"], " ")
              + ("\"" + " Properties=species:S:1:pos:R:3 pbc=\"T T T\""))))
         == Ok(Some(Lattice(Vec3("13.5142", "0.0", "0.0"), Vec3("0.0", "14.9833", "0.0"), Vec3("0.0", "0.0", "20.0"))))
  {
    Numeral13_5142();
    Numeral0_0();
    Numeral14_9833();
    Numeral20_0();
    DiagonalNumerals("13.5142", "14.9833", "20.0", "0.0");
    LatticeReads('"', ["13.5142", "0.0", "0.0", "0.0", "14.9833", "0.0", "0.0", "0.0", "20.0"], " Properties=species:S:1:pos:R:3 pbc=\"T T T\"");
  }
}
