/** Character-level parser combinators in the style of nom, as the format
    readers use them: a parser maps the input to `NoParse` or to the value read
    and the rest of the input.  The nom primitives follow nom's documented
    behaviour; the gchemol_parser helpers (`read_line`, `not_space`, `xyz_array`,
    `read_usize`, `read_double`, `unsigned_digit`, `signed_digit`, `take_s`) are
    given the definitions stated on each. */
module Nom {
  import opened Wrappers
  import opened Text
  import opened Numerals

  datatype Parsed<+T> = NoParse | Parsed(value: T, rest: string)

  /** `take_while1(p)`. */
  function Take1(s: string, p: char -> bool): (r: Parsed<string>)
    ensures r.Parsed? ==> r.value != [] && s == r.value + r.rest
  {
    var n := Span(s, p);
    if n == 0 then NoParse else Parsed(s[..n], s[n..])
  }

  /** `space0`: skips blanks and tabs. */
  function Space0(s: string): string {
    s[Span(s, IsBlank)..]
  }

  /** `space1`: at least one blank or tab. */
  function Space1(s: string): Parsed<string> {
    Take1(s, IsBlank)
  }

  function Digit1(s: string): Parsed<string> {
    Take1(s, IsDigit)
  }

  function Alpha1(s: string): Parsed<string> {
    Take1(s, IsAlpha)
  }

  function Alphanumeric1(s: string): Parsed<string> {
    Take1(s, IsAlnum)
  }

  /** gchemol_parser `not_space`: one or more characters other than blanks and
      line breaks. */
  function NotSpace(s: string): Parsed<string> {
    Take1(s, NotWhite)
  }

  function Tag(t: string, s: string): (r: Parsed<string>)
    ensures r.Parsed? ==> s == t + r.rest
  {
    if t <= s then Parsed(t, s[|t|..]) else NoParse
  }

  /** `tag_no_case`: the value is the input's own spelling. */
  function TagNoCase(t: string, s: string): Parsed<string> {
    if |t| <= |s| && Lower(s[..|t|]) == Lower(t) then Parsed(s[..|t|], s[|t|..]) else NoParse
  }

  /** `line_ending`. */
  function LineEnding(s: string): (r: Parsed<string>)
    ensures r.Parsed? ==> |r.rest| < |s|
  {
    if "\n" <= s then Parsed("\n", s[1..])
    else if "\r\n" <= s then Parsed("\r\n", s[2..])
    else NoParse
  }

  /** gchemol_parser `eol`: a line ending, after any trailing blanks. */
  function Eol(s: string): (r: Parsed<string>)
    ensures r.Parsed? ==> |r.rest| < |s|
  {
    LineEnding(Space0(s))
  }

  /** gchemol_parser `read_line` (and `read_until_eol`): the text up to the next
      line break, which is consumed; at the end of the input, whatever is left
      (possibly nothing). */
  function ReadLine(s: string): (r: Parsed<string>)
    ensures r.Parsed? && |r.rest| <= |s| && (s != [] ==> |r.rest| < |s|)
  {
    match IndexOf(s, "\n")
    case Some(k) => Parsed(s[..k], s[k + 1..])
    case None => Parsed(s, [])
  }

  /** gchemol_parser `take_s(n)`: exactly `n` characters. */
  function TakeS(n: nat, s: string): (r: Parsed<string>)
    ensures r.Parsed? <==> n <= |s|
    ensures r.Parsed? ==> |r.value| == n && s == r.value + r.rest
  {
    if n <= |s| then Parsed(s[..n], s[n..]) else NoParse
  }

  /** `take_until(t)`: the text before the first occurrence of `t`. */
  function TakeUntil(t: string, s: string): Parsed<string> {
    match IndexOf(s, t)
    case Some(k) => Parsed(s[..k], s[k..])
    case None => NoParse
  }

  /** nom `double`: the longest prefix in `recognize_float`'s grammar. */
  function Double(s: string): (r: Parsed<Numeral>)
    ensures r.Parsed? ==> r.value != [] && s == r.value + r.rest
  {
    match FloatLen(s)
    case Some(n) => Parsed(s[..n], s[n..])
    case None => NoParse
  }

  /** gchemol_parser `unsigned_digit`: `digit1` read as an integer. */
  function UnsignedDigit(s: string): (r: Parsed<nat>)
    ensures r.Parsed? ==> |r.rest| < |s|
  {
    var n := Span(s, IsDigit);
    if n == 0 then NoParse else Parsed(DigitsValue(s[..n]), s[n..])
  }

  /** gchemol_parser `signed_digit`: an optional sign, then `digit1`. */
  function SignedDigit(s: string): (r: Parsed<int>)
    ensures r.Parsed? ==> |r.rest| < |s|
  {
    var i := SignLen(s);
    match UnsignedDigit(s[i..])
    case NoParse => NoParse
    case Parsed(n, rest) => Parsed(if i == 1 && s[0] == '-' then -(n as int) else n, rest)
  }

  /** `terminated(double, space1)`. */
  function DoubleSpace1(s: string): (r: Parsed<Numeral>)
    ensures r.Parsed? ==> |r.rest| < |s|
  {
    match Double(s)
    case NoParse => NoParse
    case Parsed(x, r) =>
      match Space1(r)
      case NoParse => NoParse
      case Parsed(_, r') => Parsed(x, r')
  }

  /** gchemol_parser `xyz_array`: three numbers separated by blanks. */
  function XyzArray(s: string): (r: Parsed<Vec3>)
    ensures r.Parsed? ==> |r.rest| < |s|
  {
    match DoubleSpace1(s)
    case NoParse => NoParse
    case Parsed(x, r1) =>
      match DoubleSpace1(r1)
      case NoParse => NoParse
      case Parsed(y, r2) =>
        match Double(r2)
        case NoParse => NoParse
        case Parsed(z, r3) => Parsed(Vec3(x, y, z), r3)
  }

  /** gchemol_parser `read_usize`: an integer at the start of a line (after
      blanks); the rest of the line is skipped. */
  function ReadUsize(s: string): Parsed<nat> {
    match UnsignedDigit(Space0(s))
    case NoParse => NoParse
    case Parsed(n, r) => Parsed(n, ReadLine(r).rest)
  }

  /** gchemol_parser `read_double`: a number at the start of a line (after
      blanks); the rest of the line is skipped. */
  function ReadDouble(s: string): Parsed<Numeral> {
    match Double(Space0(s))
    case NoParse => NoParse
    case Parsed(x, r) => Parsed(x, ReadLine(r).rest)
  }

  // Reading back what a writer wrote.

  lemma Take1Of(w: string, rest: string, p: char -> bool)
    requires w != [] && All(w, p)
    requires rest == [] || !p(rest[0])
    ensures Take1(w + rest, p) == Parsed(w, rest)
  {
    SpanOf(w, rest, p);
    assert (w + rest)[..|w|] == w && (w + rest)[|w|..] == rest;
  }

  lemma Space0Of(ws: string, rest: string)
    requires All(ws, IsBlank)
    requires rest == [] || !IsBlank(rest[0])
    ensures Space0(ws + rest) == rest
  {
    SpanOf(ws, rest, IsBlank);
    assert (ws + rest)[|ws|..] == rest;
  }

  lemma TagOf(t: string, rest: string)
    ensures Tag(t, t + rest) == Parsed(t, rest)
  {
    assert (t + rest)[..|t|] == t && (t + rest)[|t|..] == rest;
  }

  /** Every character of a numeral is part of it: none is white space. */
  lemma NumeralNotWhite(x: Numeral)
    requires IsNumeral(x)
    ensures x != [] && All(x, NotWhite)
  {
    forall k | 0 <= k < |x|
      ensures NotWhite(x[k])
    {
      if IsWhite(x[k]) {
        assert x == x[..k] + x[k..];
        FloatLenExtend(x[..k], x[k..]);
        assert false;
      }
    }
  }

  /** A number is read up to the first character that cannot continue it. */
  lemma DoubleBefore(x: Numeral, rest: string)
    requires IsNumeral(x) && StopsFloat(rest)
    ensures Double(x + rest) == Parsed(x, rest)
  {
    FloatLenExtend(x, rest);
    assert (x + rest)[..|x|] == x && (x + rest)[|x|..] == rest;
  }

  lemma DoubleOf(x: Numeral, rest: string)
    requires IsNumeral(x)
    requires rest == [] || IsWhite(rest[0])
    ensures Double(x + rest) == Parsed(x, rest)
  {
    FloatLenExtend(x, rest);
    assert (x + rest)[..|x|] == x && (x + rest)[|x|..] == rest;
  }

  lemma UnsignedDigitOf(n: nat, rest: string)
    requires rest == [] || !IsDigit(rest[0])
    ensures UnsignedDigit(ShowNat(n) + rest) == Parsed(n, rest)
  {
    var s := ShowNat(n);
    SpanOf(s, rest, IsDigit);
    assert (s + rest)[..|s|] == s && (s + rest)[|s|..] == rest;
    ShowNatValue(n);
  }

  lemma SignedDigitOf(n: int, rest: string)
    requires rest == [] || !IsDigit(rest[0])
    ensures SignedDigit(ShowInt(n) + rest) == Parsed(n, rest)
  {
    if n < 0 {
      NegativeDigitOf(-n, rest);
    } else {
      var d := ShowNat(n);
      assert (d + rest)[0] == d[0];
      assert SignLen(d + rest) == 0;
      assert (d + rest)[0..] == d + rest;
      UnsignedDigitOf(n, rest);
    }
  }

  lemma NegativeDigitOf(m: nat, rest: string)
    requires m > 0
    requires rest == [] || !IsDigit(rest[0])
    ensures SignedDigit(ShowInt(-(m as int)) + rest) == Parsed(-(m as int), rest)
  {
    var d := ShowNat(m);
    assert ShowInt(-(m as int)) + rest == "-" + (d + rest);
    UnsignedDigitOf(m, rest);
    MinusDigits(d + rest, m, rest);
  }

  /** A minus sign before an unsigned number negates it. */
  lemma MinusDigits(t: string, m: nat, rest: string)
    requires UnsignedDigit(t) == Parsed(m, rest)
    ensures SignedDigit("-" + t) == Parsed(-(m as int), rest)
  {
    var s := "-" + t;
    assert s[0] == '-' && SignLen(s) == 1;
    assert s[1..] == t;
  }

  lemma ReadLineOf(line: string, rest: string)
    requires '\n' !in line
    ensures ReadLine(line + ("\n" + rest)) == Parsed(line, rest)
  {
    var s := line + ("\n" + rest);
    assert OccursAt(s, "\n", |line|);
    assert forall k | 0 <= k < |line| :: !OccursAt(s, "\n", k) by {
      forall k | 0 <= k < |line|
        ensures !OccursAt(s, "\n", k)
      {
        assert s[k] == line[k];
        assert s[k..k + 1] == [s[k]];
      }
    }
    assert s[..|line|] == line && s[|line| + 1..] == rest;
  }

  lemma ReadLineEnd(line: string)
    requires '\n' !in line
    ensures ReadLine(line) == Parsed(line, [])
  {
    forall k | 0 <= k < |line|
      ensures !OccursAt(line, "\n", k)
    {
      assert line[k..k + 1] == [line[k]];
    }
  }

  lemma ReadUsizeOf(n: nat, rest: string)
    ensures ReadUsize(ShowNat(n) + ("\n" + rest)) == Parsed(n, rest)
  {
    var d := ShowNat(n);
    var s := d + ("\n" + rest);
    assert s[0] == d[0];
    Space0Of([], s);
    assert [] + s == s;
    UnsignedDigitOf(n, "\n" + rest);
    ReadLineOf([], rest);
    assert [] + ("\n" + rest) == "\n" + rest;
  }

  lemma DoubleSpace1Of(x: Numeral, g: string, rest: string)
    requires IsNumeral(x)
    requires g != [] && All(g, IsBlank)
    requires rest == [] || !IsBlank(rest[0])
    ensures DoubleSpace1(x + (g + rest)) == Parsed(x, rest)
  {
    DoubleOf(x, g + rest);
    Take1Of(g, rest, IsBlank);
  }

  /** Three numerals with blanks between them read back as a `Vec3`. */
  lemma XyzArrayOf(v: Vec3, g1: string, g2: string, rest: string)
    requires IsNumeral(v.x) && IsNumeral(v.y) && IsNumeral(v.z)
    requires g1 != [] && All(g1, IsBlank) && g2 != [] && All(g2, IsBlank)
    requires rest == [] || IsWhite(rest[0])
    ensures XyzArray(v.x + (g1 + (v.y + (g2 + (v.z + rest))))) == Parsed(v, rest)
  {
    NumeralNotWhite(v.y);
    NumeralNotWhite(v.z);
    var r2 := v.z + rest;
    var r1 := v.y + (g2 + r2);
    assert r1[0] == v.y[0];
    assert r2[0] == v.z[0];
    DoubleSpace1Of(v.x, g1, r1);
    DoubleSpace1Of(v.y, g2, r2);
    DoubleOf(v.z, rest);
  }

  /** `map_res(take_s(w), |x| x.trim().parse::<f64>())`: a number in a
      fixed-width field. */
  function TakeFloat(w: nat, s: string): (r: Parsed<Numeral>)
    ensures r.Parsed? ==> |r.rest| + w == |s| && r.rest == s[w..]
  {
    match TakeS(w, s)
    case NoParse => NoParse
    case Parsed(x, rest) =>
      match ParseFloat(Trim(x))
      case None => NoParse
      case Some(v) => Parsed(v, rest)
  }

  /** `map_res(take_s(w), |x| x.trim().parse::<usize>())`: a count or an
      index in a fixed-width field. */
  function TakeNat(w: nat, s: string): (r: Parsed<nat>)
    ensures r.Parsed? ==> |r.rest| + w == |s| && r.rest == s[w..]
  {
    match TakeS(w, s)
    case NoParse => NoParse
    case Parsed(x, rest) =>
      match ParseNat(Trim(x))
      case None => NoParse
      case Some(n) => Parsed(n, rest)
  }

  /** A numeral right-aligned in its field reads back. */
  lemma TakeFloatOf(x: Numeral, w: nat, r: string)
    requires IsNumeral(x) && |x| <= w
    ensures TakeFloat(w, PadLeft(x, w) + r) == Parsed(x, r)
  {
    NumeralNotWhite(x);
    PadLeftGap(x, w);
    var p := PadLeft(x, w);
    assert (p + r)[..w] == p && (p + r)[w..] == r;
    SpacesAreWhite(Gap(x, w));
    TrimOf(Spaces(Gap(x, w)), x);
  }

  /** A number right-aligned in its field reads back. */
  lemma TakeNatOf(n: nat, w: nat, r: string)
    requires |ShowNat(n)| <= w
    ensures TakeNat(w, PadLeft(ShowNat(n), w) + r) == Parsed(n, r)
  {
    var d := ShowNat(n);
    PadLeftGap(d, w);
    var p := PadLeft(d, w);
    assert (p + r)[..w] == p && (p + r)[w..] == r;
    SpacesAreWhite(Gap(d, w));
    TrimOf(Spaces(Gap(d, w)), d);
    ParseShowNat(n);
  }

  // `separated_list1(space1, not_space)`: blank-separated tokens.

  /** The items after the first: each a run of blanks and a token; blanks
      not followed by a token are left unread. */
  function MoreTokens(s: string): (r: (seq<string>, string))
    ensures |r.1| <= |s|
    decreases |s|
  {
    match Space1(s)
    case NoParse => ([], s)
    case Parsed(_, r1) =>
      match NotSpace(r1)
      case NoParse => ([], s)
      case Parsed(w, r2) =>
        var more := MoreTokens(r2);
        ([w] + more.0, more.1)
  }

  /** `separated_list1(space1, not_space)`. */
  function Tokens(s: string): (r: Parsed<seq<string>>)
    ensures r.Parsed? ==> r.value != [] && |r.rest| < |s|
  {
    match NotSpace(s)
    case NoParse => NoParse
    case Parsed(w, r1) =>
      var more := MoreTokens(r1);
      Parsed([w] + more.0, more.1)
  }

  predicate IsToken(w: string) {
    w != [] && All(w, NotWhite)
  }

  predicate IsGap(g: string) {
    g != [] && All(g, IsBlank)
  }

  /** Text that ends a token list: nothing, or white space in which blanks
      are followed by a line break or the end. */
  predicate StopsTokens(rest: string) {
    rest == [] || (IsWhite(rest[0]) && (Space0(rest) == [] || !NotWhite(Space0(rest)[0])))
  }

  /** Each token after the blanks before it. */
  function SpacedRest(ws: seq<string>, gaps: seq<string>): string
    requires |gaps| == |ws|
  {
    if ws == [] then [] else gaps[0] + (ws[0] + SpacedRest(ws[1..], gaps[1..]))
  }

  /** Tokens separated by runs of blanks. */
  function Spaced(ws: seq<string>, gaps: seq<string>): string
    requires ws != [] && |gaps| + 1 == |ws|
  {
    ws[0] + SpacedRest(ws[1..], gaps)
  }

  lemma NoMoreTokens(rest: string)
    requires StopsTokens(rest)
    ensures MoreTokens(rest) == ([], rest)
  {
    if rest != [] && IsBlank(rest[0]) {
      assert Space1(rest) == Parsed(rest[..Span(rest, IsBlank)], Space0(rest));
    }
  }

  lemma SpacedRestStarts(ws: seq<string>, gaps: seq<string>, rest: string)
    requires |gaps| == |ws| && forall k | 0 <= k < |gaps| :: IsGap(gaps[k])
    requires StopsTokens(rest)
    ensures var t := SpacedRest(ws, gaps) + rest; t == [] || !NotWhite(t[0])
  {
    if ws != [] {
      assert IsGap(gaps[0]);
      assert (SpacedRest(ws, gaps) + rest)[0] == gaps[0][0];
    }
  }

  /** Blank-separated tokens read back, and the text after them is left. */
  lemma {:induction false} MoreTokensOf(ws: seq<string>, gaps: seq<string>, rest: string)
    requires |gaps| == |ws|
    requires forall k | 0 <= k < |ws| :: IsToken(ws[k])
    requires forall k | 0 <= k < |gaps| :: IsGap(gaps[k])
    requires StopsTokens(rest)
    ensures MoreTokens(SpacedRest(ws, gaps) + rest) == (ws, rest)
    decreases |ws|
  {
    if ws == [] {
      assert SpacedRest(ws, gaps) + rest == rest;
      NoMoreTokens(rest);
    } else {
      var w := ws[0];
      var t := SpacedRest(ws[1..], gaps[1..]) + rest;
      assert SpacedRest(ws, gaps) + rest == gaps[0] + (w + t) by {
        AppendAssoc(gaps[0], w + SpacedRest(ws[1..], gaps[1..]), rest);
        AppendAssoc(w, SpacedRest(ws[1..], gaps[1..]), rest);
      }
      assert IsToken(w) && IsGap(gaps[0]);
      assert (w + t)[0] == w[0];
      Take1Of(gaps[0], w + t, IsBlank);
      SpacedRestStarts(ws[1..], gaps[1..], rest);
      Take1Of(w, t, NotWhite);
      MoreTokensOf(ws[1..], gaps[1..], rest);
      MoreTokensStep(gaps[0] + (w + t), gaps[0], w, t, ws[1..], rest);
      ConsTail(ws);
    }
  }

  /** One blank run and one token, then the tokens after them. */
  lemma MoreTokensStep(s: string, gap: string, w: string, t: string, more: seq<string>, rest: string)
    requires Space1(s) == Parsed(gap, w + t)
    requires NotSpace(w + t) == Parsed(w, t)
    requires MoreTokens(t) == (more, rest)
    ensures MoreTokens(s) == ([w] + more, rest)
  {
  }

  lemma ConsTail(ws: seq<string>)
    requires ws != []
    ensures [ws[0]] + ws[1..] == ws
  {
  }

  lemma TokensOf(ws: seq<string>, gaps: seq<string>, rest: string)
    requires ws != [] && |gaps| + 1 == |ws|
    requires forall k | 0 <= k < |ws| :: IsToken(ws[k])
    requires forall k | 0 <= k < |gaps| :: IsGap(gaps[k])
    requires StopsTokens(rest)
    ensures Tokens(Spaced(ws, gaps) + rest) == Parsed(ws, rest)
  {
    var t := SpacedRest(ws[1..], gaps) + rest;
    AppendAssoc(ws[0], SpacedRest(ws[1..], gaps), rest);
    assert IsToken(ws[0]);
    SpacedRestStarts(ws[1..], gaps, rest);
    Take1Of(ws[0], t, NotWhite);
    MoreTokensOf(ws[1..], gaps, rest);
    assert [ws[0]] + ws[1..] == ws;
  }

  /** Unfolding `Spaced` by one token. */
  lemma SpacedStep(ws: seq<string>, gaps: seq<string>)
    requires |ws| >= 2 && |gaps| + 1 == |ws|
    ensures Spaced(ws, gaps) == ws[0] + (gaps[0] + Spaced(ws[1..], gaps[1..]))
  {
    assert ws[1..][1..] == ws[2..];
  }
}
