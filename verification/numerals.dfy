/** Numbers as the files spell them.  A floating-point field is kept as its
    decimal text (a `Numeral`); an integer field is a `nat`.  The grammar of a
    numeral is the one nom's `recognize_float` accepts, which is also the decimal
    part of what Rust's `str::parse::<f64>` accepts. */
module Numerals {
  import opened Wrappers
  import opened Text

  type Numeral = string

  /** A point or vector in Cartesian or fractional coordinates. */
  datatype Vec3 = Vec3(x: Numeral, y: Numeral, z: Numeral)

  function DigitValue(c: char): nat
    requires IsDigit(c)
  {
    c as int - '0' as int
  }

  function DigitChar(d: nat): (c: char)
    requires d < 10
    ensures IsDigit(c) && DigitValue(c) == d
  {
    ('0' as int + d) as char
  }

  /** The value of a string of decimal digits. */
  function DigitsValue(s: string): nat
    requires All(s, IsDigit)
    decreases |s|
  {
    if s == [] then 0 else DigitsValue(s[..|s| - 1]) * 10 + DigitValue(s[|s| - 1])
  }

  /** `{}` of an unsigned integer: its decimal digits, no leading zero. */
  function ShowNat(n: nat): (s: string)
    ensures s != [] && All(s, IsDigit)
    ensures |s| > 1 ==> s[0] != '0'
  {
    if n < 10 then [DigitChar(n)] else ShowNat(n / 10) + [DigitChar(n % 10)]
  }

  /** Printing an integer and reading its digits back gives the integer. */
  lemma {:induction false} ShowNatValue(n: nat)
    ensures DigitsValue(ShowNat(n)) == n
  {
    if n >= 10 {
      ShowNatValue(n / 10);
      var s := ShowNat(n);
      assert s[..|s| - 1] == ShowNat(n / 10);
    }
  }

  function Pow10(k: nat): (p: nat)
    ensures p >= 1
  {
    if k == 0 then 1 else 10 * Pow10(k - 1)
  }

  /** An integer below `10^k` is written in at most `k` digits. */
  lemma {:induction false} ShowNatWidth(n: nat, k: nat)
    requires k >= 1 && n < Pow10(k)
    ensures |ShowNat(n)| <= k
  {
    if n >= 10 {
      assert k >= 2;
      ShowNatWidth(n / 10, k - 1);
    }
  }

  /** `{}` of a signed integer. */
  function ShowInt(n: int): (s: string)
    ensures s != [] && (s[0] == '-' || IsDigit(s[0]))
  {
    if n < 0 then "-" + ShowNat(-n) else ShowNat(n)
  }

  /** `str::parse::<usize>`: an optional '+' and one or more digits, nothing else. */
  function ParseNat(s: string): Option<nat> {
    var t := if s != [] && s[0] == '+' then s[1..] else s;
    if t != [] && All(t, IsDigit) then Some(DigitsValue(t)) else None
  }

  lemma ParseShowNat(n: nat)
    ensures ParseNat(ShowNat(n)) == Some(n)
  {
    ShowNatValue(n);
  }

  function SignLen(s: string): (n: nat)
    ensures n <= |s|
  {
    if s != [] && (s[0] == '+' || s[0] == '-') then 1 else 0
  }

  /** Number of digits of `s` from position `k` on. */
  function DigitsFrom(s: string, k: nat): (n: nat)
    requires k <= |s|
    ensures k + n <= |s|
    decreases |s| - k
  {
    if k < |s| && IsDigit(s[k]) then 1 + DigitsFrom(s, k + 1) else 0
  }

  /** `('.' digits?)?` at position `k`, after the integer digits. */
  function FractionAt(s: string, k: nat): (n: nat)
    requires k <= |s|
    ensures k + n <= |s|
  {
    if k < |s| && s[k] == '.' then 1 + DigitsFrom(s, k + 1) else 0
  }

  /** `digits ('.' digits?)? | '.' digits` at position `k`: length of the
      match, if any. */
  function MantissaAt(s: string, k: nat): (r: Option<nat>)
    requires k <= |s|
    ensures r.Some? ==> 0 < r.value && k + r.value <= |s|
  {
    var d := DigitsFrom(s, k);
    if d > 0 then Some(d + FractionAt(s, k + d))
    else if FractionAt(s, k) > 1 then Some(FractionAt(s, k))
    else None
  }

  /** `([eE] [+-]? digits)?` at position `k`, where a marker without digits
      is a hard failure. */
  function ExponentAt(s: string, k: nat): (r: Option<nat>)
    requires k <= |s|
    ensures r.Some? ==> k + r.value <= |s|
  {
    if k < |s| && (s[k] == 'e' || s[k] == 'E') then
      var j := if k + 1 < |s| && (s[k + 1] == '+' || s[k + 1] == '-') then k + 2 else k + 1;
      var e := DigitsFrom(s, j);
      if e == 0 then None else Some(j - k + e)
    else Some(0)
  }

  /** Length of the prefix of `s` that `recognize_float` accepts. */
  function FloatLen(s: string): (r: Option<nat>)
    ensures r.Some? ==> 0 < r.value <= |s|
  {
    var i := SignLen(s);
    match MantissaAt(s, i)
    case None => None
    case Some(m) =>
      match ExponentAt(s, i + m)
      case None => None
      case Some(e) => Some(i + m + e)
  }

  /** A well-formed decimal number. */
  predicate IsNumeral(x: string) {
    FloatLen(x) == Some(|x|)
  }

  /** A numeral whose value is zero (`0`, `-0.000`, `0.0e5`, ...). */
  predicate IsZero(x: Numeral) {
    IsNumeral(x) &&
    var i := SignLen(x);
    var m := MantissaAt(x, i).value;
    forall k | i <= k < i + m :: x[k] == '0' || x[k] == '.'
  }

  /** A character no part of a number can continue with. */
  predicate FloatStop(c: char) {
    !IsDigit(c) && c != '.' && c != 'e' && c != 'E' && c != '+' && c != '-'
  }

  predicate StopsFloat(rest: string) {
    rest == [] || FloatStop(rest[0])
  }

  /** The digits from position `k` on are not changed by text that cannot
      continue a number. */
  lemma {:induction false} DigitsExtend(s: string, rest: string, k: nat)
    requires StopsFloat(rest) && k <= |s|
    ensures DigitsFrom(s + rest, k) == DigitsFrom(s, k)
    decreases |s| - k
  {
    if k < |s| {
      assert (s + rest)[k] == s[k];
      if IsDigit(s[k]) {
        DigitsExtend(s, rest, k + 1);
      }
    } else if rest != [] {
      assert (s + rest)[k] == rest[0];
    }
  }

  lemma FractionExtend(s: string, rest: string, k: nat)
    requires StopsFloat(rest) && k <= |s|
    ensures FractionAt(s + rest, k) == FractionAt(s, k)
  {
    if k < |s| {
      assert (s + rest)[k] == s[k];
      if s[k] == '.' {
        DigitsExtend(s, rest, k + 1);
      }
    } else if rest != [] {
      assert (s + rest)[k] == rest[0];
    }
  }

  lemma MantissaExtend(s: string, rest: string, k: nat)
    requires StopsFloat(rest) && k <= |s|
    ensures MantissaAt(s + rest, k) == MantissaAt(s, k)
  {
    DigitsExtend(s, rest, k);
    FractionExtend(s, rest, k + DigitsFrom(s, k));
    FractionExtend(s, rest, k);
  }

  lemma ExponentExtend(s: string, rest: string, k: nat)
    requires StopsFloat(rest) && k <= |s|
    ensures ExponentAt(s + rest, k) == ExponentAt(s, k)
  {
    if k < |s| {
      assert (s + rest)[k] == s[k];
      if s[k] == 'e' || s[k] == 'E' {
        if k + 1 < |s| {
          assert (s + rest)[k + 1] == s[k + 1];
        } else if rest != [] {
          assert (s + rest)[k + 1] == rest[0];
        }
        var j := if k + 1 < |s| && (s[k + 1] == '+' || s[k + 1] == '-') then k + 2 else k + 1;
        DigitsExtend(s, rest, j);
      }
    } else if rest != [] {
      assert (s + rest)[k] == rest[0];
    }
  }

  lemma SignExtend(s: string, rest: string)
    requires StopsFloat(rest)
    ensures SignLen(s + rest) == SignLen(s)
  {
    if s == [] {
      assert s + rest == rest;
    } else {
      assert (s + rest)[0] == s[0];
    }
  }

  /** `recognize_float` stops at white space or any other character that
      cannot continue a number: what follows does not change how much is read. */
  lemma FloatLenExtend(s: string, rest: string)
    requires StopsFloat(rest)
    ensures FloatLen(s + rest) == FloatLen(s)
  {
    var i := SignLen(s);
    SignExtend(s, rest);
    MantissaExtend(s, rest, i);
    var m := MantissaAt(s, i);
    if m.Some? {
      ExponentExtend(s, rest, i + m.value);
    }
  }

  /** No character of a numeral is one that stops a number. */
  lemma NumeralChars(x: Numeral)
    requires IsNumeral(x)
    ensures forall k | 0 <= k < |x| :: !FloatStop(x[k])
  {
    forall k | 0 <= k < |x|
      ensures !FloatStop(x[k])
    {
      if FloatStop(x[k]) {
        assert x == x[..k] + x[k..];
        FloatLenExtend(x[..k], x[k..]);
        assert false;
      }
    }
  }

  /** Rust's `str::parse::<f64>` on a whole field (decimal spellings only). */
  function ParseFloat(s: string): Option<Numeral> {
    if IsNumeral(s) then Some(s) else None
  }

  /** A decimal literal, given as its digits before and after the point. */
  lemma DecimalText(a: string, b: string, s: string)
    requires a != [] && All(a, IsDigit) && b != [] && All(b, IsDigit)
    requires s == a + "." + b
    ensures IsNumeral(s)
  {
    DecimalNumeral(a, b);
  }

  /** A run of `n` digits at position `k`, ended by a non-digit or by the end
      of the text, is what `DigitsFrom` counts. */
  lemma {:induction false} DigitsRun(s: string, k: nat, n: nat)
    requires k + n <= |s|
    requires forall j | k <= j < k + n :: IsDigit(s[j])
    requires k + n == |s| || !IsDigit(s[k + n])
    ensures DigitsFrom(s, k) == n
    decreases n
  {
    if n > 0 {
      DigitsRun(s, k + 1, n - 1);
    }
  }

  /** Digits, a point and digits make a numeral. */
  lemma DecimalNumeral(a: string, b: string)
    requires a != [] && All(a, IsDigit) && b != [] && All(b, IsDigit)
    ensures IsNumeral(a + "." + b)
  {
    var s := a + "." + b;
    assert s[0] == a[0];
    assert SignLen(s) == 0;
    assert s[|a|] == '.';
    forall j | 0 <= j < |a|
      ensures IsDigit(s[j])
    {
      assert s[j] == a[j];
    }
    DigitsRun(s, 0, |a|);
    forall j | |a| + 1 <= j < |s|
      ensures IsDigit(s[j])
    {
      assert s[j] == b[j - |a| - 1];
    }
    DigitsRun(s, |a| + 1, |b|);
    assert FractionAt(s, |a|) == 1 + |b|;
    assert MantissaAt(s, 0) == Some(|s|);
  }

  /** Reading from position `|p| + k` of `p + u` is reading from `k` of `u`. */
  lemma {:induction false} DigitsShift(p: string, u: string, k: nat)
    requires k <= |u|
    ensures DigitsFrom(p + u, |p| + k) == DigitsFrom(u, k)
    decreases |u| - k
  {
    if k < |u| {
      assert (p + u)[|p| + k] == u[k];
      DigitsShift(p, u, k + 1);
    }
  }

  lemma FractionShift(p: string, u: string, k: nat)
    requires k <= |u|
    ensures FractionAt(p + u, |p| + k) == FractionAt(u, k)
  {
    if k < |u| {
      assert (p + u)[|p| + k] == u[k];
      DigitsShift(p, u, k + 1);
    }
  }

  lemma MantissaShift(p: string, u: string, k: nat)
    requires k <= |u|
    ensures MantissaAt(p + u, |p| + k) == MantissaAt(u, k)
  {
    DigitsShift(p, u, k);
    FractionShift(p, u, k + DigitsFrom(u, k));
    FractionShift(p, u, k);
  }

  lemma ExponentShift(p: string, u: string, k: nat)
    requires k <= |u|
    ensures ExponentAt(p + u, |p| + k) == ExponentAt(u, k)
  {
    if k < |u| {
      assert (p + u)[|p| + k] == u[k];
      if k + 1 < |u| {
        assert (p + u)[|p| + k + 1] == u[k + 1];
      }
      var j := if k + 1 < |u| && (u[k + 1] == '+' || u[k + 1] == '-') then k + 2 else k + 1;
      DigitsShift(p, u, j);
    }
  }

  /** An unsigned numeral with a minus sign before it is a numeral. */
  lemma NegateNumeral(u: string)
    requires IsNumeral(u) && SignLen(u) == 0
    ensures IsNumeral("-" + u)
  {
    var x := "-" + u;
    assert SignLen(x) == 1;
    MantissaShift("-", u, 0);
    var m := MantissaAt(u, 0).value;
    ExponentShift("-", u, m);
  }

  /** `filter_map(|x| x.parse::<f64>().ok())`: the words that are numbers,
      in order. */
  function Floats(ws: seq<string>): (xs: seq<Numeral>)
    ensures |xs| <= |ws|
    ensures |xs| == |ws| <==> forall k | 0 <= k < |ws| :: IsNumeral(ws[k])
    ensures |xs| == |ws| ==> xs == ws
    ensures forall k | 0 <= k < |xs| :: IsNumeral(xs[k])
  {
    if ws == [] then []
    else
      var more := Floats(ws[1..]);
      match ParseFloat(ws[0])
      case Some(x) => [x] + more
      case None => more
  }
}
