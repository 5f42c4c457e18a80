/** Character classes and the `str` operations the readers and writers rely on
    (trimming, `split_whitespace`, `split`, `replace`, `to_lowercase`, padding to a
    field width).  Only ASCII is modelled: the formats are ASCII text. */
module Text {
  import opened Wrappers

  /** `char::is_whitespace` on the characters that occur in chemical files. */
  predicate IsWhite(c: char) { c == ' ' || c == '\t' || c == '\n' || c == '\r' }
  predicate NotWhite(c: char) { !IsWhite(c) }
  /** The blanks of nom's `space0`/`space1`. */
  predicate IsBlank(c: char) { c == ' ' || c == '\t' }
  predicate IsDigit(c: char) { '0' <= c <= '9' }
  predicate IsAlpha(c: char) { 'a' <= c <= 'z' || 'A' <= c <= 'Z' }
  predicate IsAlnum(c: char) { IsAlpha(c) || IsDigit(c) }

  predicate All(s: string, p: char -> bool) {
    forall i | 0 <= i < |s| :: p(s[i])
  }

  /** Length of the longest prefix of `s` whose characters satisfy `p`. */
  function Span(s: string, p: char -> bool): (n: nat)
    ensures n <= |s|
    ensures forall i | 0 <= i < n :: p(s[i])
    ensures n < |s| ==> !p(s[n])
  {
    if s == [] || !p(s[0]) then 0 else 1 + Span(s[1..], p)
  }

  /** A span stops exactly where its run of `p` characters stops. */
  lemma SpanOf(a: string, b: string, p: char -> bool)
    requires All(a, p)
    requires b == [] || !p(b[0])
    ensures Span(a + b, p) == |a|
  {
    assert forall i | 0 <= i < |a| :: (a + b)[i] == a[i];
    assert b != [] ==> (a + b)[|a|] == b[0];
  }

  function LowerChar(c: char): char {
    if 'A' <= c <= 'Z' then (c as int + 32) as char else c
  }

  function UpperChar(c: char): char {
    if 'a' <= c <= 'z' then (c as int - 32) as char else c
  }

  /** ASCII `to_lowercase`. */
  function Lower(s: string): string {
    seq(|s|, i requires 0 <= i < |s| => LowerChar(s[i]))
  }

  /** ASCII `to_uppercase`. */
  function Upper(s: string): string {
    seq(|s|, i requires 0 <= i < |s| => UpperChar(s[i]))
  }

  function TrimStart(s: string): string {
    s[Span(s, IsWhite)..]
  }

  function TrimEnd(s: string): (r: string)
    ensures r <= s
    ensures forall i | |r| <= i < |s| :: IsWhite(s[i])
  {
    if s != [] && IsWhite(s[|s| - 1]) then TrimEnd(s[..|s| - 1]) else s
  }

  function Trim(s: string): string {
    TrimEnd(TrimStart(s))
  }

  /** The words of `s` (`split_whitespace`): maximal runs of non-blank characters. */
  function Words(s: string): (ws: seq<string>)
    ensures forall k | 0 <= k < |ws| :: ws[k] != [] && All(ws[k], NotWhite)
    decreases |s|
  {
    var t := TrimStart(s);
    if t == [] then []
    else
      var n := Span(t, NotWhite);
      [t[..n]] + Words(t[n..])
  }

  function Spaces(n: nat): (r: string)
    ensures |r| == n && All(r, IsBlank)
  {
    seq(n, _ => ' ')
  }

  lemma SpacesAreWhite(n: nat)
    ensures All(Spaces(n), IsWhite)
  {
  }

  /** A blank followed by more blanks. */
  lemma SpaceThenBlanks(n: nat)
    ensures " " + Spaces(n) != [] && All(" " + Spaces(n), IsBlank)
  {
    assert forall i | 0 <= i < n + 1 :: (" " + Spaces(n))[i] == ' ';
  }

  /** Text that ends in a visible character keeps it when trimmed. */
  lemma TrimEndOf(t: string)
    requires t != [] && NotWhite(t[|t| - 1])
    ensures TrimEnd(t) == t
  {
  }

  /** Blank-led text with visible ends trims to the visible part. */
  lemma TrimOf(ws: string, t: string)
    requires All(ws, IsWhite)
    requires t != [] && NotWhite(t[0]) && NotWhite(t[|t| - 1])
    ensures Trim(ws + t) == t
  {
    TrimStartOf(ws, t);
    TrimEndOf(t);
  }

  /** Trailing white space is dropped, and nothing before it. */
  lemma {:induction false} TrimEndWhite(t: string, ws: string)
    requires All(ws, IsWhite)
    requires t == [] || NotWhite(t[|t| - 1])
    ensures TrimEnd(t + ws) == t
    decreases |ws|
  {
    if ws == [] {
      assert t + ws == t;
    } else {
      var u := ws[..|ws| - 1];
      assert (t + ws)[..|t + ws| - 1] == t + u;
      TrimEndWhite(t, u);
    }
  }

  /** Text with white space around it trims to the text. */
  lemma TrimAround(ws1: string, t: string, ws2: string)
    requires All(ws1, IsWhite) && All(ws2, IsWhite)
    requires t == [] || (NotWhite(t[0]) && NotWhite(t[|t| - 1]))
    ensures Trim(ws1 + (t + ws2)) == t
  {
    if t == [] {
      assert ws1 + (t + ws2) == ws1 + ws2;
      assert All(ws1 + ws2, IsWhite);
      TrimStartOf(ws1 + ws2, []);
      assert (ws1 + ws2) + [] == ws1 + ws2;
      assert TrimEnd([]) == [];
    } else {
      assert (t + ws2)[0] == t[0];
      TrimStartOf(ws1, t + ws2);
      TrimEndWhite(t, ws2);
    }
  }

  /** Text made of blanks and visible characters holds no line break. */
  lemma NoBreak(s: string)
    requires forall i | 0 <= i < |s| :: IsBlank(s[i]) || NotWhite(s[i])
    ensures '\n' !in s
  {
    assert forall i | 0 <= i < |s| :: s[i] != '\n';
  }

  /** Text of `t` once leading white space is dropped. */
  lemma TrimStartOf(ws: string, t: string)
    requires All(ws, IsWhite)
    requires t == [] || NotWhite(t[0])
    ensures TrimStart(ws + t) == t
  {
    SpanOf(ws, t, IsWhite);
    assert (ws + t)[|ws|..] == t;
  }

  /** Reading one word: white space, a word, then white space or the end. */
  lemma WordsCons(ws: string, w: string, rest: string)
    requires All(ws, IsWhite)
    requires w != [] && All(w, NotWhite)
    requires rest == [] || IsWhite(rest[0])
    ensures Words(ws + (w + rest)) == [w] + Words(rest)
  {
    TrimStartOf(ws, w + rest);
    SpanOf(w, rest, NotWhite);
    assert (w + rest)[..|w|] == w;
    assert (w + rest)[|w|..] == rest;
  }

  /** Three blank-led words. */
  lemma ThreeWords(s1: string, w1: string, s2: string, w2: string, s3: string, w3: string)
    requires s1 != [] && All(s1, IsBlank) && s2 != [] && All(s2, IsBlank) && s3 != [] && All(s3, IsBlank)
    requires w1 != [] && All(w1, NotWhite) && w2 != [] && All(w2, NotWhite) && w3 != [] && All(w3, NotWhite)
    ensures Words((s1 + w1) + ((s2 + w2) + (s3 + w3))) == [w1, w2, w3]
  {
    OneWord(s3, w3);
    WordStep(s2, w2, s3 + w3, [w3]);
    WordStep(s1, w1, (s2 + w2) + (s3 + w3), [w2, w3]);
    assert [w1] + [w2, w3] == [w1, w2, w3];
  }

  /** A single blank-led word. */
  lemma OneWord(s: string, w: string)
    requires s != [] && All(s, IsBlank)
    requires w != [] && All(w, NotWhite)
    ensures Words(s + w) == [w]
  {
    WordsOfWhite([]);
    assert s + w == s + (w + []);
    WordsCons(s, w, []);
  }

  /** A blank-led word in front of blank-led words. */
  lemma WordStep(s: string, w: string, t: string, ws: seq<string>)
    requires s != [] && All(s, IsBlank)
    requires w != [] && All(w, NotWhite)
    requires t != [] && IsBlank(t[0]) && Words(t) == ws
    ensures Words((s + w) + t) == [w] + ws
  {
    assert (s + w) + t == s + (w + t);
    WordsCons(s, w, t);
  }

  lemma WordsOfWhite(ws: string)
    requires All(ws, IsWhite)
    ensures Words(ws) == []
  {
    TrimStartOf(ws, []);
    assert ws + [] == ws;
  }

  /** `{:>w}`: right-aligned in a field of at least `w` characters. */
  function PadLeft(s: string, w: nat): string {
    if |s| < w then Spaces(w - |s|) + s else s
  }

  /** `{:w}` / `{:<w}`: left-aligned in a field of at least `w` characters. */
  function PadRight(s: string, w: nat): string {
    if |s| < w then s + Spaces(w - |s|) else s
  }

  /** `{:^w}`: centred, the odd space going to the right. */
  function Center(s: string, w: nat): string {
    if |s| < w then Spaces((w - |s|) / 2) + s + Spaces(w - |s| - (w - |s|) / 2) else s
  }

  predicate OccursAt(s: string, t: string, k: nat) {
    k + |t| <= |s| && s[k..k + |t|] == t
  }

  /** Position of the first occurrence of `t` in `s` at or after `from`. */
  function IndexFrom(s: string, t: string, from: nat): (r: Option<nat>)
    ensures r.Some? ==> from <= r.value && OccursAt(s, t, r.value)
    ensures r.Some? ==> forall k | from <= k < r.value :: !OccursAt(s, t, k)
    ensures r.None? ==> forall k | from <= k :: !OccursAt(s, t, k)
    decreases |s| - from
  {
    if from + |t| > |s| then None
    else if OccursAt(s, t, from) then Some(from)
    else IndexFrom(s, t, from + 1)
  }

  function IndexOf(s: string, t: string): Option<nat> {
    IndexFrom(s, t, 0)
  }

  /** The first occurrence of a character is where it first appears. */
  lemma IndexOfChar(a: string, c: char, b: string)
    requires c !in a
    ensures IndexOf(a + ([c] + b), [c]) == Some(|a|)
  {
    var s := a + ([c] + b);
    assert OccursAt(s, [c], |a|) by {
      assert s[|a|..|a| + 1] == [c];
    }
    forall k | 0 <= k < |a|
      ensures !OccursAt(s, [c], k)
    {
      assert s[k..k + 1][0] == s[k] == a[k];
    }
  }

  /** A character that is neither in the parts nor a space is not in their
      space-separated join. */
  lemma {:induction false} JoinAvoids(parts: seq<string>, c: char)
    requires c != ' '
    requires forall k | 0 <= k < |parts| :: c !in parts[k]
    ensures c !in Join(parts, " ")
    decreases |parts|
  {
    if |parts| > 1 {
      JoinAvoids(parts[1..], c);
      assert parts[0] + " " + Join(parts[1..], " ") == Join(parts, " ");
    }
  }

  /** Words laid out with single spaces, after any white space, are read
      back one by one. */
  lemma {:induction false} WordsJoin(ws: string, parts: seq<string>)
    requires All(ws, IsWhite)
    requires forall k | 0 <= k < |parts| :: parts[k] != [] && All(parts[k], NotWhite)
    ensures Words(ws + Join(parts, " ")) == parts
    decreases |parts|
  {
    if parts == [] {
      assert ws + [] == ws;
      WordsOfWhite(ws);
    } else if |parts| == 1 {
      assert ws + Join(parts, " ") == ws + (parts[0] + []);
      WordsOfWhite([]);
      WordsCons(ws, parts[0], []);
      assert [parts[0]] + [] == parts;
    } else {
      var tail := Join(parts[1..], " ");
      assert ws + Join(parts, " ") == ws + (parts[0] + (" " + tail));
      WordsCons(ws, parts[0], " " + tail);
      WordsJoin(" ", parts[1..]);
      assert [parts[0]] + parts[1..] == parts;
    }
  }

  predicate Contains(s: string, t: string) {
    IndexOf(s, t).Some?
  }

  predicate EndsWith(s: string, t: string) {
    |t| <= |s| && s[|s| - |t|..] == t
  }

  /** `str::split` on a non-empty separator. */
  function SplitOn(s: string, sep: string): (parts: seq<string>)
    requires sep != []
    ensures |parts| >= 1
    decreases |s|
  {
    match IndexOf(s, sep)
    case None => [s]
    case Some(k) => [s[..k]] + SplitOn(s[k + |sep|..], sep)
  }

  /** `str::replace` of one character by another. */
  function ReplaceChar(s: string, a: char, b: char): string {
    seq(|s|, i requires 0 <= i < |s| => if s[i] == a then b else s[i])
  }

  /** The longest prefix of ASCII letters. */
  function AlphaPrefix(s: string): (r: string)
    ensures All(r, IsAlpha) && r <= s
  {
    s[..Span(s, IsAlpha)]
  }

  /** The letters before the first non-letter are the alphabetic prefix. */
  lemma AlphaPrefixOf(letters: string, tail: string)
    requires All(letters, IsAlpha)
    requires tail == [] || !IsAlpha(tail[0])
    ensures AlphaPrefix(letters + tail) == letters
  {
    SpanOf(letters, tail, IsAlpha);
    assert (letters + tail)[..|letters|] == letters;
  }

  /** Concatenation of `parts`, each followed by `end`. */
  function Terminate(parts: seq<string>, end: string): string {
    if parts == [] then [] else Terminate(parts[..|parts| - 1], end) + parts[|parts| - 1] + end
  }

  /** `join(sep)`: the parts with `sep` between neighbours. */
  function Join(parts: seq<string>, sep: string): string {
    if parts == [] then [] else if |parts| == 1 then parts[0] else parts[0] + sep + Join(parts[1..], sep)
  }

  /** Appends each row and its line break, as the writers' `writeln!` does. */
  method JoinLines(rows: seq<string>) returns (text: string)
    ensures text == Terminate(rows, "\n")
  {
    text := [];
    var i := 0;
    while i < |rows|
      invariant 0 <= i <= |rows|
      invariant text == Terminate(rows[..i], "\n")
    {
      assert rows[..i + 1][..i] == rows[..i];
      text := text + rows[i] + "\n";
      i := i + 1;
    }
    assert rows[..i] == rows;
  }

  lemma {:induction false} TerminateCons(x: string, parts: seq<string>, end: string)
    ensures Terminate([x] + parts, end) == x + end + Terminate(parts, end)
    decreases |parts|
  {
    if parts != [] {
      var init := parts[..|parts| - 1];
      assert ([x] + parts)[..|parts|] == [x] + init;
      TerminateCons(x, init, end);
    }
  }

  lemma TerminateSnoc(rows: seq<string>, x: string)
    ensures Terminate(rows + [x], "\n") == Terminate(rows, "\n") + x + "\n"
  {
    assert (rows + [x])[..|rows|] == rows;
  }

  /** The first row of a terminated text, then the rest of it. */
  lemma TerminateHead(rows: seq<string>, rest: string)
    requires rows != []
    ensures Terminate(rows, "\n") + rest == rows[0] + ("\n" + (Terminate(rows[1..], "\n") + rest))
  {
    assert rows == [rows[0]] + rows[1..];
    TerminateAppend([rows[0]], rows[1..]);
    assert Terminate([rows[0]], "\n") == rows[0] + "\n" by {
      assert [rows[0]][..0] == [];
    }
    AppendAssoc(rows[0] + "\n", Terminate(rows[1..], "\n"), rest);
    AppendAssoc(rows[0], "\n", Terminate(rows[1..], "\n") + rest);
  }

  /** One more row of a text written line by line. */
  lemma TerminateRow(rows: seq<string>, more: seq<string>, row: string, text: string)
    requires text == Terminate(rows + more, "\n")
    ensures text + row + "\n" == Terminate(rows + (more + [row]), "\n")
  {
    TerminateSnoc(rows + more, row);
    SeqAppendAssoc(rows, more, [row]);
  }

  lemma TerminateAppend(rows: seq<string>, more: seq<string>)
    ensures Terminate(rows + more, "\n") == Terminate(rows, "\n") + Terminate(more, "\n")
    decreases |more|
  {
    if more != [] {
      var init := more[..|more| - 1];
      assert rows + more == (rows + init) + [more[|more| - 1]];
      TerminateAppend(rows, init);
    } else {
      assert rows + more == rows;
    }
  }

  lemma PadLeftSplit(s: string, w: nat)
    ensures PadLeft(s, w) == Spaces(if |s| < w then w - |s| else 0) + s
  {
    assert Spaces(0) == [];
  }

  /** A padded field followed by more text, taken apart right-nested. */
  lemma PadLeftCons(s: string, w: nat, r: string)
    requires |s| < w
    ensures PadLeft(s, w) + r == Spaces(w - |s|) + (s + r)
  {
  }

  /** The blanks `{:>w}` puts before `s`. */
  function Gap(s: string, w: nat): nat {
    if |s| < w then w - |s| else 0
  }

  lemma PadLeftGap(s: string, w: nat)
    ensures PadLeft(s, w) == Spaces(Gap(s, w)) + s
  {
    assert Spaces(0) == [];
  }

  lemma PadRightGap(s: string, w: nat)
    ensures PadRight(s, w) == s + Spaces(Gap(s, w))
  {
    assert Spaces(0) == [];
  }

  lemma PadRightSplit(s: string, w: nat)
    ensures PadRight(s, w) == s + Spaces(if |s| < w then w - |s| else 0)
  {
    assert Spaces(0) == [];
  }

  /** Regrouping a concatenation, one step at a time. */
  lemma AppendAssoc(a: string, b: string, c: string)
    ensures (a + b) + c == a + (b + c)
  {
  }

  lemma SeqAppendAssoc(a: seq<string>, b: seq<string>, c: seq<string>)
    ensures (a + b) + c == a + (b + c)
  {
  }

  lemma SpacesAdd(m: nat, n: nat)
    ensures Spaces(m) + Spaces(n) == Spaces(m + n)
  {
  }
}
