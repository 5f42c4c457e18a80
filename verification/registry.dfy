/** The format registry: the eight backends, how one of them is chosen from
    an explicit file-type tag or from the file name, and what becomes of the
    records a backend reads and of the molecules it writes.

    How a backend cuts a text into records, parses one record and formats one
    molecule is the business of that backend's own module; here those three
    operations are parameters, so that the dispatch rules hold for whatever
    the backends do. */
module Formats {
  import opened Wrappers
  import opened Text
  import opened Chem
  import opened Paths
  import Vasp

  datatype Backend = Xyz | PlainXyz | Mol2 | Cif | Poscar | GaussianInput | Sdf | Pdb

  /** Every backend, in the order in which guessing tries them. */
  const Backends: seq<Backend> := [Xyz, PlainXyz, Mol2, Cif, Poscar, GaussianInput, Sdf, Pdb]

  /** The file-type tag of a backend. */
  function FType(b: Backend): string {
    match b
    case Xyz => "text/xyz"
    case PlainXyz => "text/pxyz"
    case Mol2 => "text/mol2"
    case Cif => "text/cif"
    case Poscar => "vasp/input"
    case GaussianInput => "gaussian/input"
    case Sdf => "text/sdf"
    case Pdb => "text/pdb"
  }

  /** The file-name endings a backend claims. The POSCAR backend lists bare
      extensions but judges names by its own rule (`Vasp.Parsable`). */
  function Extensions(b: Backend): seq<string> {
    match b
    case Xyz => [".xyz"]
    case PlainXyz => [".coord", ".pxyz", ".coords"]
    case Mol2 => [".mol2"]
    case Cif => [".cif"]
    case Poscar => ["poscar", "vasp"]
    case GaussianInput => [".gjf", ".com", ".gau"]
    case Sdf => [".sd", ".sdf", ".mol"]
    case Pdb => [".pdb", ".ent"]
  }

  /** Position of a backend in the guessing order. */
  function Rank(b: Backend): (k: nat)
    ensures k < |Backends| && Backends[k] == b
  {
    match b
    case Xyz => 0
    case PlainXyz => 1
    case Mol2 => 2
    case Cif => 3
    case Poscar => 4
    case GaussianInput => 5
    case Sdf => 6
    case Pdb => 7
  }

  // Lower-casing.

  lemma LowerAppend(a: string, b: string)
    ensures Lower(a + b) == Lower(a) + Lower(b)
  {
  }

  lemma LowerTwice(s: string)
    ensures Lower(Lower(s)) == Lower(s)
  {
  }

  /** A text without capital letters is its own lower case. */
  lemma LowerKeeps(s: string)
    requires forall k | 0 <= k < |s| :: !('A' <= s[k] <= 'Z')
    ensures Lower(s) == s
  {
  }

  // Judging a file name.

  /** The default test: the lower-cased path ends with one of the
      lower-cased extensions. */
  predicate HasExtension(path: string, exts: seq<string>) {
    exists e | e in exts :: EndsWith(Lower(path), Lower(e))
  }

  /** The default `parsable`, trying the extensions in turn. */
  method SuffixParsable(path: string, exts: seq<string>) returns (ok: bool)
    ensures ok <==> HasExtension(path, exts)
  {
    var name := Lower(path);
    for i := 0 to |exts|
      invariant forall j | 0 <= j < i :: !EndsWith(name, Lower(exts[j]))
    {
      if EndsWith(name, Lower(exts[i])) {
        return true;
      }
    }
    return false;
  }

  /** Whether backend `b` claims the file `path`. */
  predicate Accepts(b: Backend, path: string) {
    if b == Poscar then Vasp.Parsable(path) else HasExtension(path, Extensions(b))
  }

  method IsParsable(b: Backend, path: string) returns (ok: bool)
    ensures ok <==> Accepts(b, path)
  {
    if b == Poscar {
      ok := Vasp.Parsable(path);
    } else {
      ok := SuffixParsable(path, Extensions(b));
    }
  }

  // Choosing a backend.

  /** Position of the first backend of `bs` that `p` accepts; `|bs|` when
      there is none. */
  function FirstIndex(bs: seq<Backend>, p: Backend -> bool): (k: nat)
    ensures k <= |bs|
    ensures forall j | 0 <= j < k :: !p(bs[j])
    ensures k < |bs| ==> p(bs[k])
  {
    if bs == [] then 0
    else if p(bs[0]) then 0
    else
      var k := FirstIndex(bs[1..], p);
      assert forall j | 1 <= j < k + 1 :: bs[j] == bs[1..][j - 1];
      1 + k
  }

  /** The first accepted backend is the one after only rejected ones. */
  lemma FirstIndexAt(bs: seq<Backend>, p: Backend -> bool, i: nat)
    requires i < |bs| && p(bs[i])
    requires forall j | 0 <= j < i :: !p(bs[j])
    ensures FirstIndex(bs, p) == i
  {
  }

  /** The first backend, in guessing order, that `p` accepts. */
  function FirstOf(p: Backend -> bool): Option<Backend> {
    var k := FirstIndex(Backends, p);
    if k < |Backends| then Some(Backends[k]) else None
  }

  /** The backend whose file type is the lower-cased tag. */
  function FromFtype(fmt: string): Option<Backend> {
    FirstOf(b => FType(b) == Lower(fmt))
  }

  /** The first backend, in guessing order, that claims the file name. */
  function FromPath(path: string): Option<Backend> {
    FirstOf(b => Accepts(b, path))
  }

  /** An explicit tag naming a backend wins; otherwise the file name decides. */
  function Guess(path: string, fmt: Option<string>): Option<Backend> {
    match fmt
    case Some(f) => if FromFtype(f).Some? then FromFtype(f) else FromPath(path)
    case None => FromPath(path)
  }

  /** `FirstOf` answers `b` exactly when `b` is accepted and every backend
      before it is not. */
  lemma FirstOfIs(p: Backend -> bool, b: Backend)
    ensures FirstOf(p) == Some(b) <==>
      p(b) && forall a | Rank(a) < Rank(b) :: !p(a)
  {
    var k := FirstIndex(Backends, p);
    if p(b) && forall a | Rank(a) < Rank(b) :: !p(a) {
      forall j | 0 <= j < Rank(b)
        ensures !p(Backends[j])
      {
        RankAt(j);
      }
    }
    if FirstOf(p) == Some(b) {
      RankAt(k);
    }
  }

  /** The backend at position `k` has rank `k`. */
  lemma RankAt(k: nat)
    requires k < |Backends|
    ensures Rank(Backends[k]) == k
  {
  }

  lemma FirstOfNone(p: Backend -> bool)
    ensures FirstOf(p) == None <==> forall b :: !p(b)
  {
    if FirstOf(p) == None {
      forall b ensures !p(b) {
        assert Backends[Rank(b)] == b;
      }
    }
  }

  method GuessFromFtype(fmt: string) returns (r: Option<Backend>)
    ensures r == FromFtype(fmt)
  {
    var t := Lower(fmt);
    ghost var p := b => FType(b) == Lower(fmt);
    assert FromFtype(fmt) == FirstOf(p);
    for i := 0 to |Backends|
      invariant forall j | 0 <= j < i :: !p(Backends[j])
    {
      if FType(Backends[i]) == t {
        FirstIndexAt(Backends, p, i);
        return Some(Backends[i]);
      }
    }
    return None;
  }

  method GuessFromPath(path: string) returns (r: Option<Backend>)
    ensures r == FromPath(path)
  {
    ghost var p := b => Accepts(b, path);
    assert FromPath(path) == FirstOf(p);
    for i := 0 to |Backends|
      invariant forall j | 0 <= j < i :: !p(Backends[j])
    {
      var ok := IsParsable(Backends[i], path);
      if ok {
        FirstIndexAt(Backends, p, i);
        return Some(Backends[i]);
      }
    }
    return None;
  }

  method GuessFormat(path: string, fmt: Option<string>) returns (r: Option<Backend>)
    ensures r == Guess(path, fmt)
  {
    r := None;
    if fmt.Some? {
      r := GuessFromFtype(fmt.value);
    }
    if r.None? {
      r := GuessFromPath(path);
    }
  }

  /** No two backends share a file type. */
  lemma FTypeInjective(a: Backend, b: Backend)
    ensures FType(a) == FType(b) <==> a == b
  {
  }

  /** A tag names a backend exactly when, lower-cased, it is that backend's
      file type; the tag's case does not matter. */
  lemma FromFtypeIs(fmt: string, b: Backend)
    ensures FromFtype(fmt) == Some(b) <==> FType(b) == Lower(fmt)
    ensures FromFtype(fmt) == FromFtype(Lower(fmt))
  {
    var p := a => FType(a) == Lower(fmt);
    FirstOfIs(p, b);
    forall a | FType(a) == Lower(fmt) && FType(b) == Lower(fmt)
      ensures a == b
    {
      FTypeInjective(a, b);
    }
    LowerTwice(fmt);
    assert (a => FType(a) == Lower(fmt)) == (a => FType(a) == Lower(Lower(fmt)));
  }

  lemma FromFtypeAny(fmt: string)
    ensures forall b :: FType(b) == Lower(fmt) ==> FromFtype(fmt) == Some(b)
    ensures (forall b :: FType(b) != Lower(fmt)) ==> FromFtype(fmt) == None
  {
    FirstOfNone(b => FType(b) == Lower(fmt));
    forall b | FType(b) == Lower(fmt)
      ensures FromFtype(fmt) == Some(b)
    {
      FromFtypeIs(fmt, b);
    }
  }

  /** Guessing from the name gives the first backend in order that claims
      it, and nothing when no backend does. */
  lemma FromPathIs(path: string, b: Backend)
    ensures FromPath(path) == Some(b) <==>
      Accepts(b, path) && forall a | Rank(a) < Rank(b) :: !Accepts(a, path)
    ensures FromPath(path) == None <==> forall a :: !Accepts(a, path)
  {
    var p := a => Accepts(a, path);
    assert FromPath(path) == FirstOf(p);
    assert forall a :: p(a) == Accepts(a, path);
    FirstOfIs(p, b);
    FromPathNone(path);
  }

  /** A guess finds nothing only when the tag names no backend and no
      backend claims the file name. */
  lemma GuessNone(path: string, fmt: Option<string>)
    ensures Guess(path, fmt).None? <==>
      (fmt.Some? ==> FromFtype(fmt.value).None?) && forall a :: !Accepts(a, path)
  {
    GuessNoneOf(path, fmt);
    FromPathNone(path);
  }

  lemma GuessNoneOf(path: string, fmt: Option<string>)
    ensures Guess(path, fmt).None? <==> (fmt.Some? ==> FromFtype(fmt.value).None?) && FromPath(path).None?
  {
  }

  lemma FromPathNone(path: string)
    ensures FromPath(path) == None <==> forall a :: !Accepts(a, path)
  {
    var p := a => Accepts(a, path);
    assert FromPath(path) == FirstOf(p);
    assert forall a :: p(a) == Accepts(a, path);
    FirstOfNone(p);
  }

  // Which backend a file name selects.

  /** A listed extension: a dot followed by a word without dots. */
  predicate DotWord(e: string) {
    |e| >= 2 && e[0] == '.' && '.' !in e[1..]
  }

  /** Of two listed extensions, one can end a name that ends with the other
      only if they are the same. */
  lemma DotSuffix(x: string, e: string, f: string)
    requires DotWord(e) && DotWord(f)
    requires EndsWith(x + e, f)
    ensures f == e
  {
    var s := x + e;
    var y := s[..|s| - |f|];
    assert s == y + ['.'] + f[1..];
    assert s == x + ['.'] + e[1..];
    LastIndexAfter(x, '.', e[1..]);
    LastIndexAfter(y, '.', f[1..]);
    assert s[|x|..] == e;
  }

  /** Every extension a backend other than POSCAR lists is a lower-case
      dotted word, and its word is neither `poscar` nor `vasp`. */
  lemma ListedExtension(b: Backend, e: string)
    requires b != Poscar && e in Extensions(b)
    ensures DotWord(e) && Lower(e) == e && '/' !in e
    ensures e[1..] != "poscar" && e[1..] != "vasp"
  {
    ListedWord(b, e);
    ExtWordShape(e);
  }

  /** A dot followed by lower-case letters and digits. */
  predicate ExtWord(e: string) {
    |e| >= 2 && e[0] == '.' && forall i | 1 <= i < |e| :: 'a' <= e[i] <= 'z' || '0' <= e[i] <= '9'
  }

  lemma ExtWordShape(e: string)
    requires ExtWord(e)
    ensures DotWord(e) && Lower(e) == e && '/' !in e
  {
    LowerKeeps(e);
    assert forall i | 0 <= i < |e[1..]| :: e[1..][i] == e[i + 1];
  }

  lemma ListedWord(b: Backend, e: string)
    requires b != Poscar && e in Extensions(b)
    ensures ExtWord(e) && e[1..] != "poscar" && e[1..] != "vasp"
  {
  }

  /** No extension is listed by two backends. */
  lemma ExtensionsDisjoint(a: Backend, b: Backend, e: string)
    requires a != b && e in Extensions(a)
    ensures e !in Extensions(b)
  {
  }

  /** A name whose lower-cased ending is a dotted word that backend `a`
      does not list is not claimed by `a`. */
  lemma NotListed(a: Backend, x: string, e: string)
    requires a != Poscar && DotWord(Lower(e)) && Lower(e) !in Extensions(a)
    ensures !Accepts(a, x + e)
  {
    LowerAppend(x, e);
    forall f | f in Extensions(a)
      ensures !EndsWith(Lower(x + e), Lower(f))
    {
      ListedExtension(a, f);
      if EndsWith(Lower(x) + Lower(e), f) {
        DotSuffix(Lower(x), Lower(e), f);
      }
    }
  }

  /** A file named with one of the extensions of a backend other than POSCAR
      is read by that backend, whatever its directory: the extension lists
      do not shadow one another. */
  lemma {:induction false} ExtensionSelects(b: Backend, e: string, dir: string, stem: string)
    requires b != Poscar && e in Extensions(b)
    requires stem != [] && '/' !in stem
    ensures FromPath(dir + "/" + (stem + e)) == Some(b)
  {
    var path := dir + "/" + (stem + e);
    ListedExtension(b, e);
    assert path == (dir + "/" + stem) + e;
    LowerAppend(dir + "/" + stem, e);
    assert EndsWith(Lower(path), Lower(e));
    forall a | a != b
      ensures !Accepts(a, path)
    {
      if a == Poscar {
        PoscarRejects(dir, stem, b, e);
      } else {
        ExtensionsDisjoint(b, a, e);
        NotListed(a, dir + "/" + stem, e);
      }
    }
    FromPathIs(path, b);
  }

  /** The POSCAR backend does not claim a name ending in another backend's
      extension. */
  lemma PoscarRejects(dir: string, stem: string, b: Backend, e: string)
    requires b != Poscar && e in Extensions(b)
    requires stem != [] && '/' !in stem
    ensures !Vasp.Parsable(dir + "/" + (stem + e))
  {
    var w := e[1..];
    ListedWordAfterDot(b, e, w);
    AppendAssoc(stem, ".", w);
    Vasp.ExtensionDecides(dir, stem, w);
  }

  /** The word after the dot of a listed extension. */
  lemma ListedWordAfterDot(b: Backend, e: string, w: string)
    requires b != Poscar && e in Extensions(b) && w == e[1..]
    ensures e == "." + w && w != [] && '/' !in w && '.' !in w
    ensures Lower(w) != "poscar" && Lower(w) != "vasp"
  {
    ListedExtension(b, e);
    LowerKeeps(w);
  }

  /** A file whose extension is `poscar` or `vasp`, in any case, is read as
      a POSCAR file: none of the backends tried before it lists such an
      ending. */
  lemma {:induction false} PoscarSelects(dir: string, stem: string, ext: string)
    requires stem != [] && '/' !in stem
    requires ext != [] && '/' !in ext && '.' !in ext
    requires Lower(ext) == "poscar" || Lower(ext) == "vasp"
    ensures FromPath(dir + "/" + (stem + "." + ext)) == Some(Poscar)
  {
    var x := dir + "/" + stem;
    var e := "." + ext;
    var path := dir + "/" + (stem + "." + ext);
    AppendAssoc(stem, ".", ext);
    AppendAssoc(dir + "/", stem, e);
    Vasp.ExtensionDecides(dir, stem, ext);
    PoscarEnding(ext, e);
    forall a | Rank(a) < Rank(Poscar)
      ensures !Accepts(a, path)
    {
      NotListed(a, x, e);
    }
    FromPathIs(path, Poscar);
  }

  /** A dotted `poscar` or `vasp` ending, in any case, is listed by no backend. */
  lemma PoscarEnding(ext: string, e: string)
    requires e == "." + ext && '.' !in ext
    requires Lower(ext) == "poscar" || Lower(ext) == "vasp"
    ensures DotWord(Lower(e))
    ensures forall a :: Lower(e) !in Extensions(a)
  {
    LowerAppend(".", ext);
    assert Lower(e) == "." + Lower(ext);
  }

  /** The guesses exercised by the registry's own test. */
  lemma GuessExamples()
    ensures Guess("/tmp/test.xyz", None) == Some(Xyz)
    ensures Guess("/tmp/test", Some("text/xyz")) == Some(Xyz)
    ensures Guess("/tmp/test.poscar", None) == Some(Poscar)
  {
    XyzByName();
    XyzByTag();
    PoscarByName();
  }

  lemma XyzByName()
    ensures FromPath("/tmp/test.xyz") == Some(Xyz)
  {
    assert "/tmp/test.xyz" == "/tmp" + "/" + ("test" + ".xyz");
    ExtensionSelects(Xyz, ".xyz", "/tmp", "test");
  }

  lemma XyzByTag()
    ensures FromFtype("text/xyz") == Some(Xyz)
  {
    LowerKeeps("text/xyz");
    FromFtypeIs("text/xyz", Xyz);
  }

  lemma PoscarByName()
    ensures FromPath("/tmp/test.poscar") == Some(Poscar)
  {
    assert "/tmp/test.poscar" == "/tmp" + "/" + ("test" + "." + "poscar");
    LowerKeeps("poscar");
    PoscarSelects("/tmp", "test", "poscar");
  }

  /** The tag's case does not matter when it is given for guessing. */
  lemma MixedCaseTag()
    ensures FromFtype("Text/XYZ") == Some(Xyz)
  {
    assert Lower("Text/XYZ") == "text/xyz";
    FromFtypeIs("Text/XYZ", Xyz);
  }

  // Reading.

  /** The backend `parse_molecules_from` hands the text to: the tag must be
      one of the file types exactly, without lower-casing. */
  function ParserFor(tag: string): Option<Backend> {
    if tag == "text/xyz" then Some(Xyz)
    else if tag == "text/pxyz" then Some(PlainXyz)
    else if tag == "text/mol2" then Some(Mol2)
    else if tag == "text/cif" then Some(Cif)
    else if tag == "text/sdf" then Some(Sdf)
    else if tag == "text/pdb" then Some(Pdb)
    else if tag == "vasp/input" then Some(Poscar)
    else if tag == "gaussian/input" then Some(GaussianInput)
    else None
  }

  /** Every backend has a parser, reached by its own file type and by no
      other tag. */
  lemma ParserForIs(tag: string, b: Backend)
    ensures ParserFor(tag) == Some(b) <==> tag == FType(b)
  {
  }

  /** Unlike guessing, reading with a tag is case-sensitive. */
  lemma MixedCaseTagNotParsed()
    ensures ParserFor("Text/XYZ") == None
  {
  }

  /** The values of the successful results, in order; failures are dropped. */
  function KeepOk<T(!new)>(rs: seq<Result<T>>): (r: seq<T>)
    ensures |r| <= |rs|
    ensures forall x :: x in r <==> Ok(x) in rs
  {
    if rs == [] then []
    else
      var rest := KeepOk(rs[1..]);
      assert forall x :: Ok(x) in rs <==> Ok(x) == rs[0] || Ok(x) in rs[1..];
      match rs[0]
      case Ok(x) => [x] + rest
      case Err(_) => rest
  }

  /** The number of failures in `rs`. */
  function Failures<T>(rs: seq<Result<T>>): nat {
    if rs == [] then 0 else (if rs[0].Err? then 1 else 0) + Failures(rs[1..])
  }

  /** Dropping failures distributes over the concatenation of record
      streams. */
  lemma {:induction false} KeepOkAppend<T(!new)>(a: seq<Result<T>>, b: seq<Result<T>>)
    ensures KeepOk(a + b) == KeepOk(a) + KeepOk(b)
  {
    if a == [] {
      assert a + b == b;
    } else {
      assert (a + b)[0] == a[0];
      assert (a + b)[1..] == a[1..] + b;
      KeepOkAppend(a[1..], b);
      match a[0]
      case Ok(x) =>
        calc {
          KeepOk(a + b);
          [x] + KeepOk(a[1..] + b);
          [x] + (KeepOk(a[1..]) + KeepOk(b));
          ([x] + KeepOk(a[1..])) + KeepOk(b);
        }
      case Err(_) =>
    }
  }

  /** Exactly one molecule is kept per successful record. */
  lemma {:induction false} KeepOkCount<T(!new)>(rs: seq<Result<T>>)
    ensures |KeepOk(rs)| + Failures(rs) == |rs|
  {
    if rs != [] {
      KeepOkCount(rs[1..]);
    }
  }

  /** Without failures every record yields its molecule, in order. */
  lemma {:induction false} KeepOkAll<T(!new)>(rs: seq<Result<T>>)
    requires forall k | 0 <= k < |rs| :: rs[k].Ok?
    ensures |KeepOk(rs)| == |rs|
    ensures forall k | 0 <= k < |rs| :: KeepOk(rs)[k] == rs[k].value
  {
    if rs != [] {
      KeepOkAll(rs[1..]);
    }
  }

  /** The results of parsing each record of `text` with backend `b`. */
  function ParseRecords(b: Backend, text: string, parts: (Backend, string) -> seq<string>,
    parse: (Backend, string) -> Result<Molecule>): (rs: seq<Result<Molecule>>)
    ensures |rs| == |parts(b, text)|
    ensures forall k | 0 <= k < |rs| :: rs[k] == parse(b, parts(b, text)[k])
  {
    var ps := parts(b, text);
    seq(|ps|, k requires 0 <= k < |ps| => parse(b, ps[k]))
  }

  /** `parse_molecules_from`: the molecules of every record the backend named
      by the tag parses; an unknown tag is an error. */
  function ParseMoleculesFrom(tag: string, text: string, parts: (Backend, string) -> seq<string>,
    parse: (Backend, string) -> Result<Molecule>): (r: Result<seq<Molecule>>)
    ensures r.Err? <==> ParserFor(tag).None?
    ensures r.Err? ==> r.msg == "No available parser found"
    ensures r.Ok? ==> |r.value| <= |parts(ParserFor(tag).value, text)|
    ensures r.Ok? ==> forall m :: m in r.value <==>
      Ok(m) in ParseRecords(ParserFor(tag).value, text, parts, parse)
  {
    match ParserFor(tag)
    case None => Err("No available parser found")
    case Some(b) => Ok(KeepOk(ParseRecords(b, text, parts, parse)))
  }

  /** `ChemicalFileParser::parse_molecules`: the backend guessed from the file
      name reads the file's text. */
  function ParseMolecules(path: string, text: string, parts: (Backend, string) -> seq<string>,
    parse: (Backend, string) -> Result<Molecule>): (r: Option<Result<seq<Molecule>>>)
  {
    match FromPath(path)
    case None => None
    case Some(b) => Some(ParseMoleculesFrom(FType(b), text, parts, parse))
  }

  /** A backend found by guessing always has a parser: reading a file whose
      name some backend claims fails only in that backend's records. */
  lemma GuessedIsParsed(path: string, text: string, parts: (Backend, string) -> seq<string>,
    parse: (Backend, string) -> Result<Molecule>)
    ensures ParseMolecules(path, text, parts, parse).Some? <==> FromPath(path).Some?
    ensures FromPath(path).Some? ==>
      ParseMolecules(path, text, parts, parse) ==
        Some(Ok(KeepOk(ParseRecords(FromPath(path).value, text, parts, parse))))
  {
    if FromPath(path).Some? {
      ParserForIs(FType(FromPath(path).value), FromPath(path).value);
    }
  }

  // Writing.

  /** What writing `mols` with backend `b` leaves in the file, and the
      outcome: each formatted text in turn, up to the first molecule that
      cannot be formatted, whose error is the outcome. */
  function Written(b: Backend, mols: seq<Molecule>,
    format: (Backend, Molecule) -> Result<string>): (string, Result<()>)
  {
    if mols == [] then ("", Ok(()))
    else match format(b, mols[0])
      case Err(e) => ("", Err(e))
      case Ok(s) =>
        var more := Written(b, mols[1..], format);
        (s + more.0, more.1)
  }

  /** The text of a successful result, empty otherwise. */
  function TextOf(r: Result<string>): string {
    if r.Ok? then r.value else ""
  }

  /** The concatenated texts of the first `n` molecules. */
  function Texts(b: Backend, mols: seq<Molecule>, format: (Backend, Molecule) -> Result<string>,
    n: nat): string
    requires n <= |mols|
  {
    if n == 0 then "" else Texts(b, mols, format, n - 1) + TextOf(format(b, mols[n - 1]))
  }

  lemma {:induction false} TextsTail(b: Backend, mols: seq<Molecule>,
    format: (Backend, Molecule) -> Result<string>, n: nat)
    requires 1 <= n <= |mols|
    ensures Texts(b, mols, format, n) ==
      TextOf(format(b, mols[0])) + Texts(b, mols[1..], format, n - 1)
  {
    if n > 1 {
      TextsTail(b, mols, format, n - 1);
    }
  }

  /** When the first `n` molecules format, their texts are written in order;
      then the file is complete when `n` is all of them, and otherwise holds
      those texts and the outcome is the error of molecule `n` when that one
      fails. */
  lemma {:induction false} WrittenPrefix(b: Backend, mols: seq<Molecule>,
    format: (Backend, Molecule) -> Result<string>, n: nat)
    requires n <= |mols|
    requires forall k | 0 <= k < n :: format(b, mols[k]).Ok?
    ensures n == |mols| ==> Written(b, mols, format) == (Texts(b, mols, format, n), Ok(()))
    ensures n < |mols| && format(b, mols[n]).Err? ==>
      Written(b, mols, format) == (Texts(b, mols, format, n), Err(format(b, mols[n]).msg))
  {
    if n > 0 {
      WrittenPrefix(b, mols[1..], format, n - 1);
      TextsTail(b, mols, format, n);
    } else if mols != [] && format(b, mols[0]).Err? {
    }
  }

  /** The file text Written produces always starts with the text already
      written before a failure: appending more molecules never changes what
      the earlier ones wrote. */
  lemma {:induction false} WrittenAppend(b: Backend, a: seq<Molecule>, c: seq<Molecule>,
    format: (Backend, Molecule) -> Result<string>)
    requires Written(b, a, format).1.Ok?
    ensures Written(b, a + c, format) ==
      (Written(b, a, format).0 + Written(b, c, format).0, Written(b, c, format).1)
  {
    if a == [] {
      assert a + c == c;
      assert "" + Written(b, c, format).0 == Written(b, c, format).0;
    } else {
      assert (a + c)[0] == a[0];
      assert (a + c)[1..] == a[1..] + c;
      WrittenAppend(b, a[1..], c, format);
      var s := format(b, a[0]).value;
      assert s + (Written(b, a[1..], format).0 + Written(b, c, format).0) ==
        (s + Written(b, a[1..], format).0) + Written(b, c, format).0;
    }
  }

  /** The Debug rendering of a path: quoted. */
  function Quoted(path: string): string {
    "\"" + path + "\""
  }

  /** `write_chemical_file`: the file is created only when a backend is found
      for it, and then receives the formatted molecules one by one until one
      fails to format. `file` is the file's final content, none when the file
      is not created. */
  method WriteChemicalFile(path: string, mols: seq<Molecule>, fmt: Option<string>,
    format: (Backend, Molecule) -> Result<string>) returns (file: Option<string>, r: Result<()>)
    ensures Guess(path, fmt).None? ==>
      file == None && r == Err("No suitable chemical file format found for " + Quoted(path))
    ensures Guess(path, fmt).Some? ==>
      file.Some? && (file.value, r) == Written(Guess(path, fmt).value, mols, format)
  {
    var cf := GuessFormat(path, fmt);
    if cf.None? {
      return None, Err("No suitable chemical file format found for " + Quoted(path));
    }
    var text, res := WriteAll(cf.value, mols, format);
    return Some(text), res;
  }

  /** The writing loop: each molecule formatted and appended in turn, the
      first failure ending it. */
  method WriteAll(b: Backend, mols: seq<Molecule>, format: (Backend, Molecule) -> Result<string>)
    returns (text: string, r: Result<()>)
    ensures (text, r) == Written(b, mols, format)
  {
    text := "";
    assert mols[0..] == mols;
    assert "" + Written(b, mols, format).0 == Written(b, mols, format).0;
    for i := 0 to |mols|
      invariant (text + Written(b, mols[i..], format).0, Written(b, mols[i..], format).1) ==
        Written(b, mols, format)
    {
      assert mols[i..][0] == mols[i] && mols[i..][1..] == mols[i + 1..];
      var s := format(b, mols[i]);
      if s.Err? {
        assert text + "" == text;
        return text, Err(s.msg);
      }
      ghost var more := Written(b, mols[i + 1..], format);
      assert text + (s.value + more.0) == (text + s.value) + more.0;
      text := text + s.value;
    }
    assert mols[|mols|..] == [];
    assert text + "" == text;
    return text, Ok(());
  }

  /** `format_as_chemical_file`: the text of one molecule in the format the
      tag names, in any case. */
  function FormatAsChemicalFile(mol: Molecule, fmt: string,
    format: (Backend, Molecule) -> Result<string>): (r: Result<string>)
    ensures forall b :: FType(b) == Lower(fmt) ==> r == format(b, mol)
    ensures (forall b :: FType(b) != Lower(fmt)) ==>
      r == Err("No suitable chemical file format found for " + fmt)
  {
    FromFtypeAny(fmt);
    match FromFtype(fmt)
    case Some(b) => format(b, mol)
    case None => Err("No suitable chemical file format found for " + fmt)
  }
}
