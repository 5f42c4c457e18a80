/** File paths as the format registry sees them: `Path::file_name` and
    `Path::extension` on `/`-separated path text. */
module Paths {
  import opened Wrappers
  import opened Text

  /** Position of the last `c` in `s`. */
  function LastIndex(s: string, c: char): (r: Option<nat>)
    ensures r.Some? ==> r.value < |s| && s[r.value] == c
    ensures r.Some? ==> forall k | r.value < k < |s| :: s[k] != c
    ensures r.None? ==> forall k | 0 <= k < |s| :: s[k] != c
  {
    if s == [] then None
    else if s[|s| - 1] == c then Some(|s| - 1)
    else LastIndex(s[..|s| - 1], c)
  }

  /** The path without the trailing separators and trailing `.` components
      that `Path::components` skips; what is removed is made of separators
      and dots only. */
  function StripTail(path: string): (p: string)
    ensures p <= path
    ensures forall k | |p| <= k < |path| :: path[k] == '/' || path[k] == '.'
    ensures p == [] || (p[|p| - 1] != '/' && p != "." && !(|p| >= 2 && p[|p| - 2] == '/' && p[|p| - 1] == '.'))
    decreases |path|
  {
    if path == [] then []
    else if path[|path| - 1] == '/' then StripTail(path[..|path| - 1])
    else if path == "." then []
    else if |path| >= 2 && path[|path| - 2] == '/' && path[|path| - 1] == '.' then StripTail(path[..|path| - 2])
    else path
  }

  /** The last component of a stripped path, unless it is `..` or missing. */
  function LastName(p: string): (r: Option<string>)
    requires p == [] || (p[|p| - 1] != '/' && p != "." && !(|p| >= 2 && p[|p| - 2] == '/' && p[|p| - 1] == '.'))
    ensures r.Some? ==> r.value != [] && '/' !in r.value && r.value != "." && r.value != ".."
    ensures r.Some? ==> EndsWith(p, r.value)
  {
    var name := match LastIndex(p, '/')
      case Some(k) => p[k + 1..]
      case None => p;
    assert |name| == 1 ==> name[0] != '.';
    if name == [] || name == ".." then None else Some(name)
  }

  /** `Path::file_name`: the last normal component, after trailing separators
      and `.` components are skipped; none when that component is `..` or
      there is none (`.`, `/`, the empty path). */
  function FileName(path: string): (r: Option<string>)
    ensures r.Some? ==> r.value != [] && '/' !in r.value && r.value != "." && r.value != ".."
    ensures r.Some? ==> EndsWith(StripTail(path), r.value)
  {
    LastName(StripTail(path))
  }

  /** `Path::extension`: what follows the last dot of the file name, unless
      that dot is the name's first character. */
  function Extension(path: string): (r: Option<string>)
    ensures r.Some? ==> '.' !in r.value && '/' !in r.value && EndsWith(StripTail(path), "." + r.value)
  {
    match FileName(path)
    case None => None
    case Some(name) =>
      match LastIndex(name, '.')
      case None => None
      case Some(k) =>
        if k == 0 then None
        else
          assert name[k..] == "." + name[k + 1..];
          Some(name[k + 1..])
  }

  /** The last component is found after the last separator. */
  lemma LastIndexAfter(a: string, c: char, b: string)
    requires c !in b
    ensures LastIndex(a + [c] + b, c) == Some(|a|)
    decreases |b|
  {
    if b != [] {
      var s := a + [c] + b;
      assert s[..|s| - 1] == a + [c] + b[..|b| - 1];
      LastIndexAfter(a, c, b[..|b| - 1]);
    }
  }

  lemma LastIndexNone(b: string, c: char)
    requires c !in b
    ensures LastIndex(b, c) == None
    decreases |b|
  {
    if b != [] {
      LastIndexNone(b[..|b| - 1], c);
    }
  }

  /** A path that ends in a normal component is its own stripped form. */
  lemma StripNothing(path: string)
    requires path != [] && path[|path| - 1] != '/' && path != "."
    requires |path| >= 2 ==> path[|path| - 2] != '/' || path[|path| - 1] != '.'
    ensures StripTail(path) == path
  {
  }

  /** The file name of `dir/name`. */
  lemma FileNameOf(dir: string, name: string)
    requires name != [] && name != "." && name != ".." && '/' !in name
    ensures FileName(dir + "/" + name) == Some(name)
  {
    var path := dir + "/" + name;
    assert path == dir + ['/'] + name;
    assert path[|path| - 1] == name[|name| - 1];
    if |name| >= 2 {
      assert path[|path| - 2] == name[|name| - 2];
    }
    StripNothing(path);
    LastIndexAfter(dir, '/', name);
    assert path[|dir| + 1..] == name;
  }

  /** Paths with the same stripped form name the same file. */
  lemma SameStripped(a: string, b: string)
    requires StripTail(a) == StripTail(b)
    ensures FileName(a) == FileName(b) && Extension(a) == Extension(b)
  {
    assert FileName(a) == LastName(StripTail(b));
  }

  lemma StripSeparator(path: string)
    ensures StripTail(path + "/") == StripTail(path)
  {
    var s := path + "/";
    assert s[..|s| - 1] == path;
  }

  lemma StripDot(path: string)
    ensures StripTail(path + "/.") == StripTail(path)
  {
    var t := path + "/.";
    assert t[|t| - 2] == '/' && t[|t| - 1] == '.' && t[..|t| - 2] == path;
  }

  /** A trailing separator or a trailing `.` component does not change the
      file name: `dir/POSCAR/` and `dir/POSCAR/.` both name `POSCAR`. */
  lemma TrailingIgnored(path: string)
    ensures FileName(path + "/") == FileName(path) && Extension(path + "/") == Extension(path)
    ensures FileName(path + "/.") == FileName(path) && Extension(path + "/.") == Extension(path)
  {
    StripSeparator(path);
    SameStripped(path + "/", path);
    StripDot(path);
    SameStripped(path + "/.", path);
  }

  /** `.` and `..` have no file name. */
  lemma DotsNameless()
    ensures FileName(".") == None && FileName("..") == None
  {
    assert StripTail("..") == ".." by {
      StripNothing("..");
    }
    LastIndexNone("..", '/');
  }

  /** A file `stem.ext` in any directory has the extension `ext`. */
  lemma ExtensionOf(dir: string, stem: string, ext: string)
    requires stem != [] && ext != [] && '/' !in stem && '/' !in ext && '.' !in ext
    ensures Extension(dir + "/" + (stem + "." + ext)) == Some(ext)
  {
    var name := stem + "." + ext;
    assert name == stem + ['.'] + ext;
    assert '/' !in name;
    assert |name| > 2 && name != "." && name != "..";
    FileNameOf(dir, name);
    LastIndexAfter(stem, '.', ext);
    assert name[|stem| + 1..] == ext;
  }

  /** A file name without a dot has no extension. */
  lemma NoExtension(dir: string, name: string)
    requires name != [] && '/' !in name && '.' !in name
    ensures FileName(dir + "/" + name) == Some(name)
    ensures Extension(dir + "/" + name) == None
  {
    assert name != "." && name != "..";
    FileNameOf(dir, name);
    LastIndexNone(name, '.');
  }
}
