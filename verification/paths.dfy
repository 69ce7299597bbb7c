/** The part of Node's posix `path` module the version computation uses,
    for paths that contain no repeated and no trailing slash. */
module Paths {
  import opened Wrappers
  import opened Strings

  /** The index of the last slash in `p`, if any. */
  function LastSlash(p: string): (r: Option<nat>)
    ensures r.Some? ==> r.value < |p| && p[r.value] == '/'
    ensures r.Some? ==> forall k :: r.value < k < |p| ==> p[k] != '/'
    ensures r.None? ==> forall k :: 0 <= k < |p| ==> p[k] != '/'
    decreases |p|
  {
    if |p| == 0 then None
    else if p[|p| - 1] == '/' then Some(|p| - 1)
    else LastSlash(p[..|p| - 1])
  }

  /** `path.basename(p)`: the final `/`-separated component of `p`, i.e. the
      slash-free suffix that is the whole path or follows a slash. */
  function BaseName(p: string): (r: string)
    ensures '/' !in r
    ensures |r| <= |p| && p[|p| - |r|..] == r
    ensures |r| < |p| ==> p[|p| - |r| - 1] == '/'
  {
    match LastSlash(p)
    case None => p
    case Some(i) =>
      var r := p[i + 1..];
      assert forall k :: 0 <= k < |r| ==> r[k] == p[i + 1 + k];
      r
  }

  /** `path.dirname(p)`: "." when there is no slash; otherwise the directory
      and the base name rebuild the path, the directory being "/" when the
      only slash leads the path. */
  function DirName(p: string): (r: string)
    ensures '/' !in p ==> r == "."
    ensures '/' in p ==>
      || (r == "/" && p == "/" + BaseName(p))
      || (r != "" && p == r + "/" + BaseName(p))
  {
    match LastSlash(p)
    case None => "."
    case Some(i) =>
      assert p == p[..i] + "/" + p[i + 1..];
      if i == 0 then "/" else p[..i]
  }

  /** `extractFolder` of the build script: the name of the directory that
      holds `p`, i.e. `path.basename(path.dirname(p))`. A bare file name
      lives in ".". */
  function ParentFolder(p: string): (r: string)
    ensures '/' !in r
    ensures '/' !in p ==> r == "."
  {
    BaseName(DirName(p))
  }

  /** `path.basename(p, ext)`: the final component with a trailing `ext`
      removed, unless the component is `ext` itself; a path equal to a
      non-empty `ext` gives the empty string. */
  function BaseNameWithout(p: string, ext: string): (r: string)
    ensures '/' !in r
    ensures p != ext ==> r == BaseName(p) || r + ext == BaseName(p)
  {
    if 0 < |ext| && p == ext then ""
    else
      var b := BaseName(p);
      if 0 < |ext| < |b| && b[|b| - |ext|..] == ext then
        assert b[..|b| - |ext|] + ext == b;
        assert forall k :: 0 <= k < |b| - |ext| ==> b[..|b| - |ext|][k] == b[k];
        b[..|b| - |ext|]
      else b
  }

  /** The last slash of `x + "/" + w`, for a slash-free `w`, is the one
      between them. */
  lemma {:induction false} LastSlashBeforeWord(x: string, w: string)
    requires '/' !in w
    ensures LastSlash(x + ['/'] + w) == Some(|x|)
    decreases |w|
  {
    var p := x + ['/'] + w;
    if |w| == 0 {
      assert p[|p| - 1] == '/';
    } else {
      var w' := w[..|w| - 1];
      assert w == w' + [w[|w| - 1]];
      assert p[|p| - 1] == w[|w| - 1] != '/';
      assert p[..|p| - 1] == x + ['/'] + w';
      LastSlashBeforeWord(x, w');
    }
  }

  /** The base name of `x + "/" + w` is `w`, its directory `x` (or "/" when
      `x` is empty). */
  lemma PathAfterSlash(x: string, w: string)
    requires '/' !in w
    ensures BaseName(x + ['/'] + w) == w
    ensures DirName(x + ['/'] + w) == if x == "" then "/" else x
  {
    var p := x + ['/'] + w;
    LastSlashBeforeWord(x, w);
    assert p[|x| + 1..] == w;
    assert p[..|x|] == x;
  }

  /** A slash-free path is its own base name. */
  lemma BaseNameOfWord(w: string)
    requires '/' !in w
    ensures BaseName(w) == w
  {
    assert LastSlash(w).None?;
  }

  /** The base name of a path built from components is the last component,
      provided that one is slash-free. */
  lemma BaseNameOfComponents(parts: seq<string>)
    requires |parts| >= 1 && '/' !in parts[|parts| - 1]
    ensures BaseName(Join(parts, '/')) == parts[|parts| - 1]
  {
    var n := |parts|;
    if n == 1 {
      assert Join(parts, '/') == parts[0];
      BaseNameOfWord(parts[0]);
    } else {
      var head, last := Join(parts[..n - 1], '/'), parts[n - 1];
      JoinSnoc(parts, '/');
      PathAfterSlash(head, last);
      assert BaseName(Join(parts, '/')) == BaseName(head + ['/'] + last);
    }
  }

  /** The parent folder of a path built from components is the one before
      the last, provided those two are slash-free. */
  lemma ParentFolderOfComponents(parts: seq<string>)
    requires |parts| >= 2
    requires '/' !in parts[|parts| - 1] && '/' !in parts[|parts| - 2]
    ensures ParentFolder(Join(parts, '/')) == parts[|parts| - 2]
  {
    var n := |parts|;
    var folder, file := parts[n - 2], parts[n - 1];
    JoinSnoc(parts, '/');
    var head := Join(parts[..n - 1], '/');
    if n == 2 {
      assert head == folder;
      PathAfterSlash(folder, file);
      if folder == "" {
        assert LastSlash("/") == Some(0);
        assert BaseName("/") == "";
      } else {
        BaseNameOfWord(folder);
      }
      assert ParentFolder(Join(parts, '/')) == ParentFolder(folder + ['/'] + file);
    } else {
      var init := parts[..n - 1];
      var dir := Join(parts[..n - 2], '/');
      JoinSnoc(init, '/');
      assert init[..|init| - 1] == parts[..n - 2];
      assert head == dir + ['/'] + folder;
      ParentFolderOfNested(dir, folder, file);
      assert ParentFolder(Join(parts, '/')) == ParentFolder(dir + "/" + folder + "/" + file);
    }
  }

  /** The parent folder of `dir/folder/file` is `folder`. */
  lemma ParentFolderOfNested(dir: string, folder: string, file: string)
    requires '/' !in folder && '/' !in file
    ensures ParentFolder(dir + "/" + folder + "/" + file) == folder
  {
    var head := dir + "/" + folder;
    assert head == dir + ['/'] + folder;
    assert head + "/" + file == head + ['/'] + file;
    PathAfterSlash(head, file);
    PathAfterSlash(dir, folder);
  }

  /** A base name `name + ext` loses its trailing `ext`, for a non-empty
      `name` and `ext`, whatever the directory or its absence. */
  lemma BaseNameWithoutStrips(p: string, name: string, ext: string)
    requires 0 < |name| && 0 < |ext| && BaseName(p) == name + ext
    ensures BaseNameWithout(p, ext) == name
  {
    var b := BaseName(p);
    assert |ext| < |b| <= |p|;
    assert b[|b| - |ext|..] == ext;
    assert b[..|b| - |ext|] == name;
  }

  /** `path.basename(dir + "/" + name + ext, ext)` is `name`, for a non-empty
      slash-free `name`. */
  lemma BaseNameWithoutExtension(dir: string, name: string, ext: string)
    requires '/' !in name && '/' !in ext && 0 < |name| && 0 < |ext|
    ensures BaseNameWithout(dir + ['/'] + (name + ext), ext) == name
  {
    var file := name + ext;
    var p := dir + ['/'] + file;
    assert '/' !in file;
    PathAfterSlash(dir, file);
    var b := BaseName(p);
    assert b == file && p != ext;
    assert 0 < |ext| < |b| && b[|b| - |ext|..] == ext;
    assert b[..|b| - |ext|] == name;
  }
}
