/**
 * `std::path` operations on '/'-separated paths (`Path::parent`,
 * `PathBuf::pop`, `Path::join`) and an abstract file system standing for
 * `exists`, `is_file`, `read_dir` and `read_to_string`.
 */
module Paths {
  import opened Common
  import opened Text

  /** `p` without its trailing '/' characters. */
  function StripTrailingSlashes(p: string): (r: string)
    ensures |r| <= |p| && r == p[..|r|]
    ensures r == [] || r[|r| - 1] != '/'
    ensures forall i :: |r| <= i < |p| ==> p[i] == '/'
  {
    if p != [] && p[|p| - 1] == '/' then StripTrailingSlashes(p[..|p| - 1]) else p
  }

  /** The index of the last '/' of `p`. */
  function LastSlash(p: string): (r: Option<nat>)
    ensures r.Some? ==> r.value < |p| && p[r.value] == '/'
    ensures r.Some? ==> forall j :: r.value < j < |p| ==> p[j] != '/'
    ensures r.None? ==> forall j :: 0 <= j < |p| ==> p[j] != '/'
  {
    if p == [] then None
    else if p[|p| - 1] == '/' then Some(|p| - 1)
    else LastSlash(p[..|p| - 1])
  }

  /** Every character of `p` is '/' (this includes the empty path). */
  predicate AllSlashes(p: string)
  {
    forall i :: 0 <= i < |p| ==> p[i] == '/'
  }

  /**
   * `Path::parent`: `None` for the empty path and the root, `""` for a single
   * relative component, `"/"` for a single absolute component, otherwise the
   * path without its last component. `PathBuf::pop` replaces the buffer by
   * this parent and returns `false` when there is none.
   */
  function Parent(p: string): (r: Option<string>)
    ensures r.None? <==> AllSlashes(p)
    ensures r.Some? ==> |r.value| < |p| && StartsWith(p, r.value)
    ensures r.Some? ==> r.value == [] || r.value == "/" || r.value[|r.value| - 1] != '/'
  {
    var q := StripTrailingSlashes(p);
    if q == [] then None
    else match LastSlash(q)
      case None => Some([])
      case Some(k) =>
        var d := StripTrailingSlashes(q[..k]);
        if d == [] then
          assert p[..1] == "/" by { assert p[0] == q[0] == '/'; }
          Some("/")
        else
          assert p[..|d|] == d;
          Some(d)
  }

  /** The path and its ancestors, nearest first: what repeated `pop` visits. */
  function AncestorChain(p: string): (c: seq<string>)
    ensures |c| >= 1 && c[0] == p
    ensures forall i :: 0 < i < |c| ==> Parent(c[i - 1]) == Some(c[i])
    ensures Parent(c[|c| - 1]).None?
    decreases |p|
  {
    match Parent(p)
    case None => [p]
    case Some(q) => [p] + AncestorChain(q)
  }

  /** Past a directory with a parent, the chain goes on with the parent's chain. */
  lemma ChainStep(dir: string)
    requires Parent(dir).Some?
    ensures AncestorChain(dir) == [dir] + AncestorChain(Parent(dir).value)
  {
  }

  /** Each path of `c` after the first is the parent of the one before it. */
  predicate ParentLinked(c: seq<string>)
  {
    forall k :: 0 < k < |c| ==> Parent(c[k - 1]) == Some(c[k])
  }

  /** A parent-linked chain that runs until there is no parent left, as `AncestorChain` does. */
  predicate FullChain(c: seq<string>)
  {
    |c| >= 1 && ParentLinked(c) && Parent(c[|c| - 1]).None?
  }

  /** A full chain without its first path is still full. */
  lemma FullChainTail(c: seq<string>)
    requires FullChain(c) && |c| > 1
    ensures FullChain(c[1..])
  {
    var rest := c[1..];
    forall k | 0 < k < |rest|
      ensures Parent(rest[k - 1]) == Some(rest[k])
    {
      assert rest[k - 1] == c[k] && rest[k] == c[k + 1];
    }
  }

  /** `Path::join`: an absolute `name` replaces `dir`; otherwise one '/' separates them. */
  function Join(dir: string, name: string): (r: string)
    ensures StartsWith(name, "/") ==> r == name
    ensures !StartsWith(name, "/") ==> StartsWith(r, dir) && EndsWith(r, name)
  {
    if StartsWith(name, "/") || dir == [] then name
    else if dir[|dir| - 1] == '/' then dir + name
    else dir + "/" + name
  }

  /**
   * A snapshot of the file system: the entry names of every readable
   * directory, and the contents of every readable regular file, keyed by path.
   */
  datatype FileSystem = FileSystem(dirs: map<string, set<string>>, files: map<string, string>)
  {
    /** `dir.join(name).exists()`. */
    predicate Exists(dir: string, name: string)
    {
      dir in dirs && name in dirs[dir]
    }

    /** `path.is_file()`. */
    predicate IsFile(path: string)
    {
      path in files
    }

    /** `std::fs::read_to_string(path).ok()`. */
    function Read(path: string): Option<string>
    {
      if path in files then Some(files[path]) else None
    }

    /** `std::fs::read_dir(dir)` entry names, or `None` when it fails. */
    function Entries(dir: string): Option<set<string>>
    {
      if dir in dirs then Some(dirs[dir]) else None
    }
  }

  /** Where a walk up the tree starts: the parent of a file, the path itself otherwise. */
  function StartDir(fs: FileSystem, path: string): (r: Option<string>)
    ensures !fs.IsFile(path) ==> r == Some(path)
    ensures fs.IsFile(path) ==> r == Parent(path)
  {
    if fs.IsFile(path) then Parent(path) else Some(path)
  }
}
