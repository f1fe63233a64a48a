/**
 * Project type detection: the manifest files that mark a project, the
 * search of one directory, and the walk up through at most ten ancestors.
 */
module Project {
  import opened Common
  import opened Text
  import opened Paths

  datatype ProjectType =
    | Rust | Node | Python | Go | Ruby | Java | CSharp | Cpp
    | C | Php | Elixir | Haskell | Scala | Kotlin | Swift | Zig

  /** The `Display` name of a project type. */
  function Name(t: ProjectType): (s: string)
    ensures s != [] && ToLower(s) == s
  {
    match t
    case Rust => "rust"
    case Node => "node"
    case Python => "python"
    case Go => "go"
    case Ruby => "ruby"
    case Java => "java"
    case CSharp => "csharp"
    case Cpp => "cpp"
    case C => "c"
    case Php => "php"
    case Elixir => "elixir"
    case Haskell => "haskell"
    case Scala => "scala"
    case Kotlin => "kotlin"
    case Swift => "swift"
    case Zig => "zig"
  }

  /** Different project types are displayed differently. */
  lemma NamesDistinct(a: ProjectType, b: ProjectType)
    requires a != b
    ensures Name(a) != Name(b)
  {
  }

  /** A manifest marker: an exact file name, or `*ext` for any entry whose name ends with `ext`. */
  datatype Marker = Marker(pattern: string, project: ProjectType)

  /** The markers in the order they are tried; the first one present decides. */
  const Markers: seq<Marker> := [
    Marker("Cargo.toml", Rust),
    Marker("package.json", Node),
    Marker("pyproject.toml", Python),
    Marker("setup.py", Python),
    Marker("setup.cfg", Python),
    Marker("requirements.txt", Python),
    Marker("Pipfile", Python),
    Marker("go.mod", Go),
    Marker("go.sum", Go),
    Marker("Gemfile", Ruby),
    Marker("Rakefile", Ruby),
    Marker("pom.xml", Java),
    Marker("build.gradle", Java),
    Marker("build.gradle.kts", Kotlin),
    Marker("*.csproj", CSharp),
    Marker("*.sln", CSharp),
    Marker("CMakeLists.txt", Cpp),
    Marker("Makefile", C),
    Marker("meson.build", Cpp),
    Marker("composer.json", Php),
    Marker("mix.exs", Elixir),
    Marker("stack.yaml", Haskell),
    Marker("*.cabal", Haskell),
    Marker("build.sbt", Scala),
    Marker("build.gradle.kts", Kotlin),
    Marker("Package.swift", Swift),
    Marker("build.zig", Zig)
  ]

  /** Some name in `names` ends with `ext`. */
  predicate AnyEndsWith(names: set<string>, ext: string)
  {
    exists n :: n in names && EndsWith(n, ext)
  }

  /** Whether `m` is present in `dir`: a glob needs a readable directory with a matching entry. */
  predicate MarkerPresent(fs: FileSystem, dir: string, m: Marker)
  {
    if StartsWith(m.pattern, "*") then
      fs.Entries(dir).Some? && AnyEndsWith(fs.Entries(dir).value, m.pattern[1..])
    else fs.Exists(dir, m.pattern)
  }

  /** The project type of the first marker of `ms` present in `dir`. */
  function FirstPresent(fs: FileSystem, dir: string, ms: seq<Marker>): Option<ProjectType>
  {
    if ms == [] then None
    else if MarkerPresent(fs, dir, ms[0]) then Some(ms[0].project)
    else FirstPresent(fs, dir, ms[1..])
  }

  /** The search finds nothing exactly when no marker of `ms` is present. */
  lemma {:induction false} FirstPresentNone(fs: FileSystem, dir: string, ms: seq<Marker>)
    ensures FirstPresent(fs, dir, ms).None? <==> forall i :: 0 <= i < |ms| ==> !MarkerPresent(fs, dir, ms[i])
  {
    if ms != [] && !MarkerPresent(fs, dir, ms[0]) {
      FirstPresentNone(fs, dir, ms[1..]);
      assert forall i :: 1 <= i < |ms| ==> ms[i] == ms[1..][i - 1];
    }
  }

  /** What `detect_in_dir` answers for `dir`. */
  function InDir(fs: FileSystem, dir: string): Option<ProjectType>
  {
    FirstPresent(fs, dir, Markers)
  }

  /** The answer is the type of a present marker, and no earlier marker is present. */
  lemma {:induction false} FirstPresentIsFirst(fs: FileSystem, dir: string, ms: seq<Marker>)
    requires FirstPresent(fs, dir, ms).Some?
    ensures exists i :: (0 <= i < |ms| && MarkerPresent(fs, dir, ms[i])
      && ms[i].project == FirstPresent(fs, dir, ms).value
      && forall j :: 0 <= j < i ==> !MarkerPresent(fs, dir, ms[j]))
  {
    if !MarkerPresent(fs, dir, ms[0]) {
      FirstPresentIsFirst(fs, dir, ms[1..]);
      var i :| 0 <= i < |ms[1..]| && MarkerPresent(fs, dir, ms[1..][i])
        && ms[1..][i].project == FirstPresent(fs, dir, ms[1..]).value
        && forall j :: 0 <= j < i ==> !MarkerPresent(fs, dir, ms[1..][j]);
      assert forall j :: 1 <= j < i + 1 ==> ms[j] == ms[1..][j - 1];
      assert MarkerPresent(fs, dir, ms[i + 1]);
    } else {
      assert MarkerPresent(fs, dir, ms[0]);
    }
  }

  /** The glob check: scans the entries for a name ending with `ext`. */
  method EntryEndsWith(names: set<string>, ext: string) returns (found: bool)
    ensures found <==> AnyEndsWith(names, ext)
  {
    var rest := names;
    while rest != {}
      invariant rest <= names
      invariant forall n :: n in names - rest ==> !EndsWith(n, ext)
      decreases rest
    {
      var n :| n in rest;
      if EndsWith(n, ext) {
        return true;
      }
      rest := rest - {n};
    }
    return false;
  }

  /** `detect_in_dir`: tries the markers in order and stops at the first one present. */
  method DetectInDir(fs: FileSystem, dir: string) returns (r: Option<ProjectType>)
    ensures r == InDir(fs, dir)
  {
    r := DetectAmong(fs, dir, Markers);
  }

  /** The loop of `detect_in_dir` over a list of markers. */
  method DetectAmong(fs: FileSystem, dir: string, ms: seq<Marker>) returns (r: Option<ProjectType>)
    ensures r == FirstPresent(fs, dir, ms)
  {
    var i := 0;
    while i < |ms|
      invariant 0 <= i <= |ms|
      invariant FirstPresent(fs, dir, ms) == FirstPresent(fs, dir, ms[i..])
    {
      var m := ms[i];
      assert ms[i..][1..] == ms[i + 1..];
      if StartsWith(m.pattern, "*") {
        var entries := fs.Entries(dir);
        if entries.Some? {
          var found := EntryEndsWith(entries.value, m.pattern[1..]);
          if found {
            return Some(m.project);
          }
        }
      } else if fs.Exists(dir, m.pattern) {
        return Some(m.project);
      }
      i := i + 1;
    }
    return None;
  }

  /** Both `Cargo.toml` and `package.json` present: Rust wins because its marker comes first. */
  lemma RustBeforeNode(fs: FileSystem, dir: string)
    requires fs.Exists(dir, "Cargo.toml")
    ensures InDir(fs, dir) == Some(Rust)
  {
    assert MarkerPresent(fs, dir, Markers[0]);
  }

  /** A directory whose only manifest is a `.csproj` file is a C# project. */
  lemma CsprojIsCSharp(fs: FileSystem, dir: string)
    requires dir in fs.dirs && fs.dirs[dir] == {"App.csproj"}
    ensures InDir(fs, dir) == Some(CSharp)
  {
    var ms := Markers;
    assert EndsWith("App.csproj", ".csproj");
    assert Markers[14].pattern[1..] == ".csproj";
    assert MarkerPresent(fs, dir, Markers[14]);
    forall j | 0 <= j < 14
      ensures !MarkerPresent(fs, dir, Markers[j])
    {
      assert Markers[j].pattern[0] != '*';
      assert Markers[j].pattern != "App.csproj";
    }
    FirstPresentPrefix(fs, dir, Markers, 14);
  }

  /** With none of the first `k` markers present, the search answers what the `k`-th marker says. */
  lemma {:induction false} FirstPresentPrefix(fs: FileSystem, dir: string, ms: seq<Marker>, k: nat)
    requires k < |ms| && MarkerPresent(fs, dir, ms[k])
    requires forall j :: 0 <= j < k ==> !MarkerPresent(fs, dir, ms[j])
    ensures FirstPresent(fs, dir, ms) == Some(ms[k].project)
  {
    if k > 0 {
      assert forall j :: 0 <= j < k - 1 ==> ms[1..][j] == ms[j + 1];
      FirstPresentPrefix(fs, dir, ms[1..], k - 1);
    }
  }

  /**
   * The walk up: `dir` first, then at most `steps` more parents, stopping at
   * the first directory where a marker of `ms` is present or when there is
   * no parent left.
   */
  function WalkUp(fs: FileSystem, ms: seq<Marker>, dir: string, steps: nat): Option<ProjectType>
    decreases steps
  {
    match FirstPresent(fs, dir, ms)
    case Some(t) => Some(t)
    case None =>
      if steps == 0 then None
      else match Parent(dir)
        case None => None
        case Some(p) => WalkUp(fs, ms, p, steps - 1)
  }

  /** How many parents `detect_project_type` looks at, at most. */
  const MaxParents: nat := 10

  /** What `detect_project_type` answers: the walk starts at the path, or at a file's parent. */
  function DetectSpec(fs: FileSystem, path: string): Option<ProjectType>
  {
    match StartDir(fs, path)
    case None => None
    case Some(d) => WalkUp(fs, Markers, d, MaxParents)
  }

  /** The `i`-th directory of `c` is the nearest one with a marker of `ms`, and that marker says `t`. */
  predicate NearestAt(fs: FileSystem, ms: seq<Marker>, c: seq<string>, i: nat, t: ProjectType)
  {
    i < |c| && FirstPresent(fs, c[i], ms) == Some(t) && forall j :: 0 <= j < i ==> FirstPresent(fs, c[j], ms).None?
  }

  /** Prepending a directory without markers shifts the nearest one by one place. */
  lemma NearestShift(fs: FileSystem, ms: seq<Marker>, d: string, c: seq<string>, i: nat, t: ProjectType)
    requires FirstPresent(fs, d, ms).None?
    ensures NearestAt(fs, ms, [d] + c, i + 1, t) <==> NearestAt(fs, ms, c, i, t)
  {
    var c' := [d] + c;
    assert forall j :: 0 <= j < |c| ==> c'[j + 1] == c[j];
    if NearestAt(fs, ms, c', i + 1, t) {
      forall j | 0 <= j < i
        ensures FirstPresent(fs, c[j], ms).None?
      {
        assert c'[j + 1] == c[j];
      }
    }
    if NearestAt(fs, ms, c, i, t) {
      forall j | 0 <= j < i + 1
        ensures FirstPresent(fs, c'[j], ms).None?
      {
        if j > 0 {
          assert c'[j] == c[j - 1];
        }
      }
    }
  }

  /** A walk that finds `t` stopped at the nearest directory with a marker, within `steps` parents. */
  lemma {:induction false} WalkUpFindsNearest(fs: FileSystem, ms: seq<Marker>, dir: string, steps: nat, t: ProjectType)
    requires WalkUp(fs, ms, dir, steps) == Some(t)
    ensures exists i: nat :: i <= steps && NearestAt(fs, ms, AncestorChain(dir), i, t)
    decreases steps
  {
    var c := AncestorChain(dir);
    if FirstPresent(fs, dir, ms).Some? {
      assert NearestAt(fs, ms, c, 0, t);
    } else {
      var p := Parent(dir).value;
      WalkUpFindsNearest(fs, ms, p, steps - 1, t);
      ChainStep(dir);
      var i: nat :| i <= steps - 1 && NearestAt(fs, ms, AncestorChain(p), i, t);
      NearestShift(fs, ms, dir, AncestorChain(p), i, t);
    }
  }

  /** Along any parent-linked chain, the walk from its first directory stops at the nearest one with a marker. */
  lemma {:induction false} NearestOnChain(fs: FileSystem, ms: seq<Marker>, c: seq<string>, steps: nat, t: ProjectType, i: nat)
    requires ParentLinked(c) && i <= steps && NearestAt(fs, ms, c, i, t)
    ensures WalkUp(fs, ms, c[0], steps) == Some(t)
    decreases steps
  {
    if i > 0 {
      var rest := c[1..];
      assert c == [c[0]] + rest;
      assert ParentLinked(rest) by {
        forall k | 0 < k < |rest|
          ensures Parent(rest[k - 1]) == Some(rest[k])
        {
          assert rest[k - 1] == c[k] && rest[k] == c[k + 1];
        }
      }
      NearestShift(fs, ms, c[0], rest, i - 1, t);
      NearestOnChain(fs, ms, rest, steps - 1, t, i - 1);
      WalkUpStep(fs, ms, c[0], steps, c[1]);
    }
  }

  /** The nearest directory with a marker, within `steps` parents, is where the walk stops. */
  lemma NearestIsFound(fs: FileSystem, ms: seq<Marker>, dir: string, steps: nat, t: ProjectType, i: nat)
    requires i <= steps && NearestAt(fs, ms, AncestorChain(dir), i, t)
    ensures WalkUp(fs, ms, dir, steps) == Some(t)
  {
    NearestOnChain(fs, ms, AncestorChain(dir), steps, t, i);
  }

  /** Past a directory without markers, the walk goes on from its parent with one step fewer. */
  lemma WalkUpStep(fs: FileSystem, ms: seq<Marker>, dir: string, steps: nat, p: string)
    requires steps > 0 && FirstPresent(fs, dir, ms).None? && Parent(dir) == Some(p)
    ensures WalkUp(fs, ms, dir, steps) == WalkUp(fs, ms, p, steps - 1)
  {
  }

  /**
   * The walk finds `t` exactly when one of the first `steps + 1` directories of
   * the ancestor chain has a marker for `t` and no nearer one has any marker.
   */
  lemma WalkUpIsNearest(fs: FileSystem, ms: seq<Marker>, dir: string, steps: nat, t: ProjectType)
    ensures WalkUp(fs, ms, dir, steps) == Some(t) <==>
      exists i: nat :: i <= steps && NearestAt(fs, ms, AncestorChain(dir), i, t)
  {
    if WalkUp(fs, ms, dir, steps) == Some(t) {
      WalkUpFindsNearest(fs, ms, dir, steps, t);
    }
    if exists i: nat :: i <= steps && NearestAt(fs, ms, AncestorChain(dir), i, t) {
      var i: nat :| i <= steps && NearestAt(fs, ms, AncestorChain(dir), i, t);
      NearestIsFound(fs, ms, dir, steps, t, i);
    }
  }

  /**
   * `detect_project_type`: checks the start directory, then pops up to ten
   * times, stopping early when the path has no parent left.
   */
  method DetectProjectType(fs: FileSystem, path: string) returns (r: Option<ProjectType>)
    ensures r == DetectSpec(fs, path)
  {
    var start := StartDir(fs, path);
    if start.None? {
      return None;
    }
    var current := start.value;
    r := DetectInDir(fs, current);
    if r.Some? {
      return;
    }
    var n := 0;
    while n < MaxParents
      invariant 0 <= n <= MaxParents
      invariant InDir(fs, current).None?
      invariant WalkUp(fs, Markers, start.value, MaxParents) == WalkUp(fs, Markers, current, MaxParents - n)
    {
      var parent := Parent(current);
      if parent.None? {
        break;
      }
      WalkUpStep(fs, Markers, current, MaxParents - n, parent.value);
      current := parent.value;
      r := DetectInDir(fs, current);
      if r.Some? {
        return;
      }
      n := n + 1;
    }
    return None;
  }
}
