/**
 * Version-control detection: the nearest ancestor holding `.git` or `.hg`,
 * and the branch read from `HEAD` / `.hg/branch` or from the tool's output.
 */
module Vcs {
  import opened Common
  import opened Text
  import opened Paths

  /** What a subprocess returned when it could be started: its exit status and standard output. */
  datatype CmdOutput = CmdOutput(success: bool, stdout: string)

  /** `VcsInfo`: the kind of repository, its root, and the branch when known. */
  datatype VcsInfo = VcsInfo(vcsType: string, root: string, branch: Option<string>)

  /** The first directory of `dir`'s ancestor chain that holds `marker`. */
  function RootFrom(fs: FileSystem, dir: string, marker: string): Option<string>
    decreases |dir|
  {
    if fs.Exists(dir, marker) then Some(dir)
    else match Parent(dir)
      case None => None
      case Some(p) => RootFrom(fs, p, marker)
  }

  /** What `find_repo_root` answers: the search starts at the path, or at a file's parent. */
  function RepoRoot(fs: FileSystem, start: string, marker: string): Option<string>
  {
    match StartDir(fs, start)
    case None => None
    case Some(d) => RootFrom(fs, d, marker)
  }

  /** `d` is the `i`-th directory of `c`, holds `marker`, and no nearer one does. */
  predicate NearestHolding(fs: FileSystem, c: seq<string>, i: nat, marker: string)
  {
    i < |c| && fs.Exists(c[i], marker) && forall j :: 0 <= j < i ==> !fs.Exists(c[j], marker)
  }

  /** Past a directory without the marker, the search goes on from its parent. */
  lemma RootFromStep(fs: FileSystem, dir: string, marker: string, p: string)
    requires !fs.Exists(dir, marker) && Parent(dir) == Some(p)
    ensures RootFrom(fs, dir, marker) == RootFrom(fs, p, marker)
  {
  }

  /** Along a full chain, a root found is the nearest directory of the chain holding the marker. */
  lemma {:induction false} RootOnChain(fs: FileSystem, c: seq<string>, marker: string)
    requires FullChain(c) && RootFrom(fs, c[0], marker).Some?
    ensures exists i: nat :: NearestHolding(fs, c, i, marker) && c[i] == RootFrom(fs, c[0], marker).value
    decreases |c|
  {
    if fs.Exists(c[0], marker) {
      assert NearestHolding(fs, c, 0, marker);
    } else {
      if |c| == 1 {
        assert false;
      } else {
        var rest := c[1..];
        FullChainTail(c);
        RootFromStep(fs, c[0], marker, c[1]);
        assert rest[0] == c[1];
        RootOnChain(fs, rest, marker);
        var i: nat :| NearestHolding(fs, rest, i, marker) && rest[i] == RootFrom(fs, rest[0], marker).value;
        forall j | 0 <= j < i + 1
          ensures !fs.Exists(c[j], marker)
        {
          if j > 0 {
            assert c[j] == rest[j - 1];
          }
        }
        assert c[i + 1] == rest[i];
        assert NearestHolding(fs, c, i + 1, marker);
      }
    }
  }

  /** A root found is the nearest directory of the ancestor chain holding the marker. */
  lemma RootFromIsNearest(fs: FileSystem, dir: string, marker: string)
    requires RootFrom(fs, dir, marker).Some?
    ensures exists i: nat :: (NearestHolding(fs, AncestorChain(dir), i, marker)
      && AncestorChain(dir)[i] == RootFrom(fs, dir, marker).value)
  {
    RootOnChain(fs, AncestorChain(dir), marker);
  }

  /** Along a full chain, no root is found exactly when no directory of the chain holds the marker. */
  lemma {:induction false} NoRootOnChain(fs: FileSystem, c: seq<string>, marker: string)
    requires FullChain(c)
    ensures RootFrom(fs, c[0], marker).None? <==> forall i :: 0 <= i < |c| ==> !fs.Exists(c[i], marker)
    decreases |c|
  {
    if !fs.Exists(c[0], marker) && |c| > 1 {
      var rest := c[1..];
      FullChainTail(c);
      RootFromStep(fs, c[0], marker, c[1]);
      assert rest[0] == c[1];
      NoRootOnChain(fs, rest, marker);
      if RootFrom(fs, rest[0], marker).None? {
        forall i | 0 <= i < |c|
          ensures !fs.Exists(c[i], marker)
        {
          if i > 0 {
            assert c[i] == rest[i - 1];
          }
        }
      } else {
        var k :| 0 <= k < |rest| && fs.Exists(rest[k], marker);
        assert c[k + 1] == rest[k];
      }
    }
  }

  /** No root is found exactly when no directory of the ancestor chain holds the marker. */
  lemma RootFromNone(fs: FileSystem, dir: string, marker: string)
    ensures RootFrom(fs, dir, marker).None? <==>
      forall i :: 0 <= i < |AncestorChain(dir)| ==> !fs.Exists(AncestorChain(dir)[i], marker)
  {
    NoRootOnChain(fs, AncestorChain(dir), marker);
  }

  /** The root returned always holds the marker. */
  lemma RootHoldsMarker(fs: FileSystem, start: string, marker: string)
    ensures RepoRoot(fs, start, marker).Some? ==> fs.Exists(RepoRoot(fs, start, marker).value, marker)
  {
    if RepoRoot(fs, start, marker).Some? {
      RootFromIsNearest(fs, StartDir(fs, start).value, marker);
    }
  }

  /**
   * `find_repo_root`: looks for the marker in the current directory and pops
   * one level at a time until it is found or there is no parent left.
   */
  method FindRepoRoot(fs: FileSystem, start: string, marker: string) returns (root: Option<string>)
    ensures root == RepoRoot(fs, start, marker)
  {
    var first := StartDir(fs, start);
    if first.None? {
      return None;
    }
    var current := first.value;
    while true
      invariant RootFrom(fs, current, marker) == RepoRoot(fs, start, marker)
      decreases |current|
    {
      if fs.Exists(current, marker) {
        return Some(current);
      }
      var parent := Parent(current);
      if parent.None? {
        return None;
      }
      current := parent.value;
    }
  }

  const RefPrefix: string := "ref: refs/heads/"

  /**
   * `get_git_branch`: the trimmed contents of `.git/HEAD` name the branch after
   * `ref: refs/heads/`; otherwise a detached hash of 7 or more characters gives
   * its first 7; otherwise the trimmed output of `git rev-parse --abbrev-ref HEAD`
   * when the command succeeds with something other than "" or "HEAD". `head` is
   * `None` when the file cannot be read and `git` is `None` when the command
   * cannot be started.
   */
  function GitBranch(head: Option<string>, git: Option<CmdOutput>): (r: Option<string>)
    ensures r.Some? ==>
      || (head.Some? && StartsWith(Trim(head.value), RefPrefix) && r.value == Trim(head.value)[|RefPrefix|..])
      || (head.Some? && |Trim(head.value)| >= 7 && r.value == Trim(head.value)[..7])
      || (git.Some? && git.value.success && r.value == Trim(git.value.stdout) && r.value != [] && r.value != "HEAD")
  {
    var fromHead :=
      if head.Some? then
        var content := Trim(head.value);
        match StripPrefix(content, RefPrefix)
        case Some(b) => Some(b)
        case None => if |content| >= 7 then Some(content[..7]) else None
      else None;
    if fromHead.Some? then fromHead
    else match git
      case None => None
      case Some(out) =>
        var b := Trim(out.stdout);
        if out.success && b != [] && b != "HEAD" then Some(b) else None
  }

  /** A symbolic `HEAD` names its branch, whatever the command would say. */
  lemma GitRefBranch(head: string, name: string, git: Option<CmdOutput>)
    requires Trim(head) == RefPrefix + name
    ensures GitBranch(Some(head), git) == Some(name)
  {
    assert StartsWith(Trim(head), RefPrefix);
  }

  /** A detached `HEAD` gives the first 7 characters of the hash. */
  lemma GitDetachedBranch(head: string, git: Option<CmdOutput>)
    requires !StartsWith(Trim(head), RefPrefix) && |Trim(head)| >= 7
    ensures GitBranch(Some(head), git) == Some(Trim(head)[..7])
    ensures |GitBranch(Some(head), git).value| == 7
  {
  }

  /** Without a usable `HEAD`, the command's answer is taken only when it succeeded with a real name. */
  lemma GitCommandFallback(head: Option<string>, git: Option<CmdOutput>)
    requires head.None? || (!StartsWith(Trim(head.value), RefPrefix) && |Trim(head.value)| < 7)
    ensures GitBranch(head, git).Some? <==>
      git.Some? && git.value.success && Trim(git.value.stdout) != [] && Trim(git.value.stdout) != "HEAD"
    ensures GitBranch(head, git).Some? ==> GitBranch(head, git).value == Trim(git.value.stdout)
  {
  }

  /** A `HEAD` file with the usual `ref: refs/heads/main` line and its newline. */
  lemma GitMainExample(git: Option<CmdOutput>)
    ensures GitBranch(Some("ref: refs/heads/main\n"), git) == Some("main")
  {
    var h := "ref: refs/heads/main\n";
    assert Trim(h) == RefPrefix + "main" by {
      assert TrimStart(h) == h;
      assert TrimEnd(h) == h[..|h| - 1];
    }
    GitRefBranch(h, "main", git);
  }

  /** A branch file that exists and names something once trimmed. */
  predicate UsableFile(file: Option<string>)
  {
    file.Some? && Trim(file.value) != []
  }

  /**
   * `get_hg_branch` as written: the trimmed non-empty contents of `.hg/branch`;
   * otherwise, when `hg branch` cannot be started, no branch at all (the `?`
   * on the spawn result returns early); otherwise the trimmed non-empty output
   * of a successful command, else "default".
   */
  function HgBranchAsWritten(file: Option<string>, hg: Option<CmdOutput>): (r: Option<string>)
    ensures r.None? <==> !UsableFile(file) && hg.None?
  {
    if file.Some? && Trim(file.value) != [] then Some(Trim(file.value))
    else match hg
      case None => None
      case Some(out) =>
        var b := Trim(out.stdout);
        if out.success && b != [] then Some(b) else Some("default")
  }

  /** An `.hg` repository with no branch file and no `hg` executable gets no branch at all. */
  lemma HgBranchAsWrittenCanBeNone()
    ensures HgBranchAsWritten(None, None).None?
  {
  }

  /**
   * The branch of an hg repository, falling back to "default" in every case
   * where neither the file nor a successful command names one, including
   * when `hg` cannot be started.
   */
  function HgBranch(file: Option<string>, hg: Option<CmdOutput>): (r: Option<string>)
    ensures r.Some? && r.value != []
  {
    if file.Some? && Trim(file.value) != [] then Some(Trim(file.value))
    else
      var out := hg.GetOr(CmdOutput(false, []));
      var b := Trim(out.stdout);
      if out.success && b != [] then Some(b) else Some("default")
  }

  /** The correction changes only the case of a branch-less repository without `hg`. */
  lemma HgBranchAgrees(file: Option<string>, hg: Option<CmdOutput>)
    ensures HgBranchAsWritten(file, hg).Some? ==> HgBranch(file, hg) == HgBranchAsWritten(file, hg)
    ensures HgBranchAsWritten(file, hg).None? ==> HgBranch(file, hg) == Some("default")
  {
  }

  /** The branch file wins over the command; the command over the default. */
  lemma HgBranchSources(file: Option<string>, hg: Option<CmdOutput>)
    ensures file.Some? && Trim(file.value) != [] ==> HgBranch(file, hg) == Some(Trim(file.value))
    ensures (file.None? || Trim(file.value) == []) && hg.Some? && hg.value.success && Trim(hg.value.stdout) != [] ==>
      HgBranch(file, hg) == Some(Trim(hg.value.stdout))
  {
  }

  /** `detect_git`: the `.git` root and its branch. */
  function DetectGit(fs: FileSystem, path: string, git: Option<CmdOutput>): (r: Option<VcsInfo>)
    ensures r.Some? <==> RepoRoot(fs, path, ".git").Some?
    ensures r.Some? ==> r.value.vcsType == "git" && r.value.root == RepoRoot(fs, path, ".git").value
  {
    match RepoRoot(fs, path, ".git")
    case None => None
    case Some(root) => Some(VcsInfo("git", root, GitBranch(fs.Read(Join(root, ".git/HEAD")), git)))
  }

  /** `detect_hg`: the `.hg` root and the branch `get_hg_branch` gives for it, which may be absent. */
  function DetectHg(fs: FileSystem, path: string, hg: Option<CmdOutput>): (r: Option<VcsInfo>)
    ensures r.Some? <==> RepoRoot(fs, path, ".hg").Some?
    ensures r.Some? ==> r.value.vcsType == "hg" && r.value.root == RepoRoot(fs, path, ".hg").value
    ensures r.Some? ==> r.value.branch == HgBranchAsWritten(fs.Read(Join(r.value.root, ".hg/branch")), hg)
    ensures r.Some? ==> (r.value.branch.None? <==> hg.None? && !UsableFile(fs.Read(Join(r.value.root, ".hg/branch"))))
  {
    match RepoRoot(fs, path, ".hg")
    case None => None
    case Some(root) => Some(VcsInfo("hg", root, HgBranchAsWritten(fs.Read(Join(root, ".hg/branch")), hg)))
  }

  /** `detect_hg` with the corrected branch lookup `HgBranch`: an hg repository always has a branch. */
  function DetectHgCorrected(fs: FileSystem, path: string, hg: Option<CmdOutput>): (r: Option<VcsInfo>)
    ensures r.Some? <==> RepoRoot(fs, path, ".hg").Some?
    ensures r.Some? ==> r.value.vcsType == "hg" && r.value.root == RepoRoot(fs, path, ".hg").value
    ensures r.Some? ==> r.value.branch.Some? && r.value.branch.value != []
  {
    match RepoRoot(fs, path, ".hg")
    case None => None
    case Some(root) => Some(VcsInfo("hg", root, HgBranch(fs.Read(Join(root, ".hg/branch")), hg)))
  }

  /** The corrected detection differs from `detect_hg` only in the branch, and only where `detect_hg` has none. */
  lemma DetectHgCorrectedAgrees(fs: FileSystem, path: string, hg: Option<CmdOutput>)
    ensures var (a, c) := (DetectHg(fs, path, hg), DetectHgCorrected(fs, path, hg));
      && (a.Some? <==> c.Some?)
      && (a.Some? && a.value.branch.Some? ==> c == a)
      && (a.Some? && a.value.branch.None? ==> c == Some(a.value.(branch := Some("default"))))
  {
    match RepoRoot(fs, path, ".hg")
    case None =>
    case Some(root) =>
      HgBranchAgrees(fs.Read(Join(root, ".hg/branch")), hg);
  }

  /** `detect_vcs`: git first, hg only when no `.git` was found up the tree. */
  function DetectVcs(fs: FileSystem, path: string, git: Option<CmdOutput>, hg: Option<CmdOutput>): (r: Option<VcsInfo>)
  {
    match DetectGit(fs, path, git)
    case Some(info) => Some(info)
    case None => DetectHg(fs, path, hg)
  }

  /**
   * The kind is "git" or "hg"; git is chosen whenever a `.git` root exists;
   * the root holds the marker of its kind; an hg repository lacks a branch
   * exactly when `hg` cannot be started and its branch file names none.
   */
  lemma DetectVcsShape(fs: FileSystem, path: string, git: Option<CmdOutput>, hg: Option<CmdOutput>)
    ensures var r := DetectVcs(fs, path, git, hg);
      && (r.Some? ==> r.value.vcsType in {"git", "hg"})
      && (RepoRoot(fs, path, ".git").Some? ==> r.Some? && r.value.vcsType == "git")
      && (r.Some? && r.value.vcsType == "hg" ==> RepoRoot(fs, path, ".git").None?)
      && (r.Some? && r.value.vcsType == "hg" ==>
            (r.value.branch.None? <==> hg.None? && !UsableFile(fs.Read(Join(r.value.root, ".hg/branch")))))
      && (r.None? <==> RepoRoot(fs, path, ".git").None? && RepoRoot(fs, path, ".hg").None?)
      && (r.Some? ==> fs.Exists(r.value.root, if r.value.vcsType == "git" then ".git" else ".hg"))
  {
    RootHoldsMarker(fs, path, ".git");
    RootHoldsMarker(fs, path, ".hg");
  }
}
