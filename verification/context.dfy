/**
 * The context collector: the version-control and project facts of a
 * directory, cached per directory for a fixed time-to-live.
 */
module Context {
  import opened Common
  import opened Paths
  import opened Protocol
  import Project
  import Vcs

  /** `compute_context`: assembles the facts of `dir` from the two detectors. */
  function ComputeContext(fs: FileSystem, dir: string, git: Option<Vcs.CmdOutput>, hg: Option<Vcs.CmdOutput>): ContextInfo
  {
    var v := Vcs.DetectVcs(fs, dir, git, hg);
    var p := Project.DetectSpec(fs, dir);
    ContextInfo(
      if v.Some? then Some(v.value.vcsType) else None,
      if v.Some? then v.value.branch else None,
      if v.Some? then Some(v.value.root) else None,
      if p.Some? then Some(Project.Name(p.value)) else None)
  }

  /**
   * The kind of repository and its root are both present or both absent, a
   * branch comes only with a repository, the kind is "git" or "hg", an hg
   * repository lacks a branch only when `hg` cannot be started and its branch
   * file names none, and the project is the display name of the detected type.
   */
  lemma ComputeContextShape(fs: FileSystem, dir: string, git: Option<Vcs.CmdOutput>, hg: Option<Vcs.CmdOutput>)
    ensures var c := ComputeContext(fs, dir, git, hg);
      && (c.vcs.Some? <==> c.vcsRoot.Some?)
      && (c.vcs.None? ==> c.branch.None?)
      && (c.vcs.Some? ==> c.vcs.value in {"git", "hg"})
      && (c.vcs == Some("hg") ==>
            (c.branch.None? <==> hg.None? && !Vcs.UsableFile(fs.Read(Join(c.vcsRoot.value, ".hg/branch")))))
      && (c.project.Some? <==> Project.DetectSpec(fs, dir).Some?)
      && (c.project.Some? ==> c.project.value == Project.Name(Project.DetectSpec(fs, dir).value))
  {
    Vcs.DetectVcsShape(fs, dir, git, hg);
  }

  /**
   * The context of an hg repository whose branch file is missing, computed
   * where `hg` cannot be started, reports the repository but no branch.
   */
  lemma HgContextWithoutBranch(fs: FileSystem, dir: string, git: Option<Vcs.CmdOutput>)
    requires fs.Exists(dir, ".hg") && !fs.IsFile(dir)
    requires Vcs.RepoRoot(fs, dir, ".git").None?
    requires fs.Read(Join(dir, ".hg/branch")).None?
    ensures var c := ComputeContext(fs, dir, git, None);
      c.vcs == Some("hg") && c.vcsRoot == Some(dir) && c.branch.None?
  {
    assert Vcs.RepoRoot(fs, dir, ".hg") == Some(dir);
  }

  /** `Instant::elapsed`: the time since `since`, never negative. */
  function Elapsed(now: int, since: int): (d: nat)
    ensures now >= since ==> d == now - since
    ensures now < since ==> d == 0
  {
    if now >= since then now - since else 0
  }

  /** A cached context and the time it was computed. */
  datatype ContextEntry = ContextEntry(info: ContextInfo, timestamp: int)

  class ContextCollector {
    var cache: map<string, ContextEntry>
    const ttl: nat

    /** `ContextCollector::new`: an empty cache with a five-second time-to-live (times in milliseconds). */
    constructor New()
      ensures cache == map[] && ttl == 5000
    {
      cache := map[];
      ttl := 5000;
    }

    /** `ContextCollector::with_ttl`: an empty cache with the given time-to-live. */
    constructor WithTtl(ttl: nat)
      ensures cache == map[] && this.ttl == ttl
    {
      cache := map[];
      this.ttl := ttl;
    }

    /** The entry for `dir` is younger than the time-to-live. */
    predicate Fresh(dir: string, now: int)
      reads this
    {
      dir in cache && Elapsed(now, cache[dir].timestamp) < ttl
    }

    /**
     * `get_context`: a fresh cached entry is returned as it is and nothing
     * changes; otherwise the context is computed and stored, stamped with `now`.
     */
    method GetContext(dir: string, now: int, fs: FileSystem, git: Option<Vcs.CmdOutput>, hg: Option<Vcs.CmdOutput>)
      returns (info: ContextInfo)
      modifies this
      ensures old(Fresh(dir, now)) ==> info == old(cache)[dir].info && cache == old(cache)
      ensures !old(Fresh(dir, now)) ==>
        info == ComputeContext(fs, dir, git, hg) && cache == old(cache)[dir := ContextEntry(info, now)]
    {
      if dir in cache {
        var entry := cache[dir];
        if Elapsed(now, entry.timestamp) < ttl {
          return entry.info;
        }
      }
      info := ComputeContext(fs, dir, git, hg);
      cache := cache[dir := ContextEntry(info, now)];
    }

    /** `invalidate`: forgets the entry of `dir` and keeps every other one. */
    method Invalidate(dir: string)
      modifies this
      ensures cache == old(cache) - {dir}
    {
      cache := cache - {dir};
    }
  }

  /**
   * Two lookups of the same directory at the same instant give the same
   * context when the time-to-live is positive, even if the file system
   * changed in between.
   */
  method SecondLookupIsCached(c: ContextCollector, dir: string, now: int,
                              fs1: FileSystem, fs2: FileSystem, git: Option<Vcs.CmdOutput>, hg: Option<Vcs.CmdOutput>)
    returns (first: ContextInfo, second: ContextInfo)
    requires c.ttl > 0
    modifies c
    ensures first == second
  {
    first := c.GetContext(dir, now, fs1, git, hg);
    second := c.GetContext(dir, now, fs2, git, hg);
  }

  /** After `invalidate`, the directory has no entry and the next lookup recomputes. */
  method InvalidateForcesRecompute(c: ContextCollector, dir: string, now: int,
                                   fs: FileSystem, git: Option<Vcs.CmdOutput>, hg: Option<Vcs.CmdOutput>)
    returns (info: ContextInfo)
    modifies c
    ensures info == ComputeContext(fs, dir, git, hg)
  {
    c.Invalidate(dir);
    info := c.GetContext(dir, now, fs, git, hg);
  }
}
