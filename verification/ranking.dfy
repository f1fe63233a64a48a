/**
 * The string predicates of the context ranker: whether a command is typical
 * of a project type or of a branch, and the builders of the ranking context.
 */
module Ranking {
  import opened Common
  import opened Text

  newtype u8 = x: int | 0 <= x < 256

  /** What the ranker knows about the place a prediction is made. */
  datatype RankingContext = RankingContext(cwd: string, projectType: Option<string>, vcsBranch: Option<string>, hour: Option<u8>)
  {
    /** `with_project`: replaces the project type only. */
    function WithProject(project: Option<string>): (r: RankingContext)
      ensures r.projectType == project
      ensures r.cwd == cwd && r.vcsBranch == vcsBranch && r.hour == hour
    {
      this.(projectType := project)
    }

    /** `with_branch`: replaces the branch only. */
    function WithBranch(branch: Option<string>): (r: RankingContext)
      ensures r.vcsBranch == branch
      ensures r.cwd == cwd && r.projectType == projectType && r.hour == hour
    {
      this.(vcsBranch := branch)
    }

    /** `with_hour`: sets the hour only. */
    function WithHour(h: u8): (r: RankingContext)
      ensures r.hour == Some(h)
      ensures r.cwd == cwd && r.projectType == projectType && r.vcsBranch == vcsBranch
    {
      this.(hour := Some(h))
    }
  }

  /** `RankingContext::new`: only the directory is known. */
  function NewContext(cwd: string): (r: RankingContext)
    ensures r.cwd == cwd && r.projectType.None? && r.vcsBranch.None? && r.hour.None?
  {
    RankingContext(cwd, None, None, None)
  }

  /** The project names the ranker has command prefixes for. */
  const KnownProjects: set<string> := {"rust", "node", "python", "go", "ruby", "java"}

  /** `matches_project_type`: the lowercased command starts with a prefix typical of the project. */
  predicate MatchesProjectType(cmd: string, project: string)
  {
    var c := ToLower(cmd);
    match project
    case "rust" => StartsWith(c, "cargo ") || StartsWith(c, "rustc ") || StartsWith(c, "rustup ")
    case "node" =>
      StartsWith(c, "npm ") || StartsWith(c, "yarn ") || StartsWith(c, "pnpm ")
      || StartsWith(c, "node ") || StartsWith(c, "npx ")
    case "python" =>
      StartsWith(c, "python") || StartsWith(c, "pip ") || StartsWith(c, "pytest")
      || StartsWith(c, "poetry ") || StartsWith(c, "pdm ")
    case "go" => StartsWith(c, "go ")
    case "ruby" =>
      StartsWith(c, "ruby ") || StartsWith(c, "bundle ") || StartsWith(c, "rake ") || StartsWith(c, "rails ")
    case "java" => StartsWith(c, "mvn ") || StartsWith(c, "gradle ") || StartsWith(c, "java ")
    case _ => false
  }

  /** Only the six known project names ever match. */
  lemma UnknownProjectNeverMatches(cmd: string, project: string)
    requires project !in KnownProjects
    ensures !MatchesProjectType(cmd, project)
  {
  }

  /** The comparison ignores ASCII case. */
  lemma ProjectTypeIgnoresCase(cmd: string, project: string)
    ensures MatchesProjectType(cmd, project) == MatchesProjectType(ToLower(cmd), project)
  {
    ToLowerIdempotent(cmd);
  }

  /** The test of `matches_project_type` for Rust. */
  lemma RustProjectExamples()
    ensures MatchesProjectType("cargo build", "rust") && MatchesProjectType("cargo test", "rust")
    ensures !MatchesProjectType("npm install", "rust")
  {
    assert ToLower("npm install")[0] == 'n';
  }

  /** The test of `matches_project_type` for Node. */
  lemma NodeProjectExamples()
    ensures MatchesProjectType("npm install", "node") && MatchesProjectType("yarn add", "node")
    ensures !MatchesProjectType("cargo build", "node")
  {
    assert ToLower("npm install")[..4] == "npm ";
    assert ToLower("yarn add")[..5] == "yarn ";
    assert ToLower("cargo build")[0] == 'c';
  }

  /** Most prefixes need the space after the program: a bare `cargo` is not a Rust command. */
  lemma ProjectTypeNeedsSpace()
    ensures !MatchesProjectType("cargo", "rust")
  {
  }

  /** The `python` and `pytest` prefixes need no space, and the case of the command does not matter. */
  lemma PythonPrefixesNeedNoSpace()
    ensures MatchesProjectType("python3 -m venv", "python")
    ensures MatchesProjectType("PyTest -x", "python")
  {
    assert ToLower("python3 -m venv")[..6] == "python";
    assert ToLower("PyTest -x")[..6] == "pytest";
  }

  /** `matches_branch_pattern`: feature, fix and main branches each favour certain commands. */
  predicate MatchesBranchPattern(cmd: string, branch: string)
  {
    var c := ToLower(cmd);
    var b := ToLower(branch);
    if StartsWith(b, "feature/") || StartsWith(b, "feat/") then
      Contains(c, "test") || Contains(c, "build")
    else if StartsWith(b, "fix/") || StartsWith(b, "bugfix/") then
      Contains(c, "test") || Contains(c, "debug")
    else if b == "main" || b == "master" then
      Contains(c, "deploy") || Contains(c, "release") || Contains(c, "push")
    else false
  }

  /** The branch and the command are both compared without regard to ASCII case. */
  lemma BranchPatternIgnoresCase(cmd: string, branch: string)
    ensures MatchesBranchPattern(cmd, branch) == MatchesBranchPattern(ToLower(cmd), ToLower(branch))
  {
    ToLowerIdempotent(cmd);
    ToLowerIdempotent(branch);
  }

  /** A branch outside the three families favours nothing. */
  lemma OtherBranchesNeverMatch(cmd: string, branch: string)
    requires var b := ToLower(branch);
      !StartsWith(b, "feature/") && !StartsWith(b, "feat/") && !StartsWith(b, "fix/")
      && !StartsWith(b, "bugfix/") && b != "main" && b != "master"
    ensures !MatchesBranchPattern(cmd, branch)
  {
  }

  /** A feature branch favours tests and builds. */
  lemma FeatureBranchExamples()
    ensures MatchesBranchPattern("cargo test", "Feature/login")
    ensures !MatchesBranchPattern("ls -la", "feat/login")
  {
    assert ToLower("Feature/login")[..8] == "feature/";
    assert OccursAt(ToLower("cargo test"), "test", 6);
    var c := ToLower("ls -la");
    assert c == "ls -la";
    NotContainsFirstChar(c, "build");
    NotContainsFirstChar(c, "test");
  }

  /** A fix branch favours debugging; a main branch favours pushing. */
  lemma FixAndMainBranchExamples()
    ensures MatchesBranchPattern("gdb --debug", "bugfix/crash")
    ensures MatchesBranchPattern("git push origin", "MAIN")
  {
    assert ToLower("bugfix/crash")[0] == 'b' && ToLower("bugfix/crash")[..7] == "bugfix/";
    assert OccursAt(ToLower("gdb --debug"), "debug", 6);
    assert ToLower("MAIN") == "main" && ToLower("MAIN")[0] == 'm';
    assert OccursAt(ToLower("git push origin"), "push", 4);
  }

  /** Any other branch favours nothing. */
  lemma OtherBranchExample()
    ensures !MatchesBranchPattern("cargo test", "develop")
  {
    assert ToLower("develop")[0] == 'd';
  }
}
