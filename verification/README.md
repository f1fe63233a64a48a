# nicehist core, modelled in Dafny

nicehist keeps shell history in a database and suggests the next command. It has three
parts: a zsh plugin, a daemon and a command-line client. The daemon answers JSON-RPC 2.0
requests over a Unix socket. The client sends those requests, and it also imports and
exports history files.

This project models the logic of the daemon and of the client:

- **Command parsing:** the quote-aware tokenizer, the program/subcommand/arguments split and
  the filter that picks the arguments worth learning.
- **Matching and ranking helpers:**
  - ordered-substring and fuzzy path matching;
  - the three-tier fallback of the frecent query;
  - the fasd time weights;
  - the list of a directory's ancestors;
  - the merge of n-gram bonuses;
  - the hour-of-day bucket;
  - argument suggestions;
  - the command classifiers by project type and by branch.
- **Two caches:**
  - the prediction cache, which holds a bounded number of entries, evicts the oldest and
    can drop every key with a given prefix;
  - the per-directory context cache, which expires entries after a time-to-live.
- **Context detection over an abstract directory tree:** the project type (first marker
  wins, walking up at most ten parents), the repository root (nearest ancestor holding
  `.git` or `.hg`) and the branch names.
- **JSON-RPC and CLI:**
  - the response constructors and the parameter defaults;
  - the dispatch from method name to answer or error code;
  - the one-response-per-connection rule;
  - the schema-migration state machine;
  - the client's history and fasd line formats and import loops;
  - the request parameters the client builds.

### Form of the model

- **Pure parts** are functions. Each comes with lemmas connecting it to a reference
  definition: tokens as words, a match as a placement of the terms, a fuzzy match as a
  subsequence, a walk up the tree as the nearest ancestor with a marker.
- **Loops** are methods proved equal to those functions. These are `tokenize`,
  `extract_learnable_args`, the two matchers, `get_directory_hierarchy`, the tiers of
  `frecent_query`, `find_repo_root`, `detect_project_type`, the n-gram merge and the import
  and export loops.
- **State** is kept in classes:
  - the prediction cache and the context collector (fields of type `map`);
  - the schema state of the database (its version table and a log of the schema work done).
- **Outside effects** become parameters:
  - the file system is a value `FileSystem` (directories, their entry names, file contents);
  - the clock is a parameter `now`;
  - command outputs are `Option` values;
  - query results are sequences of rows;
  - backend answers are functions.

The zsh plugin is not part of this model. Its shell-side context cache is a single slot
that a change of directory clears. The daemon's context cache is different: a map per
directory with a five-second time-to-live. This model follows the daemon's code.

## Model

| member | source | states |
|---|---|---|
| Parser.Tokenize | daemon/src/prediction/parser.rs:87-128 | the one-pass loop with two quote flags and a token start produces exactly `Tokens(cmd)`, the words split at spaces and tabs outside quotes |
| Parser.TokenizeInvContinue | daemon/src/prediction/parser.rs:96-107 | a quote or ordinary character keeps the loop invariant: the quote state steps and a token opens if none was open |
| Parser.TokenizeInvSep | daemon/src/prediction/parser.rs:108-113 | a space or tab outside quotes completes the open token, which is the next word |
| Parser.TokenizeInvEnd | daemon/src/prediction/parser.rs:122-125 | at the end of input the open token, if any, is the last word |
| Parser.WordEndQuotes | daemon/src/prediction/parser.rs:94-119 | a token ends at a separator only where every quote opened inside it is closed, and no earlier separator in it lies outside quotes |
| Parser.TokenShape | daemon/src/prediction/parser.rs:94-125 | every token holds separators only inside quotes; a token that leaves a quote open runs to the end of the input |
| Parser.WordsShape | daemon/src/prediction/parser.rs:87-128 | all tokens of the input have that shape; only the last one may leave a quote open, and then it is a suffix of the input |
| Parser.PlainToken | daemon/src/prediction/parser.rs:108-118 | a plain word followed by a space is one token |
| Parser.PlainLastToken | daemon/src/prediction/parser.rs:122-125 | a plain word running to the end of the input is the last token |
| Parser.QuotedToken | daemon/src/prediction/parser.rs:96-101 | a single-quoted stretch followed by a space is one token, quotes included, even when it holds spaces |
| Parser.TokensOfQuoted | daemon/src/prediction/parser.rs:87-128 | a plain word, a single-quoted word and a plain word, separated by spaces, tokenize to exactly those three words, quotes kept |
| Parser.TokenizeQuotedExample | daemon/src/prediction/parser.rs:221-224 | `echo 'hello world' foo` tokenizes to `["echo", "'hello world'", "foo"]` |
| Parser.WordsSkip | daemon/src/prediction/parser.rs:108-113 | a separator between tokens adds nothing |
| Parser.TokensNonEmpty | daemon/src/prediction/parser.rs:47 | there is no token exactly when every character is a space or tab |
| Parser.ArgLookupKey | daemon/src/prediction/parser.rs:25-30 | the key is the program alone without a subcommand; otherwise the program, a space, and exactly the subcommand |
| Parser.SplitTokens | daemon/src/prediction/parser.rs:56-76 | the program is the first token and the full text is kept |
| Parser.SplitRebuilds | daemon/src/prediction/parser.rs:56-76 | program, then the subcommand if any, then the arguments rebuild the token list; the subcommand exists iff the program takes subcommands, there is a second token and it does not start with `-` |
| Parser.ParseCommand | daemon/src/prediction/parser.rs:42-84 | `full` is always the untrimmed input |
| Parser.ParseBlank | daemon/src/prediction/parser.rs:42-54 | blank input (and only blank input) has no tokens, and it parses to an empty program, no subcommand, no arguments and `full` equal to the input |
| Parser.ParseRebuildsTokens | daemon/src/prediction/parser.rs:56-83 | for non-blank input, program ++ [subcommand] ++ args are the tokens of the trimmed input |
| Parser.ParseSubcommandCondition | daemon/src/prediction/parser.rs:59-76 | a subcommand is set exactly when there are two tokens or more, the program is in the subcommand list ignoring ASCII case and the second token does not start with `-` |
| Parser.PartialIffTrailingSpace | daemon/src/prediction/parser.rs:20-22 | `is_partial` holds exactly when the untrimmed input ends with a space |
| Parser.KeptIndices | daemon/src/prediction/parser.rs:135-163 | the kept positions are increasing, and a position is among them exactly when the learnable rule accepts it |
| Parser.SelectStep | daemon/src/prediction/parser.rs:135-163 | looking at one more argument appends it exactly when it is kept |
| Parser.ExtractLearnableArgs | daemon/src/prediction/parser.rs:132-166 | the loop returns the kept arguments in their original order, a subsequence of the arguments |
| Parser.KeptAreNotFlagsOrMessages | daemon/src/prediction/parser.rs:137-153 | nothing kept starts with `-`, and a value right after `-m` or `--message` is never kept |
| Parser.KeptLengthRule | daemon/src/prediction/parser.rs:144-163 | a value after `-b`, `--branch`, `-f` or `--file` is kept whatever its length; any other argument longer than 100 characters is dropped |
| Parser.LearnableBranchExample | daemon/src/prediction/parser.rs:227-231 | in `-b feature/new-thing` the branch is learned |
| Ranking.NewContext | daemon/src/prediction/ranking.rs:27-34 | a new ranking context knows only the directory |
| Ranking.WithProject | daemon/src/prediction/ranking.rs:36-39 | sets the project type and leaves every other field unchanged |
| Ranking.WithBranch | daemon/src/prediction/ranking.rs:41-44 | sets the branch and leaves every other field unchanged |
| Ranking.WithHour | daemon/src/prediction/ranking.rs:46-49 | sets the hour and leaves every other field unchanged |
| Ranking.MatchesProjectType | daemon/src/prediction/ranking.rs:94-133 | the definition: the lowercased command starts with one of the prefixes listed for the project; its properties are the lemmas below |
| Ranking.UnknownProjectNeverMatches | daemon/src/prediction/ranking.rs:98-133 | a project name outside rust, node, python, go, ruby and java matches no command |
| Ranking.ProjectTypeIgnoresCase | daemon/src/prediction/ranking.rs:96 | matching a command equals matching its ASCII-lowercased form |
| Ranking.RustProjectExamples | daemon/src/prediction/ranking.rs:197-202 | `cargo build` and `cargo test` are Rust commands; `npm install` is not |
| Ranking.NodeProjectExamples | daemon/src/prediction/ranking.rs:204-209 | `npm install` and `yarn add` are Node commands; `cargo build` is not |
| Ranking.ProjectTypeNeedsSpace | daemon/src/prediction/ranking.rs:99-103 | a bare `cargo` is not a Rust command because the prefix includes the space |
| Ranking.PythonPrefixesNeedNoSpace | daemon/src/prediction/ranking.rs:111-117 | `python3 -m venv` and `PyTest -x` are Python commands: these prefixes need no space and case does not matter |
| Ranking.MatchesBranchPattern | daemon/src/prediction/ranking.rs:136-160 | the definition: feature, fix and main/master branches each accept commands holding certain words; its properties are the lemmas below |
| Ranking.BranchPatternIgnoresCase | daemon/src/prediction/ranking.rs:137-160 | branch and command are compared ignoring ASCII case |
| Ranking.OtherBranchesNeverMatch | daemon/src/prediction/ranking.rs:137-159 | a branch outside the feature, fix and main families favours no command |
| Ranking.FeatureBranchExamples | daemon/src/prediction/ranking.rs:142-145 | a `Feature/…` branch favours `cargo test`; `feat/login` does not favour `ls -la` |
| Ranking.FixAndMainBranchExamples | daemon/src/prediction/ranking.rs:147-157 | `bugfix/crash` favours a debug command; `MAIN` favours a push |
| Ranking.OtherBranchExample | daemon/src/prediction/ranking.rs:159 | `develop` favours nothing |
| Prediction.PredictionCache.constructor | daemon/src/prediction/mod.rs:30-35 | a new cache is empty with the given capacity |
| Prediction.PredictionCache.Get | daemon/src/prediction/mod.rs:37-39 | a hit exactly for a stored key, returning its suggestions; reading changes nothing |
| Prediction.PredictionCache.OldestKey | daemon/src/prediction/mod.rs:44-49 | no key exactly for an empty cache; otherwise a key with the smallest timestamp |
| Prediction.PredictionCache.Insert | daemon/src/prediction/mod.rs:41-62 | afterwards `get(key)` returns the suggestions, stamped `now`; below capacity nothing else changes; at capacity exactly one oldest entry is removed first; the count never exceeds a capacity of at least 1 |
| Prediction.PredictionCache.InvalidatePrefix | daemon/src/prediction/mod.rs:64-66 | removes exactly the keys starting with the prefix and leaves every other entry as it was |
| Prediction.EvictionExample | daemon/src/prediction/mod.rs:152-164 | three inserts into a cache of two leave two entries, the newest among them |
| Prediction.CacheKey | daemon/src/prediction/mod.rs:90-97 | the key starts with `prefix:`, ends with `:` and the last command (empty when absent), and has the length of the three parts plus two |
| Prediction.CacheKeyInjective | daemon/src/prediction/mod.rs:90-97 | when prefix and directory hold no `:`, equal keys mean equal prefix, directory and last command |
| Prediction.CacheKeyCollisions | daemon/src/prediction/mod.rs:90-97 | an absent last command and an empty one share a key, and so do a `:` inside the directory and the separator |
| Prediction.PredictionEngine.constructor | daemon/src/prediction/mod.rs:83-88 | the engine starts with an empty cache of capacity 1000 |
| Prediction.PredictionEngine.GetCached | daemon/src/prediction/mod.rs:100-105 | a lookup under the key built from prefix, directory and last command |
| Prediction.PredictionEngine.CachePredictions | daemon/src/prediction/mod.rs:107-112 | afterwards a lookup with the same three parts hits with the stored suggestions stamped `now`; every other entry keeps its value; below capacity nothing is evicted, and at capacity exactly one oldest entry is |
| Prediction.PredictionEngine.InvalidateCache | daemon/src/prediction/mod.rs:114-117 | drops exactly the keys starting with the prefix, keeping the rest unchanged |
| Prediction.EngineExample | daemon/src/prediction/mod.rs:124-149 | a lookup after storing hits; the same prefix in another directory misses |
| Context.ComputeContext | daemon/src/context/mod.rs:90-106 | the definition: the kind, branch and root of `detect_vcs` and the display name of `detect_project_type`; its properties are `Context.ComputeContextShape` and `Context.HgContextWithoutBranch` |
| Context.ComputeContextShape | daemon/src/context/mod.rs:91-106 | repository kind and root are both present or both absent; a branch only comes with a repository; the kind is git or hg; an hg repository lacks a branch exactly when `hg` cannot be started and its branch file names none; the project is the display name of the detected type |
| Context.HgContextWithoutBranch | daemon/src/context/mod.rs:90-106 | as the code is written, the context of an hg repository with no branch file, computed where `hg` cannot be started, reports the repository and its root but no branch |
| Context.Elapsed | daemon/src/context/mod.rs:60 | the age of an entry is the time since its stamp, never negative |
| Context.ContextCollector.New | daemon/src/context/mod.rs:39-45 | an empty cache with a time-to-live of five seconds |
| Context.ContextCollector.WithTtl | daemon/src/context/mod.rs:47-52 | an empty cache with the given time-to-live |
| Context.ContextCollector.GetContext | daemon/src/context/mod.rs:55-82 | an entry younger than the time-to-live is returned with the cache unchanged; otherwise the context is computed and stored, stamped with `now` |
| Context.ContextCollector.Invalidate | daemon/src/context/mod.rs:85-88 | removes only that directory's entry |
| Context.SecondLookupIsCached | daemon/src/context/mod.rs:114-125 | two lookups of a directory at the same instant give the same context, even if the file system changed in between |
| Context.InvalidateForcesRecompute | daemon/src/context/mod.rs:127-140 | after `invalidate`, the next lookup computes the context afresh |
| Project.Name | daemon/src/context/project.rs:29-51 | every display name is non-empty and lowercase |
| Project.NamesDistinct | daemon/src/context/project.rs:29-51 | different project types have different display names |
| Project.EntryEndsWith | daemon/src/context/project.rs:131-142 | the glob check finds an entry exactly when some entry name ends with the text after `*` |
| Project.DetectAmong | daemon/src/context/project.rs:130-150 | the marker loop returns the first present marker's type |
| Project.DetectInDir | daemon/src/context/project.rs:129-151 | `detect_in_dir` over the marker table in its order |
| Project.FirstPresent | daemon/src/context/project.rs:129-151 | the definition: the type of the first marker of the table present in the directory; its properties are the lemmas below |
| Project.FirstPresentNone | daemon/src/context/project.rs:129-151 | nothing is detected exactly when no marker is present |
| Project.FirstPresentIsFirst | daemon/src/context/project.rs:129-151 | the type detected is that of a present marker with no present marker before it |
| Project.FirstPresentPrefix | daemon/src/context/project.rs:129-151 | with none of the first `k` markers present and the `k`-th present, its type is detected |
| Project.RustBeforeNode | daemon/src/context/project.rs:54-58 | a directory holding `Cargo.toml` is Rust whatever else it holds, e.g. `package.json` |
| Project.CsprojIsCSharp | daemon/src/context/project.rs:76 | a directory whose only manifest is `App.csproj` is C# |
| Project.WalkUp | daemon/src/context/project.rs:103-126 | the definition: the directory, then at most `steps` parents, stopping at the first with a marker; `Project.WalkUpIsNearest` characterises it |
| Project.WalkUpStep | daemon/src/context/project.rs:116-123 | past a directory without markers the walk goes on from its parent with one step fewer |
| Project.WalkUpFindsNearest | daemon/src/context/project.rs:103-126 | a type found comes from the nearest directory with a marker, within the step bound |
| Project.NearestOnChain | daemon/src/context/project.rs:103-126 | along any parent-linked chain, the walk stops at the nearest directory with a marker |
| Project.NearestIsFound | daemon/src/context/project.rs:103-126 | the nearest directory with a marker within the bound is where the walk stops |
| Project.WalkUpIsNearest | daemon/src/context/project.rs:103-126 | the walk finds a type exactly when one of the first `steps + 1` ancestors has a marker for it and no nearer one has any |
| Project.DetectProjectType | daemon/src/context/project.rs:103-126 | the loop (start directory, then at most ten pops, stopping when there is no parent) computes the walk from the start directory |
| Paths.StartDir | daemon/src/context/project.rs:104-108 | a file's search starts at its parent, any other path at itself |
| Paths.Parent | daemon/src/context/vcs.rs:73-81 | `pop` fails exactly on the empty path and on a path made only of `/` (the root); otherwise the parent is a shorter prefix without a trailing `/` |
| Paths.AncestorChain | daemon/src/context/vcs.rs:66-82 | the path, then each parent in turn, ending at a path with no parent |
| Paths.ChainStep | daemon/src/context/vcs.rs:73-81 | the chain of a directory with a parent is that directory followed by the parent's chain |
| Paths.Join | daemon/src/main.rs:21 | joining an absolute name gives the name; otherwise the result starts with the directory and ends with the name |
| Vcs.RootFrom | daemon/src/context/vcs.rs:66-82 | the definition: the first directory of the ancestor chain holding the marker; `Vcs.RootFromIsNearest` and `Vcs.RootFromNone` characterise it |
| Vcs.RepoRoot | daemon/src/context/vcs.rs:66-72 | the definition: the search starts at the path itself, or at its parent when it is a file |
| Vcs.RootFromStep | daemon/src/context/vcs.rs:73-81 | past a directory without the marker, the search goes on from its parent |
| Vcs.RootOnChain | daemon/src/context/vcs.rs:66-82 | along a full chain, a root found is the nearest directory holding the marker |
| Vcs.RootFromIsNearest | daemon/src/context/vcs.rs:66-82 | a root found is the nearest ancestor holding the marker |
| Vcs.NoRootOnChain | daemon/src/context/vcs.rs:73-81 | along a full chain, no root is found exactly when no directory of the chain holds the marker |
| Vcs.RootFromNone | daemon/src/context/vcs.rs:73-81 | no root exactly when no ancestor holds the marker, so `None` only after popping up to the root |
| Vcs.RootHoldsMarker | daemon/src/context/vcs.rs:150-159 | the root returned always holds the marker |
| Vcs.FindRepoRoot | daemon/src/context/vcs.rs:66-82 | the popping loop computes the nearest-ancestor search from the start directory (a file's parent) |
| Vcs.GitBranch | daemon/src/context/vcs.rs:85-115 | a branch comes from a `ref: refs/heads/` line, a 7-character prefix of a detached hash, or a successful `git` answer other than "" and "HEAD" |
| Vcs.GitRefBranch | daemon/src/context/vcs.rs:88-92 | trimmed `HEAD` content `ref: refs/heads/X` gives `X`, whatever the command would say |
| Vcs.GitDetachedBranch | daemon/src/context/vcs.rs:93-96 | other `HEAD` content of 7 characters or more gives its first 7 |
| Vcs.GitCommandFallback | daemon/src/context/vcs.rs:99-114 | without a usable `HEAD`, the command's trimmed output is taken exactly when it succeeded with a name other than "" and "HEAD" |
| Vcs.GitMainExample | daemon/src/context/vcs.rs:186-195 | `ref: refs/heads/main` with its newline gives `main` |
| Vcs.HgBranchAsWritten | daemon/src/context/vcs.rs:117-143 | as written: no branch exactly when the branch file gives none and `hg` cannot be started |
| Vcs.HgBranchAsWrittenCanBeNone | daemon/src/context/vcs.rs:128-132 | a repository with no branch file and no `hg` gets no branch |
| Vcs.HgBranch | daemon/src/context/vcs.rs:117-143 | the corrected branch is never absent nor empty |
| Vcs.HgBranchAgrees | daemon/src/context/vcs.rs:117-143 | the correction differs from the code only where the code gives no branch, and gives "default" there |
| Vcs.HgBranchSources | daemon/src/context/vcs.rs:119-139 | the trimmed branch file wins over the command, and the command over "default" |
| Vcs.DetectGit | daemon/src/context/vcs.rs:38-50 | a git repository exactly when a `.git` root exists, with kind "git" and that root |
| Vcs.DetectHg | daemon/src/context/vcs.rs:52-64 | as written: an hg repository exactly when an `.hg` root exists, with kind "hg", that root and the branch `get_hg_branch` gives, which is absent exactly when `hg` cannot be started and the branch file names none |
| Vcs.DetectHgCorrected | daemon/src/context/vcs.rs:52-63 | with the corrected branch lookup: the same repository and root, and always a non-empty branch |
| Vcs.DetectHgCorrectedAgrees | daemon/src/context/vcs.rs:52-63 | the corrected detection differs from the code only in the branch, only where the code gives none, and gives "default" there |
| Vcs.DetectVcs | daemon/src/context/vcs.rs:23-35 | the definition: `detect_git`, and `detect_hg` only when it finds nothing; `Vcs.DetectVcsShape` states its properties |
| Vcs.DetectVcsShape | daemon/src/context/vcs.rs:23-35 | the kind is git or hg; git is chosen whenever a `.git` root exists, and hg is consulted only otherwise; the root holds its marker; an hg repository lacks a branch exactly when `hg` cannot be started and its branch file names none |
| Db.TimeBucket | daemon/src/db/mod.rs:90-93 | with Rust's truncating `%` and `/`, the bucket lies in 0..23 for a non-negative time (and in -23..0 for a negative one) |
| Db.TimeBucketIsHour | daemon/src/db/mod.rs:90-93 | `d` days, `h` hours and `s` seconds after the epoch fall in bucket `h` |
| Db.Storable | daemon/src/db/mod.rs:239-243 | the learnable arguments of length 2 to 100, each kept and none added |
| Db.StoreArgPatterns | daemon/src/db/mod.rs:229-262 | the arguments upserted are exactly the storable learnable arguments of the parsed command, in order |
| Db.ArgScore | daemon/src/db/mod.rs:315-318 | a score between 0 and 1, at least 0.3 when the argument was used in this directory |
| Db.ArgSuggestions | daemon/src/db/mod.rs:265-331 | the definition: nothing unless the prefix ends with a space, else the prefix followed by each row's argument; `Db.ArgSuggestionsShape` and `Db.GetArgSuggestions` state its properties |
| Db.ArgSuggestionsShape | daemon/src/db/mod.rs:265-331 | nothing unless the prefix ends with a space; otherwise one suggestion per row, `prefix ++ arg`, scored by `ArgScore` |
| Db.GetArgSuggestions | daemon/src/db/mod.rs:313-326 | the row loop builds those suggestions |
| Db.Predict | daemon/src/db/mod.rs:334-360 | the answer is either the argument suggestions or the ordinary predictions |
| Db.PredictChoice | daemon/src/db/mod.rs:343-357 | argument suggestions are returned exactly when the prefix names a program, ends with a space, and some argument is known |
| Db.TrigramBonus | daemon/src/db/mod.rs:397-400 | a trigram bonus lies between 0 and 1 |
| Db.BigramBonus | daemon/src/db/mod.rs:421-425 | a bigram bonus lies between 0 and 1 |
| Db.TrigramMap | daemon/src/db/mod.rs:396-401 | the trigram map covers exactly the commands of the trigram rows |
| Db.BigramMerge | daemon/src/db/mod.rs:420-426 | the definition: `entry().or_insert` over the bigram rows in order; `Db.BigramMergeKeeps` states its properties |
| Db.BigramMergeKeeps | daemon/src/db/mod.rs:420-426 | the bigram merge keeps every bonus already present, covers the old commands and those of the rows, and gives a command seen only in bigrams its first bigram bonus |
| Db.NgramBonus | daemon/src/db/mod.rs:371-426 | the loop computes the n-gram bonus map, with no lookup unless the previous command is known and trigrams only when the one before is known too |
| Db.TrigramWins | daemon/src/db/mod.rs:383-426 | a command with a trigram bonus keeps it whatever the bigrams say; one seen only in bigrams gets its first bigram bonus; no other command gets one |
| Db.ChainExtend | daemon/src/db/mod.rs:989-999 | the collected list grows by the parent of its last element |
| Db.HierarchyStep | daemon/src/db/mod.rs:989-999 | one more parent keeps the loop invariant |
| Db.DirectoryHierarchy | daemon/src/db/mod.rs:983-1003 | `dir` first, at most `max_depth + 1` entries, each the parent of the previous one, never `""` or `/`, and fewer than `max_depth + 1` only when the next parent is missing, `""` or `/` |
| Frecent.MatchesOrderedSubstring | daemon/src/db/mod.rs:931-952 | the match is the ordered search over the (optionally lowercased) path and terms; an empty term list matches |
| Frecent.SearchInOrder | daemon/src/db/mod.rs:940-951 | the loop that advances `search_from` computes the ordered search |
| Frecent.OrderedStep | daemon/src/db/mod.rs:946-950 | each term is found at or after the end of the previous match, or the match fails |
| Frecent.OrderedIffEmbedding | daemon/src/db/mod.rs:931-952 | searching each term at its earliest occurrence succeeds exactly when the terms can be placed in order without overlap |
| Frecent.Ordered | daemon/src/db/mod.rs:931-952 | the definition: each term is searched from the end of the previous match; `Frecent.OrderedIffEmbedding` characterises it |
| Frecent.OrderedGivesEmbedding | daemon/src/db/mod.rs:931-952 | a successful search yields such a placement |
| Frecent.EmbeddingGivesOrdered | daemon/src/db/mod.rs:931-952 | any such placement makes the search succeed |
| Frecent.OrderedSubstringMeaning | daemon/src/db/mod.rs:931-952 | a match holds exactly when the terms can be placed in the path in order without overlap |
| Frecent.OrderedExample | daemon/src/db/mod.rs:1221 | `["proj", "src"]` matches `/home/user/project/src` |
| Frecent.OrderedReverseExample | daemon/src/db/mod.rs:1222 | `["src", "proj"]` does not match `/home/user/project/src`: the order of the terms matters |
| Frecent.OrderedCaseExample | daemon/src/db/mod.rs:1223-1225 | case-sensitive matching tells `Project` from `project`; the case-insensitive tier finds it |
| Frecent.MatchesFuzzy | daemon/src/db/mod.rs:955-972 | the fuzzy match is one scan of the lowercased path for the joined lowercased terms |
| Frecent.FuzzyScan | daemon/src/db/mod.rs:959-971 | the nested loops with one shared path cursor compute that scan |
| Frecent.GreedyIffSubsequence | daemon/src/db/mod.rs:955-972 | the one-pass scan succeeds exactly when the string is a subsequence of the path |
| Frecent.Greedy | daemon/src/db/mod.rs:955-972 | the definition: one left-to-right scan of the path for the characters in order; `Frecent.GreedyIffSubsequence` characterises it |
| Frecent.GreedyFindsPicks | daemon/src/db/mod.rs:955-972 | a successful scan means a subsequence |
| Frecent.PicksFoundByGreedy | daemon/src/db/mod.rs:955-972 | the scan misses no subsequence |
| Frecent.FuzzyMeaning | daemon/src/db/mod.rs:955-972 | a fuzzy match holds exactly when the lowercased terms, joined, are a subsequence of the lowercased path |
| Frecent.FuzzyExampleFound | daemon/src/db/mod.rs:1229-1232 | `prj` fuzzily matches `/home/user/project` |
| Frecent.FuzzyExampleMissing | daemon/src/db/mod.rs:1229-1232 | `xyz` does not |
| Frecent.Weight | daemon/src/db/mod.rs:917-926 | the weight is 1, 2, 4 or 6, and 6 for an age under an hour (a negative age counts as 0) |
| Frecent.WeightMonotone | daemon/src/db/mod.rs:917-926 | an older access never weighs more |
| Frecent.FrecencyScore | daemon/src/db/mod.rs:916-928 | a positive rank is scaled by a factor between 1 and 6 |
| Frecent.FrecencyScoreExample | daemon/src/db/mod.rs:1205-1217 | an hour-old rank scores above a day-old one, above a week-old one, above an older one |
| Frecent.Scored | daemon/src/db/mod.rs:646-651 | a result keeps the candidate's path and type and carries the raw rank and time exactly when asked |
| Frecent.PathTypeFilter | daemon/src/db/mod.rs:614-621 | no filter without a requested type; otherwise "f" or "d" |
| Frecent.OfType | daemon/src/db/mod.rs:614-638 | the candidates are rows of the requested type |
| Frecent.Matching | daemon/src/db/mod.rs:663-673 | a tier yields results exactly when some candidate matches in it, each the scored row of a matching candidate |
| Frecent.TieredMatches | daemon/src/db/mod.rs:659-703 | the definition: the first tier with any match decides the results; `Frecent.TierFallback` states the fallback order |
| Frecent.ScoreAll | daemon/src/db/mod.rs:643-653 | without terms every candidate is scored, in order |
| Frecent.CollectTier | daemon/src/db/mod.rs:663-673 | one tier's loop pushes exactly the matching candidates, scored, in order |
| Frecent.InsertByScore | daemon/src/db/mod.rs:705 | insertion keeps the results sorted by descending score and adds exactly one element |
| Frecent.SortByScore | daemon/src/db/mod.rs:705 | the sort yields a descending permutation of its input |
| Frecent.Truncate | daemon/src/db/mod.rs:706 | keeps the first `min(limit, len)` results |
| Frecent.QueryResult | daemon/src/db/mod.rs:609-708 | the definition: all candidates scored without terms, else the tiers; then sorted and cut to `limit`; `Frecent.QueryBounded` and `Frecent.QueryWithoutTerms` state its properties |
| Frecent.FrecentQuery | daemon/src/db/mod.rs:609-708 | the method computes the tiered, sorted, truncated result over the candidates of the requested type |
| Frecent.QueryBounded | daemon/src/db/mod.rs:705-707 | never more than `limit` results, sorted by descending score |
| Frecent.QueryWithoutTerms | daemon/src/db/mod.rs:643-656 | without terms every candidate is scored: `min(limit, candidates)` results |
| Frecent.TierFallback | daemon/src/db/mod.rs:659-703 | the case-insensitive tier is used only when no candidate matched case-sensitively, and the fuzzy tier only when neither ordered tier matched; every result is a scored candidate |
| Migrations.MaxOr0 | daemon/src/db/migrations.rs:49-55 | the largest recorded version, or 0 with no rows |
| Migrations.Database.Empty | daemon/src/db/migrations.rs:153-157 | a new database has no version table, no versions and no schema work |
| Migrations.Database.SchemaVersion | daemon/src/db/migrations.rs:35-58 | 0 without the table, otherwise the largest recorded version, or 0 without rows |
| Migrations.Database.SetSchemaVersion | daemon/src/db/migrations.rs:61-74 | records the version once; an existing row stays one row |
| Migrations.Database.ApplyMigration | daemon/src/db/migrations.rs:76-82 | succeeds unless the migration fails; only versions 2 and 3 do schema work; nothing else changes |
| Migrations.ReachedMeaning | daemon/src/db/migrations.rs:22-28 | an incremental run reaches version 3 exactly when no pending migration fails; otherwise it stops just below the first failing one |
| Migrations.AppliedFromOne | daemon/src/db/migrations.rs:22-28 | from version 1, migrations 2 and 3 run once each, in that order |
| Migrations.Database.ApplyPending | daemon/src/db/migrations.rs:22-28 | versions `current+1..=3` are applied in order, each recorded right after it succeeds, stopping at the first failure; success exactly when 3 is reached |
| Migrations.Database.RunMigrations | daemon/src/db/migrations.rs:13-31 | a fresh database gets the initial schema alone and version 3; an older one the pending migrations; a current one is left alone; the version afterwards is the last step that succeeded |
| Migrations.FreshDatabaseMigration | daemon/src/db/migrations.rs:153-174 | a new database ends at version 3 with the initial schema as its only schema work |
| Migrations.MigrateTwice | daemon/src/db/migrations.rs:176-186 | without failures a database ends at version 3, and a second run changes nothing |
| Protocol.Success | daemon/src/protocol.rs:28-35 | a well-formed response (exactly one of result and error) echoing the id and carrying the result |
| Protocol.Error | daemon/src/protocol.rs:37-48 | a well-formed response with no id, no result and an error with the code and message and no data |
| Protocol.DefaultWeightsAgree | daemon/src/protocol.rs:113-133 | `RankingWeights::default()` equals the per-field defaults and is what an empty weights object decodes to |
| Protocol.DecodeStoreParams | daemon/src/protocol.rs:60-85 | a decoded store request carries the object's `cmd` and `cwd` |
| Protocol.DecodePredictParams | daemon/src/protocol.rs:137-162 | `prefix` and `cwd` are required strings and are carried as given; an absent `limit` is 5 and an absent `frecent_boost` is on |
| Protocol.PredictParamsDefaults | daemon/src/protocol.rs:137-162 | with only a prefix and a directory: no recent commands, limit 5, frecent boost on, no weights |
| Protocol.PredictParamsGiven | daemon/src/protocol.rs:137-154 | a given limit and list of recent commands are kept |
| Protocol.DecodeContextParams | daemon/src/protocol.rs:173-178 | decodes exactly when `cwd` is a string |
| Protocol.DecodeDeleteParams | daemon/src/protocol.rs:197-202 | decodes exactly when `cmd` is a string |
| Protocol.DecodeSearchParams | daemon/src/protocol.rs:204-231 | `pattern` is a required string carried as given; an absent `limit` is 20 and an absent `ngram_boost` is off |
| Protocol.SearchParamsDefaults | daemon/src/protocol.rs:204-231 | a search defaults to limit 20, no filters and no n-gram boost |
| Protocol.DecodeFrecentAddParams | daemon/src/protocol.rs:253-271 | `path` is a required string carried as given; an absent `path_type` is "d" |
| Protocol.FrecentAddParamsDefaults | daemon/src/protocol.rs:253-271 | `frecent_add` defaults to type "d", no rank and no timestamp |
| Protocol.DecodeFrecentQueryParams | daemon/src/protocol.rs:273-292 | only an object decodes; an absent `limit` is 20 and an absent `raw` is off |
| Protocol.FrecentQueryParamsDefaults | daemon/src/protocol.rs:273-292 | `frecent_query` defaults to no terms, any type, limit 20, not raw |
| Protocol.ContextInfoToJson | daemon/src/protocol.rs:180-195 | each context field is serialised exactly when present |
| Protocol.SearchResultCarriesCmd | daemon/src/protocol.rs:233-251 | a serialised search result always carries its command |
| Daemon.DecodeCall | daemon/src/main.rs:86-198 | each method decodes into its own parameter record, and decoding succeeds exactly when that record's decoder accepts the parameters |
| Daemon.Answer | daemon/src/main.rs:88-95 | a backend success becomes a success with its encoding, a failure -32000 with the message |
| Daemon.Execute | daemon/src/main.rs:85-200 | a decoded call either succeeds echoing the id, or fails with -32000, which `context` never does |
| Daemon.HandleRequest | daemon/src/main.rs:82-205 | every response is well formed, every success echoes the request id, every error is -32601, -32602 or -32000 |
| Daemon.PingAlwaysAnswers | daemon/src/main.rs:201 | `ping` answers `{"pong": true}` with the id, whatever the parameters |
| Daemon.MethodNotFoundIff | daemon/src/main.rs:202 | -32601 is answered exactly for names outside the known methods, naming the method |
| Daemon.MissingParams | daemon/src/main.rs:97-99 | a known method other than ping without parameters answers -32602 "Missing params" |
| Daemon.InvalidParamsIff | daemon/src/main.rs:86-99 | -32602 exactly when a method that takes parameters gets none or ones that do not decode |
| Daemon.ServerErrorMeansBackendFailed | daemon/src/main.rs:88-95 | -32000 only after the parameters decoded and a backend other than `context` failed |
| Daemon.StoreSucceeds | daemon/src/main.rs:88-92 | a successful store answers with the new id |
| Daemon.Respond | daemon/src/main.rs:51-54 | an unparsable line answers -32700; a request gets the dispatch's answer |
| Daemon.HandleClient | daemon/src/main.rs:41-79 | at most one response per connection: one exactly when the first read gives a line, and it answers that line |
| Daemon.SocketPath | daemon/src/main.rs:19-25 | `nicehist.sock` inside `$XDG_RUNTIME_DIR` when set, else `/tmp/nicehist-<uid>.sock`; the client's `socket_path` in cli/src/main.rs (lines 179-188) applies the same rule |
| Daemon.SocketPathPerUser | daemon/src/main.rs:19-25 | without `$XDG_RUNTIME_DIR`, different users get different sockets |
| Daemon.SocketPathExamples | daemon/src/main.rs:19-25 | `/run/user/1000` with or without a trailing `/` gives `/run/user/1000/nicehist.sock` |
| Cli.HistoryCommand | cli/src/main.rs:358-379 | a line starting with `": "` yields what follows its first `;` and is skipped without one; any other line is taken whole; blank commands are skipped |
| Cli.HistoryLine | cli/src/main.rs:446-448 | the definition: `": <timestamp>:<seconds>;<cmd>"` with the duration truncated to whole seconds; `Cli.HistoryRoundTrip` is its inverse |
| Cli.ExtendedLineCommand | cli/src/main.rs:366-370 | an extended line whose head has no `;` yields exactly the text after that `;` |
| Cli.HistoryRoundTrip | cli/src/main.rs:438-449 | parsing one written history line gives its command back exactly, unless the command is blank; the file-level round trip is `Cli.HistoryFileRoundTrip` |
| Cli.EntryRoundTrip | cli/src/main.rs:441-448 | the history line of a search result parses as its command, unless blank; a command holding a newline is split when the file is read (`Cli.MultiLineCommandSplits`) |
| Cli.WriteLines | cli/src/main.rs:448 | the text `println!` writes: each line followed by a newline, so one character per line more than the lines hold |
| Cli.ReadLines | cli/src/main.rs:349 | `BufRead::lines`: no piece holds a newline, and an empty text has no lines |
| Cli.ReadLinesCons | cli/src/main.rs:349 | a single line followed by a newline is read as that line, then the lines of the rest |
| Cli.LinesRoundTrip | cli/src/main.rs:349 | lines without a newline inside and without a carriage return at the end are read back exactly as written |
| Cli.LineWithNewlineSplits | cli/src/main.rs:349 | a written line holding a newline is read back as the two lines around it |
| Cli.CarriageReturnLost | cli/src/main.rs:349 | a written line ending in a carriage return is read back without it |
| Cli.HistoryLineSingle | cli/src/main.rs:446-448 | a history line is a single line whenever its command is |
| Cli.EntryLine | cli/src/main.rs:441-448 | the definition: the history line of a result's `cmd`, `timestamp` and `duration_ms`, each defaulted when missing |
| Cli.CmdExport | cli/src/main.rs:438-449 | one line per result, oldest first |
| Cli.ExportLimit | cli/src/main.rs:426 | a limit of 0 means 100000; any other limit is kept |
| Cli.ImportedCommands | cli/src/main.rs:358-379 | the commands imported are at most one per line, none blank |
| Cli.ReadErrors | cli/src/main.rs:349-356 | the number of lines that could not be read, that is, the count of failed reads among the lines |
| Cli.ImportParamsDecode | cli/src/main.rs:381-385 | the daemon reads an imported command as a successful command in the directory |
| Cli.ImportInvStep | cli/src/main.rs:331-407 | an unreadable line is an error; a command is sent and counted as a success or an error by its outcome |
| Cli.CmdImport | cli/src/main.rs:331-407 | the commands sent are those of the file in order; the count is the successful requests; count plus errors is the commands sent plus the unreadable lines |
| Cli.ImportHistoryLines | cli/src/main.rs:349-379 | lines that each parse back to their command import as exactly the non-blank commands, in order |
| Cli.HistoryFileRoundTrip | cli/src/main.rs:349-379 | an exported history file, read by lines and imported, yields exactly the non-blank commands in order, when each command is a single line |
| Cli.MultiLineCommandSplits | cli/src/main.rs:349-379 | a command holding a newline is exported as two lines and imported as two separate commands |
| Cli.LastIndexOf | cli/src/main.rs:747 | the last position of the character, if any |
| Cli.RSplitN3 | cli/src/main.rs:747 | `rsplitn(3, c)`: one to three pieces, and with three, the first two hold no separator and the path keeps the rest |
| Cli.RSplitN3Of | cli/src/main.rs:747 | `x\|y\|z` with no `\|` in `y` and `z` splits into `z`, `y` and `x` |
| Cli.ParseFasdLine | cli/src/main.rs:741-768 | a line is skipped exactly when blank; an entry's time is an i64 |
| Cli.FasdPieces | cli/src/main.rs:747-768 | an entry exactly when there are three pieces, the time parses as i64 and the rank parses |
| Cli.ParseTrimmedFasdLine | cli/src/main.rs:741-747 | a line that trimming leaves alone goes straight to its pieces |
| Cli.FasdPiecesEntry | cli/src/main.rs:754-768 | three readable pieces make the entry of that path, rank and time |
| Cli.FasdLineOf | cli/src/main.rs:830 | the definition: path, rank text and time joined by vertical bars; `Cli.FasdRoundTrip` is its inverse |
| Cli.FasdLineTrimmed | cli/src/main.rs:825-832 | an exported line with a path not starting with whitespace is already trimmed |
| Cli.FasdLineSplits | cli/src/main.rs:825-832 | splitting an exported line from the right gives its time, rank and path, even when the path holds `\|` |
| Cli.FasdRoundTrip | cli/src/main.rs:741-768 | parsing one exported line gives back its path, rank and time when the path does not start with whitespace; the file-level reading is `Cli.FasdFileReadsBack` |
| Cli.FasdExportLine | cli/src/main.rs:825-832 | a result yields a line exactly when its path is non-empty |
| Cli.CmdExportFasd | cli/src/main.rs:823-835 | the lines written are those of the results with a path, in order, and the count is their number |
| Cli.FasdResultRoundTrip | cli/src/main.rs:825-832 | the line of a raw `frecent_query` result parses back to its path, rank and last access time; it survives the file when the path and printed rank hold no newline (`Cli.FasdFileReadsBack`) |
| Cli.FasdLineSingle | cli/src/main.rs:830 | a fasd line is a single line when its path and rank text hold no newline, since it ends in a digit |
| Cli.FasdExportLinesSingle | cli/src/main.rs:825-832 | every export line is a single line when no path and no printed rank holds a newline |
| Cli.FasdFileReadsBack | cli/src/main.rs:732 | the written fasd file reads back line by line as exactly the export lines, under the same premise |
| Cli.FasdAddParamsDecode | cli/src/main.rs:777-785 | the daemon reads back the imported entry's path, type, rank and time |
| Cli.ImportedFasdWellTyped | cli/src/main.rs:770-775 | every imported entry is typed "d" or "f" and its time is an i64 |
| Cli.ImportFasdInvStep | cli/src/main.rs:732-796 | a blank line changes nothing, a bad one is an error, an entry is sent and counted by its outcome |
| Cli.ImportFasdLine | cli/src/main.rs:741-791 | one parsed line updates what was sent and the two counters in exactly that way |
| Cli.CmdImportFasd | cli/src/main.rs:718-801 | the entries sent are those of the file in order; the count is the successful requests; count plus errors is the entries sent plus the bad lines |
| Cli.PutPresentSent | cli/src/main.rs:548-565 | setting fields with distinct new keys leaves each present exactly when it has a value, with that value |
| Cli.StoreRequestFields | cli/src/main.rs:543-565 | the store request always carries `cmd` and `cwd`, and each optional field exactly when given, with its value |
| Cli.StoreRequestDecodes | cli/src/main.rs:543-565 | within the daemon's integer ranges, the daemon decodes exactly the values the client sent |
| Cli.StoreFieldsDecode | daemon/src/protocol.rs:60-85 | any object carrying the store fields decodes back to them |
| Cli.LastCmds | cli/src/main.rs:591-597 | the last command, then the one before, each only when given, so exactly as many entries as commands given |
| Cli.PredictRequestParams | cli/src/main.rs:587-600 | `last_cmds` is sent exactly when one of the two commands is given |
| Cli.PredictRequestDecodes | cli/src/main.rs:587-600 | the daemon decodes the same prefix, directory, limit and recent commands, with the default boost and weights |
| Cli.FrecentTypeFilter | cli/src/main.rs:887-894 | `--dirs` wins over `--files`; neither means no filter |
| Numbers.ParseShowInt | cli/src/main.rs:754 | parsing the printed form of any i64 gives it back |
| Numbers.TruncDiv | cli/src/main.rs:445 | Rust's integer division rounds toward zero |
| Numbers.TruncRem | daemon/src/db/mod.rs:93 | Rust's `%` keeps the sign of the dividend |

## Left out

- SQLite: every query and upsert, the schema text and the n-gram tables. Query results are
  sequences of rows, given as parameters; the schema state is a version table plus a log of
  the schema work done.
- Floating point: the prediction and search score formulas, the fasd rank update and aging,
  back-off, recency decay and the context score. Scores are `real`. `ln` is an uninterpreted
  parameter, so only the bounds of `ArgScore` and the n-gram bonuses are stated. Sorting by
  `partial_cmp` becomes a stable sort over reals.
- Rank parsing and printing in fasd lines: `parseRank` and `showRank` are parameters, so the
  fasd round trip assumes that the rank's text reads back as the rank.
- Sockets and async I/O: the accept loop, `send_rpc` and the timeouts. In `handle_client`,
  writes are taken to succeed. The `-32603` serialisation error never occurs, because
  encoding a response cannot fail in the model.
- Processes, the file system and the environment:
  - the `git` and `hg` outputs are `Option` parameters (`None` when the command cannot be
    started);
  - reading `HEAD` and `.hg/branch` gives an optional file content;
  - directories are an abstract map of entry names;
  - `is_dir` in the fasd import is a parameter;
  - `XDG_RUNTIME_DIR`, the user id, the hostname, `HOME` and the clock are parameters.
- `Arc<Mutex<…>>` locking and concurrency.
- serde and clap mechanics: JSON is a small datatype and decoding is written out per
  parameter record. Error message texts from serde are a parameter.
- Unicode: `to_lowercase` is ASCII lowercasing, and byte lengths (`len()`, `[..7]`) are
  character counts, which agree for ASCII text.
- `Path` normalisation of `.` and repeated separators: parents are computed on the text
  after trailing slashes are stripped.
- The progress and summary printing of the import and export commands.
- `Cli.StoreRequestParams` and `Cli.PredictRequestParams` build the JSON object as a value
  (a fold over the optional fields) rather than by assigning into a mutable `params`
  object one field at a time; the resulting object is the same.
- `Frecent.Weight`: stated for the hour tier and the set of possible values; its ordering
  over ages is `Frecent.WeightMonotone`.
- `Db.TrigramMap`: the contract states only its keys; the bonus of each key is stated
  through `Db.TrigramWins`.
- `Cli.HistoryRoundTrip` and `Cli.EntryRoundTrip` are round trips of one line. Export writes a
  command as it is, and `BufRead::lines` splits at every newline and drops a carriage return
  before one. So the file-level round trip `Cli.HistoryFileRoundTrip` needs every command to be
  a single line; `Cli.MultiLineCommandSplits` and `Cli.CarriageReturnLost` show what happens
  otherwise.
- `Cli.FasdRoundTrip` and `Cli.FasdResultRoundTrip` are likewise round trips of one line; the
  written file reads back as its lines (`Cli.FasdFileReadsBack`) when no path and no printed
  rank holds a newline.
- Text that is not valid UTF-8: `Cli.ReadLines` reads a readable text; a line that cannot be
  read is a `ReadErr` item of the import loops.
- The zsh plugin (suggestion widgets, overlay rendering, logging hooks) is not part of this
  model.

## Findings

| source | as written | input that shows it | evidently intended | confidence | as-written member | corrected member |
|---|---|---|---|---|---|---|
| daemon/src/context/vcs.rs:128-132 | `get_hg_branch` returns `None` through `.ok()?` when `hg` cannot be started, so an hg repository can have no branch | an `.hg` repository with no `.hg/branch` file on a machine without `hg` | fall back to "default", as the comment at line 141 and the final `Some("default")` give for every other case | medium, not executed | Vcs.HgBranchAsWritten (with Vcs.HgBranchAsWrittenCanBeNone, Vcs.DetectHg and Context.HgContextWithoutBranch) | Vcs.HgBranch (with Vcs.HgBranchAgrees, Vcs.DetectHgCorrected and Vcs.DetectHgCorrectedAgrees) |

The detection pipeline (`Vcs.DetectHg`, `Vcs.DetectVcs`, `Context.ComputeContext`) follows the
code as written, so an hg repository may have no branch. `Vcs.DetectHgCorrected` is the
detection with the corrected lookup.
