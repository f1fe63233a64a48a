/**
 * The store's helpers that do not depend on SQL: the hour-of-day bucket, the
 * learnt-argument filter and suggestions, the n-gram bonus merge, the
 * directory hierarchy used for directory weighting, and the choice between
 * argument suggestions and ordinary predictions.
 */
module Db {
  import opened Common
  import opened Text
  import opened Numbers
  import opened Paths
  import opened Protocol
  import Parser

  // ---------------------------------------------------------------------------
  // Hour-of-day bucket

  /** `((start_time % 86400) / 3600) as i32`, with Rust's truncating `%` and `/`. */
  function TimeBucket(startTime: int): (b: int)
    ensures startTime >= 0 ==> 0 <= b <= 23
    ensures startTime < 0 ==> -23 <= b <= 0
  {
    TruncDiv(TruncRem(startTime, 86400), 3600)
  }

  /** For a time `d` days, `h` hours and `s` seconds after the epoch, the bucket is `h`. */
  lemma TimeBucketIsHour(d: nat, h: nat, s: nat)
    requires h < 24 && s < 3600
    ensures TimeBucket(d * 86400 + h * 3600 + s) == h
  {
    var x := h * 3600 + s;
    assert (d * 86400 + x) / 86400 == d;
    assert x / 3600 == h;
  }

  // ---------------------------------------------------------------------------
  // Learnt arguments

  /** The arguments of a parsed command worth learning (`extract_learnable_args`). */
  function LearnableArgs(p: Parser.ParsedCommand): seq<string>
  {
    Parser.Select(p.args, Parser.KeptIndices(p.args, |p.args|))
  }

  /** Lengths outside 2..100 are not stored. */
  predicate StorableLength(a: string)
  {
    2 <= |a| <= 100
  }

  /** The learnable arguments of a storable length, in order. */
  function Storable(args: seq<string>): (r: seq<string>)
    ensures |r| <= |args|
    ensures forall a :: a in r ==> a in args && StorableLength(a)
    ensures forall a :: a in args && StorableLength(a) ==> a in r
  {
    if args == [] then []
    else
      var rest := Storable(args[1..]);
      assert forall a :: a in args ==> a == args[0] || a in args[1..];
      if StorableLength(args[0]) then [args[0]] + rest else rest
  }

  /**
   * `store_arg_patterns`: the arguments recorded for a command, one upsert
   * each; arguments shorter than 2 or longer than 100 are skipped.
   */
  method StoreArgPatterns(cmd: string) returns (stored: seq<string>)
    ensures stored == Storable(LearnableArgs(Parser.ParseCommand(cmd)))
  {
    var parsed := Parser.ParseCommand(cmd);
    var learnable := Parser.ExtractLearnableArgs(parsed);
    stored := [];
    var i := |learnable|;
    // The model walks the list from the back so that it follows `Storable`'s recursion.
    while i > 0
      invariant 0 <= i <= |learnable| && stored == Storable(learnable[i..])
    {
      i := i - 1;
      assert learnable[i..][1..] == learnable[i + 1..];
      if |learnable[i]| < 2 || |learnable[i]| > 100 {
        continue;
      }
      stored := [learnable[i]] + stored;
    }
  }

  /** One row of the argument query: the argument, the logarithm of its total count, and its count in this directory. */
  datatype ArgRow = ArgRow(arg: string, lnTotal: real, dirFreq: int)

  /** `max(ln total, 0) / 10`, plus 0.3 when used in this directory, capped at 1. */
  function ArgScore(row: ArgRow): (s: real)
    ensures 0.0 <= s <= 1.0
    ensures row.dirFreq > 0 ==> s >= 0.3
  {
    var base := MaxReal(row.lnTotal, 0.0) / 10.0;
    var bonus := if row.dirFreq > 0 then 0.3 else 0.0;
    MinReal(base + bonus, 1.0)
  }

  /**
   * What `get_arg_suggestions` returns for the rows of its query. The
   * prefix's `is_partial` looks only at the untrimmed prefix, so it is the
   * trailing space itself (`Parser.PartialIffTrailingSpace`).
   */
  function ArgSuggestions(prefix: string, rows: seq<ArgRow>): seq<Suggestion>
  {
    if !EndsWith(prefix, " ") then []
    else seq(|rows|, k requires 0 <= k < |rows| => Suggestion(prefix + rows[k].arg, ArgScore(rows[k])))
  }

  /**
   * Nothing unless the parsed prefix is partial; otherwise one suggestion
   * per row, the prefix followed by the argument, scored by `ArgScore`.
   * `parsed` is the prefix as parsed (`ParseCommand(prefix)` keeps the input
   * in `full`).
   */
  lemma ArgSuggestionsShape(prefix: string, rows: seq<ArgRow>, parsed: Parser.ParsedCommand)
    requires parsed.full == prefix
    ensures var r := ArgSuggestions(prefix, rows);
      && (!parsed.IsPartial() ==> r == [])
      && (parsed.IsPartial() ==> |r| == |rows|)
      && forall k :: 0 <= k < |r| ==>
           r[k].cmd == prefix + rows[k].arg && StartsWith(r[k].cmd, prefix) && r[k].score == ArgScore(rows[k])
  {
  }

  /** `get_arg_suggestions`: the suggestions built row by row. */
  method GetArgSuggestions(prefix: string, rows: seq<ArgRow>) returns (suggestions: seq<Suggestion>)
    ensures suggestions == ArgSuggestions(prefix, rows)
  {
    ghost var spec := ArgSuggestions(prefix, rows);
    if !EndsWith(prefix, " ") {
      return [];
    }
    suggestions := [];
    var i := 0;
    while i < |rows|
      invariant 0 <= i <= |rows| && |suggestions| == i
      invariant forall k :: 0 <= k < i ==> suggestions[k] == spec[k]
    {
      suggestions := suggestions + [Suggestion(prefix + rows[i].arg, ArgScore(rows[i]))];
      i := i + 1;
    }
  }

  /**
   * `predict`: when the prefix names a program and ends with a space, the
   * argument suggestions win if there are any; otherwise the ordinary
   * predictions are returned.
   */
  function Predict(prefix: string, argRows: seq<ArgRow>, ordinary: seq<Suggestion>): (r: seq<Suggestion>)
    ensures r == ordinary || r == ArgSuggestions(prefix, argRows)
  {
    var parsed := Parser.ParseCommand(prefix);
    if parsed.IsPartial() && parsed.program != [] then
      var args := ArgSuggestions(prefix, argRows);
      if args != [] then args else ordinary
    else ordinary
  }

  /** Argument suggestions are returned exactly when a program is followed by a space and some argument is known. */
  lemma PredictChoice(prefix: string, argRows: seq<ArgRow>, ordinary: seq<Suggestion>)
    requires ordinary != ArgSuggestions(prefix, argRows)
    ensures Predict(prefix, argRows, ordinary) == ArgSuggestions(prefix, argRows) <==>
      EndsWith(prefix, " ") && Parser.ParseCommand(prefix).program != [] && argRows != []
  {
    Parser.PartialIffTrailingSpace(prefix);
  }

  // ---------------------------------------------------------------------------
  // N-gram bonus

  /** One row of an n-gram query: the following command and the logarithm of its count. */
  datatype NgramRow = NgramRow(cmd: string, lnFreq: real)

  /** A trigram's bonus: 1.5 times the bigram formula, capped at 1. */
  function TrigramBonus(row: NgramRow): (b: real)
    ensures 0.0 <= b <= 1.0
  {
    MinReal(MaxReal(row.lnFreq, 0.0) / 10.0 * 1.5, 1.0)
  }

  /** A bigram's bonus: `max(ln freq, 0) / 10`, capped at 1. */
  function BigramBonus(row: NgramRow): (b: real)
    ensures 0.0 <= b <= 1.0
  {
    MinReal(MaxReal(row.lnFreq, 0.0) / 10.0, 1.0)
  }

  /** The commands of some rows. */
  function Cmds(rows: seq<NgramRow>): set<string>
  {
    set r | r in rows :: r.cmd
  }

  /** Trigram rows inserted in order: a later row for the same command replaces an earlier one. */
  function TrigramMap(rows: seq<NgramRow>): (m: map<string, real>)
    ensures m.Keys == Cmds(rows)
  {
    if rows == [] then map[]
    else
      var last := rows[|rows| - 1];
      assert rows == rows[..|rows| - 1] + [last];
      TrigramMap(rows[..|rows| - 1])[last.cmd := TrigramBonus(last)]
  }

  /** Bigram rows merged with `or_insert`: a command already present keeps its bonus. */
  function BigramMerge(m: map<string, real>, rows: seq<NgramRow>): map<string, real>
    decreases |rows|
  {
    if rows == [] then m
    else
      var m' := if rows[0].cmd in m then m else m[rows[0].cmd := BigramBonus(rows[0])];
      BigramMerge(m', rows[1..])
  }

  /** The first row for command `c`. */
  function FirstFor(rows: seq<NgramRow>, c: string): (r: NgramRow)
    requires c in Cmds(rows)
    ensures r in rows && r.cmd == c
  {
    if rows[0].cmd == c then rows[0]
    else
      assert c in Cmds(rows[1..]) by {
        var r :| r in rows && r.cmd == c;
        assert r in rows[1..];
      }
      FirstFor(rows[1..], c)
  }

  /**
   * The merge keeps every bonus already present, covers exactly the commands
   * of the map and of the rows, and gives a command seen only in the rows
   * the bigram bonus of its first row.
   */
  lemma {:induction false} BigramMergeKeeps(m: map<string, real>, rows: seq<NgramRow>)
    decreases |rows|
    ensures BigramMerge(m, rows).Keys == m.Keys + Cmds(rows)
    ensures forall c :: c in m ==> BigramMerge(m, rows)[c] == m[c]
    ensures forall c :: c in Cmds(rows) && c !in m ==> BigramMerge(m, rows)[c] == BigramBonus(FirstFor(rows, c))
  {
    if rows != [] {
      var m' := if rows[0].cmd in m then m else m[rows[0].cmd := BigramBonus(rows[0])];
      BigramMergeKeeps(m', rows[1..]);
      assert Cmds(rows) == {rows[0].cmd} + Cmds(rows[1..]) by {
        forall c | c in Cmds(rows)
          ensures c == rows[0].cmd || c in Cmds(rows[1..])
        {
          var r :| r in rows && r.cmd == c;
          if r != rows[0] {
            assert r in rows[1..];
          }
        }
      }
    }
  }

  /** What the bonus map holds after both lookups. */
  function NgramBonusSpec(lastCmds: seq<string>, known: set<string>, trigrams: seq<NgramRow>, bigrams: seq<NgramRow>): map<string, real>
  {
    if lastCmds == [] || lastCmds[0] !in known then map[]
    else
      var tri := if |lastCmds| >= 2 && lastCmds[1] in known then TrigramMap(trigrams) else map[];
      BigramMerge(tri, bigrams)
  }

  /**
   * The n-gram bonuses of `predict_with_conn`. `known` holds the commands that
   * have an id; `trigrams` and `bigrams` are the rows the two queries return.
   * Nothing is looked up without a known previous command; trigrams need a
   * known second previous command.
   */
  method NgramBonus(lastCmds: seq<string>, known: set<string>, trigrams: seq<NgramRow>, bigrams: seq<NgramRow>)
    returns (bonus: map<string, real>)
    ensures bonus == NgramBonusSpec(lastCmds, known, trigrams, bigrams)
  {
    bonus := map[];
    if lastCmds == [] || lastCmds[0] !in known {
      return;
    }
    if |lastCmds| >= 2 && lastCmds[1] in known {
      var i := 0;
      while i < |trigrams|
        invariant 0 <= i <= |trigrams| && bonus == TrigramMap(trigrams[..i])
      {
        assert trigrams[..i + 1][..i] == trigrams[..i];
        bonus := bonus[trigrams[i].cmd := TrigramBonus(trigrams[i])];
        i := i + 1;
      }
      assert trigrams[..|trigrams|] == trigrams;
    }
    var j := 0;
    ghost var start := bonus;
    while j < |bigrams|
      invariant 0 <= j <= |bigrams|
      invariant BigramMerge(start, bigrams) == BigramMerge(bonus, bigrams[j..])
    {
      assert bigrams[j..][1..] == bigrams[j + 1..];
      if bigrams[j].cmd !in bonus {
        bonus := bonus[bigrams[j].cmd := BigramBonus(bigrams[j])];
      }
      j := j + 1;
    }
  }

  /** A command with a trigram bonus keeps it whatever the bigrams say; one seen only in bigrams gets its first bigram bonus. */
  lemma TrigramWins(lastCmds: seq<string>, known: set<string>, trigrams: seq<NgramRow>, bigrams: seq<NgramRow>, c: string)
    requires |lastCmds| >= 2 && lastCmds[0] in known && lastCmds[1] in known
    ensures c in NgramBonusSpec(lastCmds, known, trigrams, bigrams) <==> c in Cmds(trigrams) || c in Cmds(bigrams)
    ensures c in Cmds(trigrams) ==>
      NgramBonusSpec(lastCmds, known, trigrams, bigrams)[c] == TrigramMap(trigrams)[c]
    ensures c !in Cmds(trigrams) && c in Cmds(bigrams) ==>
      NgramBonusSpec(lastCmds, known, trigrams, bigrams)[c] == BigramBonus(FirstFor(bigrams, c))
  {
    BigramMergeKeeps(TrigramMap(trigrams), bigrams);
  }

  // ---------------------------------------------------------------------------
  // Directory hierarchy

  /** Where `get_directory_hierarchy` stops: no parent, or a parent that is "" or "/". */
  predicate StopsAt(up: Option<string>)
  {
    up.None? || up.value == "" || up.value == "/"
  }

  /** `dirs` is where the chain of ancestors of `dir` begins. */
  predicate IsChainStart(dir: string, dirs: seq<string>)
  {
    |dirs| <= |AncestorChain(dir)| && dirs == AncestorChain(dir)[..|dirs|]
  }

  /** A start of the chain grows by the parent of its last element. */
  lemma ChainExtend(dir: string, dirs: seq<string>)
    requires 1 <= |dirs| && IsChainStart(dir, dirs) && Parent(dirs[|dirs| - 1]).Some?
    ensures IsChainStart(dir, dirs + [Parent(dirs[|dirs| - 1]).value])
  {
    var chain := AncestorChain(dir);
    var i := |dirs| - 1;
    assert chain[i] == dirs[i];
    assert i + 1 < |chain| && chain[i + 1] == Parent(chain[i]).value;
    assert chain[..i + 2] == chain[..i + 1] + [chain[i + 1]];
  }

  /** A start of the chain links each element to its parent. */
  lemma ChainPrefix(dir: string, dirs: seq<string>)
    requires IsChainStart(dir, dirs)
    ensures forall k :: 0 < k < |dirs| ==> Parent(dirs[k - 1]) == Some(dirs[k])
  {
    var chain := AncestorChain(dir);
    forall k | 0 < k < |dirs|
      ensures Parent(dirs[k - 1]) == Some(dirs[k])
    {
      assert dirs[k] == chain[k] && dirs[k - 1] == chain[k - 1];
    }
  }

  /** What the loop of `get_directory_hierarchy` keeps: a start of the chain whose elements after `dir` are no stopping points. */
  predicate HierarchyInv(dir: string, dirs: seq<string>, maxDepth: nat)
  {
    && 1 <= |dirs| <= maxDepth + 1
    && IsChainStart(dir, dirs)
    && forall k :: 0 < k < |dirs| ==> !StopsAt(Some(dirs[k]))
  }

  /** The loop invariant survives taking one more parent. */
  lemma HierarchyStep(dir: string, dirs: seq<string>, maxDepth: nat)
    requires HierarchyInv(dir, dirs, maxDepth) && |dirs| <= maxDepth
    requires !StopsAt(Parent(dirs[|dirs| - 1]))
    ensures HierarchyInv(dir, dirs + [Parent(dirs[|dirs| - 1]).value], maxDepth)
  {
    ChainExtend(dir, dirs);
  }

  /**
   * `get_directory_hierarchy`: `dir`, then up to `maxDepth` of its parents,
   * nearest first, stopping before a parent that is "" or "/".
   */
  method DirectoryHierarchy(dir: string, maxDepth: nat) returns (dirs: seq<string>)
    ensures 1 <= |dirs| <= maxDepth + 1 && dirs[0] == dir
    ensures forall k :: 0 < k < |dirs| ==> Parent(dirs[k - 1]) == Some(dirs[k])
    ensures forall k :: 0 < k < |dirs| ==> !StopsAt(Some(dirs[k]))
    ensures |dirs| <= maxDepth ==> StopsAt(Parent(dirs[|dirs| - 1]))
    ensures IsChainStart(dir, dirs)
  {
    dirs := [dir];
    assert HierarchyInv(dir, dirs, maxDepth) by {
      assert AncestorChain(dir)[..1] == [dir];
    }
    var current := dir;
    var done := false;
    while |dirs| <= maxDepth && !done
      invariant HierarchyInv(dir, dirs, maxDepth) && current == dirs[|dirs| - 1]
      invariant done ==> StopsAt(Parent(current))
      decreases maxDepth + 1 - |dirs|, !done
    {
      var parent := Parent(current);
      if StopsAt(parent) {
        done := true;
      } else {
        HierarchyStep(dir, dirs, maxDepth);
        dirs := dirs + [parent.value];
        current := parent.value;
      }
    }
    ChainPrefix(dir, dirs);
    assert dirs[0] == dir by {
      assert AncestorChain(dir)[0] == dir;
    }
  }
}
