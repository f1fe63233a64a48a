/**
 * The command parser of the prediction engine: a quote-aware tokenizer, the
 * split into program, subcommand and arguments, and the filter choosing
 * which arguments are worth learning.
 */
module Parser {
  import opened Common
  import opened Text

  /** The characters that end a token outside quotes. */
  predicate IsSep(c: char)
  {
    c == ' ' || c == '\t'
  }

  /** Quote state after reading one character: `'` toggles outside `"`, `"` toggles outside `'`. */
  function Step(c: char, sq: bool, dq: bool): (bool, bool)
  {
    if c == '\'' && !dq then (!sq, dq)
    else if c == '"' && !sq then (sq, !dq)
    else (sq, dq)
  }

  /** Quote state after reading the whole of `t` from state `(sq, dq)`. */
  function Scan(t: string, sq: bool, dq: bool): (bool, bool)
  {
    if t == [] then (sq, dq)
    else
      var st := Step(t[0], sq, dq);
      Scan(t[1..], st.0, st.1)
  }

  /** Reading `t` from outside any quote leaves some quote open. */
  predicate OpensQuote(t: string)
  {
    Scan(t, false, false) != (false, false)
  }

  /**
   * Where the token that is being read at `j` (in quote state `(sq, dq)`) ends:
   * the first separator seen outside quotes, or the end of the input.
   */
  function WordEnd(cmd: string, j: nat, sq: bool, dq: bool): (e: nat)
    requires j <= |cmd|
    ensures j <= e <= |cmd|
    decreases |cmd| - j
  {
    if j == |cmd| then j
    else if IsSep(cmd[j]) && !sq && !dq then j
    else
      var st := Step(cmd[j], sq, dq);
      WordEnd(cmd, j + 1, st.0, st.1)
  }

  /**
   * A token ends at a separator only where every quote opened inside it is
   * closed again, and no separator before its end is outside quotes.
   */
  lemma {:induction false} WordEndQuotes(cmd: string, j: nat, sq: bool, dq: bool)
    requires j <= |cmd|
    ensures var e := WordEnd(cmd, j, sq, dq);
      e < |cmd| ==> IsSep(cmd[e]) && Scan(cmd[j..e], sq, dq) == (false, false)
    ensures var e := WordEnd(cmd, j, sq, dq);
      forall k :: j <= k < e && IsSep(cmd[k]) ==> Scan(cmd[j..k], sq, dq) != (false, false)
    decreases |cmd| - j
  {
    if j < |cmd| && !(IsSep(cmd[j]) && !sq && !dq) {
      var st := Step(cmd[j], sq, dq);
      WordEndQuotes(cmd, j + 1, st.0, st.1);
      var e := WordEnd(cmd, j, sq, dq);
      assert e == WordEnd(cmd, j + 1, st.0, st.1);
      if e < |cmd| {
        ScanFrom(cmd, j, e, sq, dq);
      }
      forall k | j <= k < e && IsSep(cmd[k])
        ensures Scan(cmd[j..k], sq, dq) != (false, false)
      {
        if k > j {
          ScanFrom(cmd, j, k, sq, dq);
        }
      }
    }
  }

  /** Scanning `cmd[j..k]` is one step on `cmd[j]`, then scanning the rest. */
  lemma ScanFrom(cmd: string, j: nat, k: nat, sq: bool, dq: bool)
    requires j < k <= |cmd|
    ensures var st := Step(cmd[j], sq, dq);
      Scan(cmd[j..k], sq, dq) == Scan(cmd[j + 1..k], st.0, st.1)
  {
    assert cmd[j..k][0] == cmd[j];
    assert cmd[j..k][1..] == cmd[j + 1..k];
  }

  /**
   * The tokens of `cmd[i..]`, one whole token at a time: skip separators,
   * then take everything up to the end of the token.
   */
  function Words(cmd: string, i: nat): (ts: seq<string>)
    requires i <= |cmd|
    decreases |cmd| - i
  {
    if i == |cmd| then []
    else if IsSep(cmd[i]) then Words(cmd, i + 1)
    else
      var e := WordEnd(cmd, i, false, false);
      [cmd[i..e]] + if e == |cmd| then [] else Words(cmd, e + 1)
  }

  /** A token: non-empty, not starting with a separator, and every separator in it lies inside quotes. */
  predicate QuotedSepsOnly(w: string)
  {
    && w != [] && !IsSep(w[0])
    && forall k :: 0 <= k < |w| && IsSep(w[k]) ==> OpensQuote(w[..k])
  }

  /** The token read from `i` has that shape, and it leaves a quote open only when it runs to the end. */
  lemma TokenShape(cmd: string, i: nat)
    requires i < |cmd| && !IsSep(cmd[i])
    ensures var e := WordEnd(cmd, i, false, false);
      QuotedSepsOnly(cmd[i..e]) && (e < |cmd| ==> !OpensQuote(cmd[i..e]))
  {
    var e := WordEnd(cmd, i, false, false);
    WordEndQuotes(cmd, i, false, false);
    var w := cmd[i..e];
    assert forall k :: 0 <= k < |w| ==> w[..k] == cmd[i..i + k];
  }

  /**
   * Every token is non-empty and starts with a non-separator; a separator
   * inside a token is always inside quotes; only the last token may leave a
   * quote open, and then it runs to the end of `cmd`.
   */
  predicate TokensShaped(cmd: string, ts: seq<string>)
  {
    && (forall n :: 0 <= n < |ts| ==> QuotedSepsOnly(ts[n]))
    && (forall n :: 0 <= n < |ts| - 1 ==> !OpensQuote(ts[n]))
    && (|ts| > 0 && OpensQuote(ts[|ts| - 1]) ==> EndsWith(cmd, ts[|ts| - 1]))
  }

  /** A well-shaped token in front of well-shaped tokens. */
  lemma ShapedCons(cmd: string, w: string, rest: seq<string>)
    requires QuotedSepsOnly(w) && TokensShaped(cmd, rest)
    requires rest != [] ==> !OpensQuote(w)
    requires rest == [] && OpensQuote(w) ==> EndsWith(cmd, w)
    ensures TokensShaped(cmd, [w] + rest)
  {
    var ts := [w] + rest;
    assert forall n :: 0 < n < |ts| ==> ts[n] == rest[n - 1];
  }

  /** The tokens of `cmd[i..]` have the shape of `TokensShaped`. */
  lemma {:induction false} WordsShape(cmd: string, i: nat)
    requires i <= |cmd|
    ensures TokensShaped(cmd, Words(cmd, i))
    decreases |cmd| - i
  {
    if i == |cmd| {
    } else if IsSep(cmd[i]) {
      WordsShape(cmd, i + 1);
    } else {
      var e := WordEnd(cmd, i, false, false);
      var w := cmd[i..e];
      TokenShape(cmd, i);
      if e < |cmd| {
        WordsShape(cmd, e + 1);
        ShapedCons(cmd, w, Words(cmd, e + 1));
      } else {
        assert cmd[|cmd| - |w|..] == w;
        ShapedCons(cmd, w, []);
      }
    }
  }

  /** The tokens of a whole command line. */
  function Tokens(cmd: string): seq<string>
  {
    Words(cmd, 0)
  }

  /**
   * What the tokenizer knows after reading `cmd[..i]`: with no token open,
   * the quotes are closed and the tokens still to come are those from `i`;
   * with a token open since `start`, the tokens still to come are those from
   * `start`, and the open token ends where reading on from `i` ends it.
   */
  predicate TokenizeInv(cmd: string, i: nat, tokens: seq<string>, sq: bool, dq: bool, start: Option<nat>)
  {
    && i <= |cmd|
    && (start.None? ==> !sq && !dq && Tokens(cmd) == tokens + Words(cmd, i))
    && (start.Some? ==>
          && start.value < i && !IsSep(cmd[start.value])
          && Tokens(cmd) == tokens + Words(cmd, start.value)
          && WordEnd(cmd, start.value, false, false) == WordEnd(cmd, i, sq, dq))
  }

  /** A character that does not end a token: the quote state steps, and a token opens if none was. */
  lemma TokenizeInvContinue(cmd: string, i: nat, tokens: seq<string>, sq: bool, dq: bool, start: Option<nat>)
    requires i < |cmd| && TokenizeInv(cmd, i, tokens, sq, dq, start)
    requires !(IsSep(cmd[i]) && !sq && !dq)
    ensures var st := Step(cmd[i], sq, dq);
      TokenizeInv(cmd, i + 1, tokens, st.0, st.1, if start.None? then Some(i) else start)
  {
    WordEndStep(cmd, i, sq, dq);
  }

  /** A separator outside quotes: the open token, if any, is complete. */
  lemma TokenizeInvSep(cmd: string, i: nat, tokens: seq<string>, start: Option<nat>)
    requires i < |cmd| && TokenizeInv(cmd, i, tokens, false, false, start)
    requires IsSep(cmd[i])
    ensures TokenizeInv(cmd, i + 1, if start.Some? then tokens + [cmd[start.value..i]] else tokens, false, false, None)
  {
    if start.Some? {
      WordsAt(cmd, start.value, i);
    } else {
      WordsSkip(cmd, i);
    }
  }

  /** At the end of the input, the open token, if any, is the last one. */
  lemma TokenizeInvEnd(cmd: string, tokens: seq<string>, sq: bool, dq: bool, start: Option<nat>)
    requires TokenizeInv(cmd, |cmd|, tokens, sq, dq, start)
    ensures Tokens(cmd) == if start.Some? then tokens + [cmd[start.value..]] else tokens
  {
    if start.Some? {
      WordsAt(cmd, start.value, |cmd|);
      assert cmd[start.value..|cmd|] == cmd[start.value..];
    }
  }

  /**
   * `tokenize`: one pass over the characters keeping the two quote flags and
   * the start of the token being read.
   */
  method Tokenize(cmd: string) returns (tokens: seq<string>)
    ensures tokens == Tokens(cmd)
  {
    tokens := [];
    var sq, dq := false, false;
    var start: Option<nat> := None;
    var i := 0;
    while i < |cmd|
      invariant TokenizeInv(cmd, i, tokens, sq, dq, start)
    {
      var c := cmd[i];
      if IsSep(c) && !sq && !dq {
        TokenizeInvSep(cmd, i, tokens, start);
      } else {
        TokenizeInvContinue(cmd, i, tokens, sq, dq, start);
      }
      if c == '\'' && !dq {
        sq := !sq;
        if start.None? { start := Some(i); }
      } else if c == '"' && !sq {
        dq := !dq;
        if start.None? { start := Some(i); }
      } else if IsSep(c) && !sq && !dq {
        if start.Some? {
          tokens := tokens + [cmd[start.value..i]];
          start := None;
        }
      } else {
        if start.None? { start := Some(i); }
      }
      i := i + 1;
    }
    TokenizeInvEnd(cmd, tokens, sq, dq, start);
    if start.Some? {
      tokens := tokens + [cmd[start.value..]];
    }
  }

  /** Reading a character that does not end the token moves on with the quote state it leaves. */
  lemma WordEndStep(cmd: string, i: nat, sq: bool, dq: bool)
    requires i < |cmd| && !(IsSep(cmd[i]) && !sq && !dq)
    ensures var st := Step(cmd[i], sq, dq);
      WordEnd(cmd, i, sq, dq) == WordEnd(cmd, i + 1, st.0, st.1)
  {
  }

  /** A separator between tokens is skipped. */
  lemma WordsSkip(cmd: string, i: nat)
    requires i < |cmd| && IsSep(cmd[i])
    ensures Words(cmd, i) == Words(cmd, i + 1)
  {
  }

  /** A stretch without quote characters, and without separators unless inside quotes, stays in one token. */
  lemma {:induction false} WordEndRun(cmd: string, j: nat, k: nat, sq: bool, dq: bool)
    requires j <= k <= |cmd|
    requires forall m :: j <= m < k ==> cmd[m] != '\'' && cmd[m] != '"' && (sq || dq || !IsSep(cmd[m]))
    ensures WordEnd(cmd, j, sq, dq) == WordEnd(cmd, k, sq, dq)
    decreases k - j
  {
    if j < k {
      WordEndRun(cmd, j + 1, k, sq, dq);
    }
  }

  /** A character that is neither a quote nor a separator. */
  predicate PlainChar(c: char)
  {
    c != '\'' && c != '"' && !IsSep(c)
  }

  /** The token read from `i`, ending at `e`, followed by the tokens after it. */
  lemma WordsAt(cmd: string, i: nat, e: nat)
    requires i < |cmd| && !IsSep(cmd[i]) && WordEnd(cmd, i, false, false) == e
    ensures Words(cmd, i) == [cmd[i..e]] + if e == |cmd| then [] else Words(cmd, e + 1)
  {
  }

  /** A plain word running to the end of the input is the last token. */
  lemma PlainLastToken(cmd: string, i: nat)
    requires i < |cmd| && forall k :: i <= k < |cmd| ==> PlainChar(cmd[k])
    ensures Words(cmd, i) == [cmd[i..]]
  {
    WordEndRun(cmd, i, |cmd|, false, false);
    WordsAt(cmd, i, |cmd|);
    assert cmd[i..|cmd|] == cmd[i..];
  }

  /** A plain word followed by a space is one token. */
  lemma PlainToken(cmd: string, i: nat, e: nat)
    requires i < e < |cmd| && cmd[e] == ' '
    requires forall k :: i <= k < e ==> PlainChar(cmd[k])
    ensures Words(cmd, i) == [cmd[i..e]] + Words(cmd, e + 1)
  {
    WordEndRun(cmd, i, e, false, false);
    WordsAt(cmd, i, e);
  }

  /** A single-quoted stretch followed by a space is one token, quotes included, separators and all. */
  lemma QuotedToken(cmd: string, i: nat, q: nat)
    requires i < q && q + 1 < |cmd| && cmd[i] == '\'' && cmd[q] == '\'' && cmd[q + 1] == ' '
    requires forall k :: i < k < q ==> cmd[k] != '\'' && cmd[k] != '"'
    ensures Words(cmd, i) == [cmd[i..q + 1]] + Words(cmd, q + 2)
  {
    // the opening quote, the run inside, the closing quote, then a separator
    assert WordEnd(cmd, i, false, false) == WordEnd(cmd, i + 1, true, false);
    WordEndRun(cmd, i + 1, q, true, false);
    assert WordEnd(cmd, q, true, false) == WordEnd(cmd, q + 1, false, false);
    WordsAt(cmd, i, q + 1);
  }

  /**
   * A single-quoted word between two plain words, each separated by a
   * space, is one token, quotes included, even when it holds separators:
   * `cmd` is the plain `cmd[..n]`, a space, `'`, a quote-free stretch, `'`,
   * a space at `q + 1`, and the plain `cmd[q + 2..]`.
   */
  lemma TokensOfQuoted(cmd: string, n: nat, q: nat)
    requires 0 < n && n + 1 < q && q + 2 < |cmd|
    requires forall k :: 0 <= k < n ==> PlainChar(cmd[k])
    requires cmd[n] == ' ' && cmd[n + 1] == '\''
    requires forall k :: n + 2 <= k < q ==> cmd[k] != '\'' && cmd[k] != '"'
    requires cmd[q] == '\'' && cmd[q + 1] == ' '
    requires forall k :: q + 2 <= k < |cmd| ==> PlainChar(cmd[k])
    ensures Tokens(cmd) == [cmd[..n], cmd[n + 1..q + 1], cmd[q + 2..]]
  {
    var last := cmd[q + 2..];
    var quoted := cmd[n + 1..q + 1];
    assert Words(cmd, q + 2) == [last] by {
      PlainLastToken(cmd, q + 2);
    }
    assert Words(cmd, n + 1) == [quoted, last] by {
      QuotedToken(cmd, n + 1, q);
    }
    assert Words(cmd, 0) == [cmd[..n], quoted, last] by {
      PlainToken(cmd, 0, n);
      assert cmd[0..n] == cmd[..n];
    }
  }

  /** The test input of the tokenizer meets the conditions of `TokensOfQuoted` at 4 and 17. */
  lemma QuotedExampleLayout(c: string)
    requires c == "echo 'hello world' foo"
    ensures |c| == 22 && c[4] == ' ' && c[5] == '\'' && c[17] == '\'' && c[18] == ' '
    ensures forall k :: 0 <= k < 4 ==> PlainChar(c[k])
    ensures forall k :: 6 <= k < 17 ==> c[k] != '\'' && c[k] != '"'
    ensures forall k :: 19 <= k < 22 ==> PlainChar(c[k])
    ensures c[..4] == "echo" && c[5..18] == "'hello world'" && c[19..] == "foo"
  {
  }

  /** The test case of the tokenizer: quotes stay inside the token they group. */
  lemma TokenizeQuotedExample(c: string)
    requires c == "echo 'hello world' foo"
    ensures Tokens(c) == ["echo", "'hello world'", "foo"]
  {
    QuotedExampleLayout(c);
    TokensOfQuoted(c, 4, 17);
  }

  /** A command split into program, subcommand and arguments; `full` is the untrimmed input. */
  datatype ParsedCommand = ParsedCommand(program: string, subcommand: Option<string>, args: seq<string>, full: string)
  {
    /** `is_partial`: the input ends with a space, so an argument is expected next. */
    predicate IsPartial()
    {
      EndsWith(full, " ")
    }

    /** `arg_lookup_key`: the program, followed by a space and the subcommand when there is one. */
    function ArgLookupKey(): (k: string)
      ensures subcommand.None? ==> k == program
      ensures subcommand.Some? ==> StartsWith(k, program + " ") && k[|program| + 1..] == subcommand.value
    {
      match subcommand
      case Some(sub) => program + " " + sub
      case None => program
    }
  }

  /** Programs whose second word is a subcommand. */
  const SubcommandPrograms: seq<string> := [
    "git", "docker", "docker-compose", "kubectl", "npm", "yarn", "pnpm",
    "cargo", "rustup", "go", "pip", "poetry", "conda", "brew", "apt",
    "systemctl", "journalctl", "aws", "gcloud", "az", "terraform",
    "make", "cmake", "gradle", "mvn", "dotnet", "mix", "bundle"]

  /** The program is one of `SubcommandPrograms`, ignoring ASCII case. */
  predicate HasSubcommands(program: string)
  {
    exists k :: 0 <= k < |SubcommandPrograms| && EqIgnoreAsciiCase(SubcommandPrograms[k], program)
  }

  /**
   * The split of `parse_command` once the tokens are known to be non-empty:
   * the second token is a subcommand when the program takes subcommands and
   * that token is no flag.
   */
  function SplitTokens(tokens: seq<string>, hasSubcommand: bool, full: string): (p: ParsedCommand)
    requires tokens != []
    ensures p.full == full && p.program == tokens[0]
  {
    if hasSubcommand && |tokens| > 1 && !StartsWith(tokens[1], "-") then
      ParsedCommand(tokens[0], Some(tokens[1]), tokens[2..], full)
    else
      ParsedCommand(tokens[0], None, tokens[1..], full)
  }

  /** `parse_command`: tokenize the trimmed input; the second token is a subcommand when allowed. */
  function ParseCommand(cmd: string): (p: ParsedCommand)
    ensures p.full == cmd
  {
    var tokens := Tokens(Trim(cmd));
    if tokens == [] then ParsedCommand([], None, [], cmd)
    else SplitTokens(tokens, HasSubcommands(tokens[0]), cmd)
  }

  /** The split keeps every token: program, then subcommand if any, then the arguments. */
  lemma SplitRebuilds(tokens: seq<string>, hasSubcommand: bool, full: string)
    requires tokens != []
    ensures var p := SplitTokens(tokens, hasSubcommand, full);
      [p.program] + (if p.subcommand.Some? then [p.subcommand.value] else []) + p.args == tokens
      && (p.subcommand.Some? <==> hasSubcommand && |tokens| > 1 && !StartsWith(tokens[1], "-"))
  {
    if hasSubcommand && |tokens| > 1 && !StartsWith(tokens[1], "-") {
      assert tokens == [tokens[0]] + [tokens[1]] + tokens[2..];
    } else {
      assert tokens == [tokens[0]] + tokens[1..];
    }
  }

  /** A string with a character other than a space or tab has a token. */
  lemma TokensNonEmpty(t: string, i: nat)
    requires i <= |t|
    ensures Words(t, i) == [] <==> forall k :: i <= k < |t| ==> IsSep(t[k])
    decreases |t| - i
  {
    if i < |t| && IsSep(t[i]) {
      TokensNonEmpty(t, i + 1);
    }
  }

  /** Blank input gives the empty program, no subcommand, no arguments, and keeps the input. */
  lemma ParseBlank(cmd: string)
    ensures IsBlank(cmd) <==> Tokens(Trim(cmd)) == []
    ensures IsBlank(cmd) ==> ParseCommand(cmd) == ParsedCommand([], None, [], cmd)
  {
    var t := Trim(cmd);
    TokensNonEmpty(t, 0);
    if t != [] {
      assert !IsSep(t[0]);
    }
  }

  /** The program, the subcommand and the arguments together are the tokens of the trimmed input. */
  lemma ParseRebuildsTokens(cmd: string)
    requires !IsBlank(cmd)
    ensures var p := ParseCommand(cmd);
      [p.program] + (if p.subcommand.Some? then [p.subcommand.value] else []) + p.args == Tokens(Trim(cmd))
  {
    var tokens := Tokens(Trim(cmd));
    ParseBlank(cmd);
    SplitRebuilds(tokens, HasSubcommands(tokens[0]), cmd);
  }

  /** The second token becomes a subcommand exactly under the three conditions of `parse_command`. */
  lemma ParseSubcommandCondition(cmd: string)
    ensures var p := ParseCommand(cmd);
      var tokens := Tokens(Trim(cmd));
      p.subcommand.Some? <==>
        (|tokens| > 1 && HasSubcommands(tokens[0]) && !StartsWith(tokens[1], "-"))
  {
    var tokens := Tokens(Trim(cmd));
    if tokens != [] {
      SplitRebuilds(tokens, HasSubcommands(tokens[0]), cmd);
    }
  }

  /** `is_partial` looks at the untrimmed input, so it holds exactly when the input ends with a space. */
  lemma PartialIffTrailingSpace(cmd: string)
    ensures ParseCommand(cmd).IsPartial() <==> |cmd| > 0 && cmd[|cmd| - 1] == ' '
  {
  }

  /** Flags whose next argument is their value. */
  predicate IsValueFlag(a: string)
  {
    a == "-m" || a == "-b" || a == "--message" || a == "--branch" || a == "-f" || a == "--file"
  }

  /**
   * Whether `extract_learnable_args` keeps argument `j`: never a flag; a value
   * of a value flag unless it is a commit message; any other argument of at
   * most 100 characters.
   */
  predicate Learnable(args: seq<string>, j: nat)
    requires j < |args|
  {
    && !StartsWith(args[j], "-")
    && if j > 0 && IsValueFlag(args[j - 1]) then args[j - 1] != "-m" && args[j - 1] != "--message"
       else |args[j]| <= 100
  }

  /** The positions among the first `n` arguments that are kept, in increasing order. */
  function KeptIndices(args: seq<string>, n: nat): (ks: seq<nat>)
    requires n <= |args|
    ensures forall a, b :: 0 <= a < b < |ks| ==> ks[a] < ks[b]
    ensures forall a :: 0 <= a < |ks| ==> ks[a] < n
    ensures forall j :: 0 <= j < n ==> (j in ks <==> Learnable(args, j))
  {
    if n == 0 then []
    else KeptIndices(args, n - 1) + (if Learnable(args, n - 1) then [n - 1] else [])
  }

  /** The arguments at positions `ks`, in that order. */
  function Select(args: seq<string>, ks: seq<nat>): (r: seq<string>)
    requires forall a :: 0 <= a < |ks| ==> ks[a] < |args|
    ensures |r| == |ks|
  {
    seq(|ks|, a requires 0 <= a < |ks| => args[ks[a]])
  }

  /** Looking at one more argument appends it exactly when it is kept. */
  lemma SelectStep(args: seq<string>, i: nat)
    requires i < |args|
    ensures Select(args, KeptIndices(args, i + 1)) ==
      Select(args, KeptIndices(args, i)) + (if Learnable(args, i) then [args[i]] else [])
  {
    var before := KeptIndices(args, i);
    if Learnable(args, i) {
      assert KeptIndices(args, i + 1) == before + [i];
      assert Select(args, before + [i]) == Select(args, before) + [args[i]];
    } else {
      assert KeptIndices(args, i + 1) == before;
    }
  }

  /**
   * `extract_learnable_args`: the kept arguments in their original order.
   * The source's `continue`s become the choice of `keep`.
   */
  method ExtractLearnableArgs(parsed: ParsedCommand) returns (learnable: seq<string>)
    ensures learnable == Select(parsed.args, KeptIndices(parsed.args, |parsed.args|))
  {
    var args := parsed.args;
    learnable := [];
    var i := 0;
    while i < |args|
      invariant 0 <= i <= |args|
      invariant learnable == Select(args, KeptIndices(args, i))
    {
      var arg := args[i];
      var keep: bool;
      if StartsWith(arg, "-") {
        keep := false;
      } else if i > 0 && IsValueFlag(args[i - 1]) {
        var prev := args[i - 1];
        keep := prev != "-m" && prev != "--message";
      } else {
        keep := |arg| <= 100;
      }
      assert keep == Learnable(args, i);
      SelectStep(args, i);
      if keep {
        learnable := learnable + [arg];
      }
      i := i + 1;
    }
  }

  /** Nothing kept is a flag, and no commit message is kept. */
  lemma KeptAreNotFlagsOrMessages(args: seq<string>, j: nat)
    requires j < |args| && j in KeptIndices(args, |args|)
    ensures !StartsWith(args[j], "-")
    ensures j > 0 ==> args[j - 1] != "-m" && args[j - 1] != "--message"
  {
  }

  /** The value of `-b`, `--branch`, `-f` or `--file` is kept whatever its length; other long arguments are not. */
  lemma KeptLengthRule(args: seq<string>, j: nat)
    requires j < |args| && !StartsWith(args[j], "-")
    ensures j > 0 && args[j - 1] in ["-b", "--branch", "-f", "--file"] ==> j in KeptIndices(args, |args|)
    ensures |args[j]| > 100 && !(j > 0 && IsValueFlag(args[j - 1])) ==> j !in KeptIndices(args, |args|)
  {
  }

  /** The test of `extract_learnable_args`: the branch given to `-b` is learned. */
  lemma LearnableBranchExample(args: seq<string>)
    requires args == ["-b", "feature/new-thing"]
    ensures 1 in KeptIndices(args, 2)
  {
    assert args[1][0] == 'f';
    assert Learnable(args, 1);
  }
}
