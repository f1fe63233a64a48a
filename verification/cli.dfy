/**
 * The command-line client's own logic: reading and writing zsh history
 * lines and fasd data lines, the import loops that turn them into
 * requests, and the parameters it builds for `store` and `predict`.
 * Files, standard output and the socket are left out; the lines read and
 * the outcome of each request are parameters.
 */
module Cli {
  import opened Common
  import opened Text
  import opened Numbers
  import opened Protocol

  // ---------------------------------------------------------------------------
  // zsh history lines

  /**
   * The command of one history line: an extended line (": ts:dur;cmd") gives
   * what follows its first ';' and is skipped without one; any other line
   * is the command itself; blank commands are skipped.
   */
  function HistoryCommand(line: string): (r: Option<string>)
    ensures r.Some? ==> !IsBlank(r.value)
    ensures r.Some? && !StartsWith(line, ": ") ==> r.value == line
    ensures !StartsWith(line, ": ") && !IsBlank(line) ==> r == Some(line)
    ensures StartsWith(line, ": ") && ';' !in line ==> r.None?
  {
    if IsBlank(line) then None
    else
      var cmd :=
        if StartsWith(line, ": ") then
          match FindChar(line, ';')
          case None => None
          case Some(pos) => Some(line[pos + 1..])
        else Some(line);
      if cmd.None? || IsBlank(cmd.value) then None else cmd
  }

  /** An extended history line `": <timestamp>:<seconds>;<cmd>"`; the duration is truncated to whole seconds. */
  function HistoryLine(timestamp: int, durationMs: int, cmd: string): string
  {
    ": " + ShowInt(timestamp) + ":" + ShowInt(TruncDiv(durationMs, 1000)) + ";" + cmd
  }

  /** An extended line whose head has no ';' gives back exactly what follows the head and its ';'. */
  lemma ExtendedLineCommand(head: string, cmd: string)
    requires StartsWith(head, ": ") && ';' !in head
    ensures HistoryCommand(head + ";" + cmd) == if IsBlank(cmd) then None else Some(cmd)
  {
    var line := head + ";" + cmd;
    assert line[..2] == head[..2];
    assert !IsBlank(line) by { assert line[0] == ':'; }
    assert line[|head|] == ';';
    assert line[..|head|] == head;
    assert line[|head| + 1..] == cmd;
  }

  /** The text of a number holds no ';'. */
  lemma NoSemicolonInNumber(n: int)
    ensures ';' !in ShowInt(n)
  {
    var a := ShowInt(n);
    forall i | 0 <= i < |a|
      ensures a[i] != ';'
    {
      assert IsDigit(a[i]) || a[i] == '-';
    }
  }

  /** Reading back a written history line gives its command exactly, unless the command is blank. */
  lemma HistoryRoundTrip(timestamp: int, durationMs: int, cmd: string)
    ensures HistoryCommand(HistoryLine(timestamp, durationMs, cmd)) == if IsBlank(cmd) then None else Some(cmd)
  {
    var a := ShowInt(timestamp);
    var b := ShowInt(TruncDiv(durationMs, 1000));
    var head := ": " + a + ":" + b;
    assert HistoryLine(timestamp, durationMs, cmd) == head + ";" + cmd;
    NoSemicolonInNumber(timestamp);
    NoSemicolonInNumber(TruncDiv(durationMs, 1000));
    assert ';' !in head by {
      assert head == (": " + a) + (":" + b);
      assert ';' !in ": " + a;
      assert ';' !in ":" + b;
    }
    assert head[..2] == ": ";
    ExtendedLineCommand(head, cmd);
  }

  /** A history line is a single line when its command is. */
  lemma HistoryLineSingle(timestamp: int, durationMs: int, cmd: string)
    requires SingleLine(cmd)
    ensures SingleLine(HistoryLine(timestamp, durationMs, cmd))
  {
    var a := ShowInt(timestamp);
    var b := ShowInt(TruncDiv(durationMs, 1000));
    var line := HistoryLine(timestamp, durationMs, cmd);
    var head := ": " + a + ":" + b + ";";
    assert line == head + cmd;
    assert '\n' !in a && '\n' !in b;
    assert '\n' !in head;
    assert line[|line| - 1] == if cmd == [] then ';' else cmd[|cmd| - 1];
  }

  // ---------------------------------------------------------------------------
  // text files as lines

  /** The text `println!` / `writeln!` produce for some lines: each followed by a newline. */
  function WriteLines(ls: seq<string>): (text: string)
    ensures |text| == |ls| + Sum(ls)
  {
    if ls == [] then [] else ls[0] + "\n" + WriteLines(ls[1..])
  }

  /** The total length of some lines. */
  function Sum(ls: seq<string>): nat
  {
    if ls == [] then 0 else |ls[0]| + Sum(ls[1..])
  }

  /**
   * `BufRead::lines` over a readable text: the pieces between newlines, each
   * without its newline and without one carriage return just before it; a
   * last piece with no newline after it is kept as it is.
   */
  function ReadLines(text: string): (ls: seq<string>)
    ensures forall k :: 0 <= k < |ls| ==> '\n' !in ls[k]
    ensures text == [] <==> ls == []
    decreases |text|
  {
    if text == [] then []
    else match FindChar(text, '\n')
      case None => [text]
      case Some(k) =>
        var l := text[..k];
        var l' := if l != [] && l[|l| - 1] == '\r' then l[..|l| - 1] else l;
        assert forall x :: x in l' ==> x in l;
        [l'] + ReadLines(text[k + 1..])
  }

  /** A line that survives being written and read back: no newline in it and no carriage return at its end. */
  predicate SingleLine(s: string)
  {
    '\n' !in s && (s == [] || s[|s| - 1] != '\r')
  }

  /** The first occurrence of `c` is the one with no `c` before it. */
  lemma FirstCharAt(s: string, c: char, k: nat)
    requires k < |s| && s[k] == c && c !in s[..k]
    ensures FindChar(s, c) == Some(k)
  {
    assert c in s;
    forall i | 0 <= i < k
      ensures s[i] != c
    {
      assert s[..k][i] == s[i];
    }
    forall j | k < j <= |s|
      ensures c in s[..j]
    {
      assert s[..j][k] == c;
    }
  }

  /** Reading a single line followed by a newline gives that line, then the lines of the rest. */
  lemma ReadLinesCons(l: string, rest: string)
    requires SingleLine(l)
    ensures ReadLines(l + "\n" + rest) == [l] + ReadLines(rest)
  {
    var text := l + "\n" + rest;
    assert text[..|l|] == l && text[|l|] == '\n';
    FirstCharAt(text, '\n', |l|);
    assert text[|l| + 1..] == rest;
  }

  /** Written lines read back as themselves exactly when each is a single line. */
  lemma {:induction false} LinesRoundTrip(ls: seq<string>)
    requires forall k :: 0 <= k < |ls| ==> SingleLine(ls[k])
    ensures ReadLines(WriteLines(ls)) == ls
  {
    if ls != [] {
      assert SingleLine(ls[0]);
      ReadLinesCons(ls[0], WriteLines(ls[1..]));
      LinesRoundTrip(ls[1..]);
      assert [ls[0]] + ls[1..] == ls;
    }
  }

  /** A line holding a newline comes back as the two lines around it. */
  lemma LineWithNewlineSplits(a: string, b: string)
    requires SingleLine(a) && SingleLine(b)
    ensures ReadLines(WriteLines([a + "\n" + b])) == [a, b]
  {
    assert WriteLines([a + "\n" + b]) == WriteLines([a, b]) by {
      assert WriteLines([b]) == b + "\n";
      assert [a, b][1..] == [b];
    }
    LinesRoundTrip([a, b]);
  }

  /** A line ending in a carriage return comes back without it. */
  lemma CarriageReturnLost(a: string)
    requires SingleLine(a)
    ensures ReadLines(WriteLines([a + "\r"])) == [a]
  {
    var t := WriteLines([a + "\r"]);
    assert t == a + "\r" + "\n";
    assert t[|a| + 1] == '\n' && t[..|a| + 1] == a + "\r";
    FirstCharAt(t, '\n', |a| + 1);
    assert t[|a| + 2..] == [];
    assert (a + "\r")[..|a|] == a;
  }

  /** `as_i64` on a JSON value, with `unwrap_or(0)`. */
  function I64Or0(j: Option<Json>): (n: int)
    ensures IsI64(n)
  {
    if j.Some? && j.value.JInt? && IsI64(j.value.i) then j.value.i else 0
  }

  /** `as_str` on a JSON value, with `unwrap_or("")`. */
  function StrOrEmpty(j: Option<Json>): string
  {
    if j.Some? && j.value.JStr? then j.value.s else ""
  }

  /** The history line of one `search` result. */
  function EntryLine(entry: Json): string
  {
    HistoryLine(I64Or0(Get(entry, "timestamp")), I64Or0(Get(entry, "duration_ms")), StrOrEmpty(Get(entry, "cmd")))
  }

  /** The export of a `search` result is re-imported as its command, unless that is blank. */
  lemma EntryRoundTrip(r: SearchResult)
    ensures HistoryCommand(EntryLine(SearchResultToJson(r))) == if IsBlank(r.cmd) then None else Some(r.cmd)
  {
    var j := SearchResultToJson(r);
    SearchResultCarriesCmd(r);
    HistoryRoundTrip(I64Or0(Get(j, "timestamp")), I64Or0(Get(j, "duration_ms")), r.cmd);
  }

  /**
   * `cmd_export`: the search results come newest first; they are written
   * oldest first, one history line each.
   */
  method CmdExport(results: seq<Json>) returns (lines: seq<string>)
    ensures |lines| == |results|
    ensures forall k :: 0 <= k < |lines| ==> lines[k] == EntryLine(results[|results| - 1 - k])
  {
    lines := [];
    var k := |results|;
    while k > 0
      invariant 0 <= k <= |results| && |lines| == |results| - k
      invariant forall q :: 0 <= q < |lines| ==> lines[q] == EntryLine(results[|results| - 1 - q])
    {
      k := k - 1;
      lines := lines + [EntryLine(results[k])];
    }
  }

  /** `cmd_export`'s limit: 0 means 100000. */
  function ExportLimit(limit: nat): (n: nat)
    ensures n > 0
    ensures limit > 0 ==> n == limit
    ensures limit == 0 ==> n == 100000
  {
    if limit == 0 then 100000 else limit
  }

  /** One outcome of reading a line. */
  datatype LineRead = ReadOk(text: string) | ReadErr

  /** The commands a history file yields, in order. */
  function ImportedCommands(lines: seq<LineRead>): (cmds: seq<string>)
    ensures |cmds| <= |lines|
    ensures forall c :: c in cmds ==> !IsBlank(c)
  {
    if lines == [] then []
    else
      var last := lines[|lines| - 1];
      var step := if last.ReadOk? then HistoryCommand(last.text) else None;
      ImportedCommands(lines[..|lines| - 1]) + (if step.Some? then [step.value] else [])
  }

  /** The lines that could not be read. */
  function ReadErrors(lines: seq<LineRead>): (n: nat)
    ensures n <= |lines|
    ensures n == multiset(lines)[ReadErr]
  {
    if lines == [] then 0
    else
      assert lines == lines[..|lines| - 1] + [lines[|lines| - 1]];
      ReadErrors(lines[..|lines| - 1]) + (if lines[|lines| - 1].ReadErr? then 1 else 0)
  }

  /** How many of the requests succeed. */
  function Successes<T>(items: seq<T>, ok: T -> bool): (n: nat)
    ensures n <= |items|
  {
    if items == [] then 0
    else Successes(items[..|items| - 1], ok) + (if ok(items[|items| - 1]) then 1 else 0)
  }

  /** Counting over one more item. */
  lemma SuccessesSnoc<T>(items: seq<T>, x: T, ok: T -> bool)
    ensures Successes(items + [x], ok) == Successes(items, ok) + (if ok(x) then 1 else 0)
  {
    assert (items + [x])[..|items|] == items;
  }

  /** The counters of `cmd_import` after the first `i` lines. */
  predicate ImportInv(lines: seq<LineRead>, i: nat, stored: string -> bool, sent: seq<string>, count: nat, errors: nat)
  {
    && i <= |lines|
    && sent == ImportedCommands(lines[..i])
    && count == Successes(sent, stored)
    && count + errors == |sent| + ReadErrors(lines[..i])
  }

  /** One more history line: an unreadable one is an error, a command is sent and counted by its outcome. */
  lemma ImportInvStep(lines: seq<LineRead>, i: nat, stored: string -> bool, sent: seq<string>, count: nat, errors: nat)
    requires i < |lines| && ImportInv(lines, i, stored, sent, count, errors)
    ensures lines[i].ReadErr? ==> ImportInv(lines, i + 1, stored, sent, count, errors + 1)
    ensures lines[i].ReadOk? && HistoryCommand(lines[i].text).None? ==> ImportInv(lines, i + 1, stored, sent, count, errors)
    ensures lines[i].ReadOk? && HistoryCommand(lines[i].text).Some? ==>
      var cmd := HistoryCommand(lines[i].text).value;
      ImportInv(lines, i + 1, stored, sent + [cmd], count + (if stored(cmd) then 1 else 0), errors + (if stored(cmd) then 0 else 1))
  {
    var pre := lines[..i + 1];
    assert pre[..|pre| - 1] == lines[..i] && pre[|pre| - 1] == lines[i];
    var step := if lines[i].ReadOk? then HistoryCommand(lines[i].text) else None;
    assert ImportedCommands(pre) == sent + (if step.Some? then [step.value] else []);
    assert ReadErrors(pre) == ReadErrors(lines[..i]) + (if lines[i].ReadErr? then 1 else 0);
    if lines[i].ReadOk? && HistoryCommand(lines[i].text).Some? {
      SuccessesSnoc(sent, HistoryCommand(lines[i].text).value, stored);
    }
  }

  /** The `store` parameters sent for an imported command: an exit status of 0, in the current directory. */
  function ImportParams(cmd: string, cwd: string): Json
  {
    JObj(map["cmd" := JStr(cmd), "cwd" := JStr(cwd), "exit_status" := JInt(0)])
  }

  /** The daemon reads an imported command as a successful command in `cwd`, with nothing else known. */
  lemma ImportParamsDecode(cmd: string, cwd: string)
    ensures DecodeStoreParams(ImportParams(cmd, cwd)) == Ok(StoreParams(cmd, cwd, Some(0), None, None, None, None, None))
  {
  }

  /**
   * `cmd_import`: one `store` request per imported command; `stored` says
   * whether a request succeeded. Unreadable lines and failed requests are
   * errors.
   */
  method CmdImport(lines: seq<LineRead>, cwd: string, stored: string -> bool)
    returns (sent: seq<string>, count: nat, errors: nat)
    ensures sent == ImportedCommands(lines)
    ensures count == Successes(sent, stored)
    ensures count + errors == |sent| + ReadErrors(lines)
  {
    sent := [];
    count := 0;
    errors := 0;
    var i := 0;
    while i < |lines|
      invariant ImportInv(lines, i, stored, sent, count, errors)
    {
      ImportInvStep(lines, i, stored, sent, count, errors);
      match lines[i] {
        case ReadErr =>
          errors := errors + 1;
        case ReadOk(text) =>
          var cmd := HistoryCommand(text);
          if cmd.Some? {
            sent := sent + [cmd.value];
            if stored(cmd.value) {
              count := count + 1;
            } else {
              errors := errors + 1;
            }
          }
      }
      assert ImportInv(lines, i + 1, stored, sent, count, errors);
      i := i + 1;
    }
    assert lines[..i] == lines;
    assert sent == ImportedCommands(lines);
  }

  /** The lines of a text, each read successfully. */
  function ReadOks(ls: seq<string>): (rs: seq<LineRead>)
    ensures |rs| == |ls| && forall k :: 0 <= k < |ls| ==> rs[k] == ReadOk(ls[k])
  {
    seq(|ls|, k requires 0 <= k < |ls| => ReadOk(ls[k]))
  }

  /** The history lines of some entries given as timestamps, durations and commands. */
  function HistoryLines(ts: seq<int>, ds: seq<int>, cmds: seq<string>): (ls: seq<string>)
    requires |ts| == |ds| == |cmds|
    ensures |ls| == |cmds| && forall k :: 0 <= k < |ls| ==> ls[k] == HistoryLine(ts[k], ds[k], cmds[k])
  {
    seq(|cmds|, k requires 0 <= k < |cmds| => HistoryLine(ts[k], ds[k], cmds[k]))
  }

  /** The commands that are not blank, in order. */
  function NonBlank(cmds: seq<string>): (r: seq<string>)
    ensures |r| <= |cmds|
  {
    if cmds == [] then []
    else NonBlank(cmds[..|cmds| - 1]) + (if IsBlank(cmds[|cmds| - 1]) then [] else [cmds[|cmds| - 1]])
  }

  /** Lines that each give back their command, unless it is blank, import as the non-blank commands in order. */
  lemma {:induction false} ImportHistoryLines(lines: seq<string>, cmds: seq<string>)
    requires |lines| == |cmds|
    requires forall k :: 0 <= k < |lines| ==> HistoryCommand(lines[k]) == if IsBlank(cmds[k]) then None else Some(cmds[k])
    ensures ImportedCommands(ReadOks(lines)) == NonBlank(cmds)
  {
    if cmds != [] {
      var n := |cmds|;
      var rs := ReadOks(lines);
      assert rs[..n - 1] == ReadOks(lines[..n - 1]);
      ImportHistoryLines(lines[..n - 1], cmds[..n - 1]);
      var c := cmds[n - 1];
      assert rs[n - 1] == ReadOk(lines[n - 1]);
      var step := if IsBlank(c) then [] else [c];
      assert ImportedCommands(rs) == ImportedCommands(rs[..n - 1]) + step;
      assert NonBlank(cmds) == NonBlank(cmds[..n - 1]) + step;
    }
  }

  /**
   * An exported history file, read back by lines and imported, yields exactly
   * the non-blank commands in order, when every command is a single line.
   */
  lemma HistoryFileRoundTrip(ts: seq<int>, ds: seq<int>, cmds: seq<string>)
    requires |ts| == |ds| == |cmds|
    requires forall k :: 0 <= k < |cmds| ==> SingleLine(cmds[k])
    ensures ImportedCommands(ReadOks(ReadLines(WriteLines(HistoryLines(ts, ds, cmds))))) == NonBlank(cmds)
  {
    var ls := HistoryLines(ts, ds, cmds);
    forall k | 0 <= k < |ls|
      ensures SingleLine(ls[k])
    {
      HistoryLineSingle(ts[k], ds[k], cmds[k]);
    }
    LinesRoundTrip(ls);
    forall k | 0 <= k < |ls|
      ensures HistoryCommand(ls[k]) == if IsBlank(cmds[k]) then None else Some(cmds[k])
    {
      HistoryRoundTrip(ts[k], ds[k], cmds[k]);
    }
    ImportHistoryLines(ls, cmds);
  }

  /** Two lines that each give a command import as those two commands. */
  lemma ImportTwoLines(x: string, y: string, a: string, b: string)
    requires HistoryCommand(x) == Some(a) && HistoryCommand(y) == Some(b)
    ensures ImportedCommands(ReadOks([x, y])) == [a, b]
  {
    var rs := ReadOks([x, y]);
    assert rs[..1] == [ReadOk(x)] && rs[..1][..0] == [];
  }

  /**
   * A command holding a newline is exported as two lines and imported as two
   * commands: the part before the newline and the part after it.
   */
  lemma MultiLineCommandSplits(timestamp: int, durationMs: int, a: string, b: string)
    requires SingleLine(a) && SingleLine(b) && !IsBlank(a) && !IsBlank(b) && !StartsWith(b, ": ")
    ensures ImportedCommands(ReadOks(ReadLines(WriteLines([HistoryLine(timestamp, durationMs, a + "\n" + b)])))) == [a, b]
  {
    var first := HistoryLine(timestamp, durationMs, a);
    assert HistoryLine(timestamp, durationMs, a + "\n" + b) == first + "\n" + b;
    HistoryLineSingle(timestamp, durationMs, a);
    LineWithNewlineSplits(first, b);
    HistoryRoundTrip(timestamp, durationMs, a);
    ImportTwoLines(first, b, a, b);
  }

  // ---------------------------------------------------------------------------
  // fasd data lines

  /** The last position of `c` in `s`. */
  function LastIndexOf(s: string, c: char): (r: Option<nat>)
    ensures r.Some? ==> r.value < |s| && s[r.value] == c && c !in s[r.value + 1..]
    ensures r.None? ==> c !in s
    decreases |s|
  {
    if s == [] then None
    else if s[|s| - 1] == c then Some(|s| - 1)
    else
      var r := LastIndexOf(s[..|s| - 1], c);
      assert forall x :: x in s ==> x in s[..|s| - 1] || x == s[|s| - 1];
      if r.Some? then
        assert s[r.value + 1..] == s[..|s| - 1][r.value + 1..] + [s[|s| - 1]];
        r
      else r
  }

  /** Any position of `c` followed by no other `c` is the last one. */
  lemma {:induction false} LastIndexAt(s: string, c: char, k: nat)
    requires k < |s| && s[k] == c && c !in s[k + 1..]
    ensures LastIndexOf(s, c) == Some(k)
    decreases |s|
  {
    if k < |s| - 1 {
      assert s[|s| - 1] in s[k + 1..];
      assert s[..|s| - 1][k + 1..] == s[k + 1..|s| - 1];
      assert s[k + 1..] == s[k + 1..|s| - 1] + [s[|s| - 1]];
      LastIndexAt(s[..|s| - 1], c, k);
    }
  }

  /** `str::rsplitn(3, c)`: the pieces from the right, the last holding everything before the second-last `c`. */
  function RSplitN3(s: string, c: char): (parts: seq<string>)
    ensures 1 <= |parts| <= 3
    ensures |parts| == 3 ==> c !in parts[0] && c !in parts[1] && s == parts[2] + [c] + parts[1] + [c] + parts[0]
  {
    match LastIndexOf(s, c)
    case None => [s]
    case Some(k) =>
      match LastIndexOf(s[..k], c)
      case None => [s[k + 1..], s[..k]]
      case Some(k2) =>
        assert s[..k][k2 + 1..] == s[k2 + 1..k];
        assert s == s[..k2] + [c] + s[k2 + 1..k] + [c] + s[k + 1..];
        [s[k + 1..], s[k2 + 1..k], s[..k2]]
  }

  /** The reading of one fasd line: nothing, an error, or an entry. */
  datatype FasdLine = FasdSkip | FasdBad | FasdEntry(path: string, rank: real, timestamp: int)

  /**
   * One line of fasd data, `path|rank|timestamp`, trimmed first: split from
   * the right, so the path may itself contain '|'. A missing piece, a
   * timestamp that is not an i64 or a rank that `parseRank` refuses is an error.
   */
  function ParseFasdLine(line: string, parseRank: string -> Option<real>): (r: FasdLine)
    ensures r.FasdSkip? <==> IsBlank(line)
    ensures r.FasdEntry? ==> IsI64(r.timestamp)
  {
    var t := Trim(line);
    if t == [] then FasdSkip else FasdPieces(RSplitN3(t, '|'), parseRank)
  }

  /** The pieces of a fasd line, from the right: timestamp, rank, path. */
  function FasdPieces(parts: seq<string>, parseRank: string -> Option<real>): (r: FasdLine)
    ensures !r.FasdSkip?
    ensures r.FasdEntry? ==> IsI64(r.timestamp)
    ensures r.FasdEntry? <==> |parts| >= 3 && ParseI64(parts[0]).Some? && parseRank(parts[1]).Some?
  {
    if |parts| < 3 then FasdBad
    else
      match ParseI64(parts[0])
      case None => FasdBad
      case Some(ts) =>
        match parseRank(parts[1])
        case None => FasdBad
        case Some(rank) => FasdEntry(parts[2], rank, ts)
  }

  /** Trimming a string that neither starts nor ends with whitespace changes nothing. */
  lemma TrimKeeps(s: string)
    requires s != [] && !IsWhitespace(s[0]) && !IsWhitespace(s[|s| - 1])
    ensures Trim(s) == s
  {
    var t := TrimStart(s);
    assert t == s;
    var r := TrimEnd(t);
  }

  /** The last character of a formatted integer is a digit. */
  lemma ShowIntEndsWithDigit(n: int)
    ensures IsDigit(ShowInt(n)[|ShowInt(n)| - 1])
  {
    var d := ShowNat(if n < 0 then -n else n);
    assert IsDigit(d[|d| - 1]);
    if n < 0 {
      assert ShowInt(n) == "-" + d;
    }
  }

  /** A fasd export line. */
  function FasdLineOf(path: string, rankText: string, lastAccess: int): string
  {
    path + "|" + rankText + "|" + ShowInt(lastAccess)
  }

  /** An exported line is already trimmed. */
  lemma FasdLineTrimmed(path: string, rankText: string, lastAccess: int)
    requires path != [] && !IsWhitespace(path[0])
    ensures Trim(FasdLineOf(path, rankText, lastAccess)) == FasdLineOf(path, rankText, lastAccess)
  {
    var ts := ShowInt(lastAccess);
    var line := FasdLineOf(path, rankText, lastAccess);
    ShowIntEndsWithDigit(lastAccess);
    assert line[|line| - 1] == ts[|ts| - 1];
    assert line[0] == path[0];
    TrimKeeps(line);
  }

  /** Splitting `x|y|z` from the right, when neither `y` nor `z` holds the separator, gives `z`, `y` and `x`. */
  lemma RSplitN3Of(x: string, y: string, z: string, c: char)
    requires c !in y && c !in z
    ensures RSplitN3(x + [c] + y + [c] + z, c) == [z, y, x]
  {
    var s := x + [c] + y + [c] + z;
    var k := |x| + 1 + |y|;
    var front := x + [c] + y;
    assert LastIndexOf(s, c) == Some(k) by {
      assert s[k] == c && s[k + 1..] == z;
      LastIndexAt(s, c, k);
    }
    assert s[..k] == front && s[k + 1..] == z;
    assert LastIndexOf(front, c) == Some(|x|) by {
      assert front[|x|] == c && front[|x| + 1..] == y;
      LastIndexAt(front, c, |x|);
    }
    assert s[..|x|] == x && s[|x| + 1..k] == y;
  }

  /** Splitting an exported line from the right gives the time, the rank and the path. */
  lemma FasdLineSplits(path: string, rankText: string, lastAccess: int)
    requires '|' !in rankText
    ensures RSplitN3(FasdLineOf(path, rankText, lastAccess), '|') == [ShowInt(lastAccess), rankText, path]
  {
    var ts := ShowInt(lastAccess);
    assert '|' !in ts by {
      forall i | 0 <= i < |ts| ensures ts[i] != '|' { }
    }
    RSplitN3Of(path, rankText, ts, '|');
    assert FasdLineOf(path, rankText, lastAccess) == path + ['|'] + rankText + ['|'] + ts;
  }

  /**
   * Re-importing an exported line gives back the path, the rank and the time,
   * when the path does not start with whitespace and the rank's text reads
   * back as the rank.
   */
  lemma FasdRoundTrip(path: string, rankText: string, rank: real, lastAccess: int, parseRank: string -> Option<real>)
    requires path != [] && !IsWhitespace(path[0])
    requires '|' !in rankText && parseRank(rankText) == Some(rank)
    requires IsI64(lastAccess)
    ensures ParseFasdLine(FasdLineOf(path, rankText, lastAccess), parseRank) == FasdEntry(path, rank, lastAccess)
  {
    var line := FasdLineOf(path, rankText, lastAccess);
    var ts := ShowInt(lastAccess);
    assert ParseFasdLine(line, parseRank) == FasdPieces([ts, rankText, path], parseRank) by {
      FasdLineTrimmed(path, rankText, lastAccess);
      FasdLineSplits(path, rankText, lastAccess);
      ParseTrimmedFasdLine(line, parseRank);
    }
    assert ParseI64(ts) == Some(lastAccess) by {
      ParseShowInt(lastAccess);
    }
    FasdPiecesEntry(ts, rankText, path, parseRank);
  }

  /** A line that trimming leaves as it is goes straight to its pieces. */
  lemma ParseTrimmedFasdLine(line: string, parseRank: string -> Option<real>)
    requires line != [] && Trim(line) == line
    ensures ParseFasdLine(line, parseRank) == FasdPieces(RSplitN3(line, '|'), parseRank)
  {
  }

  /** Three pieces that all read make an entry. */
  lemma FasdPiecesEntry(tsText: string, rankText: string, path: string, parseRank: string -> Option<real>)
    requires ParseI64(tsText).Some? && parseRank(rankText).Some?
    ensures FasdPieces([tsText, rankText, path], parseRank) == FasdEntry(path, parseRank(rankText).value, ParseI64(tsText).value)
  {
  }

  /** `as_f64` on a JSON value (an integer converts), with `unwrap_or(0.0)`. */
  function RealOr0(j: Option<Json>): real
  {
    if j.Some? && j.value.JFloat? then j.value.f
    else if j.Some? && j.value.JInt? then j.value.i as real
    else 0.0
  }

  /** The export line of one raw `frecent_query` result; entries without a path are skipped. */
  function FasdExportLine(entry: Json, showRank: real -> string): (r: Option<string>)
    ensures r.Some? <==> StrOrEmpty(Get(entry, "path")) != []
  {
    var path := StrOrEmpty(Get(entry, "path"));
    if path == [] then None
    else Some(FasdLineOf(path, showRank(RealOr0(Get(entry, "rank"))), I64Or0(Get(entry, "last_access"))))
  }

  /** The export lines of some results, in order. */
  function FasdExportLines(results: seq<Json>, showRank: real -> string): (lines: seq<string>)
    ensures |lines| <= |results|
  {
    if results == [] then []
    else
      var last := FasdExportLine(results[|results| - 1], showRank);
      FasdExportLines(results[..|results| - 1], showRank) + (if last.Some? then [last.value] else [])
  }

  /** `cmd_export_fasd`: one line per result with a path, counted. */
  method CmdExportFasd(results: seq<Json>, showRank: real -> string) returns (lines: seq<string>, count: nat)
    ensures lines == FasdExportLines(results, showRank)
    ensures count == |lines|
  {
    lines := [];
    count := 0;
    var i := 0;
    while i < |results|
      invariant 0 <= i <= |results|
      invariant lines == FasdExportLines(results[..i], showRank) && count == |lines|
    {
      var line := FasdExportLine(results[i], showRank);
      assert results[..i + 1][..i] == results[..i] && results[..i + 1][i] == results[i];
      assert FasdExportLines(results[..i + 1], showRank) == lines + (if line.Some? then [line.value] else []);
      if line.Some? {
        lines := lines + [line.value];
        count := count + 1;
      }
      i := i + 1;
    }
    assert results[..i] == results;
  }

  /** A fasd line is a single line when its path and rank text are free of newlines: it ends in a digit. */
  lemma FasdLineSingle(path: string, rankText: string, lastAccess: int)
    requires '\n' !in path && '\n' !in rankText
    ensures SingleLine(FasdLineOf(path, rankText, lastAccess))
  {
    var ts := ShowInt(lastAccess);
    var line := FasdLineOf(path, rankText, lastAccess);
    assert '\n' !in ts;
    ShowIntEndsWithDigit(lastAccess);
    assert line[|line| - 1] == ts[|ts| - 1];
  }

  /** Every export line is a single line when no path and no printed rank holds a newline. */
  lemma {:induction false} FasdExportLinesSingle(results: seq<Json>, showRank: real -> string)
    requires forall k :: 0 <= k < |results| ==> '\n' !in StrOrEmpty(Get(results[k], "path"))
    requires forall x :: '\n' !in showRank(x)
    ensures forall k :: 0 <= k < |FasdExportLines(results, showRank)| ==> SingleLine(FasdExportLines(results, showRank)[k])
  {
    if results != [] {
      var n := |results|;
      FasdExportLinesSingle(results[..n - 1], showRank);
      var e := results[n - 1];
      var path := StrOrEmpty(Get(e, "path"));
      if path != [] {
        FasdLineSingle(path, showRank(RealOr0(Get(e, "rank"))), I64Or0(Get(e, "last_access")));
      }
    }
  }

  /** The written fasd file reads back, line by line, as the export lines. */
  lemma FasdFileReadsBack(results: seq<Json>, showRank: real -> string)
    requires forall k :: 0 <= k < |results| ==> '\n' !in StrOrEmpty(Get(results[k], "path"))
    requires forall x :: '\n' !in showRank(x)
    ensures ReadLines(WriteLines(FasdExportLines(results, showRank))) == FasdExportLines(results, showRank)
  {
    FasdExportLinesSingle(results, showRank);
    LinesRoundTrip(FasdExportLines(results, showRank));
  }

  /** A `frecent_query` result in raw mode, exported and re-imported, keeps its path and last access time. */
  lemma FasdResultRoundTrip(r: FrecencyResult, showRank: real -> string, parseRank: string -> Option<real>)
    requires r.rank.Some? && r.lastAccess.Some? && IsI64(r.lastAccess.value)
    requires r.path != [] && !IsWhitespace(r.path[0])
    requires '|' !in showRank(r.rank.value) && parseRank(showRank(r.rank.value)) == Some(r.rank.value)
    ensures var line := FasdExportLine(FrecencyResultToJson(r), showRank);
      line.Some? && ParseFasdLine(line.value, parseRank) == FasdEntry(r.path, r.rank.value, r.lastAccess.value)
  {
    var j := FrecencyResultToJson(r);
    var rankText := showRank(r.rank.value);
    assert FasdExportLine(j, showRank) == Some(FasdLineOf(r.path, rankText, r.lastAccess.value)) by {
      assert Get(j, "path") == Some(JStr(r.path));
      assert Get(j, "rank") == Some(JFloat(r.rank.value));
      assert Get(j, "last_access") == Some(JInt(r.lastAccess.value));
    }
    FasdRoundTrip(r.path, rankText, r.rank.value, r.lastAccess.value, parseRank);
  }

  /** A fasd entry to send, with the type read from the file system. */
  datatype FasdAdd = FasdAdd(path: string, pathType: string, rank: real, timestamp: int)

  /** The `frecent_add` parameters of an imported entry. */
  function FasdAddParams(e: FasdAdd): Json
  {
    JObj(map["path" := JStr(e.path), "path_type" := JStr(e.pathType), "rank" := JFloat(e.rank), "timestamp" := JInt(e.timestamp)])
  }

  /** The daemon reads back the imported entry's path, type, rank and time. */
  lemma FasdAddParamsDecode(e: FasdAdd)
    requires IsI64(e.timestamp)
    ensures DecodeFrecentAddParams(FasdAddParams(e)) == Ok(FrecentAddParams(e.path, e.pathType, Some(e.rank), Some(e.timestamp)))
  {
  }

  /** What one line read from a fasd data file is; an unreadable line counts as an error. */
  function LineFasd(r: LineRead, parseRank: string -> Option<real>): FasdLine
  {
    if r.ReadOk? then ParseFasdLine(r.text, parseRank) else FasdBad
  }

  /** The entry sent for a parsed line, with its type read from the file system. */
  function FasdAddOf(p: FasdLine, isDir: string -> bool): FasdAdd
    requires p.FasdEntry?
  {
    FasdAdd(p.path, if isDir(p.path) then "d" else "f", p.rank, p.timestamp)
  }

  /** The entries a fasd data file yields, in order; `isDir` says which paths are directories. */
  function ImportedFasd(lines: seq<LineRead>, parseRank: string -> Option<real>, isDir: string -> bool): (es: seq<FasdAdd>)
    ensures |es| <= |lines|
  {
    if lines == [] then []
    else
      var p := LineFasd(lines[|lines| - 1], parseRank);
      ImportedFasd(lines[..|lines| - 1], parseRank, isDir) + (if p.FasdEntry? then [FasdAddOf(p, isDir)] else [])
  }

  /** Every imported entry is typed as a directory or a file, and its time is an `i64`. */
  lemma {:induction false} ImportedFasdWellTyped(lines: seq<LineRead>, parseRank: string -> Option<real>, isDir: string -> bool)
    ensures forall e :: e in ImportedFasd(lines, parseRank, isDir) ==> (e.pathType == "d" || e.pathType == "f") && IsI64(e.timestamp)
    decreases |lines|
  {
    if lines != [] {
      ImportedFasdWellTyped(lines[..|lines| - 1], parseRank, isDir);
    }
  }

  /** The lines of a fasd data file that could not be read or parsed. */
  function FasdLineErrors(lines: seq<LineRead>, parseRank: string -> Option<real>): (n: nat)
    ensures n <= |lines|
  {
    if lines == [] then 0
    else FasdLineErrors(lines[..|lines| - 1], parseRank) + (if LineFasd(lines[|lines| - 1], parseRank).FasdBad? then 1 else 0)
  }

  /** The counters of `cmd_import_fasd` after the first `i` lines. */
  predicate ImportFasdInv(lines: seq<LineRead>, i: nat, parseRank: string -> Option<real>, isDir: string -> bool,
                          added: FasdAdd -> bool, sent: seq<FasdAdd>, count: nat, errors: nat)
  {
    && i <= |lines|
    && sent == ImportedFasd(lines[..i], parseRank, isDir)
    && count == Successes(sent, added)
    && count + errors == |sent| + FasdLineErrors(lines[..i], parseRank)
  }

  /** One more line: a bad one is an error, an entry is sent and counted by its outcome. */
  lemma ImportFasdInvStep(lines: seq<LineRead>, i: nat, parseRank: string -> Option<real>, isDir: string -> bool,
                          added: FasdAdd -> bool, sent: seq<FasdAdd>, count: nat, errors: nat, p: FasdLine)
    requires i < |lines| && ImportFasdInv(lines, i, parseRank, isDir, added, sent, count, errors)
    requires p == LineFasd(lines[i], parseRank)
    ensures p.FasdSkip? ==> ImportFasdInv(lines, i + 1, parseRank, isDir, added, sent, count, errors)
    ensures p.FasdBad? ==> ImportFasdInv(lines, i + 1, parseRank, isDir, added, sent, count, errors + 1)
    ensures p.FasdEntry? ==>
      var e := FasdAddOf(p, isDir);
      ImportFasdInv(lines, i + 1, parseRank, isDir, added, sent + [e], count + (if added(e) then 1 else 0), errors + (if added(e) then 0 else 1))
  {
    var pre := lines[..i + 1];
    assert pre[..|pre| - 1] == lines[..i] && pre[|pre| - 1] == lines[i];
    assert ImportedFasd(pre, parseRank, isDir) == sent + (if p.FasdEntry? then [FasdAddOf(p, isDir)] else []);
    assert FasdLineErrors(pre, parseRank) == FasdLineErrors(lines[..i], parseRank) + (if p.FasdBad? then 1 else 0);
    if p.FasdEntry? {
      SuccessesSnoc(sent, FasdAddOf(p, isDir), added);
    }
  }

  /** The body of `cmd_import_fasd`'s loop for one parsed line. */
  method ImportFasdLine(p: FasdLine, isDir: string -> bool, added: FasdAdd -> bool, sent: seq<FasdAdd>, count: nat, errors: nat)
    returns (sent': seq<FasdAdd>, count': nat, errors': nat)
    ensures p.FasdSkip? ==> sent' == sent && count' == count && errors' == errors
    ensures p.FasdBad? ==> sent' == sent && count' == count && errors' == errors + 1
    ensures p.FasdEntry? ==>
      var e := FasdAddOf(p, isDir);
      && sent' == sent + [e]
      && count' == count + (if added(e) then 1 else 0)
      && errors' == errors + (if added(e) then 0 else 1)
  {
    sent', count', errors' := sent, count, errors;
    match p {
      case FasdSkip =>
      case FasdBad =>
        errors' := errors + 1;
      case FasdEntry(path, rank, ts) =>
        var e := FasdAdd(path, if isDir(path) then "d" else "f", rank, ts);
        sent' := sent + [e];
        if added(e) {
          count' := count + 1;
        } else {
          errors' := errors + 1;
        }
    }
  }

  /** `cmd_import_fasd`: one `frecent_add` request per entry; unreadable or malformed lines and failed requests are errors. */
  method CmdImportFasd(lines: seq<LineRead>, parseRank: string -> Option<real>, isDir: string -> bool, added: FasdAdd -> bool)
    returns (sent: seq<FasdAdd>, count: nat, errors: nat)
    ensures sent == ImportedFasd(lines, parseRank, isDir)
    ensures count == Successes(sent, added)
    ensures count + errors == |sent| + FasdLineErrors(lines, parseRank)
  {
    sent := [];
    count := 0;
    errors := 0;
    var i := 0;
    while i < |lines|
      invariant ImportFasdInv(lines, i, parseRank, isDir, added, sent, count, errors)
    {
      var p := LineFasd(lines[i], parseRank);
      ImportFasdInvStep(lines, i, parseRank, isDir, added, sent, count, errors, p);
      sent, count, errors := ImportFasdLine(p, isDir, added, sent, count, errors);
      i := i + 1;
    }
    assert lines[..i] == lines;
  }

  // ---------------------------------------------------------------------------
  // Request parameters

  /** The object fields `o` carry `key` exactly when `v` has a value, and then that value. */
  predicate Sent(o: map<string, Json>, key: string, v: Option<Json>)
  {
    (key in o <==> v.Some?) && (v.Some? ==> o[key] == v.value)
  }

  function IntValue(v: Option<int>): Option<Json>
  {
    if v.Some? then Some(JInt(v.value)) else None
  }

  function StrValue(v: Option<string>): Option<Json>
  {
    if v.Some? then Some(JStr(v.value)) else None
  }

  /** The fields a client sends for `store`. */
  predicate StoreFieldsSent(o: map<string, Json>, cmd: string, cwd: string, exitStatus: Option<int>, durationMs: Option<int>,
                            startTime: Option<int>, sessionId: Option<int>,
                            prevCmd: Option<string>, prev2Cmd: Option<string>)
  {
    && "cmd" in o && o["cmd"] == JStr(cmd) && "cwd" in o && o["cwd"] == JStr(cwd)
    && Sent(o, "exit_status", IntValue(exitStatus)) && Sent(o, "duration_ms", IntValue(durationMs))
    && Sent(o, "start_time", IntValue(startTime)) && Sent(o, "session_id", IntValue(sessionId))
    && Sent(o, "prev_cmd", StrValue(prevCmd)) && Sent(o, "prev2_cmd", StrValue(prev2Cmd))
  }

  /** The object `m` with each field of `fs` that has a value set to it, in order. */
  function PutPresent(m: map<string, Json>, fs: seq<(string, Option<Json>)>): map<string, Json>
    decreases |fs|
  {
    if fs == [] then m
    else
      var (k, v) := fs[0];
      PutPresent(if v.Some? then m[k := v.value] else m, fs[1..])
  }

  predicate DistinctKeys(fs: seq<(string, Option<Json>)>)
  {
    forall i, j :: 0 <= i < j < |fs| ==> fs[i].0 != fs[j].0
  }

  /** A key none of the fields names keeps its presence and value. */
  lemma {:induction false} PutPresentKeeps(m: map<string, Json>, fs: seq<(string, Option<Json>)>, k: string)
    requires forall i :: 0 <= i < |fs| ==> fs[i].0 != k
    ensures k in PutPresent(m, fs) <==> k in m
    ensures k in m ==> PutPresent(m, fs)[k] == m[k]
    decreases |fs|
  {
    if fs != [] {
      var (k0, v) := fs[0];
      PutPresentKeeps(if v.Some? then m[k0 := v.value] else m, fs[1..], k);
    }
  }

  /** With distinct new keys, each field ends up present exactly when it has a value, with that value. */
  lemma {:induction false} PutPresentSent(m: map<string, Json>, fs: seq<(string, Option<Json>)>, i: nat)
    requires DistinctKeys(fs) && i < |fs| && fs[i].0 !in m
    ensures Sent(PutPresent(m, fs), fs[i].0, fs[i].1)
    decreases |fs|
  {
    var (k0, v) := fs[0];
    var m' := if v.Some? then m[k0 := v.value] else m;
    if i == 0 {
      PutPresentKeeps(m', fs[1..], k0);
    } else {
      PutPresentSent(m', fs[1..], i - 1);
    }
  }

  /** `cmd_store`'s optional fields, in the order it sets them. */
  function StoreOptionalFields(exitStatus: Option<int>, durationMs: Option<int>, startTime: Option<int>, sessionId: Option<int>,
                               prevCmd: Option<string>, prev2Cmd: Option<string>): (fs: seq<(string, Option<Json>)>)
    ensures |fs| == 6 && DistinctKeys(fs)
    ensures forall i :: 0 <= i < 6 ==> fs[i].0 != "cmd" && fs[i].0 != "cwd"
  {
    [("exit_status", IntValue(exitStatus)), ("duration_ms", IntValue(durationMs)), ("start_time", IntValue(startTime)),
     ("session_id", IntValue(sessionId)), ("prev_cmd", StrValue(prevCmd)), ("prev2_cmd", StrValue(prev2Cmd))]
  }

  /** `cmd_store`'s parameters: `cmd` and `cwd`, then each optional field set only when given. */
  function StoreRequestParams(cmd: string, cwd: string, exitStatus: Option<int>, durationMs: Option<int>,
                              startTime: Option<int>, sessionId: Option<int>,
                              prevCmd: Option<string>, prev2Cmd: Option<string>): (j: Json)
    ensures j.JObj?
  {
    JObj(PutPresent(map["cmd" := JStr(cmd), "cwd" := JStr(cwd)],
                    StoreOptionalFields(exitStatus, durationMs, startTime, sessionId, prevCmd, prev2Cmd)))
  }

  /** The store request carries `cmd`, `cwd` and exactly the optional fields that were given. */
  lemma StoreRequestFields(cmd: string, cwd: string, exitStatus: Option<int>, durationMs: Option<int>,
                           startTime: Option<int>, sessionId: Option<int>,
                           prevCmd: Option<string>, prev2Cmd: Option<string>)
    ensures StoreFieldsSent(StoreRequestParams(cmd, cwd, exitStatus, durationMs, startTime, sessionId, prevCmd, prev2Cmd).fields,
                            cmd, cwd, exitStatus, durationMs, startTime, sessionId, prevCmd, prev2Cmd)
  {
    var m := map["cmd" := JStr(cmd), "cwd" := JStr(cwd)];
    var fs := StoreOptionalFields(exitStatus, durationMs, startTime, sessionId, prevCmd, prev2Cmd);
    PutPresentSent(m, fs, 0);
    PutPresentSent(m, fs, 1);
    PutPresentSent(m, fs, 2);
    PutPresentSent(m, fs, 3);
    PutPresentSent(m, fs, 4);
    PutPresentSent(m, fs, 5);
    PutPresentKeeps(m, fs, "cmd");
    PutPresentKeeps(m, fs, "cwd");
  }

  /** Within the daemon's integer ranges, the daemon decodes exactly what the client sent. */
  lemma StoreRequestDecodes(cmd: string, cwd: string, exitStatus: Option<int>, durationMs: Option<int>,
                            startTime: Option<int>, sessionId: Option<int>,
                            prevCmd: Option<string>, prev2Cmd: Option<string>)
    requires exitStatus.Some? ==> I32_MIN <= exitStatus.value <= I32_MAX
    requires durationMs.Some? ==> IsI64(durationMs.value)
    requires startTime.Some? ==> IsI64(startTime.value)
    requires sessionId.Some? ==> IsI64(sessionId.value)
    ensures DecodeStoreParams(StoreRequestParams(cmd, cwd, exitStatus, durationMs, startTime, sessionId, prevCmd, prev2Cmd))
      == Ok(StoreParams(cmd, cwd, exitStatus, durationMs, startTime, sessionId, prevCmd, prev2Cmd))
  {
    var j := StoreRequestParams(cmd, cwd, exitStatus, durationMs, startTime, sessionId, prevCmd, prev2Cmd);
    StoreRequestFields(cmd, cwd, exitStatus, durationMs, startTime, sessionId, prevCmd, prev2Cmd);
    StoreFieldsDecode(j.fields, cmd, cwd, exitStatus, durationMs, startTime, sessionId, prevCmd, prev2Cmd);
  }

  /** Whatever object carries the store fields, the daemon decodes them back within its integer ranges. */
  lemma StoreFieldsDecode(o: map<string, Json>, cmd: string, cwd: string, exitStatus: Option<int>, durationMs: Option<int>,
                          startTime: Option<int>, sessionId: Option<int>,
                          prevCmd: Option<string>, prev2Cmd: Option<string>)
    requires StoreFieldsSent(o, cmd, cwd, exitStatus, durationMs, startTime, sessionId, prevCmd, prev2Cmd)
    requires exitStatus.Some? ==> I32_MIN <= exitStatus.value <= I32_MAX
    requires durationMs.Some? ==> IsI64(durationMs.value)
    requires startTime.Some? ==> IsI64(startTime.value)
    requires sessionId.Some? ==> IsI64(sessionId.value)
    ensures DecodeStoreParams(JObj(o)) == Ok(StoreParams(cmd, cwd, exitStatus, durationMs, startTime, sessionId, prevCmd, prev2Cmd))
  {
  }

  /** `cmd_predict`'s recent commands: the last one, then the one before, each only when given. */
  function LastCmds(lastCmd: Option<string>, prevCmd: Option<string>): (r: seq<string>)
    ensures |r| == (if lastCmd.Some? then 1 else 0) + (if prevCmd.Some? then 1 else 0)
    ensures lastCmd.Some? ==> r[0] == lastCmd.value
    ensures prevCmd.Some? ==> r[|r| - 1] == prevCmd.value
  {
    (if lastCmd.Some? then [lastCmd.value] else []) + (if prevCmd.Some? then [prevCmd.value] else [])
  }

  /** `cmd_predict`'s parameters: `last_cmds` is left out when empty. */
  function PredictRequestParams(prefix: string, cwd: string, limit: nat, lastCmd: Option<string>, prevCmd: Option<string>): (j: Json)
    ensures j.JObj? && ("last_cmds" in j.fields <==> lastCmd.Some? || prevCmd.Some?)
  {
    var m := map["prefix" := JStr(prefix), "cwd" := JStr(cwd), "limit" := JInt(limit)];
    var last := LastCmds(lastCmd, prevCmd);
    if last == [] then JObj(m)
    else JObj(m["last_cmds" := JArr(seq(|last|, n requires 0 <= n < |last| => JStr(last[n])))])
  }

  /** The daemon decodes the client's predict request to the same prefix, directory, limit and recent commands. */
  lemma PredictRequestDecodes(prefix: string, cwd: string, limit: nat, lastCmd: Option<string>, prevCmd: Option<string>)
    requires limit <= U64_MAX
    ensures DecodePredictParams(PredictRequestParams(prefix, cwd, limit, lastCmd, prevCmd))
      == Ok(PredictParams(prefix, cwd, LastCmds(lastCmd, prevCmd), limit, true, None))
  {
    var last := LastCmds(lastCmd, prevCmd);
    if last != [] {
      PredictParamsGiven(prefix, cwd, limit, last);
      var o := map["prefix" := JStr(prefix), "cwd" := JStr(cwd), "limit" := JInt(limit),
        "last_cmds" := JArr(seq(|last|, n requires 0 <= n < |last| => JStr(last[n])))];
      assert PredictRequestParams(prefix, cwd, limit, lastCmd, prevCmd) == JObj(o);
    }
  }

  /** The `frecent` command's type filter: `--dirs` wins over `--files`; neither means no filter. */
  function FrecentTypeFilter(dirs: bool, files: bool): (r: Option<string>)
    ensures r.None? <==> !dirs && !files
    ensures dirs ==> r == Some("d")
    ensures !dirs && files ==> r == Some("f")
  {
    if dirs then Some("d") else if files then Some("f") else None
  }
}
