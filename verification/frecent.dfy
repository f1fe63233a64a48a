/**
 * Frecent-path matching and ranking: ordered-substring and fuzzy matching of
 * query terms against a path, the fasd time weight, and the three-tier
 * fallback of a frecent query.
 */
module Frecent {
  import opened Common
  import opened Text
  import opened Protocol

  // ---------------------------------------------------------------------------
  // Ordered substrings

  /**
   * `ps` places every needle of `ts` in `h`, in order and without overlap,
   * the first at or after `from`.
   */
  predicate Embedding(h: string, ts: seq<string>, from: int, ps: seq<int>)
  {
    && |ps| == |ts|
    && (forall k :: 0 <= k < |ts| ==> OccursAt(h, ts[k], ps[k]))
    && (|ps| > 0 ==> ps[0] >= from)
    && (forall k :: 0 < k < |ps| ==> ps[k] >= ps[k - 1] + |ts[k - 1]|)
  }

  /** The search of `matches_ordered_substring`: each needle at its first occurrence after the previous match. */
  function Ordered(h: string, ts: seq<string>, from: nat): bool
    requires from <= |h|
  {
    if ts == [] then true
    else match FindFrom(h, ts[0], from)
      case None => false
      case Some(p) => Ordered(h, ts[1..], p + |ts[0]|)
  }

  /** A placement of the first needle at `p` in front of a placement of the others. */
  lemma EmbeddingCons(h: string, ts: seq<string>, from: int, p: int, ps: seq<int>)
    requires ts != [] && p >= from && OccursAt(h, ts[0], p)
    requires Embedding(h, ts[1..], p + |ts[0]|, ps)
    ensures Embedding(h, ts, from, [p] + ps)
  {
    var u := [p] + ps;
    forall k | 0 < k < |ts|
      ensures OccursAt(h, ts[k], u[k])
    {
      assert ts[k] == ts[1..][k - 1] && u[k] == ps[k - 1];
    }
    forall k | 0 < k < |u|
      ensures u[k] >= u[k - 1] + |ts[k - 1]|
    {
      if k > 1 {
        assert u[k] == ps[k - 1] && u[k - 1] == ps[k - 2] && ts[k - 1] == ts[1..][k - 2];
      }
    }
  }

  /** A placement without its first needle places the others after any point up to the first one. */
  lemma EmbeddingTail(h: string, ts: seq<string>, from: int, ps: seq<int>, q: int)
    requires Embedding(h, ts, from, ps) && ts != [] && q <= ps[0]
    ensures Embedding(h, ts[1..], q + |ts[0]|, ps[1..])
  {
    var t := ts[1..];
    forall k | 0 <= k < |t|
      ensures OccursAt(h, t[k], ps[1..][k])
    {
      assert t[k] == ts[k + 1] && ps[1..][k] == ps[k + 1];
    }
    if |t| > 0 {
      assert ps[1..][0] == ps[1] >= ps[0] + |ts[0]|;
    }
    forall k | 0 < k < |t|
      ensures ps[1..][k] >= ps[1..][k - 1] + |t[k - 1]|
    {
      assert ps[1..][k] == ps[k + 1] && ps[1..][k - 1] == ps[k] && t[k - 1] == ts[k];
    }
  }

  /** The search succeeding yields a placement. */
  lemma {:induction false} OrderedGivesEmbedding(h: string, ts: seq<string>, from: nat)
    requires from <= |h| && Ordered(h, ts, from)
    ensures exists ps :: Embedding(h, ts, from, ps)
    decreases |ts|
  {
    if ts == [] {
      assert Embedding(h, ts, from, []);
    } else {
      var p := FindFrom(h, ts[0], from).value;
      OrderedGivesEmbedding(h, ts[1..], p + |ts[0]|);
      var ps :| Embedding(h, ts[1..], p + |ts[0]|, ps);
      EmbeddingCons(h, ts, from, p, ps);
    }
  }

  /** Any placement means the search succeeds. */
  lemma {:induction false} EmbeddingGivesOrdered(h: string, ts: seq<string>, from: nat, ps: seq<int>)
    requires from <= |h| && Embedding(h, ts, from, ps)
    ensures Ordered(h, ts, from)
    decreases |ts|
  {
    if ts != [] {
      assert OccursAt(h, ts[0], ps[0]);
      var f := FindFrom(h, ts[0], from);
      assert f.Some?;
      var p := f.value;
      EmbeddingTail(h, ts, from, ps, p);
      EmbeddingGivesOrdered(h, ts[1..], p + |ts[0]|, ps[1..]);
    }
  }

  /** Taking each needle at its earliest occurrence finds a placement whenever one exists. */
  lemma OrderedIffEmbedding(h: string, ts: seq<string>, from: nat)
    requires from <= |h|
    ensures Ordered(h, ts, from) <==> exists ps :: Embedding(h, ts, from, ps)
  {
    if Ordered(h, ts, from) {
      OrderedGivesEmbedding(h, ts, from);
    }
    if ps :| Embedding(h, ts, from, ps) {
      EmbeddingGivesOrdered(h, ts, from, ps);
    }
  }

  /** The text compared: the path as is, or lowercased. */
  function Haystack(path: string, caseInsensitive: bool): (h: string)
    ensures |h| == |path|
  {
    if caseInsensitive then ToLower(path) else path
  }

  /** The terms compared: as given, or lowercased. */
  function Needles(terms: seq<string>, caseInsensitive: bool): (ns: seq<string>)
    ensures |ns| == |terms|
    ensures forall k :: 0 <= k < |terms| ==> ns[k] == (if caseInsensitive then ToLower(terms[k]) else terms[k])
  {
    if caseInsensitive then seq(|terms|, k requires 0 <= k < |terms| => ToLower(terms[k])) else terms
  }

  /**
   * `matches_ordered_substring`: every term occurs in the path after the end
   * of the previous term's match; with `caseInsensitive`, both sides are lowercased.
   */
  method MatchesOrderedSubstring(path: string, terms: seq<string>, caseInsensitive: bool) returns (m: bool)
    ensures m == Ordered(Haystack(path, caseInsensitive), Needles(terms, caseInsensitive), 0)
    ensures terms == [] ==> m
  {
    var haystack := Haystack(path, caseInsensitive);
    var needles := Needles(terms, caseInsensitive);
    m := SearchInOrder(haystack, needles);
  }

  /** The loop of `matches_ordered_substring`: each needle is searched for from the end of the previous match. */
  method SearchInOrder(haystack: string, needles: seq<string>) returns (m: bool)
    ensures m == Ordered(haystack, needles, 0)
    ensures needles == [] ==> m
  {
    ghost var goal := Ordered(haystack, needles, 0);
    var searchFrom: nat := 0;
    var i := 0;
    assert needles[0..] == needles;
    while i < |needles|
      invariant 0 <= i <= |needles| && searchFrom <= |haystack|
      invariant goal == Ordered(haystack, needles[i..], searchFrom)
    {
      var pos := FindFrom(haystack, needles[i], searchFrom);
      OrderedStep(haystack, needles, i, searchFrom, pos);
      if pos.None? {
        return false;
      }
      searchFrom := pos.value + |needles[i]|;
      i := i + 1;
    }
    assert needles[i..] == [];
    return true;
  }

  /** One step of the search: the needle at `i` is looked for at or after `from`, and the rest after it. */
  lemma OrderedStep(h: string, ts: seq<string>, i: nat, from: nat, pos: Option<nat>)
    requires i < |ts| && from <= |h| && pos == FindFrom(h, ts[i], from)
    ensures pos.None? ==> !Ordered(h, ts[i..], from)
    ensures pos.Some? ==>
      && pos.value + |ts[i]| <= |h|
      && Ordered(h, ts[i..], from) == Ordered(h, ts[i + 1..], pos.value + |ts[i]|)
  {
    assert ts[i..][0] == ts[i];
    assert ts[i..][1..] == ts[i + 1..];
  }

  /** A match means the terms can be placed in the path in order without overlap, and conversely. */
  lemma OrderedSubstringMeaning(path: string, terms: seq<string>, caseInsensitive: bool)
    ensures Ordered(Haystack(path, caseInsensitive), Needles(terms, caseInsensitive), 0) <==>
      exists ps :: Embedding(Haystack(path, caseInsensitive), Needles(terms, caseInsensitive), 0, ps)
  {
    OrderedIffEmbedding(Haystack(path, caseInsensitive), Needles(terms, caseInsensitive), 0);
  }

  /** `["proj", "src"]` matches `/home/user/project/src`. */
  lemma OrderedExample(h: string)
    requires h == "/home/user/project/src"
    ensures Ordered(h, ["proj", "src"], 0)
  {
    var ts := ["proj", "src"];
    assert h[11..15] == "proj" && h[19..22] == "src";
    assert Embedding(h, ts, 0, [11, 19]);
    OrderedIffEmbedding(h, ts, 0);
  }

  /** The order of the terms matters: `["src", "proj"]` does not match `/home/user/project/src`. */
  lemma OrderedReverseExample(h: string)
    requires h == "/home/user/project/src"
    ensures !Ordered(h, ["src", "proj"], 0)
  {
    forall i | 0 <= i <= 15
      ensures !OccursAt(h, "src", i)
    {
      assert h[..7] == "/home/u" && h[8..16] == "er/proje" && h[8] == 'e';
      assert h[i..i + 3][0] == h[i] && h[i..i + 3][1] == h[i + 1];
      if i < 7 {
        assert h[i] == h[..7][i];
      } else if i > 7 {
        assert h[i] == h[8..16][i - 8];
      }
    }
    LateFirstTermFails(h, "src", "proj", 15);
  }

  /** Two terms cannot match when the first occurs nowhere up to `last`, and past `last` there is no room for both. */
  lemma LateFirstTermFails(h: string, a: string, b: string, last: nat)
    requires |h| <= last + |a| + |b|
    requires forall i :: 0 <= i <= last ==> !OccursAt(h, a, i)
    ensures !Ordered(h, [a, b], 0)
  {
    match FindFrom(h, a, 0)
    case None =>
    case Some(p) =>
      assert [a, b][1..] == [b];
      assert FindFrom(h, b, p + |a|).None?;
  }

  /** Case-sensitive matching tells `Project` from `project`; lowercasing both sides finds it. */
  lemma OrderedCaseExample(p: string)
    requires p == "/Home/User/Project"
    ensures Ordered(Haystack(p, true), Needles(["project"], true), 0)
    ensures !Ordered(Haystack(p, false), Needles(["project"], false), 0)
  {
    var h := Haystack(p, true);
    assert Needles(["project"], true) == ["project"] by {
      assert ToLower("project") == "project";
    }
    assert h[11..18] == "project";
    assert Embedding(h, ["project"], 0, [11]);
    OrderedIffEmbedding(h, ["project"], 0);
    NotContainsFirstChar(p, "project");
    OrderedIffEmbedding(p, ["project"], 0);
  }

  // ---------------------------------------------------------------------------
  // Fuzzy matching

  /** The terms joined together. */
  function Concat(ts: seq<string>): (s: string)
    ensures ts == [] ==> s == []
  {
    if ts == [] then [] else ts[0] + Concat(ts[1..])
  }

  /** The lowercased terms. */
  function Lows(ts: seq<string>): (ls: seq<string>)
    ensures |ls| == |ts| && forall k :: 0 <= k < |ts| ==> ls[k] == ToLower(ts[k])
  {
    seq(|ts|, k requires 0 <= k < |ts| => ToLower(ts[k]))
  }

  /** Scanning `h` once, left to right, finds the characters of `n` in order. */
  function Greedy(n: string, h: string): bool
    decreases |h|
  {
    if n == [] then true
    else if h == [] then false
    else if h[0] == n[0] then Greedy(n[1..], h[1..])
    else Greedy(n, h[1..])
  }

  /** `ks` picks, in increasing order, positions of `h` holding the characters of `n`. */
  predicate Picks(n: string, h: string, ks: seq<nat>)
  {
    && |ks| == |n|
    && (forall k :: 0 <= k < |ks| ==> ks[k] < |h| && h[ks[k]] == n[k])
    && (forall k :: 0 < k < |ks| ==> ks[k - 1] < ks[k])
  }

  /** `n` is a subsequence of `h`. */
  ghost predicate IsSubsequence(n: string, h: string)
  {
    exists ks :: Picks(n, h, ks)
  }

  /** What the one-pass scan finds is a subsequence. */
  lemma {:induction false} GreedyFindsPicks(n: string, h: string)
    requires Greedy(n, h)
    ensures IsSubsequence(n, h)
    decreases |h|
  {
    if n == [] {
      assert Picks(n, h, []);
    } else if h[0] == n[0] {
      GreedyFindsPicks(n[1..], h[1..]);
      var ks :| Picks(n[1..], h[1..], ks);
      assert Picks(n, h, [0] + seq(|ks|, k requires 0 <= k < |ks| => ks[k] + 1));
    } else {
      GreedyFindsPicks(n, h[1..]);
      var ks :| Picks(n, h[1..], ks);
      assert Picks(n, h, seq(|ks|, k requires 0 <= k < |ks| => ks[k] + 1));
    }
  }

  /** The one-pass scan misses no subsequence. */
  lemma {:induction false} PicksFoundByGreedy(n: string, h: string, ks: seq<nat>)
    requires Picks(n, h, ks)
    ensures Greedy(n, h)
    decreases |h|
  {
    if n != [] {
      PicksNeedRoom(n, h, ks);
      if h[0] == n[0] {
        forall k | 0 <= k < |ks| - 1
          ensures ks[1..][k] > ks[0]
        {
          PicksIncreasing(n, h, ks, 0, k + 1);
        }
        assert Picks(n[1..], h, ks[1..]);
        ShiftPicks(n[1..], h, ks[1..], ks[0]);
        PicksFoundByGreedy(n[1..], h[1..], seq(|ks| - 1, k requires 0 <= k < |ks| - 1 => ks[1..][k] - 1));
      } else {
        forall k | 0 <= k < |ks|
          ensures ks[k] > 0
        {
          if k > 0 {
            PicksIncreasing(n, h, ks, 0, k);
          } else {
            assert h[ks[0]] == n[0];
          }
        }
        ShiftPicks(n, h, ks, 0);
        PicksFoundByGreedy(n, h[1..], seq(|ks|, k requires 0 <= k < |ks| => ks[k] - 1));
      }
    }
  }

  /** The one-pass scan decides the subsequence relation. */
  lemma GreedyIffSubsequence(n: string, h: string)
    ensures Greedy(n, h) <==> IsSubsequence(n, h)
  {
    if Greedy(n, h) {
      GreedyFindsPicks(n, h);
    }
    if ks :| Picks(n, h, ks) {
      PicksFoundByGreedy(n, h, ks);
    }
  }

  /** The first character of a picked string occurs in the text. */
  lemma FirstCharPicked(n: string, h: string, ks: seq<nat>)
    requires Picks(n, h, ks) && n != []
    ensures n[0] in h
  {
    assert h[ks[0]] == n[0];
  }

  /** A non-empty string has no picks in the empty string. */
  lemma PicksNeedRoom(n: string, h: string, ks: seq<nat>)
    requires Picks(n, h, ks) && n != []
    ensures h != []
  {
    assert ks[0] < |h|;
  }

  /** Picks are strictly increasing, not only from one to the next. */
  lemma {:induction false} PicksIncreasing(n: string, h: string, ks: seq<nat>, i: nat, j: nat)
    requires Picks(n, h, ks) && i < j < |ks|
    ensures ks[i] < ks[j]
    decreases j - i
  {
    if i + 1 < j {
      PicksIncreasing(n, h, ks, i + 1, j);
    }
  }

  /** Picks after position `p` of `h` are picks in `h[1..]` once shifted down by one. */
  lemma ShiftPicks(n: string, h: string, ks: seq<nat>, p: nat)
    requires h != [] && Picks(n, h, ks) && forall k :: 0 <= k < |ks| ==> ks[k] > p
    ensures Picks(n, h[1..], seq(|ks|, k requires 0 <= k < |ks| => ks[k] - 1))
  {
  }

  /** One step of the scan at position `i` of `h`: a match consumes the character looked for. */
  lemma GreedyAt(c: char, rest: string, h: string, i: nat)
    requires i < |h|
    ensures Greedy([c] + rest, h[i..]) ==
      if h[i] == c then Greedy(rest, h[i + 1..]) else Greedy([c] + rest, h[i + 1..])
  {
    assert h[i..][1..] == h[i + 1..];
    assert ([c] + rest)[1..] == rest;
  }

  /**
   * `matches_fuzzy`: one cursor over the lowercased path is shared by all
   * lowercased terms; each term character consumes path characters up to and
   * including the next equal one, and running out of path fails the match.
   */
  method MatchesFuzzy(path: string, terms: seq<string>) returns (m: bool)
    ensures m == Greedy(Concat(Lows(terms)), ToLower(path))
  {
    var h := ToLower(path);
    var ls := Lows(terms);
    m := FuzzyScan(h, ls);
  }

  /** The loops of `matches_fuzzy` over the lowercased path and terms. */
  method FuzzyScan(h: string, ls: seq<string>) returns (m: bool)
    ensures m == Greedy(Concat(ls), h)
  {
    ghost var goal := Greedy(Concat(ls), h);
    var i := 0;
    var t := 0;
    assert ls[0..] == ls;
    assert h[0..] == h;
    while t < |ls|
      invariant 0 <= t <= |ls| && 0 <= i <= |h|
      invariant goal == Greedy(Concat(ls[t..]), h[i..])
    {
      var term := ls[t];
      ghost var tail := Concat(ls[t + 1..]);
      ConcatFrom(ls, t);
      var c := 0;
      assert term[0..] == term;
      while c < |term|
        invariant 0 <= c <= |term| && 0 <= i <= |h|
        invariant goal == Greedy(term[c..] + tail, h[i..])
      {
        var tc := term[c];
        ghost var rest := term[c + 1..] + tail;
        TermSplit(term, c, tail);
        while true
          invariant 0 <= i <= |h|
          invariant goal == Greedy([tc] + rest, h[i..])
          decreases |h| - i
        {
          if i == |h| {
            assert h[i..] == [];
            return false;
          }
          var pc := h[i];
          GreedyAt(tc, rest, h, i);
          i := i + 1;
          if pc == tc {
            break;
          }
        }
        c := c + 1;
      }
      assert term[c..] + tail == tail;
      t := t + 1;
    }
    assert ls[t..] == [];
    return true;
  }

  /** Joining from term `t` on is term `t` followed by the join of the later terms. */
  lemma ConcatFrom(ls: seq<string>, t: nat)
    requires t < |ls|
    ensures Concat(ls[t..]) == ls[t] + Concat(ls[t + 1..])
  {
    assert ls[t..][1..] == ls[t + 1..];
  }

  /** The rest of a term from `c` is its character `c` followed by what comes after it. */
  lemma TermSplit(term: string, c: nat, tail: string)
    requires c < |term|
    ensures term[c..] + tail == [term[c]] + (term[c + 1..] + tail)
  {
    assert term[c..] == [term[c]] + term[c + 1..];
  }

  /** A fuzzy match holds exactly when the lowercased terms, joined, form a subsequence of the lowercased path. */
  lemma FuzzyMeaning(path: string, terms: seq<string>)
    ensures Greedy(Concat(Lows(terms)), ToLower(path)) <==> IsSubsequence(Concat(Lows(terms)), ToLower(path))
  {
    GreedyIffSubsequence(Concat(Lows(terms)), ToLower(path));
  }

  /** A string without upper-case ASCII letters is its own lowercase. */
  lemma LowercaseFixed(s: string)
    requires forall k :: 0 <= k < |s| ==> !('A' <= s[k] <= 'Z')
    ensures ToLower(s) == s
  {
  }

  /** A single term, joined, is that term lowercased. */
  lemma OneTerm(t: string)
    ensures Concat(Lows([t])) == ToLower(t)
  {
    assert Lows([t]) == [ToLower(t)];
    assert [ToLower(t)][1..] == [];
  }

  /** The test's first case: "prj" is found in `/home/user/project`. */
  lemma FuzzyExampleFound(path: string)
    requires path == "/home/user/project"
    ensures Greedy(Concat(Lows(["prj"])), ToLower(path))
  {
    LowercaseFixed(path);
    LowercaseFixed("prj");
    OneTerm("prj");
    assert Picks("prj", path, [11, 12, 14]);
    GreedyIffSubsequence("prj", path);
  }

  /** The test's second case: "xyz" is not found in `/home/user/project`. */
  lemma FuzzyExampleMissing(path: string)
    requires path == "/home/user/project"
    ensures !Greedy(Concat(Lows(["xyz"])), ToLower(path))
  {
    LowercaseFixed(path);
    LowercaseFixed("xyz");
    OneTerm("xyz");
    assert 'x' !in path;
    forall ks | Picks("xyz", path, ks)
      ensures false
    {
      FirstCharPicked("xyz", path, ks);
    }
    GreedyIffSubsequence("xyz", path);
  }

  // ---------------------------------------------------------------------------
  // Scores and the query

  /** The fasd time weight: 6 within an hour, 4 within a day, 2 within a week, 1 after that. */
  function Weight(lastAccess: int, now: int): (w: int)
    ensures w in {1, 2, 4, 6}
    ensures now - lastAccess < 3600 ==> w == 6
  {
    var age := if now - lastAccess > 0 then now - lastAccess else 0;
    if age < 3600 then 6
    else if age < 86400 then 4
    else if age < 604800 then 2
    else 1
  }

  /** Older accesses never weigh more. */
  lemma WeightMonotone(older: int, newer: int, now: int)
    requires older <= newer
    ensures Weight(older, now) <= Weight(newer, now)
  {
  }

  /** `frecency_score`: the rank scaled by the time weight. */
  function FrecencyScore(rank: real, lastAccess: int, now: int): (s: real)
    ensures rank > 0.0 ==> rank <= s <= 6.0 * rank
  {
    rank * Weight(lastAccess, now) as real
  }

  /** The order of the test: an hour-old rank beats a day-old one, which beats a week-old one, which beats an older one. */
  lemma FrecencyScoreExample(now: int)
    ensures FrecencyScore(10.0, now - 100, now) > FrecencyScore(10.0, now - 50000, now)
    ensures FrecencyScore(10.0, now - 50000, now) > FrecencyScore(10.0, now - 400000, now)
    ensures FrecencyScore(10.0, now - 400000, now) > FrecencyScore(10.0, now - 1000000, now)
  {
  }

  /** A stored frecent path: path, type, rank and last access time. */
  datatype Candidate = Candidate(path: string, pathType: string, rank: real, lastAccess: int)

  /** The result row of a candidate; the raw rank and time are included only on request. */
  function Scored(c: Candidate, raw: bool, now: int): (r: FrecencyResult)
    ensures r.path == c.path && r.pathType == c.pathType
    ensures r.rank.Some? <==> raw
    ensures r.lastAccess.Some? <==> raw
  {
    FrecencyResult(c.path, c.pathType, FrecencyScore(c.rank, c.lastAccess, now),
      if raw then Some(c.rank) else None, if raw then Some(c.lastAccess) else None)
  }

  /** The type stored by the candidate query: "f" asks for files, any other given type for directories. */
  function PathTypeFilter(pathType: Option<string>): (r: Option<string>)
    ensures pathType.None? <==> r.None?
    ensures r.Some? ==> r.value in {"f", "d"}
  {
    match pathType
    case None => None
    case Some(pt) => if pt == "f" then Some("f") else Some("d")
  }

  /** The candidates of the requested type. */
  function OfType(rows: seq<Candidate>, pathType: Option<string>): (cs: seq<Candidate>)
    ensures |cs| <= |rows|
    ensures forall c :: c in cs ==> c in rows
    ensures PathTypeFilter(pathType).Some? ==> forall c :: c in cs ==> c.pathType == PathTypeFilter(pathType).value
  {
    if rows == [] then []
    else
      var rest := OfType(rows[1..], pathType);
      var f := PathTypeFilter(pathType);
      if f.None? || rows[0].pathType == f.value then [rows[0]] + rest else rest
  }

  /** The three match kinds, tried in this order. */
  datatype Tier = CaseSensitive | CaseInsensitive | Fuzzy

  /** Whether `path` matches `terms` in the given tier. */
  predicate MatchesIn(tier: Tier, path: string, terms: seq<string>)
  {
    match tier
    case CaseSensitive => Ordered(Haystack(path, false), Needles(terms, false), 0)
    case CaseInsensitive => Ordered(Haystack(path, true), Needles(terms, true), 0)
    case Fuzzy => Greedy(Concat(Lows(terms)), ToLower(path))
  }

  /** The candidates matching in a tier, scored, in candidate order. */
  function Matching(cs: seq<Candidate>, tier: Tier, terms: seq<string>, raw: bool, now: int): (rs: seq<FrecencyResult>)
    ensures |rs| <= |cs|
    ensures (exists c :: c in cs && MatchesIn(tier, c.path, terms)) <==> rs != []
    ensures forall r :: r in rs ==> exists c :: c in cs && MatchesIn(tier, c.path, terms) && r == Scored(c, raw, now)
  {
    if cs == [] then []
    else
      var rest := Matching(cs[1..], tier, terms, raw, now);
      assert forall c :: c in cs[1..] ==> c in cs;
      assert forall c :: c in cs ==> c == cs[0] || c in cs[1..];
      if MatchesIn(tier, cs[0].path, terms) then [Scored(cs[0], raw, now)] + rest else rest
  }

  /** Every candidate scored, in candidate order. */
  function ScoreAll(cs: seq<Candidate>, raw: bool, now: int): (rs: seq<FrecencyResult>)
    ensures |rs| == |cs| && forall k :: 0 <= k < |cs| ==> rs[k] == Scored(cs[k], raw, now)
  {
    seq(|cs|, k requires 0 <= k < |cs| => Scored(cs[k], raw, now))
  }

  /** The tiers: the first that matches anything decides the results. */
  function TieredMatches(cs: seq<Candidate>, terms: seq<string>, raw: bool, now: int): seq<FrecencyResult>
  {
    var t1 := Matching(cs, CaseSensitive, terms, raw, now);
    if t1 != [] then t1
    else
      var t2 := Matching(cs, CaseInsensitive, terms, raw, now);
      if t2 != [] then t2 else Matching(cs, Fuzzy, terms, raw, now)
  }

  /** Non-increasing scores. */
  predicate SortedDesc(rs: seq<FrecencyResult>)
  {
    forall i, j :: 0 <= i < j < |rs| ==> rs[i].score >= rs[j].score
  }

  /** Places `r` before the first element scoring no more than it, so equal scores keep their order. */
  function InsertByScore(r: FrecencyResult, rs: seq<FrecencyResult>): (out: seq<FrecencyResult>)
    requires SortedDesc(rs)
    ensures |out| == |rs| + 1
    ensures out[0] == r || (rs != [] && out[0] == rs[0])
    ensures SortedDesc(out)
    ensures multiset(out) == multiset(rs) + multiset{r}
  {
    if rs == [] then [r]
    else if rs[0].score <= r.score then
      SortedCons(r, rs);
      [r] + rs
    else
      assert rs == [rs[0]] + rs[1..];
      SortedTail(rs);
      var rest := InsertByScore(r, rs[1..]);
      assert |rs| > 1 ==> rs[1..][0] == rs[1] && rs[0].score >= rs[1].score;
      SortedCons(rs[0], rest);
      assert multiset([rs[0]] + rest) == multiset{rs[0]} + multiset(rest);
      [rs[0]] + rest
  }

  /** An element scoring at least the head of a sorted sequence can go in front of it. */
  lemma SortedCons(x: FrecencyResult, rest: seq<FrecencyResult>)
    requires SortedDesc(rest) && (rest != [] ==> x.score >= rest[0].score)
    ensures SortedDesc([x] + rest)
  {
    var u := [x] + rest;
    forall i, j | 0 <= i < j < |u|
      ensures u[i].score >= u[j].score
    {
      if i == 0 {
        assert u[j] == rest[j - 1];
        assert rest[0].score >= rest[j - 1].score;
      } else {
        assert u[i] == rest[i - 1] && u[j] == rest[j - 1];
      }
    }
  }

  /** The tail of a sorted sequence is sorted. */
  lemma SortedTail(rs: seq<FrecencyResult>)
    requires SortedDesc(rs) && rs != []
    ensures SortedDesc(rs[1..])
  {
    forall i, j | 0 <= i < j < |rs[1..]|
      ensures rs[1..][i].score >= rs[1..][j].score
    {
      assert rs[1..][i] == rs[i + 1] && rs[1..][j] == rs[j + 1];
    }
  }

  /** `sort_by` descending score: a stable insertion sort. */
  function SortByScore(rs: seq<FrecencyResult>): (out: seq<FrecencyResult>)
    ensures SortedDesc(out) && multiset(out) == multiset(rs) && |out| == |rs|
  {
    if rs == [] then []
    else
      assert rs == [rs[0]] + rs[1..];
      InsertByScore(rs[0], SortByScore(rs[1..]))
  }

  /** `truncate(limit)`. */
  function Truncate<T>(s: seq<T>, limit: nat): (r: seq<T>)
    ensures |r| == if |s| <= limit then |s| else limit
    ensures r == s[..|r|]
  {
    if |s| <= limit then s else s[..limit]
  }

  /** What `frecent_query` returns for the candidates of the requested type. */
  function QueryResult(cs: seq<Candidate>, terms: seq<string>, limit: nat, raw: bool, now: int): seq<FrecencyResult>
  {
    var results := if terms == [] then ScoreAll(cs, raw, now) else TieredMatches(cs, terms, raw, now);
    Truncate(SortByScore(results), limit)
  }

  /**
   * `frecent_query`: without terms every candidate is scored; otherwise the
   * case-sensitive tier, then the case-insensitive one only if it found
   * nothing, then the fuzzy one only if that found nothing; the results are
   * sorted by descending score and cut to `limit`.
   */
  method FrecentQuery(rows: seq<Candidate>, params: FrecentQueryParams, now: int) returns (results: seq<FrecencyResult>)
    ensures results == QueryResult(OfType(rows, params.pathType), params.terms, params.limit, params.raw, now)
  {
    var cs := OfType(rows, params.pathType);
    if params.terms == [] {
      results := [];
      var i := 0;
      while i < |cs|
        invariant 0 <= i <= |cs| && |results| == i
        invariant forall k :: 0 <= k < i ==> results[k] == Scored(cs[k], params.raw, now)
      {
        results := results + [Scored(cs[i], params.raw, now)];
        i := i + 1;
      }
      assert results == ScoreAll(cs, params.raw, now);
    } else {
      results := CollectTier(cs, CaseSensitive, params.terms, params.raw, now);
      if results == [] {
        results := CollectTier(cs, CaseInsensitive, params.terms, params.raw, now);
      }
      if results == [] {
        results := CollectTier(cs, Fuzzy, params.terms, params.raw, now);
      }
      assert results == TieredMatches(cs, params.terms, params.raw, now);
    }
    results := Truncate(SortByScore(results), params.limit);
  }

  /** One tier's loop: pushes every candidate whose path matches. */
  method CollectTier(cs: seq<Candidate>, tier: Tier, terms: seq<string>, raw: bool, now: int) returns (results: seq<FrecencyResult>)
    ensures results == Matching(cs, tier, terms, raw, now)
  {
    results := [];
    var i := |cs|;
    // The model builds the list from the back so that it follows `Matching`'s recursion.
    while i > 0
      invariant 0 <= i <= |cs| && results == Matching(cs[i..], tier, terms, raw, now)
    {
      i := i - 1;
      assert cs[i..][1..] == cs[i + 1..];
      var m: bool;
      match tier {
        case CaseSensitive => m := MatchesOrderedSubstring(cs[i].path, terms, false);
        case CaseInsensitive => m := MatchesOrderedSubstring(cs[i].path, terms, true);
        case Fuzzy => m := MatchesFuzzy(cs[i].path, terms);
      }
      if m {
        results := [Scored(cs[i], raw, now)] + results;
      }
    }
  }

  /** No more than `limit` results, sorted by descending score. */
  lemma QueryBounded(cs: seq<Candidate>, terms: seq<string>, limit: nat, raw: bool, now: int)
    ensures |QueryResult(cs, terms, limit, raw, now)| <= limit
    ensures SortedDesc(QueryResult(cs, terms, limit, raw, now))
  {
    var s := SortByScore(if terms == [] then ScoreAll(cs, raw, now) else TieredMatches(cs, terms, raw, now));
    var r := QueryResult(cs, terms, limit, raw, now);
    assert r == s[..|r|];
  }

  /** Without terms, every candidate is scored: the result has `min(limit, |cs|)` entries. */
  lemma QueryWithoutTerms(cs: seq<Candidate>, limit: nat, raw: bool, now: int)
    ensures |QueryResult(cs, [], limit, raw, now)| == if |cs| <= limit then |cs| else limit
  {
  }

  /**
   * The fallback: when some candidate matches case-sensitively, every result
   * does; the case-insensitive tier is used only when none matched
   * case-sensitively, and the fuzzy tier only when neither ordered tier
   * matched anything.
   */
  lemma TierFallback(cs: seq<Candidate>, terms: seq<string>, raw: bool, now: int)
    requires terms != []
    ensures var rs := TieredMatches(cs, terms, raw, now);
      && ((exists c :: c in cs && MatchesIn(CaseSensitive, c.path, terms)) ==>
            rs == Matching(cs, CaseSensitive, terms, raw, now))
      && ((forall c :: c in cs ==> !MatchesIn(CaseSensitive, c.path, terms)) ==>
            rs == (if exists c :: c in cs && MatchesIn(CaseInsensitive, c.path, terms)
                   then Matching(cs, CaseInsensitive, terms, raw, now)
                   else Matching(cs, Fuzzy, terms, raw, now)))
      && (forall r :: r in rs ==> exists c :: c in cs && r == Scored(c, raw, now))
  {
  }
}
