/**
 * Character and string operations of Rust's `str` that the daemon and the CLI
 * rely on: `trim`, `starts_with`, `ends_with`, `contains`, `find`,
 * `strip_prefix` and lowercasing. Strings are sequences of characters.
 */
module Text {
  import opened Common

  /** Rust's `char::is_whitespace`: the Unicode White_Space property. */
  predicate IsWhitespace(c: char)
  {
    || c == ' ' || ('\t' <= c <= '\r')
    || c == '\U{85}' || c == '\U{A0}' || c == '\U{1680}'
    || ('\U{2000}' <= c <= '\U{200A}')
    || c == '\U{2028}' || c == '\U{2029}' || c == '\U{202F}' || c == '\U{205F}'
    || c == '\U{3000}'
  }

  /** `s.trim().is_empty()`: every character is whitespace. */
  predicate IsBlank(s: string)
  {
    forall i :: 0 <= i < |s| ==> IsWhitespace(s[i])
  }

  /** `str::trim_start`: drops the leading whitespace. */
  function TrimStart(s: string): (r: string)
    ensures |r| <= |s| && r == s[|s| - |r|..]
    ensures r == [] || !IsWhitespace(r[0])
    ensures IsBlank(s[..|s| - |r|])
    ensures r == [] <==> IsBlank(s)
    decreases |s|
  {
    if s != [] && IsWhitespace(s[0]) then
      var r := TrimStart(s[1..]);
      assert s[..|s| - |r|] == [s[0]] + s[1..][..|s[1..]| - |r|];
      assert s == [s[0]] + s[1..];
      BlankCons(s[0], s[1..]);
      BlankCons(s[0], s[1..][..|s[1..]| - |r|]);
      r
    else s
  }

  /** A string with one more character in front is blank when both parts are. */
  lemma BlankCons(c: char, t: string)
    ensures IsBlank([c] + t) <==> IsWhitespace(c) && IsBlank(t)
  {
    var u := [c] + t;
    assert u[0] == c;
    assert u[1..] == t;
    if IsBlank(u) {
      forall i | 0 <= i < |t|
        ensures IsWhitespace(t[i])
      {
        assert t[i] == u[i + 1];
      }
    }
  }

  /** A string with one more character at the end is blank when both parts are. */
  lemma BlankSnoc(t: string, c: char)
    ensures IsBlank(t + [c]) <==> IsBlank(t) && IsWhitespace(c)
  {
    var u := t + [c];
    assert u[|t|] == c;
    assert forall i :: 0 <= i < |t| ==> u[i] == t[i];
  }

  /** `str::trim_end`: drops the trailing whitespace. */
  function TrimEnd(s: string): (r: string)
    ensures |r| <= |s| && r == s[..|r|]
    ensures r == [] || !IsWhitespace(r[|r| - 1])
    ensures IsBlank(s[|r|..])
    ensures r == [] <==> IsBlank(s)
    decreases |s|
  {
    if s != [] && IsWhitespace(s[|s| - 1]) then
      var r := TrimEnd(s[..|s| - 1]);
      assert s[|r|..] == s[..|s| - 1][|r|..] + [s[|s| - 1]];
      assert s == s[..|s| - 1] + [s[|s| - 1]];
      BlankSnoc(s[..|s| - 1], s[|s| - 1]);
      BlankSnoc(s[..|s| - 1][|r|..], s[|s| - 1]);
      r
    else s
  }

  /** `str::trim`: drops leading and trailing whitespace. */
  function Trim(s: string): (r: string)
    ensures r == [] || (!IsWhitespace(r[0]) && !IsWhitespace(r[|r| - 1]))
    ensures |r| <= |s|
    ensures r == [] <==> IsBlank(s)
  {
    var t := TrimStart(s);
    var r := TrimEnd(t);
    r
  }

  /** `str::starts_with` for a string pattern. */
  predicate StartsWith(s: string, prefix: string)
  {
    |prefix| <= |s| && s[..|prefix|] == prefix
  }

  /** `str::ends_with` for a string pattern. */
  predicate EndsWith(s: string, suffix: string)
  {
    |suffix| <= |s| && s[|s| - |suffix|..] == suffix
  }

  /** `needle` occurs in `s` starting at index `i`. */
  predicate OccursAt(s: string, needle: string, i: int)
  {
    0 <= i && i + |needle| <= |s| && s[i..i + |needle|] == needle
  }

  /** `str::contains` for a string pattern. */
  predicate Contains(s: string, needle: string)
  {
    exists i | 0 <= i <= |s| - |needle| :: OccursAt(s, needle, i)
  }

  /** `s[from..].find(needle)`, reported as an index into `s`: the first occurrence at or after `from`. */
  function FindFrom(s: string, needle: string, from: nat): (r: Option<nat>)
    requires from <= |s|
    ensures r.Some? ==> from <= r.value && OccursAt(s, needle, r.value)
    ensures r.Some? ==> forall q :: from <= q < r.value ==> !OccursAt(s, needle, q)
    ensures r.None? ==> forall q :: from <= q ==> !OccursAt(s, needle, q)
    decreases |s| - from
  {
    if OccursAt(s, needle, from) then Some(from)
    else if from == |s| then None
    else FindFrom(s, needle, from + 1)
  }

  /** The position of the first occurrence of character `c` in `s`, as `str::find(char)`. */
  function FindChar(s: string, c: char): (r: Option<nat>)
    ensures r.Some? ==> r.value < |s| && s[r.value] == c && c !in s[..r.value]
    ensures r.None? ==> c !in s
  {
    if c !in s then None
    else
      var k := FindChar(s[1..], c);
      if s[0] == c then Some(0)
      else
        assert k.Some? by { assert c in s[1..] by { assert s == [s[0]] + s[1..]; } }
        assert s[..k.value + 1] == [s[0]] + s[1..][..k.value];
        Some(k.value + 1)
  }

  /** `str::strip_prefix`: the rest of `s` when it starts with `prefix`. */
  function StripPrefix(s: string, prefix: string): (r: Option<string>)
    ensures r.Some? <==> StartsWith(s, prefix)
    ensures r.Some? ==> s == prefix + r.value
  {
    if StartsWith(s, prefix) then
      assert s == s[..|prefix|] + s[|prefix|..];
      Some(s[|prefix|..])
    else None
  }

  /** ASCII lowercasing of one character (`char::to_ascii_lowercase`). */
  function LowerChar(c: char): char
  {
    if 'A' <= c <= 'Z' then (c as int + 32) as char else c
  }

  /** Lowercasing of a whole string, restricted to ASCII letters. */
  function ToLower(s: string): (r: string)
    ensures |r| == |s|
    ensures forall i :: 0 <= i < |s| ==> r[i] == LowerChar(s[i])
  {
    seq(|s|, i requires 0 <= i < |s| => LowerChar(s[i]))
  }

  /** `str::eq_ignore_ascii_case`. */
  predicate EqIgnoreAsciiCase(a: string, b: string)
  {
    ToLower(a) == ToLower(b)
  }

  /** Lowercasing twice is lowercasing once. */
  lemma ToLowerIdempotent(s: string)
    ensures ToLower(ToLower(s)) == ToLower(s)
  {
  }

  /** A lowercased string starts with a lowercase pattern exactly when the original does, ignoring case. */
  lemma StartsWithLower(s: string, prefix: string)
    requires ToLower(prefix) == prefix && StartsWith(ToLower(s), prefix)
    ensures |prefix| <= |s| && ToLower(s[..|prefix|]) == prefix
  {
    assert ToLower(s[..|prefix|]) == ToLower(s)[..|prefix|];
  }

  /** A pattern whose first character does not occur in `s` is not contained in `s`. */
  lemma NotContainsFirstChar(s: string, needle: string)
    requires needle != [] && needle[0] !in s
    ensures !Contains(s, needle)
  {
    forall i | 0 <= i <= |s| - |needle| ensures !OccursAt(s, needle, i) {
      assert s[i..i + |needle|][0] == s[i];
    }
  }
}
