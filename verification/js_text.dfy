/**
 * The JavaScript string built-ins the two scripts rely on: white space as
 * `String.prototype.trim` and the regular-expression class `\s` see it,
 * `trim`, `startsWith`, `split` on one character, `Array.prototype.join`
 * and `toLowerCase` restricted to ASCII letters.
 */
module JsText {

  /** The characters `trim()` removes and `\s` matches (ECMAScript WhiteSpace and LineTerminator). */
  predicate IsWhitespace(c: char) {
    || c == '\t' || c == '\n' || c == '\U{000B}' || c == '\U{000C}' || c == '\r' || c == ' '
    || c == '\U{00A0}' || c == '\U{1680}' || ('\U{2000}' <= c <= '\U{200A}')
    || c == '\U{2028}' || c == '\U{2029}' || c == '\U{202F}' || c == '\U{205F}'
    || c == '\U{3000}' || c == '\U{FEFF}'
  }

  /** The characters a regular-expression `.` does not match. */
  predicate IsLineTerminator(c: char) {
    c == '\n' || c == '\r' || c == '\U{2028}' || c == '\U{2029}'
  }

  predicate AllWhitespace(s: string) {
    forall i :: 0 <= i < |s| ==> IsWhitespace(s[i])
  }

  predicate StartsWith(s: string, prefix: string) {
    |prefix| <= |s| && s[..|prefix|] == prefix
  }

  /** Proof helper: a string starts with any prefix it was built from. */
  lemma StartsWithConcat(prefix: string, rest: string)
    ensures StartsWith(prefix + rest, prefix)
  {
    assert (prefix + rest)[..|prefix|] == prefix;
  }

  /** Proof helper: a prefix of a prefix is a prefix. */
  lemma StartsWithTransitive(s: string, p: string, q: string)
    requires StartsWith(s, p) && StartsWith(p, q)
    ensures StartsWith(s, q)
  {
    assert s[..|q|] == s[..|p|][..|q|];
  }

  /** `s` without its leading white space. */
  function TrimStart(s: string): (r: string)
    ensures |r| <= |s| && r == s[|s| - |r|..]
    ensures AllWhitespace(s[..|s| - |r|])
    ensures r == [] || !IsWhitespace(r[0])
  {
    if s != [] && IsWhitespace(s[0]) then
      var r := TrimStart(s[1..]);
      assert s[1..][..|s[1..]| - |r|] == s[1..|s| - |r|];
      r
    else
      s
  }

  /** `s` without its trailing white space. */
  function TrimEnd(s: string): (r: string)
    ensures |r| <= |s| && r == s[..|r|]
    ensures AllWhitespace(s[|r|..])
    ensures r == [] || !IsWhitespace(r[|r| - 1])
  {
    if s != [] && IsWhitespace(s[|s| - 1]) then
      var r := TrimEnd(s[..|s| - 1]);
      assert s[..|s| - 1][|r|..] == s[|r|..|s| - 1];
      assert forall i :: |r| <= i < |s| - 1 ==> s[i] == s[..|s| - 1][|r|..][i - |r|];
      r
    else
      s
  }

  /**
   * `r` is the slice of `s` from index `i` that has only white space before
   * and after it in `s`, and none at either of its own ends.
   */
  predicate TrimmedSlice(s: string, i: int, r: string) {
    && 0 <= i && i + |r| <= |s|
    && r == s[i..i + |r|] && AllWhitespace(s[..i]) && AllWhitespace(s[i + |r|..])
    && (r == [] || (!IsWhitespace(r[0]) && !IsWhitespace(r[|r| - 1])))
  }

  /** `String.prototype.trim`: the slice of `s` left after removing the white space at both ends. */
  function Trim(s: string): (r: string)
    ensures TrimmedSlice(s, |s| - |TrimStart(s)|, r)
  {
    var t := TrimStart(s);
    var r := TrimEnd(t);
    TrimSlices(s, t, r);
    r
  }

  /** A white-space-free end `r` of a white-space-free start `t` of `s` is the slice `Trim` promises. */
  lemma TrimSlices(s: string, t: string, r: string)
    requires |t| <= |s| && t == s[|s| - |t|..] && AllWhitespace(s[..|s| - |t|])
    requires t == [] || !IsWhitespace(t[0])
    requires |r| <= |t| && r == t[..|r|] && AllWhitespace(t[|r|..])
    requires r == [] || !IsWhitespace(r[|r| - 1])
    ensures TrimmedSlice(s, |s| - |t|, r)
  {
    assert r != [] ==> r[0] == t[0];
    PrefixOfSuffix(s, t, r);
  }

  /** A prefix `r` of a suffix `t` of `s` is a slice of `s`, and what follows `r` in `t` is what follows it in `s`. */
  lemma PrefixOfSuffix(s: string, t: string, r: string)
    requires |t| <= |s| && t == s[|s| - |t|..]
    requires |r| <= |t| && r == t[..|r|] && AllWhitespace(t[|r|..])
    ensures var i := |s| - |t|; r == s[i..i + |r|] && AllWhitespace(s[i + |r|..])
  {
    var i := |s| - |t|;
    assert s[i..][..|r|] == s[i..i + |r|];
    assert s[i..][|r|..] == s[i + |r|..];
  }

  /** Trailing white space behind text that ends with a visible character is exactly what is removed. */
  lemma {:induction false} TrimEndAfterText(text: string, tail: string)
    requires text != [] && !IsWhitespace(text[|text| - 1])
    ensures TrimEnd(text + tail) == text + TrimEnd(tail)
    decreases |tail|
  {
    if tail == [] {
      assert text + tail == text;
    } else if IsWhitespace(tail[|tail| - 1]) {
      var shorter := tail[..|tail| - 1];
      assert (text + tail)[..|text + tail| - 1] == text + shorter;
      TrimEndAfterText(text, shorter);
    } else {
      assert (text + tail)[|text + tail| - 1] == tail[|tail| - 1];
    }
  }

  /** Trimming visible text behind an indent leaves the text, less the white space at the end of what follows it. */
  lemma TrimAfterIndent(indent: string, head: string, rest: string)
    requires AllWhitespace(indent)
    requires head != [] && !IsWhitespace(head[0]) && !IsWhitespace(head[|head| - 1])
    ensures Trim(indent + (head + rest)) == head + TrimEnd(rest)
  {
    assert (head + rest)[0] == head[0];
    TrimStartAfterWhitespace(indent, head + rest);
    TrimEndAfterText(head, rest);
  }

  /** White space alone trims to nothing at its end. */
  lemma TrimEndOfWhitespace(s: string)
    requires AllWhitespace(s)
    ensures TrimEnd(s) == []
  {
  }

  /** Text that is all white space trims to nothing. */
  lemma TrimOfWhitespace(s: string)
    ensures AllWhitespace(s) ==> Trim(s) == []
  {
  }

  /** Removing leading white space from text that starts with a non-space character changes nothing. */
  lemma {:induction false} TrimStartAfterWhitespace(ws: string, rest: string)
    requires AllWhitespace(ws)
    requires rest == [] || !IsWhitespace(rest[0])
    ensures TrimStart(ws + rest) == rest
  {
    if ws != [] {
      assert (ws + rest)[1..] == ws[1..] + rest;
      TrimStartAfterWhitespace(ws[1..], rest);
    }
  }

  /** `Array.prototype.join`: the parts with `glue` between neighbours. */
  function Join(parts: seq<string>, glue: string): (r: string)
    ensures |parts| >= 1 ==> StartsWith(r, parts[0])
  {
    if |parts| == 0 then []
    else if |parts| == 1 then parts[0]
    else parts[0] + glue + Join(parts[1..], glue)
  }

  /** `String.prototype.split` on a single separator character. */
  function Split(s: string, sep: char): (parts: seq<string>)
    ensures |parts| >= 1
    ensures forall i :: 0 <= i < |parts| ==> sep !in parts[i]
    ensures Join(parts, [sep]) == s
  {
    if s == [] then [[]]
    else
      var rest := Split(s[1..], sep);
      if s[0] == sep then
        assert s == [sep] + s[1..];
        [[]] + rest
      else
        var parts := [[s[0]] + rest[0]] + rest[1..];
        assert |rest| >= 2 ==> Join(rest, [sep]) == rest[0] + [sep] + Join(rest[1..], [sep]);
        assert s == [s[0]] + s[1..];
        assert parts[1..] == rest[1..];
        parts
  }

  /** `toLowerCase` on one character; only the ASCII capitals change. */
  function LowerChar(c: char): (d: char)
    ensures 'A' <= c <= 'Z' ==> d as int == c as int + 32
    ensures !('A' <= c <= 'Z') ==> d == c
  {
    if 'A' <= c <= 'Z' then (c as int + 32) as char else c
  }

  function ToLower(s: string): (r: string)
    ensures |r| == |s|
    ensures forall i :: 0 <= i < |s| ==> r[i] == LowerChar(s[i])
  {
    seq(|s|, i requires 0 <= i < |s| => LowerChar(s[i]))
  }

  /** `Array.prototype.filter`: the elements satisfying `keep`, in their original order. */
  function Filter<T>(keep: T -> bool, s: seq<T>): (kept: seq<T>)
    ensures |kept| <= |s|
    ensures forall i :: 0 <= i < |kept| ==> keep(kept[i]) && kept[i] in s
  {
    if s == [] then [] else (if keep(s[0]) then [s[0]] else []) + Filter(keep, s[1..])
  }

  /** Filtering distributes over concatenation, so it keeps the original order. */
  lemma {:induction false} FilterAppend<T>(keep: T -> bool, a: seq<T>, b: seq<T>)
    ensures Filter(keep, a + b) == Filter(keep, a) + Filter(keep, b)
  {
    if a == [] {
      assert a + b == b;
    } else {
      var head := if keep(a[0]) then [a[0]] else [];
      assert (a + b)[0] == a[0];
      assert (a + b)[1..] == a[1..] + b;
      assert Filter(keep, a + b) == head + Filter(keep, a[1..] + b);
      FilterAppend(keep, a[1..], b);
      assert Filter(keep, a) == head + Filter(keep, a[1..]);
    }
  }

  /** Every element that satisfies `keep` is kept as often as it occurs; no other element is kept. */
  lemma {:induction false} FilterCounts<T>(keep: T -> bool, s: seq<T>, x: T)
    ensures multiset(Filter(keep, s))[x] == if keep(x) then multiset(s)[x] else 0
  {
    if s != [] {
      assert s == [s[0]] + s[1..];
      FilterCounts(keep, s[1..], x);
    }
  }
}
