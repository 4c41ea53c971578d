/**
 * `parseThemeFromConfig` of scripts/generate-theme-vars.mjs: a line-oriented
 * reader for the `theme:` section of `_config.yml`. It is driven by two flags,
 * `inTheme` and `inColors`, and records colour values and three font keys.
 * The two regular expressions of the script are hand-coded matchers here.
 */
module ThemeConfig {
  import opened Wrappers
  import opened JsText

  // ------------------------------------------------------------- data

  /**
   * The object the parser fills in. A field is `None` while the object has no
   * such key; `colors` is the nested object created by a `colors:` line.
   */
  datatype Theme = Theme(
    colors: Option<map<string, string>>,
    fontFamily: Option<string>,
    fontFamilyFixed: Option<string>,
    fontGoogleUrl: Option<string>)

  /** `{}`: the object before any line is read. */
  const EmptyTheme := Theme(None, None, None, None)

  /** `Object.keys(theme).length === 0`. */
  predicate IsEmptyTheme(t: Theme) {
    t.colors.None? && t.fontFamily.None? && t.fontFamilyFixed.None? && t.fontGoogleUrl.None?
  }

  /** Keys are only ever added to the object: every key `a` holds, `b` holds too. */
  predicate Grows(a: Theme, b: Theme) {
    && (a.colors.Some? ==> b.colors.Some? && a.colors.value.Keys <= b.colors.value.Keys)
    && (a.fontFamily.Some? ==> b.fontFamily.Some?)
    && (a.fontFamilyFixed.Some? ==> b.fontFamilyFixed.Some?)
    && (a.fontGoogleUrl.Some? ==> b.fontGoogleUrl.Some?)
  }

  /** The loop's state: the two flags and the object built so far. */
  datatype ParserState = ParserState(inTheme: bool, inColors: bool, theme: Theme)

  const Start := ParserState(false, false, EmptyTheme)

  /** Whenever the parser is inside `colors:`, the colour object exists (line 45 creates it with the flag). */
  predicate Consistent(st: ParserState) {
    st.inColors ==> st.theme.colors.Some?
  }

  // ------------------------------------------------------------- characters

  /** `\w` without the `u` flag. */
  predicate IsWordChar(c: char) {
    ('a' <= c <= 'z') || ('A' <= c <= 'Z') || ('0' <= c <= '9') || c == '_'
  }

  /** `[0-9a-fA-F]`. */
  predicate IsHexDigit(c: char) {
    ('0' <= c <= '9') || ('a' <= c <= 'f') || ('A' <= c <= 'F')
  }

  /** `["']`. */
  predicate IsQuote(c: char) {
    c == '"' || c == '\''
  }

  predicate IsWordKey(k: string) {
    |k| > 0 && forall i :: 0 <= i < |k| ==> IsWordChar(k[i])
  }

  /** `#` followed by exactly six hex digits. */
  predicate IsHexColor(h: string) {
    |h| == 7 && h[0] == '#' && forall i :: 1 <= i < 7 ==> IsHexDigit(h[i])
  }

  /** The number of leading word characters of `s`. */
  function WordPrefix(s: string): (n: nat)
    ensures n <= |s|
    ensures forall i :: 0 <= i < n ==> IsWordChar(s[i])
    ensures n < |s| ==> !IsWordChar(s[n])
  {
    if s != [] && IsWordChar(s[0]) then 1 + WordPrefix(s[1..]) else 0
  }

  /**
   * The number of leading white-space characters of `s`, the run `\s*`
   * consumes. The matchers work with this count; `\s` is the class `trim()`
   * removes, and `SpacePrefixIsTrimStart` shows that the run is exactly what
   * `TrimStart` drops.
   */
  function SpacePrefix(s: string): (n: nat)
    ensures n <= |s|
    ensures AllWhitespace(s[..n])
    ensures n < |s| ==> !IsWhitespace(s[n])
  {
    if s != [] && IsWhitespace(s[0]) then
      var n := 1 + SpacePrefix(s[1..]);
      assert forall i :: 1 <= i < n ==> s[..n][i] == s[1..][..n - 1][i - 1];
      n
    else 0
  }

  /** The `\s*` run is what `trimStart` removes. */
  lemma SpacePrefixIsTrimStart(s: string)
    ensures s[SpacePrefix(s)..] == TrimStart(s)
  {
    var n := SpacePrefix(s);
    assert s == s[..n] + s[n..];
    TrimStartAfterWhitespace(s[..n], s[n..]);
  }

  /** `line.search(/\S/)`: the index of the first non-white-space character, or -1. */
  function FirstNonWhitespace(line: string): (k: int)
    ensures -1 <= k < |line|
    ensures k == -1 <==> AllWhitespace(line)
    ensures k >= 0 ==> !IsWhitespace(line[k]) && AllWhitespace(line[..k])
  {
    var n := SpacePrefix(line);
    if n == |line| then
      assert line[..n] == line;
      -1
    else n
  }

  // ------------------------------------------------------------- the colour pattern

  /** The two capture groups of `/^(\w+):\s*["']?(#[0-9a-fA-F]{6})["']?/`. */
  datatype ColorMatch = ColorMatch(key: string, hex: string)

  /**
   * The colour pattern on `s`. The key is the longest run of word characters
   * (a shorter one would be followed by a word character, not `:`), the white
   * space run is the longest one, then one optional quote and the colour;
   * whatever follows the six digits does not matter, since the pattern has no
   * end anchor.
   */
  function MatchColor(s: string): (m: Option<ColorMatch>)
    ensures m.Some? ==> IsWordKey(m.value.key) && IsHexColor(m.value.hex)
  {
    var n := WordPrefix(s);
    if n == 0 || n == |s| || s[n] != ':' then None
    else
      match ColorValue(s[n + 1..])
      case None => None
      case Some(hex) => Some(ColorMatch(s[..n], hex))
  }

  /** The part of the colour pattern after the colon: `\s*["']?(#[0-9a-fA-F]{6})`. */
  function ColorValue(rest: string): (hex: Option<string>)
    ensures hex.Some? ==> IsHexColor(hex.value)
  {
    var afterSpace := rest[SpacePrefix(rest)..];
    var afterQuote := if |afterSpace| > 0 && IsQuote(afterSpace[0]) then afterSpace[1..] else afterSpace;
    if |afterQuote| >= 7 && IsHexColor(afterQuote[..7]) then Some(afterQuote[..7]) else None
  }

  /** A text the colour pattern accepts, in its parts: `key:`, white space, an optional quote, the colour, anything. */
  datatype ColorLine = ColorLine(key: string, space: string, quote: string, hex: string, tail: string)

  predicate WellFormedColorLine(c: ColorLine) {
    IsWordKey(c.key) && AllWhitespace(c.space) && (c.quote == [] || (|c.quote| == 1 && IsQuote(c.quote[0])))
    && IsHexColor(c.hex)
  }

  function RenderColorLine(c: ColorLine): string {
    c.key + (":" + (c.space + (c.quote + (c.hex + c.tail))))
  }

  /** The key of a colour line is the whole run of word characters before its colon. */
  lemma KeyBeforeColon(key: string, rest: string)
    requires IsWordKey(key)
    ensures WordPrefix(key + (":" + rest)) == |key|
    ensures (key + (":" + rest))[|key|] == ':'
    ensures (key + (":" + rest))[..|key|] == key
    ensures (key + (":" + rest))[|key| + 1..] == rest
  {
    var tail := ":" + rest;
    assert tail[0] == ':' && tail[1..] == rest;
    WordPrefixOf(key, tail);
    var s := key + tail;
    assert s[|key|] == tail[0];
    assert s[|key| + 1..] == tail[1..];
  }

  lemma ColorValueComplete(space: string, quote: string, hex: string, tail: string)
    requires AllWhitespace(space) && (quote == [] || (|quote| == 1 && IsQuote(quote[0]))) && IsHexColor(hex)
    ensures ColorValue(space + (quote + (hex + tail))) == Some(hex)
  {
    var rest := space + (quote + (hex + tail));
    var after := quote + (hex + tail);
    SpacePrefixOf(space, after);
    assert rest[|space|..] == after;
    if quote != [] {
      assert after[1..] == hex + tail;
    } else {
      assert after == hex + tail;
    }
    assert (hex + tail)[..7] == hex;
  }

  /** Every well-formed colour line is accepted, with its own key and colour captured. */
  lemma MatchColorComplete(c: ColorLine)
    requires WellFormedColorLine(c)
    ensures MatchColor(RenderColorLine(c)) == Some(ColorMatch(c.key, c.hex))
  {
    var rest := c.space + (c.quote + (c.hex + c.tail));
    KeyBeforeColon(c.key, rest);
    ColorValueComplete(c.space, c.quote, c.hex, c.tail);
  }

  lemma ColorValueSound(rest: string) returns (space: string, quote: string, tail: string)
    requires ColorValue(rest).Some?
    ensures AllWhitespace(space) && (quote == [] || (|quote| == 1 && IsQuote(quote[0])))
    ensures rest == space + (quote + (ColorValue(rest).value + tail))
  {
    var k := SpacePrefix(rest);
    var afterSpace := rest[k..];
    var q := if |afterSpace| > 0 && IsQuote(afterSpace[0]) then 1 else 0;
    var afterQuote := afterSpace[q..];
    assert ColorValue(rest).value == afterQuote[..7];
    space, quote, tail := rest[..k], afterSpace[..q], afterQuote[7..];
    SplitAt(afterQuote, 7);
    SplitAt(afterSpace, q);
    SplitAt(rest, k);
    assert q == 1 ==> quote[0] == afterSpace[0];
  }

  lemma SplitAt(s: string, n: nat)
    requires n <= |s|
    ensures s == s[..n] + s[n..]
  {
  }

  /** Every text the colour pattern accepts is a well-formed colour line with the captured key and colour. */
  lemma MatchColorSound(s: string)
    requires MatchColor(s).Some?
    ensures exists c :: (WellFormedColorLine(c) && RenderColorLine(c) == s
      && c.key == MatchColor(s).value.key && c.hex == MatchColor(s).value.hex)
  {
    var c := ColorLineOfMatch(s);
  }

  lemma ColorLineOfMatch(s: string) returns (c: ColorLine)
    requires MatchColor(s).Some?
    ensures WellFormedColorLine(c) && RenderColorLine(c) == s
    ensures c.key == MatchColor(s).value.key && c.hex == MatchColor(s).value.hex
  {
    var n := WordPrefix(s);
    var key, after := s[..n], s[n + 1..];
    assert MatchColor(s) == Some(ColorMatch(key, ColorValue(after).value));
    var hex := ColorValue(after).value;
    var space, quote, tail := ColorValueSound(after);
    c := ColorLine(key, space, quote, hex, tail);
    CutAt(s, n);
    assert s == key + (":" + after);
    assert forall i :: 0 <= i < |key| ==> key[i] == s[i];
  }

  /** `s` is its part before index `n`, the character at `n`, and the part after it. */
  lemma CutAt(s: string, n: nat)
    requires n < |s|
    ensures s == s[..n] + ([s[n]] + s[n + 1..])
  {
    assert s[n..] == [s[n]] + s[n + 1..];
    assert s == s[..n] + s[n..];
  }

  // ------------------------------------------------------------- the font pattern

  /** The keys `/^(font_family|font_family_fixed|font_google_url):\s*(.+)$/` recognises. */
  const FontKeys: seq<string> := ["font_family", "font_family_fixed", "font_google_url"]

  /** The two capture groups of the font pattern. */
  datatype FontMatch = FontMatch(key: string, value: string)

  function NoLineTerminator(s: string): bool {
    forall i :: 0 <= i < |s| ==> !IsLineTerminator(s[i])
  }

  /** The first font key that `s` starts with, followed by `:`; the alternation tries them in this order. */
  function FontKeyOf(s: string): (k: Option<string>)
    ensures k.Some? ==> k.value in FontKeys && StartsWith(s, k.value + ":")
  {
    if StartsWith(s, FontKeys[0] + ":") then Some(FontKeys[0])
    else if StartsWith(s, FontKeys[1] + ":") then Some(FontKeys[1])
    else if StartsWith(s, FontKeys[2] + ":") then Some(FontKeys[2])
    else None
  }

  /**
   * The font pattern on `s`. After `key:` the white space run is the longest
   * one that still leaves a non-empty value; the value `(.+)$` must reach the
   * end without a line terminator. When the rest is all white space the
   * value is its last character.
   */
  function MatchFont(s: string): (m: Option<FontMatch>)
    ensures m.Some? ==> m.value.key in FontKeys && m.value.value != [] && NoLineTerminator(m.value.value)
  {
    match FontKeyOf(s)
    case None => None
    case Some(key) =>
      match FontValue(s[|key| + 1..])
      case None => None
      case Some(value) => Some(FontMatch(key, value))
  }

  /** The part of the font pattern after the colon: `\s*(.+)$`. */
  function FontValue(rest: string): (value: Option<string>)
    ensures value.Some? ==> value.value != [] && NoLineTerminator(value.value)
  {
    var n := SpacePrefix(rest);
    var value := if n < |rest| then rest[n..] else if rest != [] then rest[|rest| - 1..] else [];
    if value != [] && NoLineTerminator(value) then Some(value) else None
  }

  /** A text the font pattern accepts after `trim()`: `key:`, white space, a value starting and ending with a visible character. */
  datatype FontLine = FontLine(key: string, space: string, value: string)

  predicate WellFormedFontLine(f: FontLine) {
    f.key in FontKeys && AllWhitespace(f.space) && f.value != [] && NoLineTerminator(f.value)
    && !IsWhitespace(f.value[0]) && !IsWhitespace(f.value[|f.value| - 1])
  }

  function RenderFontLine(f: FontLine): string {
    f.key + (":" + (f.space + f.value))
  }

  /** No font key followed by `:` starts with another one, so the alternation picks the key the text spells. */
  lemma FontKeyOfKey(key: string, rest: string)
    requires key in FontKeys
    ensures FontKeyOf(key + (":" + rest)) == Some(key)
  {
    var s := key + (":" + rest);
    assert s[..|key| + 1] == key + ":";
    if key == FontKeys[1] {
      assert s[11] == '_';
    } else if key == FontKeys[2] {
      assert s[5] == 'g';
    }
  }

  lemma FontValueComplete(space: string, value: string)
    requires AllWhitespace(space) && value != [] && !IsWhitespace(value[0]) && NoLineTerminator(value)
    ensures FontValue(space + value) == Some(value)
  {
    SpacePrefixOf(space, value);
    assert (space + value)[|space|..] == value;
  }

  /** Every well-formed font line is accepted, with its own key and value captured. */
  lemma MatchFontComplete(f: FontLine)
    requires WellFormedFontLine(f)
    ensures MatchFont(RenderFontLine(f)) == Some(FontMatch(f.key, f.value))
  {
    var rest := f.space + f.value;
    FontKeyOfKey(f.key, rest);
    AfterKeyColon(f.key, rest);
    FontValueComplete(f.space, f.value);
    MatchFontOfParts(RenderFontLine(f), f.key, f.value);
  }

  /** Proof helper: what follows `key:` in `key:rest` is `rest`. */
  lemma AfterKeyColon(key: string, rest: string)
    ensures (key + (":" + rest))[|key| + 1..] == rest
  {
    assert |":" + rest| == |rest| + 1;
  }

  /** Proof helper: the font pattern's result from the key it finds and the value after that key. */
  lemma MatchFontOfParts(s: string, key: string, value: string)
    requires FontKeyOf(s) == Some(key) && |key| + 1 <= |s| && FontValue(s[|key| + 1..]) == Some(value)
    ensures MatchFont(s) == Some(FontMatch(key, value))
  {
  }

  /** Every trimmed text the font pattern accepts is a well-formed font line with the captured key and value. */
  lemma MatchFontSound(s: string)
    requires MatchFont(s).Some?
    requires !IsWhitespace(s[|s| - 1])
    ensures exists f :: (WellFormedFontLine(f) && RenderFontLine(f) == s
      && f.key == MatchFont(s).value.key && f.value == MatchFont(s).value.value)
  {
    var f := FontLineOfMatch(s);
  }

  lemma FontLineOfMatch(s: string) returns (f: FontLine)
    requires MatchFont(s).Some?
    requires !IsWhitespace(s[|s| - 1])
    ensures WellFormedFontLine(f) && RenderFontLine(f) == s
    ensures f.key == MatchFont(s).value.key && f.value == MatchFont(s).value.value
  {
    MatchFontParts(s);
    f := FontLineOfParts(s, FontKeyOf(s).value);
  }

  lemma MatchFontParts(s: string)
    requires MatchFont(s).Some?
    ensures FontKeyOf(s).Some? && FontValue(s[|FontKeyOf(s).value| + 1..]).Some?
    ensures MatchFont(s).value == FontMatch(FontKeyOf(s).value, FontValue(s[|FontKeyOf(s).value| + 1..]).value)
  {
  }

  lemma FontLineOfParts(s: string, key: string) returns (f: FontLine)
    requires key in FontKeys && StartsWith(s, key + ":")
    requires FontValue(s[|key| + 1..]).Some? && !IsWhitespace(s[|s| - 1])
    ensures WellFormedFontLine(f) && RenderFontLine(f) == s
    ensures f.key == key && f.value == FontValue(s[|key| + 1..]).value
  {
    var rest := s[|key| + 1..];
    KeyColonSplit(s, key);
    FontValueNeedsText(rest);
    LastOfSuffix(s, |key| + 1);
    f := FontLineOfRest(key, rest);
  }

  lemma FontLineOfRest(key: string, rest: string) returns (f: FontLine)
    requires key in FontKeys && FontValue(rest).Some? && rest != [] && !IsWhitespace(rest[|rest| - 1])
    ensures WellFormedFontLine(f) && RenderFontLine(f) == key + (":" + rest)
    ensures f.key == key && f.value == FontValue(rest).value
  {
    var space := FontValueSound(rest);
    f := FontLine(key, space, FontValue(rest).value);
    FontLineOfPieces(key + (":" + rest), f, rest);
  }

  lemma FontLineOfPieces(s: string, f: FontLine, rest: string)
    requires s == f.key + (":" + rest) && rest == f.space + f.value
    requires f.key in FontKeys && AllWhitespace(f.space) && f.value != [] && NoLineTerminator(f.value)
    requires !IsWhitespace(f.value[0]) && !IsWhitespace(f.value[|f.value| - 1])
    ensures WellFormedFontLine(f) && RenderFontLine(f) == s
  {
  }

  lemma LastOfSuffix(s: string, n: nat)
    requires n < |s|
    ensures s[n..][|s[n..]| - 1] == s[|s| - 1]
  {
  }

  lemma FontValueNeedsText(rest: string)
    requires FontValue(rest).Some?
    ensures rest != []
  {
  }

  lemma FontValueSound(rest: string) returns (space: string)
    requires FontValue(rest).Some?
    requires !IsWhitespace(rest[|rest| - 1])
    ensures AllWhitespace(space) && rest == space + FontValue(rest).value
    ensures !IsWhitespace(FontValue(rest).value[0])
    ensures !IsWhitespace(FontValue(rest).value[|FontValue(rest).value| - 1])
  {
    var n := SpacePrefix(rest);
    if n == |rest| {
      assert false;
    }
    space := rest[..n];
    assert rest == space + rest[n..];
  }

  lemma KeyColonSplit(s: string, key: string)
    requires StartsWith(s, key + ":")
    ensures s == key + (":" + s[|key| + 1..])
  {
    assert s == s[..|key| + 1] + s[|key| + 1..];
  }

  /** `.replace(/^["']|["']$/g, '')`: at most one leading and one trailing quote removed. */
  function StripQuotes(v: string): (r: string)
    ensures |v| >= 2 && IsQuote(v[0]) && IsQuote(v[|v| - 1]) ==> r == v[1..|v| - 1]
    ensures |v| >= 1 && IsQuote(v[0]) && !IsQuote(v[|v| - 1]) ==> r == v[1..]
    ensures |v| >= 1 && !IsQuote(v[0]) && IsQuote(v[|v| - 1]) ==> r == v[..|v| - 1]
    ensures (v == [] || (!IsQuote(v[0]) && !IsQuote(v[|v| - 1]))) ==> r == v
    ensures |v| == 1 && IsQuote(v[0]) ==> r == []
  {
    var a := if |v| > 0 && IsQuote(v[0]) then 1 else 0;
    var b := if |v| > a && IsQuote(v[|v| - 1]) then |v| - 1 else |v|;
    v[a..b]
  }

  // ------------------------------------------------------------- helper facts

  lemma {:induction false} WordPrefixOf(key: string, rest: string)
    requires forall i :: 0 <= i < |key| ==> IsWordChar(key[i])
    requires rest != [] && !IsWordChar(rest[0])
    ensures WordPrefix(key + rest) == |key|
  {
    if key != [] {
      assert (key + rest)[1..] == key[1..] + rest;
      WordPrefixOf(key[1..], rest);
    } else {
      assert key + rest == rest;
    }
  }

  lemma {:induction false} SpacePrefixOf(space: string, rest: string)
    requires AllWhitespace(space)
    requires rest != [] && !IsWhitespace(rest[0])
    ensures SpacePrefix(space + rest) == |space|
  {
    if space != [] {
      assert (space + rest)[1..] == space[1..] + rest;
      SpacePrefixOf(space[1..], rest);
    } else {
      assert space + rest == rest;
    }
  }

  /** Trimming text that is indented by white space and ends with a visible character leaves the rest. */
  lemma TrimIndented(indent: string, text: string)
    requires AllWhitespace(indent)
    requires text != [] && !IsWhitespace(text[0]) && !IsWhitespace(text[|text| - 1])
    ensures Trim(indent + text) == text
  {
    TrimStartAfterWhitespace(indent, text);
  }

  // ------------------------------------------------------------- one line

  function SetColor(t: Theme, key: string, hex: string): (r: Theme)
    requires t.colors.Some?
    ensures r.colors.Some? && SameFonts(r, t) && Grows(t, r)
    ensures key != "__proto__" ==> key in r.colors.value && r.colors.value[key] == hex
    ensures key == "__proto__" ==> r == t
    ensures key != "__proto__" ==> r.colors == Some(t.colors.value[key := hex])
    ensures forall k :: k in t.colors.value && k != key ==> k in r.colors.value && r.colors.value[k] == t.colors.value[k]
  {
    // Assigning a string to `__proto__` goes to the prototype setter, which ignores it.
    if key == "__proto__" then t else t.(colors := Some(t.colors.value[key := hex]))
  }

  function SetFont(t: Theme, key: string, value: string): (r: Theme)
    ensures r.colors == t.colors && Grows(t, r)
    ensures key == FontKeys[0] ==> r == t.(fontFamily := Some(value))
    ensures key == FontKeys[1] ==> r == t.(fontFamilyFixed := Some(value))
    ensures key == FontKeys[2] ==> r == t.(fontGoogleUrl := Some(value))
  {
    if key == FontKeys[0] then t.(fontFamily := Some(value))
    else if key == FontKeys[1] then t.(fontFamilyFixed := Some(value))
    else t.(fontGoogleUrl := Some(value))
  }

  /** What one iteration does: carry on with a new state, or leave the loop (`break`). */
  datatype LineStep = Next(state: ParserState) | Stop

  predicate IsIndented(line: string) {
    StartsWith(line, " ") || StartsWith(line, "\t")
  }

  /** One iteration of the loop, lines 24-59, in the order the script tests its conditions. */
  function StepLine(st: ParserState, line: string): (r: LineStep)
    requires Consistent(st)
    ensures r.Next? ==> Consistent(r.state) && Grows(st.theme, r.state.theme)
  {
    var trimmed := Trim(line);
    if StartsWith(trimmed, "theme:") then Next(st.(inTheme := true, inColors := false))
    else if !st.inTheme then Next(st)
    else SectionLine(st, line, trimmed)
  }

  /** Lines 35-59: a line inside the theme section that is not a `theme:` line. */
  function SectionLine(st: ParserState, line: string, trimmed: string): (r: LineStep)
    requires Consistent(st)
    ensures r.Next? ==> Consistent(r.state) && Grows(st.theme, r.state.theme)
  {
    if trimmed != [] && !IsIndented(line) then Stop
    else if FirstNonWhitespace(line) <= 0 && trimmed != [] then Stop
    else if StartsWith(trimmed, "colors:") then
      Next(st.(inColors := true, theme := st.theme.(colors := Some(st.theme.colors.GetOr(map[])))))
    else Next(st.(theme := RecordLine(st, trimmed)))
  }

  /** Lines 49-59: a colour line inside `colors:`, a font line outside it; any other text changes nothing. */
  function RecordLine(st: ParserState, trimmed: string): (t: Theme)
    requires Consistent(st)
    ensures t.colors.Some? <==> st.theme.colors.Some?
    ensures Grows(st.theme, t)
    ensures st.inColors && MatchColor(trimmed).None? ==> t == st.theme
    ensures !st.inColors && MatchFont(trimmed).None? ==> t == st.theme
  {
    if st.inColors then
      match MatchColor(trimmed)
      case None => st.theme
      case Some(m) => SetColor(st.theme, m.key, m.hex)
    else
      match MatchFont(trimmed)
      case None => st.theme
      case Some(m) => SetFont(st.theme, m.key, StripQuotes(Trim(m.value)))
  }

  /** The loop over the remaining lines from state `st`; `break` returns the object as it is, so keys are only added. */
  function ParseLines(lines: seq<string>, st: ParserState): (t: Theme)
    requires Consistent(st)
    ensures Grows(st.theme, t)
    decreases |lines|
  {
    if lines == [] then st.theme
    else
      match StepLine(st, lines[0])
      case Stop => st.theme
      case Next(next) => ParseLines(lines[1..], next)
  }

  /** `parseThemeFromConfig`: every colour it records is a word key mapped to `#` and six hex digits. */
  function ParseTheme(content: string): (t: Theme)
    ensures ColorsValid(t)
  {
    var lines := Split(content, '\n');
    ParseLinesKeepsColorsValid(lines, Start);
    ParseLines(lines, Start)
  }

  /** `parseThemeFromConfig` as written: the loop over `content.split('\n')` with its two flags. */
  method ParseThemeFromConfig(content: string) returns (theme: Theme)
    ensures theme == ParseTheme(content)
  {
    theme := EmptyTheme;
    var inTheme := false;
    var inColors := false;
    var lines := Split(content, '\n');

    for i := 0 to |lines|
      invariant inColors ==> theme.colors.Some?
      invariant ParseLines(lines[i..], ParserState(inTheme, inColors, theme)) == ParseTheme(content)
    {
      var line := lines[i];
      var trimmed := Trim(line);
      ghost var st := ParserState(inTheme, inColors, theme);
      assert lines[i..][0] == line && lines[i..][1..] == lines[i + 1..];

      if StartsWith(trimmed, "theme:") {
        inTheme := true;
        inColors := false;
        ParseLinesNext(lines[i..], st, ParserState(inTheme, inColors, theme));
        continue;
      }

      if !inTheme {
        ParseLinesNext(lines[i..], st, st);
        continue;
      }

      // A top-level key ends the theme section.
      if trimmed != [] && !StartsWith(line, " ") && !StartsWith(line, "\t") {
        assert StepLine(st, line) == Stop;
        break;
      }

      var themeIndent := FirstNonWhitespace(line);
      if themeIndent <= 0 && trimmed != [] {
        assert StepLine(st, line) == Stop;
        break;
      }

      if StartsWith(trimmed, "colors:") {
        inColors := true;
        theme := theme.(colors := Some(theme.colors.GetOr(map[])));
        ParseLinesNext(lines[i..], st, ParserState(inTheme, inColors, theme));
        continue;
      }

      if inColors {
        var colorMatch := MatchColor(trimmed);
        if colorMatch.Some? {
          theme := SetColor(theme, colorMatch.value.key, colorMatch.value.hex);
        }
      } else {
        var fontMatch := MatchFont(trimmed);
        if fontMatch.Some? {
          theme := SetFont(theme, fontMatch.value.key, StripQuotes(Trim(fontMatch.value.value)));
        }
      }
      assert theme == RecordLine(st, trimmed);
      ParseLinesNext(lines[i..], st, ParserState(inTheme, inColors, theme));
    }
  }

  // ------------------------------------------------------------- properties

  /** The second `break` (line 41) never fires: an indented line with visible text has its first visible character past index 0. */
  lemma SecondBreakIsDead(line: string)
    requires Trim(line) != [] && IsIndented(line)
    ensures FirstNonWhitespace(line) > 0
  {
    TrimOfWhitespace(line);
    assert line[..1][0] == line[0];
    assert IsWhitespace(line[0]);
  }

  /** Before the first `theme:` line nothing is recorded: such lines can be dropped. */
  lemma {:induction false} PreambleIgnored(pre: seq<string>, rest: seq<string>, st: ParserState)
    requires Consistent(st) && !st.inTheme
    requires forall k :: 0 <= k < |pre| ==> !StartsWith(Trim(pre[k]), "theme:")
    ensures ParseLines(pre + rest, st) == ParseLines(rest, st)
  {
    if pre != [] {
      PreambleLineSkipped(pre, rest, st);
      NoThemeLineInTail(pre);
      PreambleIgnored(pre[1..], rest, st);
    } else {
      assert pre + rest == rest;
    }
  }

  /** Proof helper: the lines after the first have no `theme:` line either. */
  lemma NoThemeLineInTail(pre: seq<string>)
    requires pre != []
    requires forall k :: 0 <= k < |pre| ==> !StartsWith(Trim(pre[k]), "theme:")
    ensures forall k :: 0 <= k < |pre[1..]| ==> !StartsWith(Trim(pre[1..][k]), "theme:")
  {
    forall k | 0 <= k < |pre[1..]| ensures !StartsWith(Trim(pre[1..][k]), "theme:") {
      assert pre[1..][k] == pre[k + 1];
    }
  }

  /** Proof helper: a first line that is not a `theme:` line is skipped before the section. */
  lemma PreambleLineSkipped(pre: seq<string>, rest: seq<string>, st: ParserState)
    requires Consistent(st) && !st.inTheme && pre != [] && !StartsWith(Trim(pre[0]), "theme:")
    ensures ParseLines(pre + rest, st) == ParseLines(pre[1..] + rest, st)
  {
    var lines := pre + rest;
    assert lines[0] == pre[0] && lines[1..] == pre[1..] + rest;
    ParseLinesNext(lines, st, st);
  }

  /** Without a `theme:` line the result is the empty object. */
  lemma NoThemeSectionMeansEmptyTheme(content: string)
    requires forall k :: 0 <= k < |Split(content, '\n')| ==> !StartsWith(Trim(Split(content, '\n')[k]), "theme:")
    ensures ParseTheme(content) == EmptyTheme
  {
    NoThemeLineMeansEmptyTheme(Split(content, '\n'));
  }

  lemma {:induction false} NoThemeLineMeansEmptyTheme(lines: seq<string>)
    requires forall k :: 0 <= k < |lines| ==> !StartsWith(Trim(lines[k]), "theme:")
    ensures ParseLines(lines, Start) == EmptyTheme
  {
    if lines != [] {
      assert !StartsWith(Trim(lines[0]), "theme:");
      ParseLinesNext(lines, Start, Start);
      forall k | 0 <= k < |lines[1..]| ensures !StartsWith(Trim(lines[1..][k]), "theme:") {
        assert lines[1..][k] == lines[k + 1];
      }
      NoThemeLineMeansEmptyTheme(lines[1..]);
    }
  }

  /** A non-empty line at the top level ends the section: nothing after it is read. */
  lemma TopLevelLineEndsSection(st: ParserState, line: string, rest: seq<string>)
    requires Consistent(st) && st.inTheme
    requires Trim(line) != [] && !IsIndented(line) && !StartsWith(Trim(line), "theme:")
    ensures ParseLines([line] + rest, st) == st.theme
  {
    assert ([line] + rest)[0] == line;
  }

  /** Every recorded colour is under a word key and is `#` with six hex digits. */
  predicate ColorsValid(t: Theme) {
    t.colors.Some? ==> forall k :: k in t.colors.value ==> IsWordKey(k) && IsHexColor(t.colors.value[k])
  }

  lemma RecordKeepsColorsValid(st: ParserState, trimmed: string)
    requires Consistent(st) && ColorsValid(st.theme)
    ensures ColorsValid(RecordLine(st, trimmed))
  {
    if st.inColors && MatchColor(trimmed).Some? {
      var m := MatchColor(trimmed).value;
      SetColorKeepsColorsValid(st.theme, m.key, m.hex);
    }
  }

  lemma SetColorKeepsColorsValid(t: Theme, key: string, hex: string)
    requires t.colors.Some? && ColorsValid(t) && IsWordKey(key) && IsHexColor(hex)
    ensures ColorsValid(SetColor(t, key, hex))
  {
    if key != "__proto__" {
      var colors := t.colors.value[key := hex];
      assert forall k :: k in colors ==> k == key || k in t.colors.value;
    }
  }

  lemma StepKeepsColorsValid(st: ParserState, line: string)
    requires Consistent(st) && ColorsValid(st.theme)
    ensures StepLine(st, line).Next? ==> ColorsValid(StepLine(st, line).state.theme)
  {
    RecordKeepsColorsValid(st, Trim(line));
  }

  lemma {:induction false} ParseLinesKeepsColorsValid(lines: seq<string>, st: ParserState)
    requires Consistent(st) && ColorsValid(st.theme)
    ensures ColorsValid(ParseLines(lines, st))
    decreases |lines|
  {
    if lines != [] {
      var step := StepLine(st, lines[0]);
      StepKeepsColorsValid(st, lines[0]);
      if step.Next? {
        ParseLinesKeepsColorsValid(lines[1..], step.state);
      }
    }
  }

  /** The two themes agree on all three font keys. */
  predicate SameFonts(a: Theme, b: Theme) {
    a.fontFamily == b.fontFamily && a.fontFamilyFixed == b.fontFamilyFixed && a.fontGoogleUrl == b.fontGoogleUrl
  }

  lemma StepInColorsKeepsFonts(st: ParserState, line: string)
    requires Consistent(st) && st.inColors && !StartsWith(Trim(line), "theme:")
    ensures StepLine(st, line).Next? ==>
      StepLine(st, line).state.inColors && SameFonts(StepLine(st, line).state.theme, st.theme)
  {
    var trimmed := Trim(line);
    if st.inTheme {
      assert StepLine(st, line) == SectionLine(st, line, trimmed);
      RecordInColorsKeepsFonts(st, trimmed);
    }
  }

  lemma RecordInColorsKeepsFonts(st: ParserState, trimmed: string)
    requires Consistent(st) && st.inColors
    ensures SameFonts(RecordLine(st, trimmed), st.theme)
  {
  }

  /** Once inside `colors:`, the font keys stay as they are until another `theme:` line. */
  lemma {:induction false} FontsFrozenInColors(lines: seq<string>, st: ParserState)
    requires Consistent(st) && st.inColors
    requires forall k :: 0 <= k < |lines| ==> !StartsWith(Trim(lines[k]), "theme:")
    ensures SameFonts(ParseLines(lines, st), st.theme)
    decreases |lines|
  {
    if lines != [] {
      var step := StepLine(st, lines[0]);
      StepInColorsKeepsFonts(st, lines[0]);
      if step.Next? {
        var next := step.state;
        assert ParseLines(lines, st) == ParseLines(lines[1..], next);
        forall k | 0 <= k < |lines[1..]| ensures !StartsWith(Trim(lines[1..][k]), "theme:") {
          assert lines[1..][k] == lines[k + 1];
        }
        FontsFrozenInColors(lines[1..], next);
      }
    }
  }

  /** A word key followed by `:` starts with another word key and `:` only when the keys are equal. */
  lemma KeyPrefixDistinct(key: string, other: string, rest: string)
    requires IsWordKey(key) && IsWordKey(other) && key != other
    ensures !StartsWith(key + (":" + rest), other + ":")
  {
    var s := key + (":" + rest);
    var p := other + ":";
    if |key| < |other| {
      assert s[|key|] == ':' && p[|key|] == other[|key|] != ':';
      assert |p| <= |s| ==> s[..|p|][|key|] == s[|key|];
    } else if |other| < |key| {
      assert s[|other|] == key[|other|] != ':' && p[|other|] == ':';
      assert |p| <= |s| ==> s[..|p|][|other|] == s[|other|];
    } else {
      var i :| 0 <= i < |key| && key[i] != other[i];
      assert s[i] == key[i] && p[i] == other[i];
      assert |p| <= |s| ==> s[..|p|][i] == s[i];
    }
  }

  /** Indentation made of spaces and tabs that starts with one of them. */
  predicate IsIndent(indent: string) {
    indent != [] && (indent[0] == ' ' || indent[0] == '\t') && AllWhitespace(indent)
  }

  lemma IndentedText(indent: string, text: string, trailing: string)
    requires IsIndent(indent)
    ensures IsIndented(indent + text + trailing)
  {
    assert (indent + text + trailing)[..1] == indent[..1];
  }

  /**
   * Inside `colors:`, an indented colour line, with any trailing white space
   * (a carriage return, say), sets its key to its colour, replacing an
   * earlier value for the same key.
   */
  lemma ColorLineRecorded(st: ParserState, indent: string, c: ColorLine, trailing: string)
    requires Consistent(st) && st.inTheme && st.inColors
    requires IsIndent(indent) && WellFormedColorLine(c) && c.key != "theme" && c.key != "colors"
    requires AllWhitespace(trailing)
    ensures StepLine(st, indent + RenderColorLine(c) + trailing) == Next(st.(theme := SetColor(st.theme, c.key, c.hex)))
  {
    var line := indent + RenderColorLine(c) + trailing;
    var trimmed := c.(tail := TrimEnd(c.tail + trailing));
    ColorLineTrims(indent, c, trailing);
    ColorLineIsNoSectionKey(trimmed);
    IndentedText(indent, RenderColorLine(c), trailing);
    IndentedLineInSection(st, line);
    ColorLineSetsColor(st, trimmed);
  }

  lemma ColorLineSetsColor(st: ParserState, c: ColorLine)
    requires Consistent(st) && st.inColors && WellFormedColorLine(c)
    ensures RecordLine(st, RenderColorLine(c)) == SetColor(st.theme, c.key, c.hex)
  {
    MatchColorComplete(c);
  }

  /** Trimming an indented colour line removes the indent and the white space at the end of its tail. */
  lemma ColorLineTrims(indent: string, c: ColorLine, trailing: string)
    requires IsIndent(indent) && WellFormedColorLine(c) && AllWhitespace(trailing)
    ensures Trim(indent + RenderColorLine(c) + trailing) == RenderColorLine(c.(tail := TrimEnd(c.tail + trailing)))
  {
    var head := c.key + (":" + (c.space + (c.quote + c.hex)));
    var rest := c.tail + trailing;
    ColorLineSplit(c, head, trailing);
    ColorHeadVisible(c, head);
    assert indent + RenderColorLine(c) + trailing == indent + (head + rest);
    TrimAfterIndent(indent, head, rest);
    ColorLineSplit(c.(tail := TrimEnd(rest)), head, []);
  }

  /** The head of a colour line starts with its key and ends with the last digit of its colour. */
  lemma ColorHeadVisible(c: ColorLine, head: string)
    requires WellFormedColorLine(c) && head == c.key + (":" + (c.space + (c.quote + c.hex)))
    ensures head != [] && !IsWhitespace(head[0]) && !IsWhitespace(head[|head| - 1])
  {
    assert head[0] == c.key[0];
    assert head[|head| - 1] == c.hex[6];
  }

  /** A colour line is its head, up to the colour, followed by its tail. */
  lemma ColorLineSplit(c: ColorLine, head: string, trailing: string)
    requires head == c.key + (":" + (c.space + (c.quote + c.hex)))
    ensures RenderColorLine(c) == head + c.tail
    ensures RenderColorLine(c) + trailing == head + (c.tail + trailing)
  {
  }

  lemma ColorLineIsNoSectionKey(c: ColorLine)
    requires WellFormedColorLine(c) && c.key != "theme" && c.key != "colors"
    ensures !StartsWith(RenderColorLine(c), "theme:") && !StartsWith(RenderColorLine(c), "colors:")
  {
    var rest := c.space + (c.quote + (c.hex + c.tail));
    KeyPrefixDistinct(c.key, "theme", rest);
    KeyPrefixDistinct(c.key, "colors", rest);
  }

  /** An indented line with visible text inside the section, other than `theme:` and `colors:`, only records. */
  lemma IndentedLineInSection(st: ParserState, line: string)
    requires Consistent(st) && st.inTheme && IsIndented(line) && Trim(line) != []
    requires !StartsWith(Trim(line), "theme:") && !StartsWith(Trim(line), "colors:")
    ensures StepLine(st, line) == Next(st.(theme := RecordLine(st, Trim(line))))
  {
    SecondBreakIsDead(line);
  }

  /**
   * Outside `colors:`, an indented font line, with any trailing white space,
   * records its value without one leading and one trailing quote, replacing
   * an earlier value.
   */
  lemma FontLineRecorded(st: ParserState, indent: string, f: FontLine, trailing: string)
    requires Consistent(st) && st.inTheme && !st.inColors
    requires IsIndent(indent) && WellFormedFontLine(f) && AllWhitespace(trailing)
    ensures StepLine(st, indent + RenderFontLine(f) + trailing)
      == Next(st.(theme := SetFont(st.theme, f.key, StripQuotes(f.value))))
  {
    var line := indent + RenderFontLine(f) + trailing;
    FontLineTrims(indent, f, trailing);
    FontLineIsNoSectionKey(f);
    IndentedText(indent, RenderFontLine(f), trailing);
    IndentedLineInSection(st, line);
    FontLineSetsFont(st, f);
  }

  lemma FontLineSetsFont(st: ParserState, f: FontLine)
    requires Consistent(st) && !st.inColors && WellFormedFontLine(f)
    ensures RecordLine(st, RenderFontLine(f)) == SetFont(st.theme, f.key, StripQuotes(f.value))
  {
    MatchFontComplete(f);
    TrimIndented([], f.value);
    assert [] + f.value == f.value;
  }

  /** Trimming an indented font line with trailing white space leaves the font line. */
  lemma FontLineTrims(indent: string, f: FontLine, trailing: string)
    requires IsIndent(indent) && WellFormedFontLine(f) && AllWhitespace(trailing)
    ensures Trim(indent + RenderFontLine(f) + trailing) == RenderFontLine(f)
  {
    var text := RenderFontLine(f);
    assert text == (f.key + (":" + f.space)) + f.value;
    assert text[|text| - 1] == f.value[|f.value| - 1];
    assert text[0] == f.key[0];
    assert f.key[0] == 'f';
    assert indent + text + trailing == indent + (text + trailing);
    TrimAfterIndent(indent, text, trailing);
    TrimEndOfWhitespace(trailing);
    assert text + [] == text;
  }

  lemma FontLineIsNoSectionKey(f: FontLine)
    requires WellFormedFontLine(f)
    ensures !StartsWith(RenderFontLine(f), "theme:") && !StartsWith(RenderFontLine(f), "colors:")
  {
    var text := RenderFontLine(f);
    assert text[0] == f.key[0];
    assert f.key[0] == 'f';
    assert |text| >= 6 ==> text[..6][0] == text[0];
    assert |text| >= 7 ==> text[..7][0] == text[0];
  }

  /**
   * An indented line inside the section whose text starts with `colors:`,
   * whatever follows (a comment, a carriage return), opens the colour
   * object, keeping the colours already read.
   */
  lemma ColorsLineOpensColors(st: ParserState, indent: string, rest: string)
    requires Consistent(st) && st.inTheme && IsIndent(indent)
    ensures StepLine(st, indent + "colors:" + rest)
      == Next(st.(inColors := true, theme := st.theme.(colors := Some(st.theme.colors.GetOr(map[])))))
  {
    var line := indent + "colors:" + rest;
    ColorsLineTrims(indent, rest);
    IndentedText(indent, "colors:", rest);
    SecondBreakIsDead(line);
  }

  /** Trimming an indented `colors:` line leaves text that opens with `colors:` and not with `theme:`. */
  lemma ColorsLineTrims(indent: string, rest: string)
    requires AllWhitespace(indent)
    ensures var trimmed := Trim(indent + "colors:" + rest);
      trimmed != [] && StartsWith(trimmed, "colors:") && !StartsWith(trimmed, "theme:")
  {
    assert indent + "colors:" + rest == indent + ("colors:" + rest);
    assert "colors:"[0] == 'c' && "colors:"[6] == ':';
    TrimAfterIndent(indent, "colors:", rest);
    var trimmed := "colors:" + TrimEnd(rest);
    assert trimmed[..7] == "colors:";
    assert |trimmed| >= 6 ==> trimmed[..6][0] == 'c';
  }

  /** A theme section holding only a `colors:` line parses to an empty colour object and nothing else. */
  lemma BareColorsSection(themeLine: string, indent: string, rest: string)
    requires StartsWith(Trim(themeLine), "theme:") && IsIndent(indent)
    ensures ParseLines([themeLine, indent + "colors:" + rest], Start) == Theme(Some(map[]), None, None, None)
  {
    var lines := [themeLine, indent + "colors:" + rest];
    var afterTheme := ParserState(true, false, EmptyTheme);
    var afterColors := ParserState(true, true, Theme(Some(map[]), None, None, None));
    ParseLinesNext(lines, Start, afterTheme);
    ColorsLineOpensColors(afterTheme, indent, rest);
    assert lines[1..] == [indent + "colors:" + rest];
    ParseLinesNext(lines[1..], afterTheme, afterColors);
  }

  /** A step that carries on hands the rest of the lines to the next state. */
  lemma ParseLinesNext(lines: seq<string>, st: ParserState, next: ParserState)
    requires Consistent(st) && lines != [] && StepLine(st, lines[0]) == Next(next)
    ensures Consistent(next)
    ensures ParseLines(lines, st) == ParseLines(lines[1..], next)
  {
  }

  /** Two lines that each carry on end the parse in the state after the second. */
  lemma TwoLines(line1: string, line2: string, st: ParserState, mid: ParserState, last: ParserState)
    requires Consistent(st) && StepLine(st, line1) == Next(mid)
    requires Consistent(mid) && StepLine(mid, line2) == Next(last)
    ensures ParseLines([line1, line2], st) == last.theme
  {
    var lines := [line1, line2];
    ParseLinesNext(lines, st, mid);
    assert lines[1..] == [line2];
    ParseLinesNext([line2], mid, last);
    assert [line2][1..] == [];
  }

  /** Of two colour lines for the same key, the later one wins. */
  lemma LaterColorWins(st: ParserState, first: ColorLine, second: ColorLine,
                       indent1: string, trailing1: string, indent2: string, trailing2: string)
    requires Consistent(st) && st.inTheme && st.inColors
    requires first.key == second.key && first.key != "__proto__"
    requires WellFormedColorLine(first) && WellFormedColorLine(second) && first.key != "theme" && first.key != "colors"
    requires IsIndent(indent1) && AllWhitespace(trailing1) && IsIndent(indent2) && AllWhitespace(trailing2)
    ensures var t := ParseLines([indent1 + RenderColorLine(first) + trailing1, indent2 + RenderColorLine(second) + trailing2], st);
      t.colors.Some? && first.key in t.colors.value && t.colors.value[first.key] == second.hex
  {
    var lines := [indent1 + RenderColorLine(first) + trailing1, indent2 + RenderColorLine(second) + trailing2];
    ColorLineRecorded(st, indent1, first, trailing1);
    var mid := st.(theme := SetColor(st.theme, first.key, first.hex));
    ColorLineRecorded(mid, indent2, second, trailing2);
    TwoLines(lines[0], lines[1], st, mid, mid.(theme := SetColor(mid.theme, second.key, second.hex)));
  }

  /** Of two font lines for the same key, the later one wins. */
  lemma LaterFontWins(st: ParserState, first: FontLine, second: FontLine,
                      indent1: string, trailing1: string, indent2: string, trailing2: string)
    requires Consistent(st) && st.inTheme && !st.inColors
    requires first.key == second.key && WellFormedFontLine(first) && WellFormedFontLine(second)
    requires IsIndent(indent1) && AllWhitespace(trailing1) && IsIndent(indent2) && AllWhitespace(trailing2)
    ensures ParseLines([indent1 + RenderFontLine(first) + trailing1, indent2 + RenderFontLine(second) + trailing2], st)
      == SetFont(st.theme, second.key, StripQuotes(second.value))
  {
    var lines := [indent1 + RenderFontLine(first) + trailing1, indent2 + RenderFontLine(second) + trailing2];
    FontLineRecorded(st, indent1, first, trailing1);
    var mid := st.(theme := SetFont(st.theme, first.key, StripQuotes(first.value)));
    FontLineRecorded(mid, indent2, second, trailing2);
    TwoLines(lines[0], lines[1], st, mid, mid.(theme := SetFont(mid.theme, second.key, StripQuotes(second.value))));
  }
}
