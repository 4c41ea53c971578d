/**
 * `generateScss` of scripts/generate-theme-vars.mjs and the choice, at the
 * end of the script, between the fixed empty-overrides text and the
 * generated SCSS.
 */
module ThemeScss {
  import opened Wrappers
  import opened JsText
  import opened ThemeConfig

  /** The first line of both files the script can write: the two differ right after this prefix. */
  const AutoGenerated := "// Auto-generated "
  const GeneratedBanner := AutoGenerated + ("from _config.yml " + "theme section - do not edit directly")
  const EmptyBanner := AutoGenerated + "- no theme config in _config.yml"

  /** The seven lines every generated file starts with, before lines 3 and 4 are filled in. */
  const HeaderLines: seq<string> := [
    GeneratedBanner,
    "// Run: npm run sass (or gulp sass) to regenerate after config changes",
    "",
    "$theme-font-family: null;",
    "$theme-font-family-fixed: null;",
    "$theme-palette-overrides: ();",
    ""]

  /** `colorMap`: configuration key to palette key, in declaration order. */
  const ColorMap: seq<(string, string)> := [
    ("background", "bg"),
    ("background_secondary", "bg-alt"),
    ("text", "fg"),
    ("text_heading", "fg-bold"),
    ("text_muted", "fg-medium"),
    ("text_subtle", "fg-light"),
    ("border", "border"),
    ("field_background", "border-bg"),
    ("field_background_highlight", "border-bg-alt"),
    ("accent", "accent1")]

  /** The two spaces in front of every palette entry. */
  const EntryIndent := "  "

  /** The texts, after the indent, of the five palette entries derived from `$theme-bg` when a background is configured. */
  const BackgroundTexts: seq<string> := [
    "bg: $theme-bg",
    "bg-overlay: transparentize($theme-bg, 0.75)",
    "bg-overlay-alt: transparentize($theme-bg, 0.5)",
    "bg-ie-overlay: transparentize($theme-bg, 0.45)",
    "bg-ie-overlay-alt: transparentize($theme-bg, 0.2)"]

  const BackgroundEntries: seq<string> := [
    EntryIndent + BackgroundTexts[0],
    EntryIndent + BackgroundTexts[1],
    EntryIndent + BackgroundTexts[2],
    EntryIndent + BackgroundTexts[3],
    EntryIndent + BackgroundTexts[4]]

  const DefaultBackground := "#242629"

  /** The file written when the parsed theme has no key at all (lines 121-126). */
  const EmptyOverrides :=
    EmptyBanner + ("\n"
    + ("// Add a \"theme:\" section to _config.yml to customize colors and fonts.\n"
    + ("$theme-font-family: null;\n"
    + ("$theme-font-family-fixed: null;\n"
    + "$theme-palette-overrides: ();\n"))))

  /** JavaScript truthiness of a property that may be missing: present and not the empty string. */
  predicate Truthy(o: Option<string>) {
    o.Some? && o.value != []
  }

  /** `colors[key]`, missing when the object has no such key. */
  function Lookup(colors: map<string, string>, key: string): Option<string> {
    if key in colors then Some(colors[key]) else None
  }

  // ------------------------------------------------------------- reference definition

  /** Lines 3 and 4 of the header, filled in from truthy font settings. */
  function Header(theme: Theme): (lines: seq<string>)
    ensures |lines| == 7 && lines[0] == GeneratedBanner
  {
    var withFamily :=
      if Truthy(theme.fontFamily) then HeaderLines[3 := "$theme-font-family: " + theme.fontFamily.value + ";"]
      else HeaderLines;
    if Truthy(theme.fontFamilyFixed) then withFamily[4 := "$theme-font-family-fixed: " + theme.fontFamilyFixed.value + ";"]
    else withFamily
  }

  /** The `colorMap` pairs that produce an entry: every configured key except `background`. */
  function Shown(colors: map<string, string>): ((string, string)) -> bool {
    (pair: (string, string)) => pair.0 != "background" && Truthy(Lookup(colors, pair.0))
  }

  /** The palette entry of one pair, `  <palette key>: <value>`. */
  function Entry(colors: map<string, string>, pair: (string, string)): (entry: string)
    ensures StartsWith(entry, EntryIndent)
  {
    var value: string := Lookup(colors, pair.0).GetOr("");
    StartsWithConcat(EntryIndent, pair.1 + ": " + value);
    EntryIndent + (pair.1 + ": " + value)
  }

  /** One palette entry per pair. */
  function Formatted(colors: map<string, string>, pairs: seq<(string, string)>): (entries: seq<string>)
    ensures |entries| == |pairs|
    ensures forall i :: 0 <= i < |pairs| ==> entries[i] == Entry(colors, pairs[i])
  {
    seq(|pairs|, (i: int) requires 0 <= i < |pairs| => Entry(colors, pairs[i]))
  }

  /** The palette: the background block when a background is set, then the other configured keys in `colorMap` order. */
  function PaletteEntries(colors: map<string, string>): (entries: seq<string>)
    ensures |entries| <= |BackgroundEntries| + |ColorMap|
    ensures AllIndented(entries)
  {
    var lead := if Truthy(Lookup(colors, "background")) then BackgroundEntries else [];
    var shown := Formatted(colors, Filter(Shown(colors), ColorMap));
    BackgroundEntriesIndented();
    AllIndentedAppend(lead, shown);
    lead + shown
  }

  predicate AllIndented(entries: seq<string>) {
    forall i :: 0 <= i < |entries| ==> StartsWith(entries[i], EntryIndent)
  }

  lemma BackgroundEntriesIndented()
    ensures AllIndented(BackgroundEntries)
  {
    forall i | 0 <= i < 5 ensures StartsWith(BackgroundEntries[i], EntryIndent) {
      StartsWithConcat(EntryIndent, BackgroundTexts[i]);
    }
  }

  /** Proof helper: indentation survives concatenation. */
  lemma AllIndentedAppend(a: seq<string>, b: seq<string>)
    requires AllIndented(a) && AllIndented(b)
    ensures AllIndented(a + b)
  {
    forall i | 0 <= i < |a + b| ensures StartsWith((a + b)[i], EntryIndent) {
      if i >= |a| {
        assert (a + b)[i] == b[i - |a|];
      }
    }
  }

  /** `colors.background || '#242629'`. */
  function BackgroundHex(colors: map<string, string>): (hex: string)
    ensures hex != []
    ensures hex == DefaultBackground || ("background" in colors && hex == colors["background"])
  {
    if Truthy(Lookup(colors, "background")) then colors["background"] else DefaultBackground
  }

  /** The lines `generateScss` joins, as a reference definition. */
  function ScssLines(theme: Theme): (lines: seq<string>)
    ensures |lines| == 7 || |lines| == 11
    ensures lines[0] == GeneratedBanner
    ensures lines[..7] == Header(theme)
    ensures |lines| == 11 <==> |theme.colors.GetOr(map[])| > 0
  {
    var colors := theme.colors.GetOr(map[]);
    Header(theme)
    + if |colors| > 0 then
        ["$theme-bg: " + BackgroundHex(colors) + ";", "$theme-palette-overrides: (", Join(PaletteEntries(colors), ",\n"), ");"]
      else []
  }

  /** `generateScss`: the lines joined by newlines, so the text opens with the banner. */
  function Scss(theme: Theme): (text: string)
    ensures StartsWith(text, GeneratedBanner)
  {
    Join(ScssLines(theme), "\n")
  }

  /** What the script writes for a parsed theme (lines 119-133). */
  function ThemeFileContent(theme: Theme): (text: string)
    ensures StartsWith(text, AutoGenerated)
  {
    BannersStartWithMarker();
    if IsEmptyTheme(theme) then EmptyOverrides
    else
      var text := Scss(theme);
      StartsWithTransitive(text, GeneratedBanner, AutoGenerated);
      text
  }

  // ------------------------------------------------------------- the serialiser as written

  /** Formatting distributes over concatenation of pair lists. */
  lemma FormattedAppend(colors: map<string, string>, a: seq<(string, string)>, b: seq<(string, string)>)
    ensures Formatted(colors, a + b) == Formatted(colors, a) + Formatted(colors, b)
  {
    var lhs := Formatted(colors, a + b);
    var rhs := Formatted(colors, a) + Formatted(colors, b);
    forall i | 0 <= i < |lhs| ensures lhs[i] == rhs[i] {
      if i < |a| {
        assert (a + b)[i] == a[i];
      } else {
        assert (a + b)[i] == b[i - |a|];
      }
    }
  }

  lemma WholePrefix<T>(s: seq<T>)
    ensures s[..|s|] == s
  {
  }

  /** Pushing onto the array built so far: concatenation is associative. */
  lemma PushAfter(head: seq<string>, pushed: seq<string>, more: seq<string>)
    ensures head + pushed + more == head + (pushed + more)
  {
  }

  lemma EntryOfConfigured(colors: map<string, string>, pair: (string, string))
    requires Truthy(Lookup(colors, pair.0))
    ensures Entry(colors, pair) == "  " + pair.1 + ": " + colors[pair.0]
  {
  }

  /** One more pair of the map adds its entry exactly when it is shown. */
  lemma FormattedPrefixStep(colors: map<string, string>, pairs: seq<(string, string)>, j: nat)
    requires j < |pairs|
    ensures Formatted(colors, Filter(Shown(colors), pairs[..j + 1]))
      == Formatted(colors, Filter(Shown(colors), pairs[..j]))
         + if Shown(colors)(pairs[j]) then [Entry(colors, pairs[j])] else []
  {
    FilterAppend(Shown(colors), pairs[..j], [pairs[j]]);
    assert pairs[..j + 1] == pairs[..j] + [pairs[j]];
    FormattedAppend(colors, Filter(Shown(colors), pairs[..j]), Filter(Shown(colors), [pairs[j]]));
    assert [pairs[j]][1..] == [];
  }

  /** One turn of the loop over `pairs`: skipping or pushing keeps the entries those of the pairs seen so far. */
  lemma PushStep(colors: map<string, string>, start: seq<string>, pairs: seq<(string, string)>, j: nat, entries: seq<string>)
    requires j < |pairs| && entries == start + Formatted(colors, Filter(Shown(colors), pairs[..j]))
    ensures var done := start + Formatted(colors, Filter(Shown(colors), pairs[..j + 1]));
      if pairs[j].0 != "background" && Truthy(Lookup(colors, pairs[j].0))
      then entries + ["  " + pairs[j].1 + ": " + colors[pairs[j].0]] == done
      else entries == done
  {
    FormattedPrefixStep(colors, pairs, j);
    if Shown(colors)(pairs[j]) {
      EntryOfConfigured(colors, pairs[j]);
      PushAfter(start, Formatted(colors, Filter(Shown(colors), pairs[..j])), [Entry(colors, pairs[j])]);
    }
  }

  /** The entries loop, lines 100-108: the background block, then one `push` per configured key. */
  method PaletteLoop(colors: map<string, string>) returns (entries: seq<string>)
    ensures entries == PaletteEntries(colors)
  {
    entries := [];
    if Truthy(Lookup(colors, "background")) {
      entries := entries + BackgroundEntries;
      assert entries == BackgroundEntries;
    }
    entries := PushConfigured(colors, entries);
  }

  /** Lines 103-108: the `for` loop over `colorMap`, pushing onto the entries built so far. */
  method PushConfigured(colors: map<string, string>, start: seq<string>) returns (entries: seq<string>)
    ensures entries == start + Formatted(colors, Filter(Shown(colors), ColorMap))
  {
    entries := start;
    for j := 0 to |ColorMap|
      invariant entries == start + Formatted(colors, Filter(Shown(colors), ColorMap[..j]))
    {
      PushStep(colors, start, ColorMap, j, entries);
      var configKey := ColorMap[j].0;
      var paletteKey := ColorMap[j].1;
      if configKey == "background" {
        continue;
      }
      var hex := Lookup(colors, configKey);
      if Truthy(hex) {
        entries := entries + ["  " + paletteKey + ": " + hex.value];
      }
    }
    WholePrefix(ColorMap);
  }

  /** Lines 66-81: the seven header lines, with the font lines overwritten from truthy settings. */
  method HeaderFor(theme: Theme) returns (lines: seq<string>)
    ensures lines == Header(theme)
  {
    lines := HeaderLines;
    if Truthy(theme.fontFamily) {
      lines := lines[3 := "$theme-font-family: " + theme.fontFamily.value + ";"];
    }
    if Truthy(theme.fontFamilyFixed) {
      lines := lines[4 := "$theme-font-family-fixed: " + theme.fontFamilyFixed.value + ";"];
    }
  }

  /** `generateScss` as written: the header array, index assignments to lines 3 and 4, then the palette block. */
  method GenerateScss(theme: Theme) returns (scss: string)
    ensures scss == Scss(theme)
  {
    var lines := HeaderFor(theme);
    var colors := theme.colors.GetOr(map[]);
    if |colors| > 0 {
      var bgHex := if Truthy(Lookup(colors, "background")) then colors["background"] else DefaultBackground;
      assert bgHex == BackgroundHex(colors);
      var entries := PaletteLoop(colors);
      lines := lines + ["$theme-bg: " + bgHex + ";", "$theme-palette-overrides: (", Join(entries, ",\n"), ");"];
      assert lines == ScssLines(theme);
    } else {
      assert lines + [] == lines;
      assert lines == ScssLines(theme);
    }
    scss := Join(lines, "\n");
  }

  // ------------------------------------------------------------- properties

  /** The header keeps every fixed line; lines 3 and 4 are filled in exactly from truthy font settings. */
  lemma HeaderShape(theme: Theme)
    ensures forall i :: 0 <= i < 7 && i != 3 && i != 4 ==> Header(theme)[i] == HeaderLines[i]
    ensures Header(theme)[3] ==
      if Truthy(theme.fontFamily) then "$theme-font-family: " + theme.fontFamily.value + ";" else HeaderLines[3]
    ensures Header(theme)[4] ==
      if Truthy(theme.fontFamilyFixed) then "$theme-font-family-fixed: " + theme.fontFamilyFixed.value + ";"
      else HeaderLines[4]
  {
  }

  /** Every generated file starts with the header, whatever the colours. */
  lemma HeaderAlwaysFirst(theme: Theme)
    ensures |ScssLines(theme)| >= 7 && ScssLines(theme)[..7] == Header(theme)
    ensures ScssLines(theme)[0] == GeneratedBanner
  {
    HeaderShape(theme);
  }

  /** The palette block (four more lines) is there exactly when the colour object has a key. */
  lemma PaletteBlockIffColors(theme: Theme)
    ensures |ScssLines(theme)| == 7 || |ScssLines(theme)| == 11
    ensures |ScssLines(theme)| == 11 <==> theme.colors.Some? && theme.colors.value != map[]
  {
    var colors := theme.colors.GetOr(map[]);
    if |colors| == 0 {
      assert colors == map[];
    } else {
      assert colors != map[];
    }
  }

  /** The palette block: `$theme-bg` from the background or the default, then the entries joined by `,\n`. */
  lemma PaletteBlock(theme: Theme)
    requires theme.colors.Some? && |theme.colors.value| > 0
    ensures var lines := ScssLines(theme); var colors := theme.colors.value;
      |lines| == 11
      && lines[7] == "$theme-bg: " + (if Truthy(Lookup(colors, "background")) then colors["background"] else "#242629") + ";"
      && lines[8] == "$theme-palette-overrides: (" && lines[9] == Join(PaletteEntries(colors), ",\n") && lines[10] == ");"
  {
  }

  /** The five background entries lead the palette exactly when a background is set; then come the entries for the other keys. */
  lemma BackgroundEntriesLead(colors: map<string, string>)
    ensures Truthy(Lookup(colors, "background")) ==>
      PaletteEntries(colors) == BackgroundEntries + Formatted(colors, Filter(Shown(colors), ColorMap))
    ensures !Truthy(Lookup(colors, "background")) ==>
      PaletteEntries(colors) == Formatted(colors, Filter(Shown(colors), ColorMap))
  {
    assert [] + Formatted(colors, Filter(Shown(colors), ColorMap)) == Formatted(colors, Filter(Shown(colors), ColorMap));
  }

  /** A `colorMap` pair gives an entry exactly when it is not `background` and its key is configured. */
  lemma EntriesForConfiguredKeys(colors: map<string, string>, pair: (string, string))
    requires pair in ColorMap
    ensures pair in Filter(Shown(colors), ColorMap) <==> pair.0 != "background" && Truthy(Lookup(colors, pair.0))
  {
    FilterCounts(Shown(colors), ColorMap, pair);
  }

  /** The entries follow `colorMap` order: every entry of an earlier pair precedes every entry of a later one. */
  lemma EntriesInColorMapOrder(colors: map<string, string>, j: nat)
    requires j <= |ColorMap|
    ensures Filter(Shown(colors), ColorMap) == Filter(Shown(colors), ColorMap[..j]) + Filter(Shown(colors), ColorMap[j..])
  {
    FilterAppend(Shown(colors), ColorMap[..j], ColorMap[j..]);
    assert ColorMap[..j] + ColorMap[j..] == ColorMap;
  }

  /** A generated file never reads like the empty-overrides text: they part at the 19th character. */
  lemma GeneratedDiffersFromEmptyOverrides(theme: Theme)
    ensures Scss(theme) != EmptyOverrides
  {
    assert Scss(theme)[..|GeneratedBanner|] == GeneratedBanner;
    BannersPart();
  }

  /** Both files open with the same marker. */
  lemma BannersStartWithMarker()
    ensures StartsWith(GeneratedBanner, AutoGenerated)
    ensures StartsWith(EmptyOverrides, AutoGenerated)
  {
    StartsWithConcat(AutoGenerated, "from _config.yml " + "theme section - do not edit directly");
    StartsWithConcat(AutoGenerated, "- no theme config in _config.yml");
    StartsWithConcat(EmptyBanner, EmptyOverrides[|EmptyBanner|..]);
    assert EmptyBanner + EmptyOverrides[|EmptyBanner|..] == EmptyOverrides;
    StartsWithTransitive(EmptyOverrides, EmptyBanner, AutoGenerated);
  }

  /** Proof helper: the two banners differ at a fixed index. */
  lemma BannersPart()
    ensures GeneratedBanner[18] == 'f'
    ensures EmptyOverrides[18] == '-'
  {
    assert |AutoGenerated| == 18;
    assert GeneratedBanner[18] == "from _config.yml "[0];
    assert EmptyBanner[18] == "- no theme config in _config.yml"[0];
    assert |EmptyBanner| > 18;
    assert EmptyOverrides[18] == EmptyBanner[18];
  }

  /** Without a `theme:` line in the configuration the empty-overrides text is written. */
  lemma NoThemeSectionWritesEmptyOverrides(content: string)
    requires forall k :: 0 <= k < |Split(content, '\n')| ==> !StartsWith(Trim(Split(content, '\n')[k]), "theme:")
    ensures ThemeFileContent(ParseTheme(content)) == EmptyOverrides
  {
    NoThemeSectionMeansEmptyTheme(content);
  }

  /**
   * A theme whose only key is an empty `colors` object is not empty: it goes
   * through `generateScss` and yields the bare header, not the empty-overrides text.
   */
  lemma EmptyColorsGiveBareHeader(theme: Theme)
    requires theme == Theme(Some(map[]), None, None, None)
    ensures !IsEmptyTheme(theme)
    ensures ScssLines(theme) == HeaderLines
    ensures ThemeFileContent(theme) == Join(HeaderLines, "\n") != EmptyOverrides
  {
    GeneratedDiffersFromEmptyOverrides(theme);
  }

  /** The empty-overrides text is written exactly when the parsed theme has no key at all. */
  lemma EmptyOverridesIffEmptyTheme(theme: Theme)
    ensures ThemeFileContent(theme) == EmptyOverrides <==> IsEmptyTheme(theme)
  {
    if !IsEmptyTheme(theme) {
      GeneratedDiffersFromEmptyOverrides(theme);
    }
  }

  /** A configuration whose theme section holds only `colors:` is written as the bare header. */
  lemma BareColorsSectionWritesBareHeader(themeLine: string, indent: string, rest: string)
    requires StartsWith(Trim(themeLine), "theme:") && IsIndent(indent)
    ensures ThemeFileContent(ParseLines([themeLine, indent + "colors:" + rest], Start)) == Join(HeaderLines, "\n")
  {
    BareColorsSection(themeLine, indent, rest);
    EmptyColorsGiveBareHeader(Theme(Some(map[]), None, None, None));
  }
}
