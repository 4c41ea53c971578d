# Image pipeline and theme generator: a Dafny model

This project models the two scripts of a Jekyll site that contain real decision logic.

- **`resize-images.js`**, the batch image pipeline.
  - It lists `images` and keeps the files whose lower-cased extension is on an allow-list.
  - For each file it reads the dimensions with `identify`. It then resizes the file to 1024 px when it is wider, and copies it otherwise, into `images/full`.
  - Only after that succeeded, it makes a 512 px thumbnail of the full-size file in `images/thumbs`.
  - Only after both succeeded, it deletes the source.
  - Each file counts as a success or a failure, and the exit status follows from the counts.
- **`scripts/generate-theme-vars.mjs`**, the theme generator.
  - A line-oriented reader for the `theme:` section of `_config.yml`, driven by the flags `inTheme` and `inColors`.
  - An SCSS serialiser.
  - The choice between the fixed "empty overrides" text and the generated SCSS.

The modules follow the program's structure:

| module | file | contents |
|---|---|---|
| `Wrappers` | `wrappers.dfy` | `Option`, used for JavaScript's `null`/`undefined` |
| `JsText` | `js_text.dfy` | the string built-ins the scripts use: `trim`, `startsWith`, `split`, `join`, ASCII `toLowerCase`, `filter` |
| `NodePath` | `node_path.dfy` | Node's POSIX `path.basename`, `path.extname`, and `path.join` of a directory with one path component |
| `Machine` | `machine.dfy` | the world of the image script: a filesystem seen as the set of existing paths, a log of the external calls (`identify`, which only reads, and `convert`, `cp`, `unlink` and `mkdir`, which can change it; the read-only `existsSync` and `readdir` are not logged), and the `Host` class whose methods are the tool wrappers |
| `ResizeImages` | `resize_images.dfy` | `outputFilename`, the extension filter, `processImage` and `main` |
| `ThemeConfig` | `theme_config.dfy` | `parseThemeFromConfig` and its two hand-coded regular-expression matchers |
| `ThemeScss` | `theme_scss.dfy` | `generateScss` and the empty-theme decision |

The external programs (`identify`, `convert`, `cp`) and the filesystem calls (`unlink`, `mkdir`, `readdir`) are oracles. A `Tools` value gives each call's answer as an arbitrary function of the current world, including the log of earlier calls. Only the effect of an answer is fixed:

- a successful resize or copy creates its output path;
- a successful unlink removes its path;
- a successful `mkdir -p` creates the directory and every ancestor;
- a failed call changes no file.

The imperative code is modelled as imperative Dafny:

- `processImage` is the method `ProcessImage` on a `Host`.
- `main` is the method `RunMain`, whose counting loop is `ProcessFiles`.
- `parseThemeFromConfig` is the method `ParseThemeFromConfig`, a `for` loop with the two flags.
- `generateScss` is the method `GenerateScss`: index assignment into the `lines` sequence (the method `HeaderFor`), then pushes. Its palette loop is `PaletteLoop` / `PushConfigured`.

Each method is proved equal to a pure specification function: `ProcessStep`, `ProcessAll`, `MainStep`, `ParseTheme` and `Scss`. The properties the scripts promise are lemmas about those functions.

Three facts about `main` shape the model of its exits:

- **The missing-source exit cannot happen.** `ensureDirectory('images/full')` runs first and uses `mkdir -p`, which creates `images` as well. So the check on line 157 cannot fail on a real filesystem, meaning one where every ancestor directory of an existing path exists. `SourceMissingUnreachable` proves this. `MissingSourceExitsAfterProvisioning` states what happens when the check does fail, on a filesystem that is not prefix-closed.
- **One exit status for every failure.** Every failing path calls `process.exit(1)`: the missing source (line 159), a file that failed (line 207), and a rejected promise (line 216). `ExitStatus` gives 1 for all of them.
- **No summary when there is nothing to do.** With no eligible file, `main` returns at line 171, before the summary and without calling `process.exit`.

## Model

The path functions `ResizeImages.SourcePath`, `ResizeImages.FullPath` and `ResizeImages.ThumbPath` (resize-images.js:78-81), `NodePath.JoinPath` and `NodePath.Parent`, `ThemeConfig.IsEmptyTheme` (the `Object.keys(theme).length === 0` test of scripts/generate-theme-vars.mjs:119), and `ThemeScss.Truthy`, `ThemeScss.Lookup` and `ThemeScss.Shown` (the truthiness tests and `colors[k]` lookups of scripts/generate-theme-vars.mjs:70-108) are vocabulary: they transcribe one source expression each, and the members below state what they mean.

| member | source | states |
|---|---|---|
| `ResizeImages.OutputFilename` | resize-images.js:72-75 | the result is the base name, or the base name minus its one leading `_`; it is unchanged exactly when the base name does not start with `_` |
| `ResizeImages.OutputFilenameOfEntry` | resize-images.js:72-75 | for a directory entry (no `/`), a leading `_` is the only character removed, and an entry without one is returned unchanged |
| `ResizeImages.StagedNameLosesMarker` | resize-images.js:71-75 | a staged entry `_x` is published as `x` |
| `ResizeImages.OutputFilenameNotIdempotent` | resize-images.js:72-75 | `__x` becomes `_x`, not `x`, so the mapping is not idempotent; `_x` and `x` map to the same output, so they collide |
| `ResizeImages.ItemPathsDistinct` | resize-images.js:78-81 | for any directory entry the source path is neither output path; the full-size and thumbnail paths coincide exactly when the output name is `..` (the entry `_..`, which `path.join` sends to `images` twice) |
| `ResizeImages.EntryOutputName` | resize-images.js:72-75 | an entry's output name is the entry or the entry minus a leading `_`, and has no `/` |
| `ResizeImages.OutputsMeetOnlyAtParent` | resize-images.js:80-81 | the full-size and thumbnail paths of an output name coincide exactly when the name is `..` |
| `ResizeImages.SourceIsNoOutput` | resize-images.js:78-81 | an entry's source path is neither of its output paths, including for `_`, `_.` and `_..` |
| `ResizeImages.OutputDirsInSource` | resize-images.js:20-22 | `images/full` and `images/thumbs` are children of `images`, whose parent is `.` |
| `ResizeImages.EligiblePathsArePlain` | resize-images.js:78-81 | an eligible entry and its output name are never empty, `.` or `..`, so its three paths are the directory, one `/` and the name |
| `ResizeImages.EligibleEndsVisibly` | resize-images.js:163-167 | an eligible entry has at least three characters and does not end with a dot |
| `ResizeImages.PathsUnderDistinctDirs` | resize-images.js:78-81 | a slash-free name under `images` differs from any path under `images/full` or `images/thumbs`, and those two never meet |
| `ResizeImages.ExtensionShapes` | resize-images.js:163 | every allow-listed extension is a dot followed by at least one non-dot character |
| `ResizeImages.EndsWithExtension` | resize-images.js:163-167 | an entry that, lower-cased, ends with a listed extension after at least one character has exactly that suffix as its `extname` |
| `ResizeImages.ImageEndsWithExtension` | resize-images.js:163-167 | an eligible entry ends, lower-cased, with its lower-cased `extname`, which is on the list and has a character before it |
| `ResizeImages.ImageFileIff` | resize-images.js:163-167 | an entry is eligible if and only if, lower-cased, it ends with one of `.jpg .jpeg .png .tiff .tif .gif .bmp .webp` after at least one character |
| `ResizeImages.IsImageFile` | resize-images.js:163-165 | an eligible name has an extension of a dot and at least one more character |
| `ResizeImages.FilterImages` | resize-images.js:164-167 | every kept name is eligible and listed, and no more names are kept than listed |
| `ResizeImages.FilterImagesKeepsExactlyEligible` | resize-images.js:164-167 | the filter keeps every eligible name as often as it is listed, and drops every other name |
| `ResizeImages.ProcessStep` | resize-images.js:77-143 | one item makes one to four external calls and appends exactly those calls to the log |
| `ResizeImages.UnreadableImageIsSkipped` | resize-images.js:85-89 | unreadable dimensions: the item fails, no file changes, and `identify` is the only call |
| `ResizeImages.FullSizeOperation` | resize-images.js:97-115 | after `identify`, a width above 1024 resizes the source to its full-size path at 1024; any other width copies the source to that path |
| `ResizeImages.ThumbnailFollowsFullSize` | resize-images.js:117-125 | the thumbnail is attempted if and only if the full-size step succeeded, as a 512 px resize of the full-size output into `images/thumbs/<out>` |
| `ResizeImages.DeletionFollowsBothDerivatives` | resize-images.js:127-129 | the source is unlinked if and only if both derivative steps succeeded, and the unlink is the item's last call |
| `ResizeImages.SucceedsIffBothDerivatives` | resize-images.js:127-142 | the item succeeds if and only if dimensions were read and both derivatives were written, whatever the unlink answered |
| `ResizeImages.SourceRemovedOnlyAfterBothDerivatives` | resize-images.js:127-131 | an existing source disappears only through a successful unlink that follows two written derivatives |
| `ResizeImages.ThumbnailFailureKeepsFullSize` | resize-images.js:117-142 | a failed thumbnail fails the item, leaves the full-size file in place, and does not touch the source |
| `ResizeImages.SuccessLeavesBothDerivatives` | resize-images.js:127-138 | after a success both derivatives exist, and the source is gone exactly when the unlink succeeded or the source was already absent |
| `ResizeImages.ProcessImage` | resize-images.js:77-143 | the step-by-step method returns `ProcessStep`'s verdict and leaves the host in `ProcessStep`'s world |
| `ResizeImages.ProcessAll` | resize-images.js:177-193 | `successCount + failCount` equals the number of eligible files, and the log grows by exactly the calls made |
| `ResizeImages.ItemEventShape` | resize-images.js:85-139 | an item calls `identify` on its own source first and never again, and unlinks only as its last call, which happens exactly when it succeeds |
| `ResizeImages.ItemCounts` | resize-images.js:85-139 | an item asks `identify` about exactly its own source, and attempts one unlink if it succeeds and none otherwise |
| `ResizeImages.ProcessedOnceInOrder` | resize-images.js:182-193 | every eligible file is processed exactly once, in listing order, and the success counter equals the number of unlink attempts |
| `ResizeImages.ProvisionOutputs` | resize-images.js:151-155 | provisioning only adds paths and only makes `mkdir` calls; on success both destination directories exist |
| `ResizeImages.ListAndProcess` | resize-images.js:157-193 | the log grows by exactly the calls made after provisioning |
| `ResizeImages.MainStep` | resize-images.js:145-211 | the log grows by exactly the calls made in the whole run |
| `ResizeImages.ExitStatus` | resize-images.js:157-217 | the status is 0 or 1, and 0 exactly when there was nothing to do or no file failed |
| `ResizeImages.FinishedRun` | resize-images.js:162-210 | a run that reached the loop listed `images` and filtered it; its non-empty eligible list was counted completely; the exit status is 1 if and only if some file failed, and 0 if and only if all succeeded; the files were processed once each, in order |
| `ResizeImages.NothingToDoExitsZero` | resize-images.js:169-172 | with no eligible file the exit status is 0, and nothing changed beyond provisioning |
| `ResizeImages.MissingSourceExitsAfterProvisioning` | resize-images.js:151-160 | a missing source directory exits with 1 only after both destinations exist, and no call other than `mkdir` was made |
| `ResizeImages.SourceMissingUnreachable` | resize-images.js:152-160 | on a filesystem where every ancestor of an existing path exists, the missing-source exit cannot happen |
| `ResizeImages.ProcessFiles` | resize-images.js:177-193 | the counting loop produces `ProcessAll`'s two counters and world |
| `ResizeImages.RunMain` | resize-images.js:145-211 | `main` on the host produces `MainStep`'s outcome and world |
| `Machine.EnsureDirectoryStep` | resize-images.js:65-69 | `ensureDirectory` succeeds if and only if the directory exists afterwards; an existing directory causes no call and no change; a missing one causes exactly one logged `mkdir -p`, whose answer is the result, and its success adds exactly the directory and its ancestors while its failure changes no file |
| `Machine.MakeDirectoryKeepsPrefixClosed` | resize-images.js:67 | a recursive `mkdir` keeps every ancestor of every existing path existing |
| `Machine.AncestorsContainPrefix` | resize-images.js:67 | `mkdir -p` creates every non-empty prefix that ends just before a `/` |
| `Machine.AncestorsArePrefixes` | resize-images.js:67 | `mkdir -p` creates nothing but those prefixes and the directory itself |
| `Machine.Host.Identify` | resize-images.js:24-33 | returns the oracle's optional width and height, logs the call, and changes no file |
| `Machine.Host.Resize` | resize-images.js:35-43 | returns the oracle's verdict; on success exactly the output path is added |
| `Machine.Host.Copy` | resize-images.js:45-53 | returns the oracle's verdict; on success exactly the output path is added |
| `Machine.Host.Unlink` | resize-images.js:55-63 | returns the oracle's verdict; on success exactly the target path is removed |
| `Machine.Host.EnsureDirectory` | resize-images.js:65-69 | no call when the directory exists; otherwise a logged `mkdir`; the new state is `EnsureDirectoryStep`'s |
| `Machine.Host.Exists` | resize-images.js:157 | true exactly when the path exists |
| `Machine.Host.ReadDir` | resize-images.js:162 | the oracle's listing, or none when the call rejects |
| `NodePath.LastIndexOf` | resize-images.js:73 | the index of the last occurrence lies in the string or is -1 |
| `NodePath.LastIndexOfSpec` | resize-images.js:73 | the index found holds the character, and no later index does |
| `NodePath.StripTrailingSlashes` | resize-images.js:73 | the stripped path is no longer than the input and does not end in `/` |
| `NodePath.Basename` | resize-images.js:73 | the base name is no longer than the path |
| `NodePath.Extname` | resize-images.js:165 | an extension is empty or starts with a dot |
| `NodePath.StripTrailingSlashesSpec` | resize-images.js:73 | the stripped path is a prefix of the input, does not end in `/`, and only slashes were removed |
| `NodePath.BasenameHasNoSlash` | resize-images.js:73 | a base name never contains `/` |
| `NodePath.BasenameOfEntry` | resize-images.js:73 | a name without `/` is its own base name |
| `NodePath.ExtnameShape` | resize-images.js:165 | a non-empty extension is a dot, with no further dot, and a proper suffix of the base name |
| `NodePath.LastIndexOfBeforeSuffix` | resize-images.js:73 | the last occurrence of a character is the one followed by a suffix without it |
| `NodePath.ParentOfChild` | resize-images.js:78-81 | the parent `path.join` steps up to from `dir/name` is `dir` |
| `NodePath.ParentOfComponent` | resize-images.js:78 | a single component has `.` as its parent |
| `NodePath.JoinPlainName` | resize-images.js:78-81 | joining a name that is not empty, `.` or `..` and has no `/` puts it after one `/`, and `basename` gives the name back |
| `NodePath.ExtnameOfEntry` | resize-images.js:165 | for an entry other than `..`, the suffix from its last dot is its extension, provided that dot is not the first character |
| `JsText.LowerChar` | resize-images.js:165 | only ASCII capitals change, each to its lower-case letter |
| `JsText.ToLower` | resize-images.js:165 | lower-casing keeps the length and maps each character on its own |
| `JsText.FilterAppend` | resize-images.js:164 | filtering distributes over concatenation, so the listing order is kept |
| `JsText.Filter` | resize-images.js:164 | the kept elements satisfy the predicate, come from the input, and are no more than the input |
| `JsText.Join` | scripts/generate-theme-vars.mjs:112 | the joined text starts with the first part |
| `JsText.FilterCounts` | resize-images.js:164 | each kept element is kept as often as it occurs, and no other element is kept |
| `JsText.TrimStart` | scripts/generate-theme-vars.mjs:25 | the result is a suffix of the input after white space only, and does not start with white space |
| `JsText.TrimEnd` | scripts/generate-theme-vars.mjs:25 | the result is a prefix of the input before white space only, and does not end with white space |
| `JsText.Trim` | scripts/generate-theme-vars.mjs:25 | the result is a slice of the input with only white space before and after it, and it neither starts nor ends with white space |
| `JsText.TrimEndAfterText` | scripts/generate-theme-vars.mjs:25 | behind text that ends with a visible character, only the trailing white space of what follows is removed |
| `JsText.TrimAfterIndent` | scripts/generate-theme-vars.mjs:25 | visible text behind an indent trims to the text, less the white space at the end of what follows it |
| `JsText.TrimEndOfWhitespace` | scripts/generate-theme-vars.mjs:25 | white space alone trims to nothing at its end |
| `JsText.TrimStartAfterWhitespace` | scripts/generate-theme-vars.mjs:25 | leading white space in front of visible text is exactly what is removed |
| `JsText.Split` | scripts/generate-theme-vars.mjs:21 | `split('\n')` yields at least one piece, no piece holds a newline, and joining the pieces with newlines restores the input |
| `ThemeConfig.WordPrefix` | scripts/generate-theme-vars.mjs:50 | `\w+` takes the longest run of word characters |
| `ThemeConfig.SpacePrefix` | scripts/generate-theme-vars.mjs:50 | `\s*` takes the longest run of white space |
| `ThemeConfig.FirstNonWhitespace` | scripts/generate-theme-vars.mjs:40 | `search(/\S/)` is -1 exactly for an all-white line, and otherwise the first visible character |
| `ThemeConfig.MatchColor` | scripts/generate-theme-vars.mjs:50 | a match captures a word key and `#` plus exactly six hex digits |
| `ThemeConfig.ColorValue` | scripts/generate-theme-vars.mjs:50 | the value part captures `#` plus exactly six hex digits |
| `ThemeConfig.KeyBeforeColon` | scripts/generate-theme-vars.mjs:50 | the key of a colour line is the whole run of word characters before its colon |
| `ThemeConfig.ColorValueComplete` | scripts/generate-theme-vars.mjs:50 | white space, an optional quote, a colour and any tail are matched, and the colour is captured |
| `ThemeConfig.MatchColorComplete` | scripts/generate-theme-vars.mjs:50 | every `key: ["']#RRGGBB…` line matches, capturing its key and colour |
| `ThemeConfig.ColorValueSound` | scripts/generate-theme-vars.mjs:50 | a matched value part is white space, an optional quote, the captured colour and a tail |
| `ThemeConfig.ColorLineOfMatch` | scripts/generate-theme-vars.mjs:50 | every match comes from a well-formed colour line with the captured key and colour |
| `ThemeConfig.MatchColorSound` | scripts/generate-theme-vars.mjs:50 | the colour regex matches only well-formed colour lines, so together with `MatchColorComplete` it matches exactly those |
| `ThemeConfig.FontKeyOf` | scripts/generate-theme-vars.mjs:55 | the key found is a font key that the text starts with, followed by `:` |
| `ThemeConfig.FontKeyOfKey` | scripts/generate-theme-vars.mjs:55 | no font key followed by `:` is a prefix of another, so the alternation picks the key the line spells |
| `ThemeConfig.MatchFont` | scripts/generate-theme-vars.mjs:55 | a match captures a font key and a non-empty value without line terminators |
| `ThemeConfig.FontValue` | scripts/generate-theme-vars.mjs:55 | `\s*(.+)$` captures a non-empty value without line terminators |
| `ThemeConfig.FontValueComplete` | scripts/generate-theme-vars.mjs:55 | white space then visible text on one line is matched, and the text is captured |
| `ThemeConfig.MatchFontComplete` | scripts/generate-theme-vars.mjs:55 | every well-formed font line matches, capturing its key and value |
| `ThemeConfig.FontValueSound` | scripts/generate-theme-vars.mjs:55 | a captured value of trimmed text is all of it after the leading white space, and has no white space at either end |
| `ThemeConfig.FontLineOfMatch` | scripts/generate-theme-vars.mjs:55 | every match on trimmed text comes from a well-formed font line with the captured key and value |
| `ThemeConfig.MatchFontSound` | scripts/generate-theme-vars.mjs:55 | on trimmed text the font regex matches only well-formed font lines |
| `ThemeConfig.StripQuotes` | scripts/generate-theme-vars.mjs:57 | at most one leading and one trailing quote are removed, and nothing else changes |
| `ThemeConfig.WordPrefixOf` | scripts/generate-theme-vars.mjs:50 | word characters followed by a non-word character form the whole `\w+` run |
| `ThemeConfig.SpacePrefixIsTrimStart` | scripts/generate-theme-vars.mjs:50 | the run `\s*` consumes is exactly the leading white space `trim()` removes, since the two use one character class |
| `ThemeConfig.SpacePrefixOf` | scripts/generate-theme-vars.mjs:50 | white space followed by a visible character forms the whole `\s*` run |
| `JsText.TrimOfWhitespace` | scripts/generate-theme-vars.mjs:25 | an all-white line trims to the empty string |
| `ThemeConfig.TrimIndented` | scripts/generate-theme-vars.mjs:25 | an indented visible text trims to that text |
| `ThemeConfig.SetColor` | scripts/generate-theme-vars.mjs:52 | assigning a colour makes the colour map exactly the old map with `key` set to the colour, so every other key keeps its value and none is added; the font keys are unchanged; under `__proto__` the theme is unchanged |
| `ThemeConfig.SetFont` | scripts/generate-theme-vars.mjs:57 | assigning `font_family`, `font_family_fixed` or `font_google_url` sets exactly that field to the value; the colours and the other two fields are unchanged |
| `ThemeConfig.StepLine` | scripts/generate-theme-vars.mjs:24-59 | an iteration that carries on keeps the colour object present while `inColors` holds, and never removes a key |
| `ThemeConfig.SectionLine` | scripts/generate-theme-vars.mjs:35-59 | the same for a line inside the theme section |
| `ThemeConfig.ParseLines` | scripts/generate-theme-vars.mjs:23-60 | the loop only adds keys: every colour and font key of the starting theme is still set at the end |
| `ThemeConfig.ParseTheme` | scripts/generate-theme-vars.mjs:17-63 | every colour the parser records is a word key mapped to `#` plus six hex digits |
| `ThemeConfig.RecordLine` | scripts/generate-theme-vars.mjs:49-59 | recording a line never creates or removes the colour object, and never removes a key; inside `colors:` a line that is not a colour line, and outside it a line that is not a font line, leaves the theme unchanged |
| `ThemeConfig.ParseThemeFromConfig` | scripts/generate-theme-vars.mjs:17-63 | the loop with its two flags returns what `ParseTheme` describes |
| `ThemeConfig.SecondBreakIsDead` | scripts/generate-theme-vars.mjs:36-41 | an indented line with visible text has its first visible character after index 0, so the second `break` never fires |
| `ThemeConfig.PreambleIgnored` | scripts/generate-theme-vars.mjs:27-33 | lines before the first `theme:` line never affect the result |
| `ThemeConfig.NoThemeLineMeansEmptyTheme` | scripts/generate-theme-vars.mjs:27-33 | without a `theme:` line nothing is recorded |
| `ThemeConfig.NoThemeSectionMeansEmptyTheme` | scripts/generate-theme-vars.mjs:17-33 | configuration text without a `theme:` line parses to `{}` |
| `ThemeConfig.TopLevelLineEndsSection` | scripts/generate-theme-vars.mjs:36-38 | inside the section, a visible line that starts with neither space nor tab ends the loop; nothing after it is read |
| `ThemeConfig.RecordKeepsColorsValid` | scripts/generate-theme-vars.mjs:49-53 | recording a line keeps every stored colour a word key mapped to `#RRGGBB` |
| `ThemeConfig.SetColorKeepsColorsValid` | scripts/generate-theme-vars.mjs:52 | storing a word key and a hex colour keeps the colours valid |
| `ThemeConfig.StepKeepsColorsValid` | scripts/generate-theme-vars.mjs:24-59 | every iteration keeps the colours valid |
| `ThemeConfig.ParseLinesKeepsColorsValid` | scripts/generate-theme-vars.mjs:23-60 | the whole loop keeps the colours valid |
| `ThemeConfig.StepInColorsKeepsFonts` | scripts/generate-theme-vars.mjs:43-59 | inside `colors:`, a line other than `theme:` keeps the parser in colours and leaves the font keys alone |
| `ThemeConfig.RecordInColorsKeepsFonts` | scripts/generate-theme-vars.mjs:49-53 | a line recorded inside `colors:` never sets a font key |
| `ThemeConfig.FontsFrozenInColors` | scripts/generate-theme-vars.mjs:43-59 | after `colors:`, until the next `theme:` line, no font key is recognised |
| `ThemeConfig.KeyPrefixDistinct` | scripts/generate-theme-vars.mjs:27-43 | a line `key:…` does not start with `other:` for any different word key `other` |
| `ThemeConfig.IndentedText` | scripts/generate-theme-vars.mjs:36 | a line behind a space or tab indent counts as indented, whatever follows |
| `ThemeConfig.ColorLineRecorded` | scripts/generate-theme-vars.mjs:43-53 | inside `colors:`, an indented colour line, with any tail and any trailing white space such as a carriage return, sets `colors[key]` to its colour and changes nothing else |
| `ThemeConfig.ColorLineSetsColor` | scripts/generate-theme-vars.mjs:49-53 | recording a colour line inside `colors:` assigns its colour to its key |
| `ThemeConfig.ColorLineTrims` | scripts/generate-theme-vars.mjs:25 | trimming an indented colour line with trailing white space leaves the colour line, its tail stripped of white space at the end |
| `ThemeConfig.ColorHeadVisible` | scripts/generate-theme-vars.mjs:25 | a colour line up to its colour starts and ends with a visible character |
| `ThemeConfig.ColorLineSplit` | scripts/generate-theme-vars.mjs:50 | a colour line is its part up to the colour followed by its tail |
| `ThemeConfig.ColorLineIsNoSectionKey` | scripts/generate-theme-vars.mjs:27-43 | a colour line whose key is neither `theme` nor `colors` is not taken for a section line |
| `ThemeConfig.IndentedLineInSection` | scripts/generate-theme-vars.mjs:36-59 | an indented visible line that is not a section line reaches the recording step |
| `ThemeConfig.FontLineRecorded` | scripts/generate-theme-vars.mjs:54-58 | outside `colors:`, an indented font line, with any trailing white space, sets its key to the value with at most one quote removed at each end |
| `ThemeConfig.FontLineSetsFont` | scripts/generate-theme-vars.mjs:54-58 | recording a font line outside `colors:` assigns its unquoted value to its key |
| `ThemeConfig.FontLineTrims` | scripts/generate-theme-vars.mjs:25 | trimming an indented font line with trailing white space leaves the font line |
| `ThemeConfig.FontLineIsNoSectionKey` | scripts/generate-theme-vars.mjs:27-43 | a font line is not taken for a `theme:` or `colors:` line |
| `ThemeConfig.ColorsLineOpensColors` | scripts/generate-theme-vars.mjs:43-47 | an indented line whose text starts with `colors:`, whatever follows, sets `inColors` and creates the colour object, keeping any existing one |
| `ThemeConfig.ColorsLineTrims` | scripts/generate-theme-vars.mjs:25-43 | an indented `colors:` line trims to text that starts with `colors:` and not with `theme:` |
| `ThemeConfig.BareColorsSection` | scripts/generate-theme-vars.mjs:43-47 | `theme:` followed by a `colors:` line with no colour yields a theme with only an empty colour object |
| `ThemeConfig.ParseLinesNext` | scripts/generate-theme-vars.mjs:23-60 | an iteration that carries on hands its state to the rest of the loop |
| `ThemeConfig.TwoLines` | scripts/generate-theme-vars.mjs:23-60 | two iterations that carry on end the loop in the state after the second |
| `ThemeConfig.LaterColorWins` | scripts/generate-theme-vars.mjs:52 | of two colour lines with the same key, each with any trailing white space, the later value is the one stored |
| `ThemeConfig.LaterFontWins` | scripts/generate-theme-vars.mjs:57 | of two font lines with the same key, each with any trailing white space, the later value is the one stored |
| `ThemeScss.Header` | scripts/generate-theme-vars.mjs:66-81 | the header always has seven lines, the first of which is the auto-generated banner |
| `ThemeScss.Entry` | scripts/generate-theme-vars.mjs:106-107 | a palette entry is indented by two spaces |
| `ThemeScss.Formatted` | scripts/generate-theme-vars.mjs:104-108 | one palette entry per pair, in the order of the pairs: entry `i` is the entry of pair `i` |
| `ThemeScss.PaletteEntries` | scripts/generate-theme-vars.mjs:100-108 | the palette has at most the five background entries plus one per `colorMap` pair, and every entry is indented by two spaces |
| `ThemeScss.BackgroundEntriesIndented` | scripts/generate-theme-vars.mjs:101-102 | the five background entries are indented by two spaces |
| `ThemeScss.BackgroundHex` | scripts/generate-theme-vars.mjs:99 | `$theme-bg` is never empty: it is the configured background or `#242629` |
| `ThemeScss.ScssLines` | scripts/generate-theme-vars.mjs:65-112 | the first seven lines are the header, so the first is the banner, and four more lines follow exactly when `colors` has a key |
| `ThemeScss.Scss` | scripts/generate-theme-vars.mjs:65-113 | the generated text starts with the auto-generated banner |
| `ThemeScss.ThemeFileContent` | scripts/generate-theme-vars.mjs:119-133 | whatever the theme, the written text starts with `// Auto-generated ` |
| `ThemeScss.BannersStartWithMarker` | scripts/generate-theme-vars.mjs:67-121 | both possible first lines start with `// Auto-generated ` |
| `ThemeScss.HeaderShape` | scripts/generate-theme-vars.mjs:66-81 | the header lines are the fixed ones, except that lines 3 and 4 name the font families exactly when those are truthy |
| `ThemeScss.HeaderAlwaysFirst` | scripts/generate-theme-vars.mjs:66-81 | every generated file starts with the seven header lines, the first of which is the auto-generated banner |
| `ThemeScss.PaletteBlockIffColors` | scripts/generate-theme-vars.mjs:97-110 | the output has 11 lines if and only if `colors` exists and has a key, and 7 lines otherwise |
| `ThemeScss.PaletteBlock` | scripts/generate-theme-vars.mjs:97-110 | with colours, lines 7-10 are `$theme-bg` (the background, or `#242629` when it is absent), the opening of the map, the entries joined with `,\n`, and `);` |
| `ThemeScss.BackgroundEntriesLead` | scripts/generate-theme-vars.mjs:101-108 | the five `bg*` entries come first exactly when a background is set, then the other shown pairs |
| `ThemeScss.EntriesForConfiguredKeys` | scripts/generate-theme-vars.mjs:104-108 | a `colorMap` pair gives an entry if and only if its key is not `background` and its colour is set |
| `ThemeScss.EntriesInColorMapOrder` | scripts/generate-theme-vars.mjs:84-108 | the entries follow `colorMap`'s declaration order: the entries of any prefix of the map come before those of the rest |
| `ThemeScss.PushStep` | scripts/generate-theme-vars.mjs:104-108 | one iteration of the entries loop extends the entries of the pairs seen so far by the next pair's entry, if it is shown |
| `ThemeScss.PushConfigured` | scripts/generate-theme-vars.mjs:104-108 | the `for … of Object.entries(colorMap)` loop appends the entries of the shown pairs, in map order |
| `ThemeScss.PaletteLoop` | scripts/generate-theme-vars.mjs:97-108 | the imperative palette construction yields the palette of the reference definition |
| `ThemeScss.HeaderFor` | scripts/generate-theme-vars.mjs:66-81 | starting from the seven fixed lines and overwriting lines 3 and 4 from truthy font settings yields exactly the reference header `Header` |
| `ThemeScss.GenerateScss` | scripts/generate-theme-vars.mjs:65-113 | the imperative serialiser, which assigns lines 3 and 4 and then pushes, yields the reference SCSS |
| `ThemeScss.GeneratedDiffersFromEmptyOverrides` | scripts/generate-theme-vars.mjs:119-133 | no theme's generated SCSS is the empty-overrides text |
| `ThemeScss.EmptyOverridesIffEmptyTheme` | scripts/generate-theme-vars.mjs:119-133 | the empty-overrides text is written if and only if the parsed theme has no key |
| `ThemeScss.NoThemeSectionWritesEmptyOverrides` | scripts/generate-theme-vars.mjs:115-127 | configuration text without a `theme:` line produces the empty-overrides text |
| `ThemeScss.EmptyColorsGiveBareHeader` | scripts/generate-theme-vars.mjs:119-133 | a theme with only an empty colour object is not empty; it goes through `generateScss` and yields just the seven header lines |
| `ThemeScss.BareColorsSectionWritesBareHeader` | scripts/generate-theme-vars.mjs:119-133 | `theme:` followed by a `colors:` line with no colour writes just the header, not the empty-overrides text |

## Left out

- Logging and console output (`log`, resize-images.js:10-16, and `console.log` in the theme script) are not modelled. They are diagnostic text only.
- The parsing of `identify`'s output with `split('x').map(Number)` is not modelled. `identify` is an oracle that answers an optional width and height. An unparseable width is `NaN` in JavaScript, and `NaN > 1024` is false, so it takes the copy branch; the oracle can answer any width, so an answer of 1024 or less stands for it.
- The external programs and their pixel semantics are not modelled. That a resize yields 1024 px, or that a copy is byte-identical, is the tool's promise. The model records each call's arguments and success.
- Real filesystem I/O, including `readFileSync`, `writeFileSync`, `readdir`, `existsSync` and `mkdir`, is reduced to a set of existing paths and oracle answers. A failed call is taken to change no file.
- The theme script's `try`/`catch` around reading and writing (scripts/generate-theme-vars.mjs:115-137) is not modelled, because it only handles I/O errors. The model covers the content it would write.
- `async`/`await` and the promise plumbing are ordinary sequential calls. A rejected `mkdir` or `readdir` is the outcome `Aborted`, with exit status 1, as `main().catch` gives.
- Shell quoting in the `exec` command strings is not modelled.
- `path.join` is modelled only for a name without `/`: an empty name and `.` give the directory, `..` its parent, and any other name is appended after one `/`. A name that contains `/` is appended as it is, without resolving `.` or `..` segments inside it. `readdir` never lists such a name, so only a direct call of the exported `processImage` could pass one.
- `toLowerCase` is restricted to ASCII letters, and `\w` and `\s` follow the non-Unicode regular-expression classes. Non-ASCII capitals in an extension are not lower-cased.
- `operationType`, `resizeCount` and `copyCount` (resize-images.js:95, 179-180) only feed log messages, so they are not modelled.
- The order of a JavaScript object's own keys is not modelled, and `theme` is a value datatype rather than a mutable object. Only `Object.keys(…).length` is used, for emptiness.
- `gulpfile.mjs` is not part of this model. It is task wiring over libraries that are not shown.
- `MatchFontSound`: its contract is stated for text that does not end in white space, the only kind the parser passes it, since the text is trimmed first. On other text the greedy `.+` would also capture trailing white space.
- `EntriesForConfiguredKeys`: its contract states which pairs give an entry, not how often each does. Each `colorMap` pair occurs once, and `EntriesInColorMapOrder` gives the order.
