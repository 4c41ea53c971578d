/**
 * The batch image pipeline of resize-images.js: for every eligible file of
 * `images`, a full-size derivative in `images/full` (resized to 1024 px when
 * wider, otherwise copied), a 512 px thumbnail made from that derivative in
 * `images/thumbs`, and deletion of the source once both exist.
 */
module ResizeImages {
  import opened Wrappers
  import opened JsText
  import opened NodePath
  import opened Machine

  const FullSizeWidth: int := 1024
  const ThumbWidth: int := 512
  const SourceDir: Path := "images"
  const FullDir: Path := SourceDir + "/full"
  const ThumbDir: Path := SourceDir + "/thumbs"

  const ImageExtensions: seq<string> := [".jpg", ".jpeg", ".png", ".tiff", ".tif", ".gif", ".bmp", ".webp"]

  // ---------------------------------------------------------------- names

  /**
   * `outputFilename`: the base name with one leading underscore removed, so
   * that files staged as "_name" are published as "name".
   */
  function OutputFilename(sourceFile: string): (out: string)
    ensures out == Basename(sourceFile) || ['_'] + out == Basename(sourceFile)
    ensures out == Basename(sourceFile) <==> !StartsWith(Basename(sourceFile), "_")
  {
    var base := Basename(sourceFile);
    if StartsWith(base, "_") then
      assert base == ['_'] + base[1..];
      base[1..]
    else base
  }

  /** For a directory entry: exactly one leading underscore goes, nothing else changes. */
  lemma OutputFilenameOfEntry(name: string)
    requires '/' !in name
    ensures name != [] && name[0] == '_' ==> name == ['_'] + OutputFilename(name)
    ensures (name == [] || name[0] != '_') ==> OutputFilename(name) == name
  {
    BasenameOfEntry(name);
  }

  /** A staged entry "_x" is published as "x". */
  lemma StagedNameLosesMarker(x: string)
    requires '/' !in x
    ensures OutputFilename(['_'] + x) == x
  {
    var name := ['_'] + x;
    forall i | 0 <= i < |name| ensures name[i] != '/' {
      if i > 0 {
        assert name[i] == x[i - 1];
      }
    }
    OutputFilenameOfEntry(name);
    var out := OutputFilename(name);
    assert name[1..] == x;
    assert (['_'] + out)[1..] == out;
  }

  /**
   * Only one underscore is stripped, so the mapping is not idempotent
   * ("__x" becomes "_x"), and the entries "_x" and "x" collide.
   */
  lemma OutputFilenameNotIdempotent(x: string)
    requires '/' !in x && (x == [] || x[0] != '_')
    ensures OutputFilename(['_', '_'] + x) == ['_'] + x
    ensures OutputFilename(OutputFilename(['_', '_'] + x)) == x
    ensures OutputFilename(['_'] + x) == OutputFilename(x)
  {
    assert ['_', '_'] + x == ['_'] + (['_'] + x);
    StagedNameLosesMarker(['_'] + x);
    StagedNameLosesMarker(x);
    OutputFilenameOfEntry(x);
  }

  /** The three paths of an item, each `path.join` of a fixed directory and a name; `OutputDirsInSource` gives the parents. */
  function SourcePath(imageFile: string): Path { JoinPath(SourceDir, ".", imageFile) }
  function FullPath(imageFile: string): Path { JoinPath(FullDir, SourceDir, OutputFilename(imageFile)) }
  function ThumbPath(imageFile: string): Path { JoinPath(ThumbDir, SourceDir, OutputFilename(imageFile)) }

  /** Both output directories sit directly inside the source directory. */
  lemma OutputDirsInSource()
    ensures FullDir == SourceDir + "/" + "full" && ThumbDir == SourceDir + "/" + "thumbs"
    ensures Parent(FullDir) == SourceDir && Parent(ThumbDir) == SourceDir
    ensures Parent(SourceDir) == "."
  {
    ParentOfChild(SourceDir, "full");
    ParentOfChild(SourceDir, "thumbs");
    ParentOfComponent(SourceDir);
  }

  /**
   * For a directory entry the source is neither output, and the two outputs
   * differ unless the output name is "..": `path.join` then sends both to
   * `images` (the entry "_..").
   */
  lemma ItemPathsDistinct(imageFile: string)
    requires '/' !in imageFile
    ensures SourcePath(imageFile) != FullPath(imageFile)
    ensures SourcePath(imageFile) != ThumbPath(imageFile)
    ensures FullPath(imageFile) == ThumbPath(imageFile) <==> OutputFilename(imageFile) == ".."
  {
    var out := OutputFilename(imageFile);
    EntryOutputName(imageFile);
    OutputsMeetOnlyAtParent(out);
    SourceIsNoOutput(imageFile, out);
  }

  /** The output name of an entry is the entry, or the entry minus a leading `_`, and has no `/`. */
  lemma EntryOutputName(imageFile: string)
    requires '/' !in imageFile
    ensures var out := OutputFilename(imageFile);
      '/' !in out && (out == imageFile || ['_'] + out == imageFile)
  {
    var out := OutputFilename(imageFile);
    OutputFilenameOfEntry(imageFile);
    if out != imageFile {
      assert forall i :: 0 <= i < |out| ==> out[i] == imageFile[i + 1];
    }
  }

  /** The full-size and thumbnail paths of one output name coincide only when `..` sends both to `images`. */
  lemma OutputsMeetOnlyAtParent(out: string)
    requires '/' !in out
    ensures JoinPath(FullDir, SourceDir, out) == JoinPath(ThumbDir, SourceDir, out) <==> out == ".."
  {
    assert |FullDir| == 11 && |ThumbDir| == 13;
    if out != "" && out != "." && out != ".." {
      JoinPlainName(FullDir, SourceDir, out);
      JoinPlainName(ThumbDir, SourceDir, out);
    }
  }

  /** The source path of an entry is neither output path of its output name. */
  lemma SourceIsNoOutput(imageFile: string, out: string)
    requires '/' !in imageFile && '/' !in out
    requires out == imageFile || ['_'] + out == imageFile
    ensures SourcePath(imageFile) != JoinPath(FullDir, SourceDir, out)
    ensures SourcePath(imageFile) != JoinPath(ThumbDir, SourceDir, out)
  {
    var source := SourcePath(imageFile);
    if imageFile == "" || imageFile == "." {
      assert (['_'] + out)[0] == '_';
      assert out == imageFile;
    } else if imageFile == ".." {
      assert (['_'] + out)[0] == '_';
      assert out == imageFile;
    } else {
      JoinPlainName(SourceDir, ".", imageFile);
      if out == "" || out == "." || out == ".." {
        assert imageFile == ['_'] + out;
        assert 8 <= |source| <= 10 && |FullDir| == 11 && |ThumbDir| == 13;
      } else {
        JoinPlainName(FullDir, SourceDir, out);
        JoinPlainName(ThumbDir, SourceDir, out);
        PathsUnderDistinctDirs(imageFile, out);
      }
    }
  }

  /** The source directory, `full` and `thumbs` part within the first fourteen characters of a path. */
  lemma PathsUnderDistinctDirs(name: string, out: string)
    requires '/' !in name
    ensures SourceDir + "/" + name != FullDir + "/" + out
    ensures SourceDir + "/" + name != ThumbDir + "/" + out
    ensures FullDir + "/" + out != ThumbDir + "/" + out
  {
    var source, full, thumb := SourceDir + "/" + name, FullDir + "/" + out, ThumbDir + "/" + out;
    if |name| > 4 {
      assert source[11] == name[4] != '/' == full[11];
    } else {
      assert |source| <= 11;
    }
    if |name| > 6 {
      assert source[13] == name[6] != '/' == thumb[13];
    } else {
      assert |source| <= 13;
    }
    assert full[7] == 'f' != 't' == thumb[7];
  }

  /** An eligible entry, and its output name, are plain names, so its three paths are joined with a single `/`. */
  lemma EligiblePathsArePlain(name: string)
    requires '/' !in name && IsImageFile(name)
    ensures PlainName(name) && PlainName(OutputFilename(name))
    ensures SourcePath(name) == SourceDir + "/" + name
    ensures FullPath(name) == FullDir + "/" + OutputFilename(name)
    ensures ThumbPath(name) == ThumbDir + "/" + OutputFilename(name)
  {
    var out := OutputFilename(name);
    EligibleEndsVisibly(name);
    VisibleEndsArePlain(name);
    JoinPlainName(SourceDir, ".", name);
    JoinPlainName(FullDir, SourceDir, out);
    JoinPlainName(ThumbDir, SourceDir, out);
  }

  /** Proof helper: an entry of three or more characters that does not end with a dot, and its output name, are plain names. */
  lemma VisibleEndsArePlain(name: string)
    requires '/' !in name && |name| >= 3 && name[|name| - 1] != '.'
    ensures PlainName(name) && PlainName(OutputFilename(name))
  {
    var out := OutputFilename(name);
    OutputFilenameOfEntry(name);
    if out != name {
      UnstagedEnd(name, out);
    }
    LastVisibleIsPlain(name);
    LastVisibleIsPlain(out);
  }

  /** Proof helper: dropping the leading `_` keeps the last character and adds no `/`. */
  lemma UnstagedEnd(name: string, out: string)
    requires '/' !in name && |name| >= 3 && name == ['_'] + out
    ensures '/' !in out && |out| >= 2 && out[|out| - 1] == name[|name| - 1]
  {
    forall i | 0 <= i < |out| ensures out[i] != '/' {
      assert out[i] == name[i + 1];
    }
  }

  /** Proof helper: a name without `/` of two or more characters that does not end with a dot is plain. */
  lemma LastVisibleIsPlain(n: string)
    requires '/' !in n && |n| >= 2 && n[|n| - 1] != '.'
    ensures PlainName(n)
  {
    if n == ".." {
      assert n[1] == '.';
    }
  }

  /** An eligible entry has at least three characters and does not end with a dot. */
  lemma EligibleEndsVisibly(name: string)
    requires '/' !in name && IsImageFile(name)
    ensures |name| >= 3 && name[|name| - 1] != '.'
  {
    ImageEndsWithExtension(name);
    ExtensionShapes();
    var e := ToLower(Extname(name));
    assert |e| >= 2 && '.' !in e[1..];
    LowerSuffixLastChar(name, e);
  }

  /** A string whose lower-cased suffix ends with a character other than a dot does not end with a dot. */
  lemma LowerSuffixLastChar(name: string, e: string)
    requires 2 <= |e| <= |name| && '.' !in e[1..] && ToLower(name[|name| - |e|..]) == e
    ensures name[|name| - 1] != '.'
  {
    var tail := name[|name| - |e|..];
    assert e[|e| - 1] == e[1..][|e| - 2];
    assert e[|e| - 1] == LowerChar(tail[|e| - 1]);
    assert tail[|e| - 1] == name[|name| - 1];
  }

  // ------------------------------------------------------------- filter

  /** The filter of `main`: the lower-cased `path.extname` is on the allow-list, so an eligible name has a real extension. */
  predicate IsImageFile(name: string)
    ensures IsImageFile(name) ==> |Extname(name)| >= 2 && Extname(name)[0] == '.'
  {
    ExtensionShapes();
    ToLower(Extname(name)) in ImageExtensions
  }

  /** Each listed extension is a dot followed by at least one character that is not a dot. */
  lemma ExtensionShapes()
    ensures forall e :: e in ImageExtensions ==> |e| >= 2 && e[0] == '.' && '.' !in e[1..]
  {
  }

  /** The case of a name that, lower-cased, ends with the listed extension `e`. */
  lemma {:induction false} EndsWithExtension(name: string, e: string)
    requires '/' !in name
    requires e in ImageExtensions && |e| < |name| && ToLower(name[|name| - |e|..]) == e
    ensures Extname(name) == name[|name| - |e|..]
  {
    ExtensionShapes();
    assert |e| >= 2 && e[0] == '.' && '.' !in e[1..];
    var k := |name| - |e|;
    var tail := name[k..];
    assert ToLower(tail)[0] == LowerChar(name[k]) == '.';
    forall j | k + 1 <= j < |name| ensures name[j] != '.' {
      assert ToLower(tail)[j - k] == LowerChar(name[j]);
      assert e[1..][j - k - 1] == e[j - k];
    }
    ExtnameOfEntry(name, k);
  }

  /**
   * For a directory entry: eligible exactly when, lower-cased, it ends with
   * one of the listed extensions and has at least one character before it.
   */
  lemma {:induction false} ImageFileIff(name: string)
    requires '/' !in name
    ensures IsImageFile(name) <==>
      exists e :: e in ImageExtensions && |e| < |name| && ToLower(name[|name| - |e|..]) == e
  {
    if IsImageFile(name) {
      ImageEndsWithExtension(name);
    }
    if e :| e in ImageExtensions && |e| < |name| && ToLower(name[|name| - |e|..]) == e {
      EndsWithExtension(name, e);
    }
  }

  /** An eligible entry ends with its lower-cased extension, which has a character before it. */
  lemma ImageEndsWithExtension(name: string)
    requires '/' !in name && IsImageFile(name)
    ensures var e := ToLower(Extname(name));
      e in ImageExtensions && |e| < |name| && ToLower(name[|name| - |e|..]) == e
  {
    assert Extname(name) != [];
    EntryEndsWithLowerExtname(name);
  }

  /** `name` ends, ignoring case, with the lower-case text `e`, and has a character before it. */
  predicate EndsWithLower(name: string, e: string) {
    |e| < |name| && ToLower(name[|name| - |e|..]) == e
  }

  /** Proof helper: an entry ends with its lower-cased extension. */
  lemma EntryEndsWithLowerExtname(name: string)
    requires '/' !in name && Extname(name) != []
    ensures EndsWithLower(name, ToLower(Extname(name)))
  {
    EntryEndsWithExtname(name);
    LowerSuffix(name, Extname(name));
  }

  /** Proof helper: an entry ends with its extension, which has a character before it. */
  lemma EntryEndsWithExtname(name: string)
    requires '/' !in name && Extname(name) != []
    ensures var x := Extname(name); |x| < |name| && name[|name| - |x|..] == x
  {
    BasenameOfEntry(name);
    ExtnameShape(name);
  }

  /** Proof helper: a suffix stays a suffix, ignoring case, once lower-cased. */
  lemma LowerSuffix(name: string, x: string)
    requires |x| < |name| && name[|name| - |x|..] == x
    ensures EndsWithLower(name, ToLower(x))
  {
  }

  /** `files.filter(...)`: the eligible names in listing order. */
  function FilterImages(files: seq<string>): (kept: seq<string>)
    ensures |kept| <= |files|
    ensures forall i :: 0 <= i < |kept| ==> IsImageFile(kept[i]) && kept[i] in files
  {
    Filter(IsImageFile, files)
  }

  /** The filter keeps each eligible name as often as it is listed and drops every other name. */
  lemma FilterImagesKeepsExactlyEligible(files: seq<string>)
    ensures forall f :: f in FilterImages(files) <==> f in files && IsImageFile(f)
    ensures forall f :: multiset(FilterImages(files))[f] == if IsImageFile(f) then multiset(files)[f] else 0
  {
    forall f ensures multiset(FilterImages(files))[f] == if IsImageFile(f) then multiset(files)[f] else 0 {
      FilterCounts(IsImageFile, files, f);
    }
  }

  // ------------------------------------------------------------- one item

  /** One item's result: success, the world afterwards, and the external calls it made in order. */
  datatype ItemRun = ItemRun(ok: bool, world: World, events: seq<Event>)

  /**
   * What `processImage` does to the world: read dimensions; resize or copy
   * to the full-size path; only after that succeeded, resize the full-size
   * file to a thumbnail; only after both succeeded, unlink the source. The
   * item succeeds when both derivatives were written, whatever the unlink
   * answered.
   */
  function ProcessStep(t: Tools, w: World, imageFile: string): (r: ItemRun)
    ensures r.world.log == w.log + r.events
    ensures 1 <= |r.events| <= 4
  {
    var source := SourcePath(imageFile);
    var full := FullPath(imageFile);
    var thumb := ThumbPath(imageFile);
    var dims := t.identify(w, source);
    var e0 := Identified(source, dims);
    var w1 := World(w.files, w.log + [e0]);
    if dims.None? then ItemRun(false, w1, [e0])
    else
      var resize := dims.value.width > FullSizeWidth;
      var fullOk := if resize then t.convert(w1, source, full, FullSizeWidth) else t.copy(w1, source, full);
      var e1 := if resize then Resized(source, full, FullSizeWidth, fullOk) else Copied(source, full, fullOk);
      var w2 := World(if fullOk then w1.files + {full} else w1.files, w1.log + [e1]);
      assert w2.log == w.log + [e0, e1];
      if !fullOk then ItemRun(false, w2, [e0, e1])
      else
        var thumbOk := t.convert(w2, full, thumb, ThumbWidth);
        var e2 := Resized(full, thumb, ThumbWidth, thumbOk);
        var w3 := World(if thumbOk then w2.files + {thumb} else w2.files, w2.log + [e2]);
        assert w3.log == w.log + [e0, e1, e2];
        if !thumbOk then ItemRun(false, w3, [e0, e1, e2])
        else
          var deleted := t.unlink(w3, source);
          var e3 := Unlinked(source, deleted);
          var w4 := World(if deleted then w3.files - {source} else w3.files, w3.log + [e3]);
          assert w4.log == w.log + [e0, e1, e2, e3];
          ItemRun(true, w4, [e0, e1, e2, e3])
  }

  /** Unreadable dimensions: the item fails, and nothing but `identify` runs. */
  lemma UnreadableImageIsSkipped(t: Tools, w: World, imageFile: string)
    requires t.identify(w, SourcePath(imageFile)).None?
    ensures !ProcessStep(t, w, imageFile).ok
    ensures ProcessStep(t, w, imageFile).world.files == w.files
    ensures ProcessStep(t, w, imageFile).events == [Identified(SourcePath(imageFile), None)]
  {
  }

  /** With dimensions, the full-size step is a 1024 px resize of the source when wider, a copy otherwise. */
  lemma FullSizeOperation(t: Tools, w: World, imageFile: string, d: Dimensions)
    requires t.identify(w, SourcePath(imageFile)) == Some(d)
    ensures |ProcessStep(t, w, imageFile).events| >= 2
    ensures ProcessStep(t, w, imageFile).events[0] == Identified(SourcePath(imageFile), Some(d))
    ensures var e := ProcessStep(t, w, imageFile).events[1];
      if d.width > FullSizeWidth then e == Resized(SourcePath(imageFile), FullPath(imageFile), FullSizeWidth, e.ok)
      else e == Copied(SourcePath(imageFile), FullPath(imageFile), e.ok)
  {
  }

  /** The thumbnail is attempted exactly when the full-size step succeeded, from the full-size output, at 512 px. */
  lemma ThumbnailFollowsFullSize(t: Tools, w: World, imageFile: string)
    ensures var evs := ProcessStep(t, w, imageFile).events;
      |evs| >= 3 <==> |evs| >= 2 && evs[1].ok
    ensures var evs := ProcessStep(t, w, imageFile).events;
      |evs| >= 3 ==> evs[2] == Resized(FullPath(imageFile), ThumbPath(imageFile), ThumbWidth, evs[2].ok)
  {
  }

  /** The source is unlinked exactly when both derivatives were written. */
  lemma DeletionFollowsBothDerivatives(t: Tools, w: World, imageFile: string)
    ensures var evs := ProcessStep(t, w, imageFile).events;
      |evs| == 4 <==> |evs| >= 3 && evs[1].ok && evs[2].ok
    ensures var evs := ProcessStep(t, w, imageFile).events;
      |evs| == 4 ==> evs[3] == Unlinked(SourcePath(imageFile), evs[3].ok)
  {
  }

  /** The item succeeds exactly when dimensions were read and both derivatives were written; a failed unlink does not matter. */
  lemma SucceedsIffBothDerivatives(t: Tools, w: World, imageFile: string)
    ensures var evs := ProcessStep(t, w, imageFile).events;
      ProcessStep(t, w, imageFile).ok <==> evs[0].dims.Some? && |evs| >= 3 && evs[1].ok && evs[2].ok
    ensures var evs := ProcessStep(t, w, imageFile).events;
      ProcessStep(t, w, imageFile).ok <==> |evs| == 4
  {
  }

  /** An existing source disappears only through the unlink that follows two written derivatives. */
  lemma SourceRemovedOnlyAfterBothDerivatives(t: Tools, w: World, imageFile: string)
    requires SourcePath(imageFile) in w.files
    requires SourcePath(imageFile) !in ProcessStep(t, w, imageFile).world.files
    ensures var evs := ProcessStep(t, w, imageFile).events;
      |evs| == 4 && evs[1].ok && evs[2].ok && evs[3] == Unlinked(SourcePath(imageFile), true)
  {
  }

  /** A failed thumbnail does not roll back the full-size file, and the source is not touched. */
  lemma ThumbnailFailureKeepsFullSize(t: Tools, w: World, imageFile: string)
    requires '/' !in imageFile
    requires |ProcessStep(t, w, imageFile).events| == 3
    ensures !ProcessStep(t, w, imageFile).ok
    ensures FullPath(imageFile) in ProcessStep(t, w, imageFile).world.files
    ensures SourcePath(imageFile) in ProcessStep(t, w, imageFile).world.files <==> SourcePath(imageFile) in w.files
  {
    ItemPathsDistinct(imageFile);
  }

  /** After a success on a directory entry both derivatives exist, and the source is gone exactly when the unlink succeeded. */
  lemma SuccessLeavesBothDerivatives(t: Tools, w: World, imageFile: string)
    requires '/' !in imageFile
    requires ProcessStep(t, w, imageFile).ok
    ensures var files := ProcessStep(t, w, imageFile).world.files;
      FullPath(imageFile) in files && ThumbPath(imageFile) in files
    ensures var files := ProcessStep(t, w, imageFile).world.files;
      SourcePath(imageFile) !in files <==> ProcessStep(t, w, imageFile).events[3].ok || SourcePath(imageFile) !in w.files
  {
    ItemPathsDistinct(imageFile);
  }

  /** `processImage`, step by step on the host; it does exactly what `ProcessStep` describes. */
  method ProcessImage(host: Host, imageFile: string) returns (ok: bool)
    modifies host
    ensures ok == ProcessStep(host.tools, old(host.State()), imageFile).ok
    ensures host.State() == ProcessStep(host.tools, old(host.State()), imageFile).world
  {
    var sourcePath := SourcePath(imageFile);
    var outFile := OutputFilename(imageFile);
    var fullPath := JoinPath(FullDir, SourceDir, outFile);
    var thumbPath := JoinPath(ThumbDir, SourceDir, outFile);

    var dimensions := host.Identify(sourcePath);
    if dimensions.None? {
      return false;
    }

    var fullSuccess := false;
    var thumbSuccess := false;

    if dimensions.value.width > FullSizeWidth {
      fullSuccess := host.Resize(sourcePath, fullPath, FullSizeWidth);
    } else {
      fullSuccess := host.Copy(sourcePath, fullPath);
    }

    if fullSuccess {
      thumbSuccess := host.Resize(fullPath, thumbPath, ThumbWidth);
    }

    if fullSuccess && thumbSuccess {
      var deleteSuccess := host.Unlink(sourcePath);
      // Success either way: the derivatives are what the run delivers.
      return true;
    }
    return false;
  }

  // ------------------------------------------------------------- batch

  /** The counters of `main`'s loop, the world after it, and the external calls made. */
  datatype Tally = Tally(successes: nat, failures: nat, world: World, events: seq<Event>)

  /** `main`'s loop: every file processed once, in order, each success or failure counted. */
  function ProcessAll(t: Tools, w: World, files: seq<string>): (r: Tally)
    ensures r.successes + r.failures == |files|
    ensures r.world.log == w.log + r.events
    decreases |files|
  {
    if files == [] then Tally(0, 0, w, [])
    else
      var item := ProcessStep(t, w, files[0]);
      var rest := ProcessAll(t, item.world, files[1..]);
      LogAppend(w.log, item.events, rest.events);
      Tally(rest.successes + (if item.ok then 1 else 0),
            rest.failures + (if item.ok then 0 else 1),
            rest.world, item.events + rest.events)
  }

  /** The source paths `identify` was asked about, in call order. */
  function IdentifiedSources(evs: seq<Event>): seq<Path> {
    if evs == [] then [] else (if evs[0].Identified? then [evs[0].source] else []) + IdentifiedSources(evs[1..])
  }

  /** The number of unlink attempts. */
  function Deletions(evs: seq<Event>): nat {
    if evs == [] then 0 else (if evs[0].Unlinked? then 1 else 0) + Deletions(evs[1..])
  }

  lemma {:induction false} EventCountsAppend(a: seq<Event>, b: seq<Event>)
    ensures IdentifiedSources(a + b) == IdentifiedSources(a) + IdentifiedSources(b)
    ensures Deletions(a + b) == Deletions(a) + Deletions(b)
  {
    if a == [] {
      assert a + b == b;
    } else {
      assert (a + b)[0] == a[0];
      assert (a + b)[1..] == a[1..] + b;
      EventCountsAppend(a[1..], b);
    }
  }

  /** No event of `evs` is an `identify` call. */
  lemma {:induction false} NoneIdentified(evs: seq<Event>)
    requires forall k :: 0 <= k < |evs| ==> !evs[k].Identified?
    ensures IdentifiedSources(evs) == []
  {
    if evs != [] {
      assert forall k :: 0 <= k < |evs[1..]| ==> evs[1..][k] == evs[k + 1];
      NoneIdentified(evs[1..]);
    }
  }

  /** Only the last event of `evs` may be an unlink attempt. */
  lemma {:induction false} DeletionsAtMostLast(evs: seq<Event>)
    requires |evs| >= 1
    requires forall k :: 0 <= k < |evs| - 1 ==> !evs[k].Unlinked?
    ensures Deletions(evs) == if evs[|evs| - 1].Unlinked? then 1 else 0
  {
    if |evs| == 1 {
      assert evs[1..] == [];
    } else {
      assert forall k :: 0 <= k < |evs[1..]| ==> evs[1..][k] == evs[k + 1];
      DeletionsAtMostLast(evs[1..]);
    }
  }

  /** No event of `evs` is an unlink attempt. */
  lemma {:induction false} NoDeletions(evs: seq<Event>)
    requires forall k :: 0 <= k < |evs| ==> evs[k].MadeDirectory?
    ensures Deletions(evs) == 0
  {
    if evs != [] {
      assert forall k :: 0 <= k < |evs[1..]| ==> evs[1..][k] == evs[k + 1];
      NoDeletions(evs[1..]);
    }
  }

  /**
   * The calls of one item: `identify` on its source first and never again,
   * and an unlink attempt only as the last call, made exactly when the item succeeds.
   */
  lemma ItemEventShape(t: Tools, w: World, imageFile: string)
    ensures ProcessStep(t, w, imageFile).events[0] == Identified(SourcePath(imageFile), t.identify(w, SourcePath(imageFile)))
    ensures forall k :: 1 <= k < |ProcessStep(t, w, imageFile).events| ==> !ProcessStep(t, w, imageFile).events[k].Identified?
    ensures forall k :: 0 <= k < |ProcessStep(t, w, imageFile).events| - 1 ==> !ProcessStep(t, w, imageFile).events[k].Unlinked?
    ensures ProcessStep(t, w, imageFile).events[|ProcessStep(t, w, imageFile).events| - 1].Unlinked? <==> ProcessStep(t, w, imageFile).ok
  {
    var dims := t.identify(w, SourcePath(imageFile));
    var evs := ProcessStep(t, w, imageFile).events;
    if dims.None? {
      UnreadableImageIsSkipped(t, w, imageFile);
    } else {
      FullSizeOperation(t, w, imageFile, dims.value);
      ThumbnailFollowsFullSize(t, w, imageFile);
      DeletionFollowsBothDerivatives(t, w, imageFile);
      SucceedsIffBothDerivatives(t, w, imageFile);
      assert !evs[1].Identified? && !evs[1].Unlinked?;
      assert |evs| >= 3 ==> !evs[2].Identified? && !evs[2].Unlinked?;
      assert |evs| == 4 ==> !evs[3].Identified?;
    }
  }

  /** One item asks `identify` once, about its own source, and unlinks once exactly when it succeeds. */
  lemma ItemCounts(t: Tools, w: World, imageFile: string)
    ensures IdentifiedSources(ProcessStep(t, w, imageFile).events) == [SourcePath(imageFile)]
    ensures Deletions(ProcessStep(t, w, imageFile).events) == if ProcessStep(t, w, imageFile).ok then 1 else 0
  {
    var evs := ProcessStep(t, w, imageFile).events;
    ItemEventShape(t, w, imageFile);
    assert forall k :: 0 <= k < |evs[1..]| ==> evs[1..][k] == evs[k + 1];
    NoneIdentified(evs[1..]);
    DeletionsAtMostLast(evs);
  }

  function SourcePaths(files: seq<string>): (paths: seq<Path>)
    ensures |paths| == |files|
  {
    seq(|files|, i requires 0 <= i < |files| => SourcePath(files[i]))
  }

  /**
   * Every file is processed exactly once, in listing order: the `identify`
   * calls name the files' source paths one by one, and the success counter
   * equals the number of unlink attempts.
   */
  lemma {:induction false} ProcessedOnceInOrder(t: Tools, w: World, files: seq<string>)
    ensures IdentifiedSources(ProcessAll(t, w, files).events) == SourcePaths(files)
    ensures ProcessAll(t, w, files).successes == Deletions(ProcessAll(t, w, files).events)
    decreases |files|
  {
    if files != [] {
      var item := ProcessStep(t, w, files[0]);
      ItemCounts(t, w, files[0]);
      ProcessedOnceInOrder(t, item.world, files[1..]);
      EventCountsAppend(item.events, ProcessAll(t, item.world, files[1..]).events);
      assert SourcePaths(files) == [SourcePath(files[0])] + SourcePaths(files[1..]);
    }
  }

  // ------------------------------------------------------------- the run

  datatype RunOutcome =
    | Aborted        // `mkdir` or `readdir` rejected, so `main`'s catch handler exits with 1
    | SourceMissing  // `images` does not exist after provisioning
    | NothingToDo    // no eligible file: `main` returns normally
    | Finished(successes: nat, failures: nat, imageFiles: seq<string>)

  /** The process exit status: 0 when nothing was to do or no file failed, 1 otherwise. */
  function ExitStatus(o: RunOutcome): (code: int)
    ensures code == 0 || code == 1
    ensures code == 0 <==> o.NothingToDo? || (o.Finished? && o.failures == 0)
  {
    match o
    case Aborted => 1
    case SourceMissing => 1
    case NothingToDo => 0
    case Finished(_, failures, _) => if failures > 0 then 1 else 0
  }

  datatype Run = Run(outcome: RunOutcome, world: World, events: seq<Event>)

  /** Lines 152-155 of `main`: provision the full-size directory, then the thumbnail directory. */
  function ProvisionOutputs(t: Tools, w: World): (r: Provision)
    ensures r.world.log == w.log + r.events
    ensures w.files <= r.world.files
    ensures r.ok ==> FullDir in r.world.files && ThumbDir in r.world.files
    ensures forall k :: 0 <= k < |r.events| ==> r.events[k].MadeDirectory?
  {
    var full := EnsureDirectoryStep(t, w, FullDir);
    if !full.ok then full
    else
      var thumb := EnsureDirectoryStep(t, full.world, ThumbDir);
      Provision(thumb.ok, thumb.world, full.events + thumb.events)
  }

  /** Lines 157-193 of `main`, once both destinations exist: check, list, filter and process. */
  function ListAndProcess(t: Tools, w: World): (r: Run)
    ensures r.world.log == w.log + r.events
  {
    if SourceDir !in w.files then Run(SourceMissing, w, [])
    else
      match t.readdir(w, SourceDir)
      case None => Run(Aborted, w, [])
      case Some(entries) =>
        var imageFiles := FilterImages(entries);
        if imageFiles == [] then Run(NothingToDo, w, [])
        else
          var tally := ProcessAll(t, w, imageFiles);
          Run(Finished(tally.successes, tally.failures, imageFiles), tally.world, tally.events)
  }

  /**
   * `main`: provision both destination directories, check that the source
   * directory exists, list it, keep the eligible names and process them.
   */
  function MainStep(t: Tools, w: World): (r: Run)
    ensures r.world.log == w.log + r.events
  {
    var prov := ProvisionOutputs(t, w);
    if !prov.ok then Run(Aborted, prov.world, prov.events)
    else
      var rest := ListAndProcess(t, prov.world);
      LogAppend(w.log, prov.events, rest.events);
      Run(rest.outcome, rest.world, prov.events + rest.events)
  }

  /**
   * The exit status of a run that reached the loop: every eligible file was
   * counted once, the exit status is 1 exactly when some file failed, and the
   * `identify` calls name the eligible files' sources in listing order.
   */
  lemma FinishedRun(t: Tools, w: World)
    requires MainStep(t, w).outcome.Finished?
    ensures var prov := ProvisionOutputs(t, w);
      prov.ok && SourceDir in prov.world.files && t.readdir(prov.world, SourceDir).Some? &&
      MainStep(t, w).outcome.imageFiles == FilterImages(t.readdir(prov.world, SourceDir).value)
    ensures var o := MainStep(t, w).outcome;
      o.imageFiles != [] && o.successes + o.failures == |o.imageFiles|
    ensures var o := MainStep(t, w).outcome;
      (ExitStatus(o) == 1 <==> o.failures > 0) && (ExitStatus(o) == 0 <==> o.successes == |o.imageFiles|)
    ensures IdentifiedSources(MainStep(t, w).events) == SourcePaths(MainStep(t, w).outcome.imageFiles)
    ensures MainStep(t, w).outcome.successes == Deletions(MainStep(t, w).events)
  {
    var prov := ProvisionOutputs(t, w);
    var imageFiles := MainStep(t, w).outcome.imageFiles;
    var tally := ProcessAll(t, prov.world, imageFiles);
    ProcessedOnceInOrder(t, prov.world, imageFiles);
    NoneIdentified(prov.events);
    NoDeletions(prov.events);
    EventCountsAppend(prov.events, tally.events);
  }

  /** With no eligible file the run returns normally, having changed nothing beyond the two directories. */
  lemma NothingToDoExitsZero(t: Tools, w: World)
    requires MainStep(t, w).outcome.NothingToDo?
    ensures ExitStatus(MainStep(t, w).outcome) == 0
    ensures var prov := ProvisionOutputs(t, w);
      prov.ok && SourceDir in prov.world.files && t.readdir(prov.world, SourceDir).Some? &&
      FilterImages(t.readdir(prov.world, SourceDir).value) == []
    ensures MainStep(t, w).world == ProvisionOutputs(t, w).world
  {
  }

  /** A missing source directory exits 1, and only after both destinations were provisioned. */
  lemma MissingSourceExitsAfterProvisioning(t: Tools, w: World)
    requires MainStep(t, w).outcome == SourceMissing
    ensures ExitStatus(MainStep(t, w).outcome) == 1
    ensures FullDir in MainStep(t, w).world.files && ThumbDir in MainStep(t, w).world.files
    ensures SourceDir !in MainStep(t, w).world.files
    ensures forall k :: 0 <= k < |MainStep(t, w).events| ==> MainStep(t, w).events[k].MadeDirectory?
  {
  }

  /**
   * On a real filesystem the missing-source exit cannot happen: provisioning
   * `images/full` either finds it, and then its parent `images`, or creates
   * `images` along with it.
   */
  lemma SourceMissingUnreachable(t: Tools, w: World)
    requires PrefixClosed(w.files)
    ensures MainStep(t, w).outcome != SourceMissing
  {
    var full := EnsureDirectoryStep(t, w, FullDir);
    var prov := ProvisionOutputs(t, w);
    assert FullDir[6] == '/' && FullDir[..6] == SourceDir;
    if prov.ok {
      if FullDir in w.files {
        assert SourceDir in w.files;
      } else {
        AncestorsContainPrefix(FullDir, 6);
        assert SourceDir in full.world.files;
      }
      assert full.world.files <= prov.world.files;
    }
  }

  /** The counting loop of `main` (lines 177-193): each file processed once, in order, on the host. */
  method ProcessFiles(host: Host, imageFiles: seq<string>) returns (successCount: nat, failCount: nat)
    modifies host
    ensures successCount == ProcessAll(host.tools, old(host.State()), imageFiles).successes
    ensures failCount == ProcessAll(host.tools, old(host.State()), imageFiles).failures
    ensures host.State() == ProcessAll(host.tools, old(host.State()), imageFiles).world
  {
    ghost var tally := ProcessAll(host.tools, host.State(), imageFiles);
    successCount, failCount := 0, 0;
    for i := 0 to |imageFiles|
      invariant successCount + failCount == i
      invariant tally.successes == successCount + ProcessAll(host.tools, host.State(), imageFiles[i..]).successes
      invariant tally.failures == failCount + ProcessAll(host.tools, host.State(), imageFiles[i..]).failures
      invariant tally.world == ProcessAll(host.tools, host.State(), imageFiles[i..]).world
    {
      assert imageFiles[i..][0] == imageFiles[i] && imageFiles[i..][1..] == imageFiles[i + 1..];
      var result := ProcessImage(host, imageFiles[i]);
      if result {
        successCount := successCount + 1;
      } else {
        failCount := failCount + 1;
      }
    }
    assert imageFiles[|imageFiles|..] == [];
  }

  /**
   * `main` on the host: provision, check, list, filter, then the counting
   * loop over the eligible files. It does exactly what `MainStep` describes.
   */
  method RunMain(host: Host) returns (outcome: RunOutcome)
    modifies host
    ensures outcome == MainStep(host.tools, old(host.State())).outcome
    ensures host.State() == MainStep(host.tools, old(host.State())).world
  {
    ghost var w0 := host.State();
    var fullReady := host.EnsureDirectory(FullDir);
    if !fullReady {
      return Aborted;
    }
    var thumbReady := host.EnsureDirectory(ThumbDir);
    ghost var prov := ProvisionOutputs(host.tools, w0);
    assert host.State() == prov.world && thumbReady == prov.ok;
    if !thumbReady {
      return Aborted;
    }
    var sourceExists := host.Exists(SourceDir);
    if !sourceExists {
      return SourceMissing;
    }
    var listing := host.ReadDir(SourceDir);
    if listing.None? {
      return Aborted;
    }
    var imageFiles := FilterImages(listing.value);
    if |imageFiles| == 0 {
      return NothingToDo;
    }

    var successCount, failCount := ProcessFiles(host, imageFiles);
    return Finished(successCount, failCount, imageFiles);
  }
}
