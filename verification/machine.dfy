/**
 * The world the image script runs in: a filesystem seen as the set of paths
 * that exist, the external programs it shells out to (`identify`, `convert`,
 * `cp`) and the filesystem calls it makes (`unlink`, `mkdir`, `readdir`).
 *
 * The programs are oracles: a `Tools` value says what each invocation
 * answers, as any function of the world at that moment, including the log
 * of every earlier invocation, so an answer may depend on history. All that
 * is fixed is how an answer changes the world: a successful resize or copy
 * creates its output path, a successful unlink removes its path, a
 * successful recursive mkdir creates the directory and each of its
 * ancestors.
 */
module Machine {
  import opened Wrappers

  type Path = string

  datatype Dimensions = Dimensions(width: int, height: int)

  /** One invocation of an external program or filesystem call, with its answer. */
  datatype Event =
    | Identified(source: Path, dims: Option<Dimensions>)
    | Resized(input: Path, output: Path, width: int, ok: bool)
    | Copied(input: Path, output: Path, ok: bool)
    | Unlinked(target: Path, ok: bool)
    | MadeDirectory(dir: Path, ok: bool)

  datatype World = World(files: set<Path>, log: seq<Event>)

  datatype Tools = Tools(
    identify: (World, Path) -> Option<Dimensions>,
    convert: (World, Path, Path, int) -> bool,
    copy: (World, Path, Path) -> bool,
    unlink: (World, Path) -> bool,
    mkdir: (World, Path) -> bool,
    readdir: (World, Path) -> Option<seq<string>>)

  /** Appending events one batch after another is appending them all at once. */
  lemma LogAppend(log: seq<Event>, first: seq<Event>, second: seq<Event>)
    ensures log + first + second == log + (first + second)
  {
  }

  /** `p` and every ancestor directory of it (what `mkdir -p p` creates). */
  function WithAncestors(p: Path): set<Path> {
    {p} + Ancestors(p)
  }

  /** The proper, non-empty prefixes of `p` that end just before a `/`. */
  function Ancestors(p: Path): set<Path>
    decreases |p|
  {
    if |p| == 0 then {}
    else
      var q := p[..|p| - 1];
      (if p[|p| - 1] == '/' && |q| > 0 then {q} else {}) + Ancestors(q)
  }

  /** Every proper prefix of `p` that stops just before a `/` is an ancestor. */
  lemma {:induction false} AncestorsContainPrefix(p: Path, i: int)
    requires 0 < i < |p| && p[i] == '/'
    ensures p[..i] in Ancestors(p)
    decreases |p|
  {
    var q := p[..|p| - 1];
    if i < |p| - 1 {
      AncestorsContainPrefix(q, i);
      assert q[..i] == p[..i];
    }
  }

  /** Conversely, an ancestor is a non-empty proper prefix of `p` followed by a `/` in `p`. */
  lemma {:induction false} AncestorsArePrefixes(p: Path, a: Path)
    requires a in Ancestors(p)
    ensures 0 < |a| < |p| && a == p[..|a|] && p[|a|] == '/'
    decreases |p|
  {
    var q := p[..|p| - 1];
    if a != q || p[|p| - 1] != '/' {
      AncestorsArePrefixes(q, a);
      assert q[..|a|] == p[..|a|];
    }
  }

  /** A real filesystem: every ancestor directory of an existing path exists. */
  ghost predicate PrefixClosed(files: set<Path>) {
    forall p, i :: p in files && 0 < i < |p| && p[i] == '/' ==> p[..i] in files
  }

  /** `mkdir -p` keeps a real filesystem real. */
  lemma MakeDirectoryKeepsPrefixClosed(files: set<Path>, dir: Path)
    requires PrefixClosed(files)
    ensures PrefixClosed(files + WithAncestors(dir))
  {
    var after := files + WithAncestors(dir);
    forall p, i | p in after && 0 < i < |p| && p[i] == '/'
      ensures p[..i] in after
    {
      if p == dir {
        AncestorsContainPrefix(dir, i);
      } else if p in Ancestors(dir) {
        AncestorsArePrefixes(dir, p);
        assert dir[i] == p[i] && dir[..i] == p[..i];
        AncestorsContainPrefix(dir, i);
      }
    }
  }

  /** The outcome of `ensureDirectory` and the calls it made (none, or one `mkdir`). */
  datatype Provision = Provision(ok: bool, world: World, events: seq<Event>)

  /** `ensureDirectory`: nothing happens when `dir` exists; otherwise `mkdir -p`, whose failure is fatal. */
  function EnsureDirectoryStep(t: Tools, w: World, dir: Path): (r: Provision)
    ensures r.world.log == w.log + r.events
    ensures w.files <= r.world.files
    ensures r.ok <==> dir in r.world.files
    ensures dir in w.files ==> r.ok && r.world == w && r.events == []
    ensures forall k :: 0 <= k < |r.events| ==> r.events[k] == MadeDirectory(dir, r.ok)
    ensures dir !in w.files ==> r.events == [MadeDirectory(dir, r.ok)] && r.ok == t.mkdir(w, dir)
    ensures dir !in w.files ==> r.world.files == if r.ok then w.files + WithAncestors(dir) else w.files
  {
    if dir in w.files then Provision(true, w, [])
    else
      var ok := t.mkdir(w, dir);
      var e := MadeDirectory(dir, ok);
      Provision(ok, World(if ok then w.files + WithAncestors(dir) else w.files, w.log + [e]), [e])
  }

  /** The machine the script runs on: its filesystem, the log of external calls, and the tools' behaviour. */
  class Host {
    var files: set<Path>
    var log: seq<Event>
    const tools: Tools

    constructor (tools: Tools, files: set<Path>)
      ensures this.tools == tools && this.files == files && this.log == []
    {
      this.tools := tools;
      this.files := files;
      this.log := [];
    }

    function State(): World
      reads this
    {
      World(files, log)
    }

    /** `getImageDimensions`: the width and height `identify` reports, or None when it fails. */
    method Identify(source: Path) returns (dims: Option<Dimensions>)
      modifies this
      ensures dims == tools.identify(old(State()), source)
      ensures files == old(files) && log == old(log) + [Identified(source, dims)]
    {
      dims := tools.identify(State(), source);
      log := log + [Identified(source, dims)];
    }

    /** `resizeImage`: `convert -resize <width>x`; on success the output exists. */
    method Resize(input: Path, output: Path, width: int) returns (ok: bool)
      modifies this
      ensures ok == tools.convert(old(State()), input, output, width)
      ensures files == (if ok then old(files) + {output} else old(files))
      ensures log == old(log) + [Resized(input, output, width, ok)]
    {
      ok := tools.convert(State(), input, output, width);
      if ok {
        files := files + {output};
      }
      log := log + [Resized(input, output, width, ok)];
    }

    /** `copyImage`: `cp`; on success the output exists. */
    method Copy(input: Path, output: Path) returns (ok: bool)
      modifies this
      ensures ok == tools.copy(old(State()), input, output)
      ensures files == (if ok then old(files) + {output} else old(files))
      ensures log == old(log) + [Copied(input, output, ok)]
    {
      ok := tools.copy(State(), input, output);
      if ok {
        files := files + {output};
      }
      log := log + [Copied(input, output, ok)];
    }

    /** `deleteSourceImage`: `unlink`; on success the path is gone. */
    method Unlink(target: Path) returns (ok: bool)
      modifies this
      ensures ok == tools.unlink(old(State()), target)
      ensures files == (if ok then old(files) - {target} else old(files))
      ensures log == old(log) + [Unlinked(target, ok)]
    {
      ok := tools.unlink(State(), target);
      if ok {
        files := files - {target};
      }
      log := log + [Unlinked(target, ok)];
    }

    /** `ensureDirectory`: `ok` is false when `mkdir` rejected, which aborts the run. */
    method EnsureDirectory(dir: Path) returns (ok: bool)
      modifies this
      ensures old(dir in files) ==> ok && files == old(files) && log == old(log)
      ensures !old(dir in files) ==> ok == tools.mkdir(old(State()), dir)
      ensures dir !in old(files) ==> log == old(log) + [MadeDirectory(dir, ok)]
      ensures ok ==> dir in files && old(files) <= files
      ensures ok == EnsureDirectoryStep(tools, old(State()), dir).ok
      ensures State() == EnsureDirectoryStep(tools, old(State()), dir).world
    {
      if dir in files {
        return true;
      }
      ok := tools.mkdir(State(), dir);
      if ok {
        files := files + WithAncestors(dir);
      }
      log := log + [MadeDirectory(dir, ok)];
    }

    /** `fs.existsSync`. */
    method Exists(p: Path) returns (b: bool)
      ensures b <==> p in files
    {
      b := p in files;
    }

    /** `fs.promises.readdir`: the entry names in listing order, or None when the call rejects. */
    method ReadDir(dir: Path) returns (entries: Option<seq<string>>)
      ensures entries == tools.readdir(State(), dir)
    {
      entries := tools.readdir(State(), dir);
    }
  }
}
