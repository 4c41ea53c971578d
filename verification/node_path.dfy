/**
 * The POSIX functions of Node's `path` module the image script uses:
 * `basename` (the last path component, trailing slashes ignored),
 * `extname` (that component from its last dot on, with Node's rules for
 * names that begin with a dot and for `..`) and `join` of a directory with
 * one path component.
 *
 * The functions carry only short postconditions (bounds, the shape of the
 * result), so that the pipeline's proofs, which mention them, stay cheap;
 * what they compute exactly is stated by the lemmas below them.
 */
module NodePath {

  /** Index of the last occurrence of `c` in `s`, or -1. */
  function LastIndexOf(s: string, c: char): (k: int)
    ensures -1 <= k < |s|
  {
    if s == [] then -1
    else if s[|s| - 1] == c then |s| - 1
    else LastIndexOf(s[..|s| - 1], c)
  }

  lemma {:induction false} LastIndexOfSpec(s: string, c: char)
    ensures LastIndexOf(s, c) >= 0 ==> s[LastIndexOf(s, c)] == c
    ensures forall j :: LastIndexOf(s, c) < j < |s| ==> s[j] != c
  {
    if s != [] && s[|s| - 1] != c {
      var s' := s[..|s| - 1];
      LastIndexOfSpec(s', c);
      assert forall j :: 0 <= j < |s'| ==> s'[j] == s[j];
    }
  }

  /** `p` without its trailing slashes. */
  function StripTrailingSlashes(p: string): (q: string)
    ensures |q| <= |p|
    ensures q == [] || q[|q| - 1] != '/'
  {
    if p != [] && p[|p| - 1] == '/' then StripTrailingSlashes(p[..|p| - 1]) else p
  }

  lemma {:induction false} StripTrailingSlashesSpec(p: string)
    ensures StripTrailingSlashes(p) == p[..|StripTrailingSlashes(p)|]
    ensures StripTrailingSlashes(p) == [] || StripTrailingSlashes(p)[|StripTrailingSlashes(p)| - 1] != '/'
    ensures forall i :: |StripTrailingSlashes(p)| <= i < |p| ==> p[i] == '/'
  {
    if p != [] && p[|p| - 1] == '/' {
      var p' := p[..|p| - 1];
      StripTrailingSlashesSpec(p');
      assert forall i :: 0 <= i < |p'| ==> p'[i] == p[i];
      assert p'[..|StripTrailingSlashes(p')|] == p[..|StripTrailingSlashes(p')|];
    }
  }

  /** `path.basename(p)`: the last component, trailing slashes ignored. */
  function Basename(p: string): (b: string)
    ensures |b| <= |p|
  {
    var q := StripTrailingSlashes(p);
    q[LastIndexOf(q, '/') + 1..]
  }

  /** The base name never contains a slash. */
  lemma BasenameHasNoSlash(p: string)
    ensures '/' !in Basename(p)
  {
    var q := StripTrailingSlashes(p);
    LastIndexOfSpec(q, '/');
    var b := Basename(p);
    var k := LastIndexOf(q, '/') + 1;
    forall i | 0 <= i < |b| ensures b[i] != '/' {
      assert b[i] == q[k + i];
    }
  }

  /** A name without any slash is its own base name (the case of every directory entry). */
  lemma BasenameOfEntry(name: string)
    requires '/' !in name
    ensures Basename(name) == name
  {
    if name != [] {
      assert name[|name| - 1] != '/';
    }
    assert StripTrailingSlashes(name) == name;
    LastIndexOfSpec(name, '/');
    assert LastIndexOf(name, '/') == -1;
  }

  /**
   * `path.extname(p)`: empty when the base name has no dot, when its last
   * dot is its first character (".bashrc"), or when it is ".."; otherwise
   * the base name from its last dot on.
   */
  function Extname(p: string): (e: string)
    ensures e == [] || e[0] == '.'
  {
    var b := Basename(p);
    var dot := LastIndexOf(b, '.');
    LastIndexOfSpec(b, '.');
    if dot <= 0 || b == ".." then [] else b[dot..]
  }

  /** A non-empty extension is a proper suffix of the base name: a dot and no further dot. */
  lemma ExtnameShape(p: string)
    ensures var e := Extname(p); var b := Basename(p);
      e != [] ==> e[0] == '.' && '.' !in e[1..] && |e| < |b| && b[|b| - |e|..] == e
  {
    var b := Basename(p);
    LastIndexOfSpec(b, '.');
    var dot := LastIndexOf(b, '.');
    if Extname(p) != [] {
      forall i | 0 <= i < |b[dot..][1..]| ensures b[dot..][1..][i] != '.' {
        assert b[dot..][1..][i] == b[dot + 1 + i];
      }
    }
  }

  /**
   * Which suffixes `extname` reports for a directory entry: exactly the last
   * dot and what follows it, provided that dot is not the first character
   * and the name is not "..".
   */
  lemma ExtnameOfEntry(name: string, k: int)
    requires '/' !in name
    requires 0 < k < |name| && name[k] == '.' && '.' !in name[k + 1..]
    requires name != ".."
    ensures Extname(name) == name[k..]
  {
    BasenameOfEntry(name);
    LastIndexOfSpec(name, '.');
    var dot := LastIndexOf(name, '.');
    assert dot >= k;
  }

  /** The last `c` of a string is the one followed by a suffix without `c`. */
  lemma {:induction false} LastIndexOfBeforeSuffix(prefix: string, c: char, suffix: string)
    requires c !in suffix
    ensures LastIndexOf(prefix + [c] + suffix, c) == |prefix|
    decreases |suffix|
  {
    var s := prefix + [c] + suffix;
    if suffix != [] {
      var shorter := suffix[..|suffix| - 1];
      assert s[|s| - 1] == suffix[|suffix| - 1];
      assert s[..|s| - 1] == prefix + [c] + shorter;
      LastIndexOfBeforeSuffix(prefix, c, shorter);
    }
  }

  /** The directory part of a normalised relative path: up to its last `/`, or `.` when it has one component. */
  function Parent(dir: string): string
  {
    var k := LastIndexOf(dir, '/');
    if k < 0 then "." else dir[..k]
  }

  /**
   * `path.join(dir, name)` for a normalised relative directory `dir` with
   * parent directory `parent` (that is, `Parent(dir)`) and a name without `/`:
   * normalisation drops an empty name and `.`, lets `..` step up to the
   * parent, and otherwise puts one `/` between the two.
   */
  function JoinPath(dir: string, parent: string, name: string): string
  {
    if name == "" || name == "." then dir
    else if name == ".." then parent
    else dir + "/" + name
  }

  /** A name that normalisation leaves alone. */
  predicate PlainName(name: string) {
    '/' !in name && name != "" && name != "." && name != ".."
  }

  /** The parent of `dir/name` is `dir`. */
  lemma ParentOfChild(dir: string, name: string)
    requires '/' !in name
    ensures Parent(dir + "/" + name) == dir
  {
    assert dir + "/" + name == dir + ['/'] + name;
    LastIndexOfBeforeSuffix(dir, '/', name);
  }

  /** A single component has `.` as its parent. */
  lemma ParentOfComponent(name: string)
    requires '/' !in name
    ensures Parent(name) == "."
  {
    LastIndexOfSpec(name, '/');
  }

  /** Joining a plain name puts it after one slash, and `basename` gives it back. */
  lemma JoinPlainName(dir: string, parent: string, name: string)
    requires PlainName(name)
    ensures JoinPath(dir, parent, name) == dir + "/" + name
    ensures Basename(JoinPath(dir, parent, name)) == name
  {
    var p := dir + "/" + name;
    assert p[|p| - 1] == name[|name| - 1] != '/';
    assert StripTrailingSlashes(p) == p;
    assert p == dir + ['/'] + name;
    LastIndexOfBeforeSuffix(dir, '/', name);
    assert p[|dir| + 1..] == name;
  }
}
