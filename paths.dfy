/**
 * The parts of Python 2's `posixpath` that the layer snapshot uses:
 * `basename`, `dirname`, `join`, and `relpath` with the `abspath` and
 * `normpath` it is built on.  The current working directory, which
 * `abspath` reads from the process, is a parameter.
 */
module Paths {
  import opened Text

  const Sep: char := '/'

  /** `os.path.isabs(p)`. */
  predicate IsAbs(p: string)
  {
    StartsWith(p, [Sep])
  }

  /**
   * `os.path.basename(p)`: everything after the last separator, that is the
   * longest separator-free suffix of `p`.
   */
  function Basename(p: string): string
  {
    p[RFind(p, Sep) + 1..]
  }

  /** A basename holds no separator. */
  lemma BasenameLacksSeparator(p: string)
    ensures Sep !in Basename(p)
  {
    var i := RFind(p, Sep);
    RFindIsLast(p, Sep);
    var b := Basename(p);
    forall k | 0 <= k < |b| ensures b[k] != Sep {
      assert b[k] == p[i + 1 + k];
    }
  }

  /** All characters are separators. */
  predicate AllSeparators(s: string)
    decreases |s|
  {
    s == [] || (s[0] == Sep && AllSeparators(s[1..]))
  }

  /** A string with a character other than the separator is not all separators. */
  lemma {:induction false} NotAllSeparators(s: string, i: nat)
    requires i < |s| && s[i] != Sep
    ensures !AllSeparators(s)
    decreases i
  {
    if i > 0 && s[0] == Sep {
      NotAllSeparators(s[1..], i - 1);
    }
  }

  /** `s.rstrip('/')`. */
  function RStripSeparators(s: string): string
    decreases |s|
  {
    if s != [] && s[|s| - 1] == Sep then RStripSeparators(s[..|s| - 1]) else s
  }

  /**
   * `os.path.dirname(p)`: everything up to the last separator, with trailing
   * separators removed unless nothing but separators is left.
   */
  function Dirname(p: string): string
  {
    var head := p[..RFind(p, Sep) + 1];
    if head != [] && !AllSeparators(head) then RStripSeparators(head) else head
  }

  /** `dir + '/' + name`: the path of `name` inside `dir`, written out as the source does. */
  function Child(dir: string, name: string): string
  {
    dir + [Sep] + name
  }

  /** `os.path.join(a, b)` for two components. */
  function PathJoin(a: string, b: string): string
  {
    if StartsWith(b, [Sep]) then b
    else if a == [] || EndsWith(a, [Sep]) then a + b
    else a + [Sep] + b
  }

  /**
   * One component of `normpath` on an absolute path: empty and `.` components
   * vanish, `..` drops the last kept component (and is lost at the root),
   * anything else is kept.
   */
  function NormStep(kept: seq<string>, comp: string): seq<string>
  {
    if comp == "" || comp == "." then kept
    else if comp == ".." then (if kept == [] then [] else kept[..|kept| - 1])
    else kept + [comp]
  }

  /** The components `normpath` keeps after reading `comps` from left to right. */
  function Normalize(kept: seq<string>, comps: seq<string>): seq<string>
    decreases |comps|
  {
    if comps == [] then kept
    else NormStep(Normalize(kept, comps[..|comps| - 1]), comps[|comps| - 1])
  }

  /**
   * The non-empty components of `os.path.abspath(p)`: a relative path is
   * read after the components of the working directory `cwd`.  `cwd` stands
   * for `os.getcwd()`, which is always absolute, so it is read from the root
   * whether or not it starts with a separator.
   */
  function AbsComponents(p: string, cwd: string): seq<string>
  {
    if IsAbs(p) then Normalize([], Split(p, Sep))
    else Normalize(Normalize([], Split(cwd, Sep)), Split(p, Sep))
  }

  /** The length of the longest common prefix of two lists (`os.path.commonprefix`). */
  function CommonPrefixLength(a: seq<string>, b: seq<string>): (n: nat)
    ensures n <= |a| && n <= |b|
    ensures a[..n] == b[..n]
    ensures n < |a| && n < |b| ==> a[n] != b[n]
    decreases |a|
  {
    if a == [] || b == [] || a[0] != b[0] then 0
    else 1 + CommonPrefixLength(a[1..], b[1..])
  }

  /**
   * `os.path.relpath(path, start)`: climb out of `start` with `..` as far as
   * the two absolute paths differ, then go down to `path`; `.` when they are
   * the same directory.  An empty `path` raises in the source and is excluded.
   */
  function RelPath(path: string, start: string, cwd: string): string
    requires path != ""
  {
    var from := AbsComponents(start, cwd);
    var to := AbsComponents(path, cwd);
    var n := CommonPrefixLength(from, to);
    var rel := seq(|from| - n, _ => "..") + to[n..];
    if rel == [] then "." else Join(rel, Sep)
  }

  /** A component that `normpath` keeps as it is and that holds no separator. */
  predicate IsPlainName(name: string)
  {
    name != "" && name != "." && name != ".." && Sep !in name
  }

  /** The basename of `parent/name` is `name` when `name` holds no separator. */
  lemma BasenameOfChild(parent: string, name: string)
    requires Sep !in name
    ensures Basename(Child(parent, name)) == name
  {
    var p := parent + [Sep] + name;
    RFindMissing(name, Sep);
    RFindAppend(parent + [Sep], name, Sep);
    RFindAppend(parent, [Sep], Sep);
    assert RFind(p, Sep) == |parent|;
    assert p[|parent| + 1..] == name;
  }

  /** Prefixing `parent/` does not change a basename. */
  lemma BasenameUnderParent(parent: string, f: string)
    ensures Basename(Child(parent, f)) == Basename(f)
  {
    var p := parent + [Sep] + f;
    var k := RFind(f, Sep);
    RFindAppend(parent + [Sep], f, Sep);
    RFindAppend(parent, [Sep], Sep);
    assert RFind(p, Sep) == |parent| + 1 + k;
    assert p[|parent| + 1..] == f;
    assert p[|parent| + 1 + k + 1..] == f[k + 1..];
  }

  /**
   * The dirname of `parent/name` is `parent` when the parent is non-empty,
   * does not end in a separator and `name` holds none: a layer written as a
   * direct child of a directory is recognised as nested in it.
   */
  lemma DirnameOfChild(parent: string, name: string)
    requires parent != "" && !EndsWith(parent, [Sep])
    requires Sep !in name
    ensures Dirname(Child(parent, name)) == parent
  {
    var p := parent + [Sep] + name;
    RFindMissing(name, Sep);
    RFindAppend(parent + [Sep], name, Sep);
    RFindAppend(parent, [Sep], Sep);
    var i := RFind(p, Sep);
    assert i == |parent|;
    var head := p[..i + 1];
    assert head == parent + [Sep];
    assert parent[|parent| - 1] != Sep by {
      assert parent[|parent| - 1..] == [parent[|parent| - 1]];
    }
    assert head[|parent| - 1] == parent[|parent| - 1];
    NotAllSeparators(head, |parent| - 1);
    assert head[..|head| - 1] == parent;
    assert RStripSeparators(head) == RStripSeparators(parent);
  }

  /** Reading one more plain component keeps it. */
  lemma NormalizeSnoc(kept: seq<string>, comps: seq<string>, name: string)
    requires IsPlainName(name)
    ensures Normalize(kept, comps + [name]) == Normalize(kept, comps) + [name]
  {
    assert (comps + [name])[..|comps|] == comps;
  }

  /** Appending a plain component to a non-empty path appends it to the absolute components. */
  lemma AbsComponentsOfChild(start: string, cwd: string, name: string)
    requires start != ""
    requires IsPlainName(name)
    ensures AbsComponents(Child(start, name), cwd) == AbsComponents(start, cwd) + [name]
  {
    var path := start + [Sep] + name;
    assert IsAbs(path) == IsAbs(start) by {
      assert path[..1] == start[..1];
    }
    SplitSnoc(start, Sep, name);
    var base := if IsAbs(start) then [] else Normalize([], Split(cwd, Sep));
    NormalizeSnoc(base, Split(start, Sep), name);
  }

  /** A list shares all of itself with any extension of it. */
  lemma {:induction false} CommonPrefixOfExtension(a: seq<string>, b: seq<string>)
    ensures CommonPrefixLength(a, a + b) == |a|
    decreases |a|
  {
    if a != [] {
      assert (a + b)[1..] == a[1..] + b;
      CommonPrefixOfExtension(a[1..], b);
    }
  }

  /** A path whose absolute components extend those of `start` is relative to it by the extension. */
  lemma RelPathBelow(path: string, start: string, cwd: string, names: seq<string>)
    requires path != ""
    requires |names| >= 1
    requires AbsComponents(path, cwd) == AbsComponents(start, cwd) + names
    ensures RelPath(path, start, cwd) == Join(names, Sep)
  {
    var from := AbsComponents(start, cwd);
    CommonPrefixOfExtension(from, names);
    assert (from + names)[|from|..] == names;
    assert seq(0, _ => "..") + names == names;
  }

  /** `start/a` is `a` relative to `start`, whatever the working directory. */
  lemma RelPathOfChild(start: string, cwd: string, a: string)
    requires start != ""
    requires IsPlainName(a)
    ensures RelPath(Child(start, a), start, cwd) == a
  {
    AbsComponentsOfChild(start, cwd, a);
    RelPathBelow(Child(start, a), start, cwd, [a]);
  }

  /** `start/a/b` is `a/b` relative to `start`, whatever the working directory. */
  lemma RelPathOfGrandchild(start: string, cwd: string, a: string, b: string)
    requires start != ""
    requires IsPlainName(a) && IsPlainName(b)
    ensures RelPath(Child(Child(start, a), b), start, cwd) == Child(a, b)
  {
    AbsComponentsOfChild(start, cwd, a);
    AbsComponentsOfChild(Child(start, a), cwd, b);
    assert AbsComponents(start, cwd) + [a] + [b] == AbsComponents(start, cwd) + [a, b];
    RelPathBelow(Child(Child(start, a), b), start, cwd, [a, b]);
  }
}
