/**
 * The part of Python's `pathlib` that the modelled code uses: parsing a string
 * into a path, joining with `/`, and the `name`, `stem`, `suffix`, `with_name`
 * and `with_stem` accessors (with the `rfind('.')` rules of Python 3.11).
 */
module Paths {
  import opened Text

  /** A path as its components (`PurePath.parts`); an absolute path starts with the part "/". */
  datatype Path = Path(parts: seq<string>)

  /** A single, non-trivial path component: what `with_name` accepts. */
  predicate IsComponent(s: string) {
    s != "" && s != "." && '/' !in s
  }

  ghost predicate ValidPath(p: Path) {
    forall k :: 0 <= k < |p.parts| ==> IsComponent(p.parts[k]) || (k == 0 && p.parts[k] == "/")
  }

  /** Keeps the pieces of a split path string that pathlib keeps: drops "" and ".". */
  function Components(pieces: seq<string>): (r: seq<string>)
    ensures |r| <= |pieces|
    ensures forall k :: 0 <= k < |r| ==> r[k] in pieces && r[k] != "" && r[k] != "."
  {
    if pieces == [] then []
    else (if pieces[0] == "" || pieces[0] == "." then [] else [pieces[0]]) + Components(pieces[1..])
  }

  /** `Path(s)` for a POSIX path string. */
  function PathOf(s: string): (p: Path)
    ensures ValidPath(p)
  {
    var comps := Components(SplitOn(s, '/'));
    if |s| > 0 && s[0] == '/' then Path(["/"] + comps) else Path(comps)
  }

  /** `dir / s`: an absolute `s` replaces `dir`, a relative one is appended. */
  function Join(dir: Path, s: string): Path {
    if |s| > 0 && s[0] == '/' then PathOf(s) else Path(dir.parts + PathOf(s).parts)
  }

  /** `p.name`: the last component, "" for the empty path and for the root. */
  function Name(p: Path): string {
    if p.parts == [] || p.parts == ["/"] then "" else p.parts[|p.parts| - 1]
  }

  /** The path without its last component (`p.parent` when `p.name` is not empty). */
  function Parent(p: Path): Path {
    if p.parts == [] then p else Path(p.parts[..|p.parts| - 1])
  }

  /** `suffix` of a file name: from its last dot on, unless that dot is first or last. */
  function Suffix(name: string): (r: string)
    ensures r == "" || (2 <= |r| <= |name| && r[0] == '.' && '.' !in r[1..] && r == name[|name| - |r|..])
  {
    var i := RFind(name, '.');
    if 0 < i < |name| - 1 then name[i..] else ""
  }

  /** `stem` of a file name: the name without its `Suffix`. */
  function Stem(name: string): string {
    var i := RFind(name, '.');
    if 0 < i < |name| - 1 then name[..i] else name
  }

  lemma StemThenSuffix(name: string)
    ensures Stem(name) + Suffix(name) == name
  {
  }

  /** `p.with_name(name)`; pathlib raises ValueError for an empty `p.name` or an invalid `name`. */
  function WithName(p: Path, name: string): (r: Path)
    requires Name(p) != "" && IsComponent(name)
    ensures Parent(r) == Parent(p) && Name(r) == name
  {
    Path(p.parts[..|p.parts| - 1] + [name])
  }

  /** `p.with_stem(stem)`: keeps the directory and the suffix, replaces the stem. */
  function WithStem(p: Path, stem: string): Path
    requires Name(p) != "" && IsComponent(stem + Suffix(Name(p)))
  {
    WithName(p, stem + Suffix(Name(p)))
  }

  lemma {:induction false} RFindAfterLast(a: string, c: char, b: string)
    requires c !in b
    ensures RFind(a + [c] + b, c) == |a|
  {
    var s := a + [c] + b;
    var i := RFind(s, c);
    assert s[|a|] == c;
    assert forall k :: |a| < k < |s| ==> s[k] == b[k - |a| - 1];
    assert forall k :: i < k < |s| ==> s[k] == s[i + 1..][k - i - 1];
  }

  /**
   * `with_stem` keeps the parent and the suffix and makes `stem` the new stem,
   * as long as the path had a suffix and the new stem is not empty.
   */
  lemma WithStemKeepsSuffix(p: Path, stem: string)
    requires Name(p) != "" && IsComponent(stem + Suffix(Name(p)))
    requires stem != "" && Suffix(Name(p)) != ""
    ensures Parent(WithStem(p, stem)) == Parent(p)
    ensures Stem(Name(WithStem(p, stem))) == stem
    ensures Suffix(Name(WithStem(p, stem))) == Suffix(Name(p))
  {
    var suf := Suffix(Name(p));
    var name := stem + suf;
    assert name == stem + ['.'] + suf[1..];
    RFindAfterLast(stem, '.', suf[1..]);
  }

  lemma {:induction false} ComponentsOfOne(s: string)
    requires IsComponent(s)
    ensures Components(SplitOn(s, '/')) == [s]
  {
    SplitOfCFree(s, '/');
  }

  /** Joining a single component appends it: `dir / name` has parent `dir` and name `name`. */
  lemma JoinComponent(dir: Path, name: string)
    requires IsComponent(name)
    ensures Join(dir, name) == Path(dir.parts + [name])
    ensures Parent(Join(dir, name)) == dir
    ensures Name(Join(dir, name)) == name
  {
    ComponentsOfOne(name);
    assert (dir.parts + [name])[..|dir.parts|] == dir.parts;
  }

  /** The suffix of `base.ext`, for an `ext` without dots, is `.ext`. */
  lemma SuffixOfDotted(base: string, ext: string)
    requires base != "" && ext != "" && '.' !in ext
    ensures Suffix(base + ['.'] + ext) == ['.'] + ext
  {
    RFindAfterLast(base, '.', ext);
    SuffixFrom(base + ['.'] + ext, |base|);
    DottedTail(base, ext);
  }

  /** When the last dot is at `i`, neither first nor last, the suffix starts there. */
  lemma SuffixFrom(name: string, i: nat)
    requires RFind(name, '.') == i && 0 < i < |name| - 1
    ensures Suffix(name) == name[i..]
  {
  }

  lemma DottedTail(base: string, ext: string)
    ensures (base + ['.'] + ext)[|base|..] == ['.'] + ext
  {
  }

  /** A component, a dot and a slash-free extension form one component. */
  lemma DottedComponent(base: string, ext: string)
    requires IsComponent(base) && '/' !in ext
    ensures IsComponent(base + ['.'] + ext)
  {
    var name := base + ['.'] + ext;
    forall k | 0 <= k < |name| ensures name[k] != '/' {
      if k < |base| { assert name[k] == base[k]; }
      else if k > |base| { assert name[k] == ext[k - |base| - 1]; }
    }
  }
}
