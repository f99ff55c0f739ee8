/** Go's `filepath.Base` on a system whose path separator is `/`. */
module FilePath {
  import opened Strings

  const Separator: char := '/'

  /** The path without its trailing run of separators. */
  function StripTrailingSeparators(p: string): (r: string)
    ensures HasPrefix(p, r)
    ensures r == [] || r[|r| - 1] != Separator
    ensures forall i :: |r| <= i < |p| ==> p[i] == Separator
    decreases |p|
  {
    if p != [] && p[|p| - 1] == Separator then StripTrailingSeparators(p[..|p| - 1]) else p
  }

  /** The text after the last separator of `p` (all of `p` when it has none). */
  function LastElement(p: string): (r: string)
    ensures HasSuffix(p, r) && Separator !in r
    ensures |r| < |p| ==> p[|p| - |r| - 1] == Separator
    decreases |p|
  {
    if p == [] || p[|p| - 1] == Separator then []
    else
      var l := LastElement(p[..|p| - 1]);
      SuffixExtend(p, l);
      l + [p[|p| - 1]]
  }

  /** A suffix of all but the last character, extended by that character, is a suffix;
      a separator just before the shorter suffix is also just before the longer one. */
  lemma SuffixExtend(p: string, l: string)
    requires p != [] && HasSuffix(p[..|p| - 1], l)
    requires |l| < |p| - 1 ==> p[..|p| - 1][|p| - 1 - |l| - 1] == Separator
    ensures HasSuffix(p, l + [p[|p| - 1]])
    ensures |l| < |p| - 1 ==> p[|p| - |l| - 2] == Separator
  {
    var q := p[..|p| - 1];
    assert p[|p| - |l| - 1..] == q[|q| - |l|..] + [p[|p| - 1]];
  }

  /** `filepath.Base`: the last element of the path, ignoring trailing separators;
      "." for the empty path and "/" for a path made only of separators. */
  function Base(path: string): (r: string)
    ensures r != []
    ensures r == [Separator] || Separator !in r
    ensures path == [] ==> r == "."
    ensures r == [Separator] <==> path != [] && forall i :: 0 <= i < |path| ==> path[i] == Separator
  {
    if path == [] then "."
    else
      var q := StripTrailingSeparators(path);
      var last := LastElement(q);
      StrippedEmptyIffAllSeparators(path);
      assert last == [] <==> q == [];
      if last == [] then [Separator] else last
  }

  /** Stripping the trailing separators leaves nothing exactly when the path is made
      only of separators. */
  lemma StrippedEmptyIffAllSeparators(p: string)
    ensures StripTrailingSeparators(p) == [] <==> forall i :: 0 <= i < |p| ==> p[i] == Separator
  {
    var q := StripTrailingSeparators(p);
    if q != [] {
      assert p[|q| - 1] == q[|q| - 1];
    }
  }

  /** The last element of `<dir>/<name>` is `<name>`: the separator that ends `dir`
      bounds it from the left and `name` holds none. */
  lemma LastElementOfJoin(dir: string, name: string)
    requires dir == [] || dir[|dir| - 1] == Separator
    requires Separator !in name
    ensures LastElement(dir + name) == name
  {
    var p := dir + name;
    var r := LastElement(p);
    NotInTail(p, |r|, Separator);
    assert p[|dir|..] == name;
    NotInTail(p, |name|, Separator);
    if dir != [] {
      assert p[|dir| - 1] == Separator;
    }
    assert |r| == |name|;
  }

  lemma NotInTail(p: string, n: nat, c: char)
    requires n <= |p| && c !in p[|p| - n..]
    ensures forall j :: |p| - n <= j < |p| ==> p[j] != c
  {
    assert forall j :: |p| - n <= j < |p| ==> p[j] == p[|p| - n..][j - (|p| - n)];
  }

  /** The base of a directory joined with a file name is that file name. */
  lemma BaseOfJoin(dir: string, name: string)
    requires dir == [] || dir[|dir| - 1] == Separator
    requires name != [] && Separator !in name
    ensures Base(dir + name) == name
  {
    var p := dir + name;
    assert p[|p| - 1] == name[|name| - 1];
    LastElementOfJoin(dir, name);
  }

  /** Trailing separators do not change the base of a non-empty path. */
  lemma BaseIgnoresTrailingSeparator(path: string)
    requires path != []
    ensures Base(path + [Separator]) == Base(path)
  {
    var p := path + [Separator];
    assert p[|p| - 1] == Separator;
    assert p[..|p| - 1] == path;
    assert StripTrailingSeparators(p) == StripTrailingSeparators(path);
  }

  /** Taking the base twice changes nothing. */
  lemma BaseIdempotent(path: string)
    ensures Base(Base(path)) == Base(path)
  {
    var b := Base(path);
    if b != [Separator] {
      BaseOfJoin([], b);
      assert [] + b == b;
    }
  }

  /** A path with any character other than a separator has a base without separators. */
  lemma BaseHasNoSeparator(path: string, i: nat)
    requires i < |path| && path[i] != Separator
    ensures Separator !in Base(path)
  {
    var stripped := StripTrailingSeparators(path);
    assert i < |stripped|;
    var p := stripped;
    assert LastElement(p) == LastElement(p[..|p| - 1]) + [p[|p| - 1]];
  }
}
