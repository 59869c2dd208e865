/**
 * File-system paths in the shape java.nio.file.Path gives them on a Unix file
 * system: an optional root `/` and a sequence of name elements.
 */
module Paths {
  import opened Wrappers

  /** `absolute` is true when the path has the root component `/`. */
  datatype Path = Path(absolute: bool, names: seq<string>)

  /** The empty path, `Paths.get("")`. */
  const EmptyPath: Path := Path(false, [])

  /** A name element as java.io.File leaves it: non-empty and without a separator. */
  predicate IsName(s: string) {
    s != [] && '/' !in s
  }

  predicate WellFormed(p: Path) {
    forall i :: 0 <= i < |p.names| ==> IsName(p.names[i])
  }

  /** `Path.getParent()`: drops the last name; a relative path with one name, the root and the empty path have none. */
  function Parent(p: Path): Option<Path> {
    if |p.names| == 0 || (|p.names| == 1 && !p.absolute) then None
    else Some(Path(p.absolute, p.names[..|p.names| - 1]))
  }

  /**
   * `Path.getFileName().toString()`: the last name; the empty path's file name is
   * the empty string. The root has no file name in java.nio (`getFileName()` is
   * null); here it gives the empty string.
   */
  function FileName(p: Path): string {
    if |p.names| == 0 then "" else p.names[|p.names| - 1]
  }

  /** `base.resolve(other)`: an absolute `other` wins, otherwise its names are appended to `base`. */
  function Resolve(base: Path, other: Path): Path {
    if other.absolute then other else Path(base.absolute, base.names + other.names)
  }

  /**
   * `p.startsWith(q)`: same root and `q`'s names are a prefix of `p`'s, name by
   * name. The empty path holds one empty name in java.nio, so only the empty
   * path itself starts with it.
   */
  predicate StartsWith(p: Path, q: Path) {
    && p.absolute == q.absolute && |q.names| <= |p.names| && p.names[..|q.names|] == q.names
    && (q == EmptyPath ==> p == EmptyPath)
  }

  /** The length of the longest prefix of `s` that holds no `/`. */
  function NameLength(s: string): (n: nat)
    ensures n <= |s|
    ensures '/' !in s[..n]
    ensures n < |s| ==> s[n] == '/'
  {
    if s == [] || s[0] == '/' then 0 else 1 + NameLength(s[1..])
  }

  /** The non-empty pieces of `s` between separators, in order. */
  function Names(s: string): (ns: seq<string>)
    ensures forall i :: 0 <= i < |ns| ==> IsName(ns[i])
    decreases |s|
  {
    if s == [] then []
    else if s[0] == '/' then Names(s[1..])
    else
      var n := NameLength(s);
      [s[..n]] + Names(s[n..])
  }

  /**
   * `new File(s).toPath()` for a Unix pathname: a leading `/` makes the path
   * absolute; repeated and trailing separators are dropped.
   */
  function Parse(s: string): (p: Path)
    ensures WellFormed(p)
    ensures p.absolute <==> |s| > 0 && s[0] == '/'
  {
    Path(|s| > 0 && s[0] == '/', Names(s))
  }

  /** The names joined by single separators. */
  function Join(ns: seq<string>): string {
    if ns == [] then ""
    else if |ns| == 1 then ns[0]
    else ns[0] + "/" + Join(ns[1..])
  }

  /** `Path.toString()`. */
  function Format(p: Path): string {
    (if p.absolute then "/" else "") + Join(p.names)
  }

  lemma {:induction false} NameLengthOfName(a: string, t: string)
    requires '/' !in a
    requires t == [] || t[0] == '/'
    ensures NameLength(a + t) == |a|
  {
    if a != [] {
      assert (a + t)[1..] == a[1..] + t;
      NameLengthOfName(a[1..], t);
    }
  }

  /** A name followed by anything that starts at a separator reads back as that name first. */
  lemma NamesOfNameThen(a: string, rest: string)
    requires IsName(a)
    requires rest == [] || rest[0] == '/'
    ensures Names(a + rest) == [a] + Names(rest)
  {
    var s := a + rest;
    NameLengthOfName(a, rest);
    assert s[..|a|] == a;
    assert s[|a|..] == rest;
  }

  /** A leading separator is skipped. */
  lemma NamesSkipSeparator(x: string)
    ensures Names("/" + x) == Names(x)
  {
    assert ("/" + x)[1..] == x;
  }

  /** Reading the joined names back, followed by anything that starts at a separator. */
  lemma {:induction false} NamesOfJoin(ns: seq<string>, t: string)
    requires forall i :: 0 <= i < |ns| ==> IsName(ns[i])
    requires t == [] || t[0] == '/'
    ensures Names(Join(ns) + t) == ns + Names(t)
  {
    if |ns| == 0 {
      assert Join(ns) + t == t;
    } else if |ns| == 1 {
      NamesOfNameThen(ns[0], t);
      assert ns == [ns[0]];
    } else {
      var tail := Join(ns[1..]) + t;
      var rest := "/" + tail;
      assert Join(ns) + t == ns[0] + rest by {
        assert Join(ns) == ns[0] + "/" + Join(ns[1..]);
      }
      NamesOfNameThen(ns[0], rest);
      NamesSkipSeparator(tail);
      NamesOfJoin(ns[1..], t);
      assert Names(Join(ns) + t) == [ns[0]] + (ns[1..] + Names(t));
      assert ns == [ns[0]] + ns[1..];
    }
  }

  /** The joined names of a non-empty list start with the first name's first character. */
  lemma JoinStart(ns: seq<string>)
    requires ns != [] && IsName(ns[0])
    ensures Join(ns) != [] && Join(ns)[0] == ns[0][0]
  {
    if |ns| > 1 {
      assert Join(ns) == ns[0] + ("/" + Join(ns[1..]));
    }
  }

  /** Printing a well-formed path and reading it back gives the same path. */
  lemma ParseFormat(p: Path)
    requires WellFormed(p)
    ensures Parse(Format(p)) == p
  {
    var j := Join(p.names);
    NamesOfJoin(p.names, "");
    assert j + "" == j;
    assert Names(j) == p.names;
    if p.absolute {
      assert Format(p) == "/" + j;
      NamesSkipSeparator(j);
    } else {
      assert Format(p) == j;
      if p.names != [] {
        JoinStart(p.names);
      }
    }
  }

  /** A path with a parent is that parent resolved against its file name. */
  lemma ParentFileName(p: Path)
    requires Parent(p).Some?
    ensures Resolve(Parent(p).value, Path(false, [FileName(p)])) == p
  {
    assert p.names == p.names[..|p.names| - 1] + [p.names[|p.names| - 1]];
  }

  /** Only the empty path starts with the empty path. */
  lemma StartsWithEmpty(p: Path)
    ensures StartsWith(p, EmptyPath) <==> p == EmptyPath
  {
  }

  /**
   * Resolving a relative path keeps a non-empty base as a prefix; resolving
   * against the empty path gives the other path itself; an absolute path
   * replaces the base.
   */
  lemma ResolveStartsWith(base: Path, other: Path)
    ensures !other.absolute && base != EmptyPath ==> StartsWith(Resolve(base, other), base)
    ensures !other.absolute && base == EmptyPath ==> Resolve(base, other) == other
    ensures other.absolute ==> Resolve(base, other) == other
  {
    if !other.absolute {
      assert (base.names + other.names)[..|base.names|] == base.names;
      if base == EmptyPath {
        assert base.names + other.names == other.names;
      }
    }
  }
}
