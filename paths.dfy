/**
 * File-system paths as `java.nio.file` treats them on a Unix file system: a path is a flag saying
 * whether it is absolute and a sequence of names.  Parsing collapses repeated and trailing '/'
 * and refuses the NUL character; `normalize` removes "." and resolves "..";
 * `startsWith` compares names, not characters.
 */
module Paths {
  import opened Wrappers

  datatype Path = Path(absolute: bool, names: seq<string>)

  /** The names of `s` after the name being read, `cur`: split at '/', empty names dropped. */
  function Segments(s: string, cur: string): seq<string>
    decreases |s|
  {
    if s == [] then (if cur == [] then [] else [cur])
    else if s[0] == '/' then (if cur == [] then [] else [cur]) + Segments(s[1..], [])
    else Segments(s[1..], cur + [s[0]])
  }

  /** `Path.of(s)`: `None` where Java throws `InvalidPathException` (a NUL character). */
  function Parse(s: string): (r: Option<Path>)
    ensures r.Some? <==> '\0' !in s
  {
    if '\0' in s then None
    else Some(Path(|s| > 0 && s[0] == '/', Segments(s, [])))
  }

  /** `base.resolve(other)`: an absolute `other` replaces `base`, an empty one leaves it. */
  function Resolve(base: Path, other: Path): Path {
    if other.absolute then other
    else if other.names == [] then base
    else Path(base.absolute, base.names + other.names)
  }

  /** Folds `rest` into the already-normal `acc`: "." vanishes, ".." removes the name before it. */
  function NormalizeNames(absolute: bool, acc: seq<string>, rest: seq<string>): seq<string>
    decreases |rest|
  {
    if rest == [] then acc
    else if rest[0] == "." then NormalizeNames(absolute, acc, rest[1..])
    else if rest[0] == ".." then
      if acc != [] && acc[|acc| - 1] != ".." then NormalizeNames(absolute, acc[..|acc| - 1], rest[1..])
      else if absolute then NormalizeNames(absolute, acc, rest[1..])
      else NormalizeNames(absolute, acc + [".."], rest[1..])
    else NormalizeNames(absolute, acc + [rest[0]], rest[1..])
  }

  function Normalize(p: Path): Path {
    Path(p.absolute, NormalizeNames(p.absolute, [], p.names))
  }

  /** `p.startsWith(prefix)`: same root and `prefix`'s names lead `p`'s. */
  predicate StartsWith(p: Path, prefix: Path) {
    p.absolute == prefix.absolute && prefix.names <= p.names
  }

  /** A normal path has no "." and, when absolute, no ".."; in a relative one ".." only leads. */
  predicate IsNormal(p: Path) {
    && (forall i | 0 <= i < |p.names| :: p.names[i] != "." && (p.absolute ==> p.names[i] != ".."))
    && (forall i, j | 0 <= i < j < |p.names| :: p.names[j] == ".." ==> p.names[i] == "..")
  }

  /** Every name `Segments` yields is non-empty and free of '/'. */
  lemma {:induction false} SegmentsAreNames(s: string, cur: string)
    requires '/' !in cur
    ensures forall n | n in Segments(s, cur) :: n != [] && '/' !in n
    decreases |s|
  {
    if s != [] {
      if s[0] == '/' {
        SegmentsAreNames(s[1..], []);
      } else {
        SegmentsAreNames(s[1..], cur + [s[0]]);
      }
    }
  }

  /** A string without '/' is one name. */
  lemma {:induction false} SegmentsOfName(s: string, cur: string)
    requires '/' !in s && cur + s != []
    ensures Segments(s, cur) == [cur + s]
    decreases |s|
  {
    if s == [] {
      assert cur + s == cur;
    } else {
      assert s[0] != '/' && '/' !in s[1..] by { assert s[0] in s; assert forall c | c in s[1..] :: c in s; }
      assert cur + s == (cur + [s[0]]) + s[1..];
      SegmentsOfName(s[1..], cur + [s[0]]);
    }
  }

  /** Normalizing keeps the result normal; the proof follows the fold name by name. */
  lemma {:induction false} NormalizeNamesIsNormal(absolute: bool, acc: seq<string>, rest: seq<string>)
    requires IsNormal(Path(absolute, acc))
    ensures IsNormal(Path(absolute, NormalizeNames(absolute, acc, rest)))
    decreases |rest|
  {
    if rest == [] {
    } else if rest[0] == "." {
      NormalizeNamesIsNormal(absolute, acc, rest[1..]);
    } else if rest[0] == ".." {
      if acc != [] && acc[|acc| - 1] != ".." {
        NormalizeNamesIsNormal(absolute, acc[..|acc| - 1], rest[1..]);
      } else if absolute {
        NormalizeNamesIsNormal(absolute, acc, rest[1..]);
      } else {
        var acc' := acc + [".."];
        assert forall i | 0 <= i < |acc| :: acc[i] == "..";
        assert IsNormal(Path(absolute, acc'));
        NormalizeNamesIsNormal(absolute, acc', rest[1..]);
      }
    } else {
      NormalizeNamesIsNormal(absolute, acc + [rest[0]], rest[1..]);
    }
  }

  lemma NormalizeIsNormal(p: Path)
    ensures IsNormal(Normalize(p))
  {
    NormalizeNamesIsNormal(p.absolute, [], p.names);
  }

  /** Names that are neither "." nor ".." pass through the fold unchanged. */
  lemma {:induction false} NormalizePlainNames(absolute: bool, acc: seq<string>, rest: seq<string>)
    requires forall i | 0 <= i < |rest| :: rest[i] != "." && rest[i] != ".."
    ensures NormalizeNames(absolute, acc, rest) == acc + rest
    decreases |rest|
  {
    if rest != [] {
      NormalizePlainNames(absolute, acc + [rest[0]], rest[1..]);
      assert acc + [rest[0]] + rest[1..] == acc + rest;
    }
  }

  /** An absolute normal path is its own normal form. */
  lemma NormalizeNormal(p: Path)
    requires p.absolute && IsNormal(p)
    ensures Normalize(p) == p
  {
    NormalizePlainNames(true, [], p.names);
  }
}
