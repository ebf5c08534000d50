/**
 * The parts of Node's `path` module and of `String.prototype.split` /
 * `Array.prototype.join` that archive-name parsing relies on, on POSIX paths.
 *
 * Simplifications: a path has no trailing '/', and the extension is the
 * suffix starting at the last '.' of the base name unless that '.' is its
 * first character (so ".." has extension "." here, where Node gives "").
 */
module Paths {
  import opened Service

  /** Index of the last occurrence of `c` in `s`, if any. */
  function LastIndexOf(s: string, c: char): (r: Option<nat>)
    ensures r.None? <==> c !in s
    ensures r.Some? ==> r.value < |s| && s[r.value] == c && c !in s[r.value + 1..]
  {
    if |s| == 0 then None
    else if s[|s| - 1] == c then Some(|s| - 1)
    else
      var r := LastIndexOf(s[..|s| - 1], c);
      assert s[..|s| - 1] + [s[|s| - 1]] == s;
      if r.Some? then
        assert s[r.value + 1..] == s[..|s| - 1][r.value + 1..] + [s[|s| - 1]];
        r
      else r
  }

  /** An occurrence of `c` with no `c` after it is the last one. */
  lemma LastIndexOfAt(s: string, c: char, i: nat)
    requires i < |s| && s[i] == c && c !in s[i + 1..]
    ensures LastIndexOf(s, c) == Some(i)
  {
  }

  /** When `s` is `a`, a separator and a separator-free `v`, that separator is the last one. */
  lemma CutAtLast(s: string, sep: char, a: string, v: string)
    requires s == a + [sep] + v && sep !in v
    ensures LastIndexOf(s, sep) == Some(|a|) && s[..|a|] == a && s[|a| + 1..] == v
  {
    assert s[|a|] == sep && s[|a| + 1..] == v;
    LastIndexOfAt(s, sep, |a|);
  }

  /** `path.basename(p)`: what follows the last '/'. */
  function BaseName(p: string): (b: string)
    ensures '/' !in b
    ensures |b| <= |p| && p[|p| - |b|..] == b
    ensures |b| < |p| ==> p[|p| - |b| - 1] == '/'
  {
    match LastIndexOf(p, '/')
    case None => p
    case Some(i) => p[i + 1..]
  }

  /** The extension of a base name: the suffix from its last '.', unless that '.' comes first. */
  function Extension(b: string): (e: string)
    ensures e == "" || (e[0] == '.' && '.' !in e[1..])
    ensures |e| <= |b| && b[|b| - |e|..] == e
    ensures e != "" ==> |e| < |b|
    ensures e == "" <==> |b| == 0 || '.' !in b[1..]
  {
    var i := LastIndexOf(b, '.');
    if i.Some? && i.value > 0 then
      assert b[i.value..][1..] == b[i.value + 1..];
      b[i.value..]
    else ""
  }

  /** `path.extname(p)`. */
  function ExtName(p: string): string {
    Extension(BaseName(p))
  }

  /** `path.basename(p, path.extname(p))`: the base name without its extension. */
  function Stem(p: string): (s: string)
    ensures s + ExtName(p) == BaseName(p)
    ensures '/' !in s
  {
    var b := BaseName(p);
    var e := ExtName(p);
    assert b[..|b| - |e|] + b[|b| - |e|..] == b;
    b[..|b| - |e|]
  }

  /** `s.split(sep)`: the maximal `sep`-free pieces of `s`, in order. */
  function Split(s: string, sep: char): (pieces: seq<string>)
    ensures |pieces| >= 1
    ensures |pieces| > 1 <==> sep in s
    ensures forall i :: 0 <= i < |pieces| ==> sep !in pieces[i]
    decreases |s|
  {
    if |s| == 0 then [""]
    else
      var rest := Split(s[1..], sep);
      assert s == [s[0]] + s[1..];
      if s[0] == sep then [""] + rest
      else [[s[0]] + rest[0]] + rest[1..]
  }

  /** Joining the pieces of a split with the same separator gives back the string. */
  lemma {:induction false} SplitJoin(s: string, sep: char)
    ensures Join(Split(s, sep), sep) == s
    decreases |s|
  {
    if |s| > 0 {
      var rest := Split(s[1..], sep);
      SplitJoin(s[1..], sep);
      assert s == [s[0]] + s[1..];
      if s[0] != sep {
        var pieces := Split(s, sep);
        assert pieces[1..] == rest[1..];
        if |rest| > 1 {
          assert Join(rest, sep) == rest[0] + [sep] + Join(rest[1..], sep);
          assert Join(pieces, sep) == pieces[0] + [sep] + Join(rest[1..], sep);
        }
      }
    }
  }

  /** `pieces.join(sep)`. */
  function Join(pieces: seq<string>, sep: char): string {
    if |pieces| == 0 then ""
    else if |pieces| == 1 then pieces[0]
    else pieces[0] + [sep] + Join(pieces[1..], sep)
  }

  /** Joining all pieces is joining all but the last, then `sep`, then the last. */
  lemma {:induction false} JoinSnoc(pieces: seq<string>, sep: char)
    requires |pieces| >= 2
    ensures Join(pieces, sep) == Join(pieces[..|pieces| - 1], sep) + [sep] + pieces[|pieces| - 1]
  {
    if |pieces| > 2 {
      JoinSnoc(pieces[1..], sep);
      assert pieces[1..][..|pieces| - 2] == pieces[..|pieces| - 1][1..];
    }
  }
}
