/**
 * The string primitives the option parser and the PLD reader use: `str.split(",")`,
 * `str.strip()`, `str.lower()`, the `in` test for a substring and `PurePath.suffix`
 * for paths with '/' as separator.
 */
module Text {

  /** Python's `str.split(sep)` with an explicit one-character separator. */
  function Split(s: string, sep: char): (r: seq<string>)
    ensures |r| >= 1
    ensures forall k :: 0 <= k < |r| ==> sep !in r[k]
    decreases |s|
  {
    if |s| == 0 then [""]
    else if s[0] == sep then [""] + Split(s[1..], sep)
    else
      var rest := Split(s[1..], sep);
      [[s[0]] + rest[0]] + rest[1..]
  }

  /** `sep.join(pieces)`. */
  function Join(pieces: seq<string>, sep: char): (r: string)
    requires |pieces| >= 1
    ensures |r| >= |pieces[0]| + |pieces| - 1
    ensures forall k :: 0 <= k < |pieces[0]| ==> r[k] == pieces[0][k]
    decreases |pieces|
  {
    if |pieces| == 1 then pieces[0] else pieces[0] + [sep] + Join(pieces[1..], sep)
  }

  /** The number of occurrences of c in s. */
  function Count(s: string, c: char): nat
  {
    if |s| == 0 then 0 else (if s[0] == c then 1 else 0) + Count(s[1..], c)
  }

  /** Joining the pieces of a split gives back the original string. */
  lemma {:induction false} JoinSplit(s: string, sep: char)
    ensures Join(Split(s, sep), sep) == s
    decreases |s|
  {
    if |s| > 0 {
      JoinSplit(s[1..], sep);
      var rest := Split(s[1..], sep);
      if s[0] != sep {
        var r := Split(s, sep);
        assert r == [[s[0]] + rest[0]] + rest[1..];
        if |rest| > 1 {
          assert r[1..] == rest[1..];
          assert Join(rest, sep) == rest[0] + [sep] + Join(rest[1..], sep);
          assert Join(r, sep) == [s[0]] + rest[0] + [sep] + Join(rest[1..], sep);
        }
        assert [s[0]] + Join(rest, sep) == s;
      } else {
        assert Split(s, sep) == [""] + rest;
        assert ([""] + rest)[1..] == rest;
        assert s == [sep] + s[1..];
      }
    }
  }

  /** A split yields one piece more than there are separators. */
  lemma {:induction false} SplitCount(s: string, sep: char)
    ensures |Split(s, sep)| == Count(s, sep) + 1
    decreases |s|
  {
    if |s| > 0 {
      SplitCount(s[1..], sep);
    }
  }

  /** Splitting a join of separator-free pieces gives back the pieces. */
  lemma {:induction false} SplitJoin(pieces: seq<string>, sep: char)
    requires |pieces| >= 1
    requires forall k :: 0 <= k < |pieces| ==> sep !in pieces[k]
    ensures Split(Join(pieces, sep), sep) == pieces
    decreases |pieces|, |pieces[0]|
  {
    var p := pieces[0];
    if |p| > 0 {
      var tail := [p[1..]] + pieces[1..];
      assert tail[0] == p[1..];
      assert tail[1..] == pieces[1..];
      assert forall k :: 0 <= k < |tail| ==> sep !in tail[k] by {
        forall k | 0 <= k < |tail| ensures sep !in tail[k] {
          if k == 0 {
            assert forall c :: c in p[1..] ==> c in p;
          } else {
            assert tail[k] == pieces[k];
          }
        }
      }
      SplitJoin(tail, sep);
      var s := Join(pieces, sep);
      assert Join(tail, sep) == s[1..] by {
        if |pieces| > 1 {
          assert (p + [sep] + Join(pieces[1..], sep))[1..] == p[1..] + [sep] + Join(pieces[1..], sep);
        }
      }
      assert s[0] == p[0] && p[0] != sep;
      assert [p[0]] + p[1..] == p;
      assert [[p[0]] + p[1..]] + pieces[1..] == pieces;
    } else if |pieces| > 1 {
      SplitJoin(pieces[1..], sep);
      var s := Join(pieces, sep);
      assert s == [sep] + Join(pieces[1..], sep);
      assert s[1..] == Join(pieces[1..], sep);
      assert [""] + pieces[1..] == pieces;
    }
  }

  /** A whitespace character as `str.isspace` defines it, for the ASCII range. */
  predicate IsSpace(c: char)
  {
    c == ' ' || c == '\t' || c == '\n' || c == '\r' || c == '\U{B}' || c == '\U{C}'
    || ('\U{1C}' <= c <= '\U{1F}')
  }

  /** The first index at or after i that does not hold whitespace (|s| if there is none). */
  function SpacesFrom(s: string, i: nat): (n: nat)
    requires i <= |s|
    ensures i <= n <= |s|
    ensures forall k :: i <= k < n ==> IsSpace(s[k])
    ensures n < |s| ==> !IsSpace(s[n])
    decreases |s| - i
  {
    if i < |s| && IsSpace(s[i]) then SpacesFrom(s, i + 1) else i
  }

  /** The last index at or before j, not below lo, that follows a non-whitespace character (lo if there is none). */
  function SpacesBefore(s: string, lo: nat, j: nat): (m: nat)
    requires lo <= j <= |s|
    ensures lo <= m <= j
    ensures forall k :: m <= k < j ==> IsSpace(s[k])
    ensures m > lo ==> !IsSpace(s[m - 1])
    decreases j
  {
    if j > lo && IsSpace(s[j - 1]) then SpacesBefore(s, lo, j - 1) else j
  }

  /** `s.strip()`: whitespace removed from both ends. */
  function Strip(s: string): (r: string)
    ensures |r| <= |s|
    ensures |r| > 0 ==> !IsSpace(r[0]) && !IsSpace(r[|r| - 1])
    ensures (forall k :: 0 <= k < |s| ==> IsSpace(s[k])) ==> r == ""
    ensures |s| > 0 && !IsSpace(s[0]) && !IsSpace(s[|s| - 1]) ==> r == s
  {
    var i := SpacesFrom(s, 0);
    s[i..SpacesBefore(s, i, |s|)]
  }

  /**
   * Stripping leaves a contiguous part of s, neither starting nor ending with whitespace,
   * and removes only whitespace around it.
   */
  lemma StripMeaning(s: string)
    ensures var r, i := Strip(s), SpacesFrom(s, 0);
      i + |r| <= |s| && r == s[i..i + |r|]
      && (forall k :: 0 <= k < i ==> IsSpace(s[k]))
      && (forall k :: i + |r| <= k < |s| ==> IsSpace(s[k]))
      && (|r| > 0 ==> !IsSpace(r[0]) && !IsSpace(r[|r| - 1]))
  {
    var i := SpacesFrom(s, 0);
    var j := SpacesBefore(s, i, |s|);
    assert Strip(s) == s[i..j];
  }

  /** Stripping twice strips nothing more. */
  lemma StripIdempotent(s: string)
    ensures Strip(Strip(s)) == Strip(s)
  {
  }

  /** `c.lower()` on the ASCII letters. */
  function LowerChar(c: char): (r: char)
    ensures 'A' <= c <= 'Z' ==> 'a' <= r <= 'z' && r as int - c as int == 32
    ensures !('A' <= c <= 'Z') ==> r == c
  {
    if 'A' <= c <= 'Z' then (c as int + 32) as char else c
  }

  /** `s.lower()`, letter by letter. */
  function Lower(s: string): (r: string)
    ensures |r| == |s| && forall k :: 0 <= k < |s| ==> r[k] == LowerChar(s[k])
  {
    seq(|s|, k requires 0 <= k < |s| => LowerChar(s[k]))
  }

  /** `t in s` for strings: t occurs in s as a contiguous part. */
  predicate Contains(s: string, t: string)
    decreases |s|
  {
    |t| <= |s| && (s[..|t|] == t || Contains(s[1..], t))
  }

  /** t occurs in s starting at position i. */
  predicate OccursAt(s: string, t: string, i: int)
  {
    0 <= i <= |s| - |t| && s[i..i + |t|] == t
  }

  /** A string contains t exactly when t occurs in it at some position. */
  lemma {:induction false} ContainsAt(s: string, t: string)
    ensures Contains(s, t) <==> exists i :: OccursAt(s, t, i)
    decreases |s|
  {
    if |t| <= |s| && s[..|t|] != t {
      ContainsAt(s[1..], t);
      if Contains(s[1..], t) {
        var i :| OccursAt(s[1..], t, i);
        assert s[1..][i..i + |t|] == s[i + 1..i + 1 + |t|];
        assert OccursAt(s, t, i + 1);
      }
      if exists i :: OccursAt(s, t, i) {
        var i :| OccursAt(s, t, i);
        assert i != 0;
        assert s[1..][i - 1..i - 1 + |t|] == s[i..i + |t|];
        assert OccursAt(s[1..], t, i - 1);
      }
    } else if |t| <= |s| {
      assert OccursAt(s, t, 0);
    } else {
      assert forall i :: !OccursAt(s, t, i);
    }
  }

  /** The position of the last occurrence of c in s, as `str.rfind`, or -1. */
  function LastIndex(s: string, c: char): (r: int)
    ensures -1 <= r < |s|
    ensures r >= 0 ==> s[r] == c
    ensures forall k :: r < k < |s| ==> s[k] != c
  {
    if |s| == 0 then -1
    else if s[|s| - 1] == c then |s| - 1
    else LastIndex(s[..|s| - 1], c)
  }

  /** The last component of a path: the part after its last '/' (the whole path if it has none). */
  function BaseName(path: string): (r: string)
    ensures |r| <= |path| && r == path[|path| - |r|..]
    ensures forall k :: 0 <= k < |r| ==> r[k] != '/'
    ensures |r| < |path| ==> path[|path| - |r| - 1] == '/'
  {
    var i := LastIndex(path, '/');
    path[i + 1..]
  }

  /** The position of the last '.' or '/' in s, or -1. */
  function LastMark(s: string): (r: int)
    ensures -1 <= r < |s|
    ensures r >= 0 ==> s[r] == '.' || s[r] == '/'
    ensures forall k :: r < k < |s| ==> s[k] != '.' && s[k] != '/'
  {
    if |s| == 0 then -1
    else if s[|s| - 1] == '.' || s[|s| - 1] == '/' then |s| - 1
    else LastMark(s[..|s| - 1])
  }

  /**
   * `PurePath(path).suffix`: in the last component of the path, the part from the last dot, when
   * that dot is neither the first nor the last character of the component, else the empty string.
   */
  function Suffix(path: string): (r: string)
    ensures |r| <= |path| && r == path[|path| - |r|..]
    ensures |r| > 0 ==> r[0] == '.' && 2 <= |r| < |path| && path[|path| - |r| - 1] != '/'
    ensures forall k :: 0 <= k < |r| ==> r[k] != '/'
    ensures forall k :: 0 < k < |r| ==> r[k] != '.'
  {
    var i := LastMark(path);
    if 0 < i < |path| - 1 && path[i] == '.' && path[i - 1] != '/' then path[i..] else ""
  }

  /** A path without '/' is its own last component. */
  lemma NoSlashBaseName(name: string)
    requires forall k :: 0 <= k < |name| ==> name[k] != '/'
    ensures BaseName(name) == name
  {
    assert LastIndex(name, '/') == -1;
  }

  /** The last '.' or '/' of s is at i when s[i] is one and none follows. */
  lemma LastMarkIs(s: string, i: int)
    requires -1 <= i < |s|
    requires i >= 0 ==> s[i] == '.' || s[i] == '/'
    requires forall k :: i < k < |s| ==> s[k] != '.' && s[k] != '/'
    ensures LastMark(s) == i
  {
  }

  /** The suffix of a path is the suffix of its last component, whatever the directories are called. */
  lemma SuffixOfBaseName(dir: string, name: string)
    requires forall k :: 0 <= k < |name| ==> name[k] != '/'
    ensures BaseName(dir + "/" + name) == name
    ensures Suffix(dir + "/" + name) == Suffix(name)
  {
    var path := dir + "/" + name;
    assert path[|dir|] == '/';
    assert forall k :: |dir| < k < |path| ==> path[k] == name[k - |dir| - 1];
    BaseNameAfter(path, dir, name);
    SuffixAfter(path, dir, name);
  }

  lemma BaseNameAfter(path: string, dir: string, name: string)
    requires |path| == |dir| + 1 + |name| && path[|dir|] == '/'
    requires forall k :: |dir| < k < |path| ==> path[k] == name[k - |dir| - 1]
    requires forall k :: 0 <= k < |name| ==> name[k] != '/'
    ensures BaseName(path) == name
  {
    assert LastIndex(path, '/') == |dir|;
    assert path[|dir| + 1..] == name;
  }

  lemma SuffixAfter(path: string, dir: string, name: string)
    requires |path| == |dir| + 1 + |name| && path[|dir|] == '/'
    requires forall k :: |dir| < k < |path| ==> path[k] == name[k - |dir| - 1]
    requires forall k :: 0 <= k < |name| ==> name[k] != '/'
    ensures Suffix(path) == Suffix(name)
  {
    var j := LastMark(name);
    if j >= 0 {
      LastMarkIs(path, |dir| + 1 + j);
      assert path[|dir| + 1 + j..] == name[j..];
    } else {
      LastMarkIs(path, |dir|);
    }
  }

  /** A dot in a directory name is no suffix: a last component without a dot has none. */
  lemma DirectoryDotNoSuffix(dir: string, name: string)
    requires forall k :: 0 <= k < |name| ==> name[k] != '/' && name[k] != '.'
    ensures Suffix(dir + "/" + name) == ""
  {
    SuffixOfBaseName(dir, name);
    LastMarkIs(name, -1);
  }

  /** Neither is the leading dot of a hidden file: `dir/.pld` has no suffix. */
  lemma HiddenFileNoSuffix(dir: string, name: string)
    requires |name| > 0 && name[0] == '.'
    requires forall k :: 0 <= k < |name| ==> name[k] != '/' && (k > 0 ==> name[k] != '.')
    ensures Suffix(dir + "/" + name) == ""
  {
    SuffixOfBaseName(dir, name);
    LastMarkIs(name, 0);
  }

  /** In `stem.ext` the dot after the stem is the last one, and there is no '/'. */
  lemma LastDotOf(stem: string, ext: string)
    requires forall k :: 0 <= k < |stem| ==> stem[k] != '/'
    requires forall k :: 0 <= k < |ext| ==> ext[k] != '/' && ext[k] != '.'
    ensures var name := stem + "." + ext;
      LastMark(name) == |stem| && name[|stem|..] == "." + ext && forall k :: 0 <= k < |name| ==> name[k] != '/'
  {
    var name := stem + "." + ext;
    forall k | 0 <= k < |name|
      ensures name[k] != '/'
    {
      if k < |stem| { assert name[k] == stem[k]; }
      else if k > |stem| { assert name[k] == ext[k - |stem| - 1]; }
    }
    assert forall k :: |stem| < k < |name| ==> name[k] == ext[k - |stem| - 1];
    assert name[|stem|] == '.';
    LastMarkIs(name, |stem|);
    assert name[|stem|..] == "." + ext;
  }

  /** A last component `stem.ext` with a non-empty stem and extension has the suffix `.ext`. */
  lemma FileSuffix(dir: string, stem: string, ext: string)
    requires |stem| > 0 && |ext| > 0
    requires forall k :: 0 <= k < |stem| ==> stem[k] != '/'
    requires forall k :: 0 <= k < |ext| ==> ext[k] != '/' && ext[k] != '.'
    ensures Suffix(dir + "/" + (stem + "." + ext)) == "." + ext
  {
    var name := stem + "." + ext;
    LastDotOf(stem, ext);
    SuffixOfBaseName(dir, name);
  }
}
