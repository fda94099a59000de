/** The parts of java.lang.String and java.io.File the core relies on to derive
    file names, output paths and key identifiers. Paths use '/' as separator;
    java.io.File's normalisation is modelled where File.getName is taken. */
module Strings {

  predicate StartsWith(s: string, prefix: string) {
    |prefix| <= |s| && s[..|prefix|] == prefix
  }

  predicate EndsWith(s: string, suffix: string) {
    |suffix| <= |s| && s[|s| - |suffix|..] == suffix
  }

  /** `pat` occurs in `s` starting at index `i`. */
  predicate OccursAt(s: string, pat: string, i: int) {
    0 <= i && i + |pat| <= |s| && s[i..i + |pat|] == pat
  }

  predicate Contains(s: string, pat: string) {
    exists i | 0 <= i <= |s| :: OccursAt(s, pat, i)
  }

  /** String.replace(target, ""): every occurrence of `target` found by a
      left-to-right scan is removed; the scan resumes after each removed
      occurrence, so occurrences that the removal brings together survive. */
  function RemoveAll(s: string, target: string): (r: string)
    requires target != []
    ensures |r| <= |s|
    decreases |s|
  {
    if |s| < |target| then s
    else if s[..|target|] == target then RemoveAll(s[|target|..], target)
    else [s[0]] + RemoveAll(s[1..], target)
  }

  /** An occurrence in the tail of a string is an occurrence in the string. */
  lemma AbsentFromTail(s: string, pat: string)
    requires s != [] && !Contains(s, pat)
    ensures !Contains(s[1..], pat)
  {
    forall i | 0 <= i <= |s[1..]| && OccursAt(s[1..], pat, i)
      ensures OccursAt(s, pat, i + 1)
    {
      assert s[i + 1..i + 1 + |pat|] == s[1..][i..i + |pat|];
    }
  }

  /** A string without an occurrence of `target` is left as it is. */
  lemma {:induction false} RemoveAllAbsent(s: string, target: string)
    requires target != [] && !Contains(s, target)
    ensures RemoveAll(s, target) == s
    decreases |s|
  {
    if |s| >= |target| {
      assert !OccursAt(s, target, 0);
      AbsentFromTail(s, target);
      RemoveAllAbsent(s[1..], target);
      assert [s[0]] + s[1..] == s;
    }
  }

  /** A character that is not part of `target` survives every removal. */
  lemma {:induction false} RemoveAllKeeps(s: string, target: string, x: char)
    requires target != [] && x !in target && x in s
    ensures x in RemoveAll(s, target)
    decreases |s|
  {
    if |s| < |target| {
    } else if s[..|target|] == target {
      var k :| 0 <= k < |s| && s[k] == x;
      assert x !in s[..|target|];
      assert s[|target|..][k - |target|] == x;
      RemoveAllKeeps(s[|target|..], target, x);
    } else if s[0] != x {
      var k :| 0 <= k < |s| && s[k] == x;
      assert s[1..][k - 1] == x;
      RemoveAllKeeps(s[1..], target, x);
    }
  }

  /** String.trim counts every character up to U+0020 as white space. */
  predicate IsTrimmed(ch: char) {
    ch <= ' '
  }

  /** The leading white space of String.trim: `r` is the longest suffix of `s`
      that does not start with white space. */
  function TrimStart(s: string): (r: string)
    ensures EndsWith(s, r)
    ensures r == [] || !IsTrimmed(r[0])
    ensures forall k :: 0 <= k < |s| - |r| ==> IsTrimmed(s[k])
  {
    if s != [] && IsTrimmed(s[0]) then TrimStart(s[1..]) else s
  }

  /** The trailing half of String.trim: `r` is the longest prefix of `s` that
      does not end with white space. */
  function TrimEnd(s: string): (r: string)
    ensures StartsWith(s, r)
    ensures r == [] || !IsTrimmed(r[|r| - 1])
    ensures forall k :: |r| <= k < |s| ==> IsTrimmed(s[k])
  {
    if s != [] && IsTrimmed(s[|s| - 1]) then TrimEnd(s[..|s| - 1]) else s
  }

  /** `r` is the slice of `s` at `i`, and everything around it is white space. */
  predicate TrimmedAt(s: string, r: string, i: int) {
    && 0 <= i <= |s| - |r|
    && r == s[i..i + |r|]
    && (forall k :: 0 <= k < i ==> IsTrimmed(s[k]))
    && (forall k :: i + |r| <= k < |s| ==> IsTrimmed(s[k]))
  }

  /** String.trim */
  function Trim(s: string): (r: string)
    ensures |r| <= |s|
    ensures r == [] || (!IsTrimmed(r[0]) && !IsTrimmed(r[|r| - 1]))
    ensures r == [] <==> forall k :: 0 <= k < |s| ==> IsTrimmed(s[k])
    ensures exists i :: TrimmedAt(s, r, i)
  {
    var t := TrimStart(s);
    var r := TrimEnd(t);
    TrimmedSlice(s, t, r);
    TrimBlank(s, r, |s| - |t|);
    r
  }

  /** A prefix `r` of a suffix `t` of `s`, with only white space cut off at
      either end, is the slice of `s` where `t` starts. */
  lemma TrimmedSlice(s: string, t: string, r: string)
    requires EndsWith(s, t) && StartsWith(t, r)
    requires t == [] || !IsTrimmed(t[0])
    requires forall k :: 0 <= k < |s| - |t| ==> IsTrimmed(s[k])
    requires forall k :: |r| <= k < |t| ==> IsTrimmed(t[k])
    ensures TrimmedAt(s, r, |s| - |t|)
    ensures r == [] || !IsTrimmed(r[0])
  {
    var i := |s| - |t|;
    assert t == s[i..];
    assert r == s[i..i + |r|];
    forall k | i + |r| <= k < |s|
      ensures IsTrimmed(s[k])
    {
      assert s[k] == t[k - i];
    }
    if r != [] {
      assert r[0] == t[0];
    }
  }

  /** A slice that neither starts with white space and has only white space
      around it is empty exactly when the whole text is white space. */
  lemma TrimBlank(s: string, r: string, i: int)
    requires TrimmedAt(s, r, i) && (r == [] || !IsTrimmed(r[0]))
    ensures r == [] <==> forall k :: 0 <= k < |s| ==> IsTrimmed(s[k])
  {
    if r != [] {
      assert s[i] == r[0];
    }
  }

  /** The part of a path after its last separator. */
  function Name(path: string): (n: string)
    ensures EndsWith(path, n)
    ensures '/' !in n
    ensures |n| < |path| ==> path[|path| - |n| - 1] == '/'
  {
    if path == [] || path[|path| - 1] == '/' then []
    else
      var init := path[..|path| - 1];
      var n := Name(init) + [path[|path| - 1]];
      assert path == init + [path[|path| - 1]];
      n
  }

  /** java.io.File drops trailing separators when it normalises a path. */
  function DropTrailingSeparators(path: string): (r: string)
    ensures StartsWith(path, r)
    ensures r == [] || r[|r| - 1] != '/'
    ensures forall k :: |r| <= k < |path| ==> path[k] == '/'
  {
    if path != [] && path[|path| - 1] == '/' then DropTrailingSeparators(path[..|path| - 1]) else path
  }

  /** new File(path).getName(): the last component of the normalised path.
      Collapsing doubled separators, the other half of the normalisation,
      does not change the last component. */
  function FileName(path: string): (n: string)
    ensures '/' !in n
    ensures path == [] || path[|path| - 1] != '/' ==> n == Name(path)
    ensures n == [] ==> forall k :: 0 <= k < |path| ==> path[k] == '/'
  {
    var p := DropTrailingSeparators(path);
    assert p != [] ==> Name(p) != [];
    Name(p)
  }

  /** new File(dir, name) and Paths.get(dir, name). */
  function Join(dir: string, name: string): string {
    dir + "/" + name
  }

  /** The last component of a joined path is the name it was joined with. */
  lemma NameOfJoin(dir: string, name: string)
    requires '/' !in name
    ensures Name(Join(dir, name)) == name
  {
    var p := Join(dir, name);
    var n := Name(p);
    assert p[|p| - |name| - 1] == '/';
    assert p[|p| - |name|..] == name;
  }

  /** The file name of a directory joined with a non-empty, separator-free name is that name. */
  lemma FileNameOfJoin(dir: string, name: string)
    requires name != [] && '/' !in name
    ensures FileName(Join(dir, name)) == name
  {
    NameOfJoin(dir, name);
  }

  /** A path ending in a separator is named after the component before it. */
  lemma FileNameOfDirectory(dir: string)
    requires dir != [] && dir[|dir| - 1] != '/'
    ensures FileName(dir + "/") == Name(dir)
  {
    assert (dir + "/")[..|dir + "/"| - 1] == dir;
  }

  /** A last component that makes Paths.get(dir, name) a directory that
      already exists: "" and "." name `dir` itself, ".." its parent. */
  predicate ResolvesToDirectory(name: string) {
    name == "" || name == "." || name == ".."
  }

  /** A joined path lies below its directory. */
  lemma JoinStartsWith(dir: string, name: string)
    ensures StartsWith(Join(dir, name), dir + "/")
  {
    assert Join(dir, name)[..|dir + "/"|] == dir + "/";
  }

  /** String.replace(".enc", "") on a string free of ".enc", followed by
      ".enc" and anything else: the first part is kept, the ".enc" dropped,
      and the scan goes on in the rest. No proper prefix of ".enc" is also a
      suffix of it, so no occurrence straddles the boundary. */
  lemma {:induction false} RemoveEncThenRest(s: string, rest: string)
    requires !Contains(s, ".enc")
    ensures RemoveAll(s + ".enc" + rest, ".enc") == s + RemoveAll(rest, ".enc")
    decreases |s|
  {
    var pat := ".enc";
    var x := s + pat + rest;
    if s == [] {
      assert x[..|pat|] == pat;
      assert x[|pat|..] == rest;
    } else {
      if |s| >= |pat| {
        assert s[0..0 + |pat|] == x[..|pat|];
        assert !OccursAt(s, pat, 0);
      } else {
        assert x[..|pat|][|s|] == '.' != pat[|s|];
      }
      assert x[..|pat|] != pat;
      assert x[1..] == s[1..] + pat + rest;
      AbsentFromTail(s, pat);
      RemoveEncThenRest(s[1..], rest);
      assert [s[0]] + (s[1..] + RemoveAll(rest, pat)) == s + RemoveAll(rest, pat);
    }
  }

  /** Removing ".enc" from p + ".enc" + b + ".enc", where neither p nor b holds
      ".enc", leaves p + b. */
  lemma RemoveEncTwice(p: string, b: string)
    requires !Contains(p, ".enc") && !Contains(b, ".enc")
    ensures RemoveAll(p + ".enc" + b + ".enc", ".enc") == p + b
  {
    assert p + ".enc" + b + ".enc" == p + ".enc" + (b + ".enc");
    RemoveEncThenRest(p, b + ".enc");
    assert b + ".enc" == b + ".enc" + [];
    RemoveEncThenRest(b, []);
    assert RemoveAll([], ".enc") == [];
  }
}
