/** Go's `strings.HasPrefix`, `strings.Index`, `strings.Split` and `strings.Join`, and the exact
    condition under which splitting undoes joining. Keys, paths and command lines all rest on it. */
module Text {

  predicate HasPrefix(s: string, p: string) {
    p <= s
  }

  predicate OccursAt(s: string, sep: string, i: int) {
    0 <= i <= |s| - |sep| && s[i..i + |sep|] == sep
  }

  ghost predicate Contains(s: string, sep: string) {
    exists i :: OccursAt(s, sep, i)
  }

  /** Leftmost occurrence of `sep` at or after `from`, or -1. */
  function IndexFrom(s: string, sep: string, from: nat): (r: int)
    requires from <= |s|
    ensures r == -1 || (from <= r && OccursAt(s, sep, r))
    ensures forall i :: from <= i && (r == -1 || i < r) ==> !OccursAt(s, sep, i)
    decreases |s| - from
  {
    if OccursAt(s, sep, from) then from
    else if from == |s| then -1
    else IndexFrom(s, sep, from + 1)
  }

  function Split(s: string, sep: string): (parts: seq<string>)
    requires sep != ""
    ensures parts != []
  {
    var i := IndexFrom(s, sep, 0);
    if i == -1 then [s] else [s[..i]] + Split(s[i + |sep|..], sep)
  }

  function Join(parts: seq<string>, sep: string): string {
    if parts == [] then ""
    else if |parts| == 1 then parts[0]
    else parts[0] + sep + Join(parts[1..], sep)
  }

  /** No proper prefix of `sep` is also a suffix of it. */
  ghost predicate Borderless(sep: string) {
    sep != "" && forall n :: 0 < n < |sep| ==> sep[..n] != sep[|sep| - n..]
  }

  ghost predicate NoneContains(parts: seq<string>, sep: string) {
    forall p :: p in parts ==> !Contains(p, sep)
  }

  lemma FirstCharUniqueIsBorderless(sep: string)
    requires sep != "" && forall i :: 0 < i < |sep| ==> sep[i] != sep[0]
    ensures Borderless(sep)
  {
    forall n | 0 < n < |sep| ensures sep[..n] != sep[|sep| - n..] {
      assert sep[..n][0] == sep[0];
      assert sep[|sep| - n..][0] == sep[|sep| - n];
    }
  }

  /** A match that starts inside `a` lies in `a` or overlaps the separator that follows `a`. */
  lemma MatchInsideOrOverlaps(a: string, sep: string, rest: string, i: nat)
    requires sep != "" && i < |a| && OccursAt(a + sep + rest, sep, i)
    ensures Contains(a, sep) || !Borderless(sep)
  {
    var s := a + sep + rest;
    if i + |sep| <= |a| {
      assert a[i..i + |sep|] == s[i..i + |sep|];
      assert OccursAt(a, sep, i);
    } else {
      var n := i + |sep| - |a|;
      assert sep[..n] == s[|a|..|a| + n];
      assert sep[|sep| - n..] == s[i..i + |sep|][|sep| - n..] == s[|a|..|a| + n];
    }
  }

  /** The separator that follows a separator-free text is the first one found: an earlier match
      would overlap it, and a borderless separator cannot overlap itself. */
  lemma FirstMatch(a: string, sep: string, rest: string)
    requires Borderless(sep) && !Contains(a, sep)
    ensures IndexFrom(a + sep + rest, sep, 0) == |a|
  {
    var s := a + sep + rest;
    assert s[|a|..|a| + |sep|] == sep;
    assert OccursAt(s, sep, |a|);
    var i := IndexFrom(s, sep, 0);
    if 0 <= i < |a| {
      MatchInsideOrOverlaps(a, sep, rest, i);
    }
  }

  lemma SplitHead(a: string, sep: string, rest: string)
    requires Borderless(sep) && !Contains(a, sep)
    ensures Split(a + sep + rest, sep) == [a] + Split(rest, sep)
  {
    FirstMatch(a, sep, rest);
    var s := a + sep + rest;
    assert s[..|a|] == a;
    assert s[|a| + |sep|..] == rest;
  }

  lemma SplitNothing(a: string, sep: string)
    requires sep != "" && !Contains(a, sep)
    ensures Split(a, sep) == [a]
  {
    assert IndexFrom(a, sep, 0) == -1;
  }

  lemma {:induction false} SplitOfJoin(parts: seq<string>, sep: string)
    requires Borderless(sep) && parts != [] && NoneContains(parts, sep)
    ensures Split(Join(parts, sep), sep) == parts
  {
    if |parts| == 1 {
      assert parts[0] in parts;
      SplitNothing(parts[0], sep);
    } else {
      assert parts[0] in parts;
      assert NoneContains(parts[1..], sep);
      SplitOfJoin(parts[1..], sep);
      SplitHead(parts[0], sep, Join(parts[1..], sep));
    }
  }

  lemma {:induction false} SplitPartsAreFree(s: string, sep: string)
    requires sep != ""
    ensures NoneContains(Split(s, sep), sep)
  {
    var i := IndexFrom(s, sep, 0);
    if i == -1 {
      assert forall j :: !OccursAt(s, sep, j);
    } else {
      forall j ensures !OccursAt(s[..i], sep, j) {
        if OccursAt(s[..i], sep, j) {
          assert s[j..j + |sep|] == s[..i][j..j + |sep|];
          assert OccursAt(s, sep, j);
        }
      }
      SplitPartsAreFree(s[i + |sep|..], sep);
    }
  }

  /** Joining always undoes splitting. */
  lemma {:induction false} JoinOfSplit(s: string, sep: string)
    requires sep != ""
    ensures Join(Split(s, sep), sep) == s
  {
    var i := IndexFrom(s, sep, 0);
    if i != -1 {
      JoinOfSplit(s[i + |sep|..], sep);
      var tail := Split(s[i + |sep|..], sep);
      assert ([s[..i]] + tail)[1..] == tail;
      assert s == s[..i] + sep + s[i + |sep|..];
    }
  }

  /** Splitting undoes joining exactly for the nonempty lists whose elements are free of `sep`. */
  lemma SplitUndoesJoinIff(parts: seq<string>, sep: string)
    requires Borderless(sep)
    ensures Split(Join(parts, sep), sep) == parts <==> parts != [] && NoneContains(parts, sep)
  {
    if parts != [] && NoneContains(parts, sep) {
      SplitOfJoin(parts, sep);
    }
    SplitPartsAreFree(Join(parts, sep), sep);
  }

  // ---------- single-character separators ----------

  const SLASH := "/"

  predicate SlashFree(s: string) {
    '/' !in s
  }

  lemma SlashIsBorderless()
    ensures Borderless(SLASH)
  {
  }

  lemma SlashFreeMeans(s: string)
    ensures SlashFree(s) <==> !Contains(s, SLASH)
  {
    if !SlashFree(s) {
      var i :| 0 <= i < |s| && s[i] == '/';
      assert s[i..i + 1] == SLASH;
      assert OccursAt(s, SLASH, i);
    }
    if Contains(s, SLASH) {
      var i :| OccursAt(s, SLASH, i);
      assert s[i..i + 1][0] == '/';
    }
  }

  lemma SplitSlash(a: string, rest: string)
    requires SlashFree(a)
    ensures Split(a + "/" + rest, SLASH) == [a] + Split(rest, SLASH)
    ensures Split(a, SLASH) == [a]
  {
    SlashIsBorderless();
    SlashFreeMeans(a);
    SplitHead(a, SLASH, rest);
    SplitNothing(a, SLASH);
  }

  // ---------- the last element of a path ----------

  /** Position after the last slash. */
  function LastCut(path: string): (i: nat)
    ensures i <= |path| && SlashFree(path[i..])
    ensures i > 0 ==> path[i - 1] == '/'
  {
    if path == "" then 0
    else if path[|path| - 1] == '/' then |path|
    else
      var i := LastCut(path[..|path| - 1]);
      assert path[i..] == path[..|path| - 1][i..] + [path[|path| - 1]];
      i
  }

  /** The text after the last slash. */
  function AfterLastSlash(path: string): (last: string)
    ensures SlashFree(last)
  {
    path[LastCut(path)..]
  }

  lemma {:induction false} LastCutAfter(dir: string, name: string)
    requires SlashFree(name)
    ensures LastCut(dir + "/" + name) == |dir| + 1
  {
    var path := dir + "/" + name;
    if name == "" {
    } else {
      assert path[|path| - 1] == name[|name| - 1];
      assert path[..|path| - 1] == dir + "/" + name[..|name| - 1];
      LastCutAfter(dir, name[..|name| - 1]);
    }
  }

  lemma {:induction false} LastCutOfName(name: string)
    requires SlashFree(name)
    ensures LastCut(name) == 0
  {
    if name == "" {
    } else {
      assert name[|name| - 1] in name;
      LastCutOfName(name[..|name| - 1]);
    }
  }

  lemma LastElement(dir: string, last: string)
    requires SlashFree(last)
    ensures AfterLastSlash(dir + "/" + last) == last
  {
    LastCutAfter(dir, last);
    assert (dir + "/" + last)[|dir| + 1..] == last;
  }
}
