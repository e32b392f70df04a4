/** The search of the `get` command for an output file name that does not exist yet. */
module FreshName {
  import opened Text

  /** `filepath.Ext`: the text from the last dot of the last path element. */
  function Ext(path: string): (e: string)
    ensures |e| <= |path| && path[|path| - |e|..] == e && SlashFree(e)
  {
    path[ExtStart(path, |path|)..]
  }

  /** Where the extension starts, as seen from position `i` leftwards; the end if there is none. */
  function ExtStart(path: string, i: nat): (k: nat)
    requires i <= |path| && NoSlashFrom(path, i)
    ensures k <= |path| && NoSlashFrom(path, k)
  {
    if i == 0 || path[i - 1] == '/' then |path|
    else if path[i - 1] == '.' then i - 1
    else ExtStart(path, i - 1)
  }

  predicate NoSlashFrom(path: string, i: nat) {
    forall j :: i <= j < |path| ==> path[j] != '/'
  }

  /** `filepath.Base`. */
  function Base(path: string): string {
    if path == "" then "."
    else
      var last := AfterLastSlash(StripTrailing(path));
      if last == "" then "/" else last
  }

  function StripTrailing(path: string): string {
    if path != "" && path[|path| - 1] == '/' then StripTrailing(path[..|path| - 1]) else path
  }

  function TrimSuffix(s: string, suffix: string): string {
    if |suffix| <= |s| && s[|s| - |suffix|..] == suffix then s[..|s| - |suffix|] else s
  }

  function Decimal(n: nat): (d: string)
    ensures d != "" && SlashFree(d)
  {
    var digit := ['0' + (n % 10) as char];
    if n < 10 then digit else Decimal(n / 10) + digit
  }

  lemma {:induction false} DecimalIsInjective(m: nat, n: nat)
    requires Decimal(m) == Decimal(n)
    ensures m == n
    decreases m + n
  {
    var a, b := Decimal(m), Decimal(n);
    assert a[|a| - 1] == '0' + (m % 10) as char;
    assert b[|b| - 1] == '0' + (n % 10) as char;
    assert m % 10 == n % 10;
    if m >= 10 && n >= 10 {
      assert Decimal(m / 10) == a[..|a| - 1] == b[..|b| - 1] == Decimal(n / 10);
      DecimalIsInjective(m / 10, n / 10);
    } else {
      assert |Decimal(m)| == 1 <==> m < 10;
    }
  }

  /** The path tried after `count` hits. */
  function Candidate(output: string, count: nat): string {
    Numbered(output, Ext(output), count)
  }

  function Numbered(output: string, extension: string, count: nat): string {
    if count == 0 then output
    else if extension != "" then TrimSuffix(output, extension) + "_" + Decimal(count) + extension
    else output + "_" + Decimal(count)
  }

  // ---------- what the extension and the count look like ----------

  predicate DotFree(s: string) {
    '.' !in s
  }

  lemma {:induction false} ExtStartIs(path: string, k: nat, i: nat)
    requires k < i <= |path| && path[k] == '.' && NoSlashFrom(path, i)
    requires forall j :: k < j < |path| ==> path[j] != '.' && path[j] != '/'
    ensures ExtStart(path, i) == k
  {
    if i == k + 1 {
    } else {
      ExtStartIs(path, k, i - 1);
    }
  }

  /** The extension is what the last dot begins, if no slash follows it. */
  lemma ExtIs(base: string, ext: string)
    requires DotFree(ext) && SlashFree(ext)
    ensures Ext(base + "." + ext) == "." + ext
  {
    var path, k := base + "." + ext, |base|;
    assert path[k] == '.';
    forall j | k < j < |path| ensures path[j] != '.' && path[j] != '/' {
      assert path[j] == ext[j - k - 1];
    }
    ExtStartIs(path, k, |path|);
    assert path[k..] == "." + ext;
  }

  lemma {:induction false} NoExtStart(path: string, i: nat)
    requires i <= |path| && NoSlashFrom(path, i) && forall j :: 0 <= j < i ==> path[j] != '.'
    ensures ExtStart(path, i) == |path|
  {
    if i > 0 && path[i - 1] != '/' {
      NoExtStart(path, i - 1);
    }
  }

  /** The count goes before the extension, after an underscore. */
  lemma CandidateIs(base: string, ext: string, count: nat)
    requires DotFree(ext) && SlashFree(ext) && count > 0
    ensures Candidate(base + "." + ext, count) == base + "_" + Decimal(count) + "." + ext
  {
    var path, e := base + "." + ext, "." + ext;
    ExtIs(base, ext);
    Associate(base, ".", ext);
    NumberedSuffix(base, e, count);
    Associate(base + "_" + Decimal(count), ".", ext);
  }

  lemma Associate(a: string, b: string, c: string)
    ensures a + b + c == a + (b + c)
  {
  }

  lemma NumberedSuffix(base: string, e: string, count: nat)
    requires count > 0
    ensures Numbered(base + e, e, count) == base + "_" + Decimal(count) + e
  {
    var path := base + e;
    assert path[..|path| - |e|] == base && path[|path| - |e|..] == e;
    NumberedShape(path, e, count);
  }

  /** Without a dot it goes to the end; count 0 is the name itself. */
  lemma PlainCandidateIs(name: string, count: nat)
    ensures Candidate(name, 0) == name
    ensures DotFree(name) && count > 0 ==> Candidate(name, count) == name + "_" + Decimal(count)
  {
    if DotFree(name) {
      NoExtStart(name, |name|);
      assert name[|name|..] == "";
    }
  }

  /** The number that a text of digits denotes. */
  function Value(digits: string): int {
    if digits == "" then 0 else 10 * Value(digits[..|digits| - 1]) + (digits[|digits| - 1] as int - '0' as int)
  }

  predicate IsDigit(c: char) {
    '0' <= c <= '9'
  }

  /** The suffix is the count in decimal, without leading zeros. */
  lemma {:induction false} DecimalIs(n: nat)
    ensures Value(Decimal(n)) == n && forall c :: c in Decimal(n) ==> IsDigit(c)
    ensures n > 0 ==> Decimal(n)[0] != '0'
  {
    var d := Decimal(n);
    if n < 10 {
      assert d[..0] == "";
    } else {
      DecimalIs(n / 10);
      assert d[..|d| - 1] == Decimal(n / 10);
      assert d[0] == Decimal(n / 10)[0];
    }
  }

  predicate IsSuffix(e: string, s: string) {
    |e| <= |s| && s[|s| - |e|..] == e
  }

  lemma NumberedShape(output: string, e: string, count: nat)
    requires IsSuffix(e, output) && count > 0
    ensures Numbered(output, e, count) == output[..|output| - |e|] + "_" + Decimal(count) + e
  {
  }

  lemma NumberedDiffer(output: string, e: string, m: nat, n: nat)
    requires IsSuffix(e, output) && m < n
    ensures Numbered(output, e, m) != Numbered(output, e, n)
  {
    var a, b := Numbered(output, e, m), Numbered(output, e, n);
    NumberedShape(output, e, n);
    if m > 0 {
      NumberedShape(output, e, m);
      var k := |output| - |e| + 1;
      assert a[k..|a| - |e|] == Decimal(m) && b[k..|b| - |e|] == Decimal(n);
      if Decimal(m) == Decimal(n) {
        DecimalIsInjective(m, n);
      }
    } else {
      assert |b| > |a|;
    }
  }

  /** The first `count` values of `f`. */
  ghost function FirstValues(f: nat -> string, count: nat): set<string> {
    set i: nat | i < count :: f(i)
  }

  lemma OneMoreValue(f: nat -> string, count: nat)
    ensures FirstValues(f, count + 1) == FirstValues(f, count) + {f(count)}
    ensures (forall i: nat :: i < count ==> f(i) != f(count)) ==> f(count) !in FirstValues(f, count)
  {
  }

  lemma {:induction false} FirstValuesSize(f: nat -> string, count: nat)
    requires forall i: nat, j: nat :: i < j ==> f(i) != f(j)
    ensures |FirstValues(f, count)| == count
  {
    if count == 0 {
    } else {
      FirstValuesSize(f, count - 1);
      OneMoreValue(f, count - 1);
    }
  }

  lemma NumberedCount(output: string, e: string, count: nat)
    requires IsSuffix(e, output)
    ensures |FirstValues((i: nat) => Numbered(output, e, i), count)| == count
  {
    var f := (i: nat) => Numbered(output, e, i);
    forall i: nat, j: nat | i < j ensures f(i) != f(j) {
      NumberedDiffer(output, e, i, j);
    }
    FirstValuesSize(f, count);
  }

  lemma {:induction false} SubsetSize<T>(a: set<T>, b: set<T>)
    requires a <= b
    ensures |a| <= |b|
  {
    if a == {} {
    } else {
      var x :| x in a;
      SubsetSize(a - {x}, b - {x});
    }
  }

  /** The path the command finally creates: the base name of the probed path, in `destination`. */
  function Created(destination: string, probed: string): string {
    destination + "/" + Base(probed)
  }

  /** `existing` holds the paths for which `os.Stat` succeeds. The search stops within one more probe
      than there are existing files, at the least count whose candidate is free. */
  method FindFreshName(destination: string, name: string, existing: set<string>)
    returns (probed: string, count: nat, created: string)
    ensures probed == Candidate(destination + "/" + name, count) && probed !in existing
    ensures forall i :: 0 <= i < count ==> Candidate(destination + "/" + name, i) in existing
    ensures count <= |existing|
    ensures created == Created(destination, probed)
    ensures SlashFree(name) && (name != "" || count > 0) ==> created == probed && created !in existing
  {
    probed, count := Search(destination + "/" + name, existing);
    created := destination + "/" + Base(probed);
    CreatedIsProbedIff(destination, name, count);
  }

  /** The search loop. */
  method Search(output: string, existing: set<string>) returns (probed: string, count: nat)
    ensures probed == Candidate(output, count) && probed !in existing
    ensures count <= |existing| && AllTaken(output, Ext(output), count, existing)
  {
    var extension := Ext(output);
    count := 0;
    probed := output;
    while probed in existing
      invariant probed == Numbered(output, extension, count)
      invariant count <= |existing|
      invariant AllTaken(output, extension, count, existing)
      decreases |existing| - count
    {
      TakenAreFew(output, extension, count + 1, existing);
      count := count + 1;
      if extension != "" {
        probed := TrimSuffix(output, extension) + "_" + Decimal(count) + extension;
      } else {
        probed := output + "_" + Decimal(count);
      }
    }
  }

  /** The first `count` paths tried all exist. */
  ghost predicate AllTaken(output: string, extension: string, count: nat, existing: set<string>) {
    forall i: nat :: i < count ==> Numbered(output, extension, i) in existing
  }

  lemma TakenAreFew(output: string, e: string, count: nat, existing: set<string>)
    requires IsSuffix(e, output) && AllTaken(output, e, count, existing)
    ensures count <= |existing|
  {
    NumberedCount(output, e, count);
    SubsetSize(FirstValues((i: nat) => Numbered(output, e, i), count), existing);
  }

  // ---------- which path is created ----------

  /** The search runs the same way in `path`, which ends with `name` after a slash. */
  lemma {:induction false} ExtStartOfLastElement(path: string, name: string, start: nat, i: nat)
    requires EndsWith(path, name, start) && i <= |name| && NoSlashFrom(name, i)
    ensures NoSlashFrom(path, start + i)
    ensures ExtStart(path, start + i) == start + ExtStart(name, i)
  {
    assert NoSlashFrom(path, start + i) by {
      forall j | start + i <= j < |path| ensures path[j] != '/' {
        assert path[j] == name[j - start];
      }
    }
    if i == 0 {
      assert path[start - 1] == '/';
    } else {
      assert path[start + i - 1] == name[i - 1];
      if name[i - 1] != '/' && name[i - 1] != '.' {
        ExtStartOfLastElement(path, name, start, i - 1);
      }
    }
  }

  predicate EndsWith(path: string, name: string, start: nat) {
    && |path| == start + |name| && start > 0 && path[start - 1] == '/'
    && forall j :: 0 <= j < |name| ==> path[start + j] == name[j]
  }

  lemma NumberedInDirectory(dir: string, name: string, e: string, count: nat)
    requires IsSuffix(e, name)
    ensures Numbered(dir + "/" + name, e, count) == dir + "/" + Numbered(name, e, count)
  {
    if count > 0 {
      var path := dir + "/" + name;
      assert IsSuffix(e, path);
      NumberedShape(path, e, count);
      NumberedShape(name, e, count);
      assert path[..|path| - |e|] == dir + "/" + name[..|name| - |e|];
      Regroup(dir + "/", name[..|name| - |e|], "_", Decimal(count), e);
    }
  }

  lemma Regroup(a: string, b: string, c: string, d: string, e: string)
    ensures (a + b) + c + d + e == a + (b + c + d + e)
  {
  }

  lemma ExtOfEnding(path: string, name: string, start: nat)
    requires EndsWith(path, name, start)
    ensures Ext(path) == Ext(name)
  {
    ExtStartOfLastElement(path, name, start, |name|);
    SameEnding(path, name, start, ExtStart(name, |name|));
  }

  lemma SameEnding(path: string, name: string, start: nat, k: nat)
    requires EndsWith(path, name, start) && k <= |name|
    ensures path[start + k..] == name[k..]
  {
    forall j | 0 <= j < |name| - k ensures path[start + k..][j] == name[k..][j] {
      assert path[start + (k + j)] == name[k + j];
    }
  }

  lemma ExtInDirectory(dir: string, name: string)
    ensures Ext(dir + "/" + name) == Ext(name)
  {
    assert EndsWith(dir + "/" + name, name, |dir| + 1);
    ExtOfEnding(dir + "/" + name, name, |dir| + 1);
  }

  lemma CandidateInDirectory(dir: string, name: string, count: nat)
    ensures Candidate(dir + "/" + name, count) == dir + "/" + Candidate(name, count)
  {
    var path, e := dir + "/" + name, Ext(name);
    ExtInDirectory(dir, name);
    NumberedInDirectory(dir, name, e, count);
    assert Candidate(path, count) == Numbered(path, e, count);
  }

  lemma {:induction false} StrippedIsEmptyIff(path: string)
    ensures StripTrailing(path) == "" <==> OnlySlashes(path)
  {
    if path == "" {
    } else if path[|path| - 1] == '/' {
      StrippedIsEmptyIff(path[..|path| - 1]);
      assert OnlySlashes(path[..|path| - 1]) <==> OnlySlashes(path);
    } else {
      assert StripTrailing(path) == path;
    }
  }

  lemma {:induction false} StrippedEnd(path: string)
    ensures var p := StripTrailing(path); p == "" || p[|p| - 1] != '/'
  {
    if path != "" && path[|path| - 1] == '/' {
      StrippedEnd(path[..|path| - 1]);
    }
  }

  /** The base name has no slash, except that a path of slashes alone has the base name `/`. */
  lemma BaseShape(path: string)
    requires path != ""
    ensures Base(path) != ""
    ensures OnlySlashes(path) ==> Base(path) == "/"
    ensures !OnlySlashes(path) ==> SlashFree(Base(path))
  {
    StrippedIsEmptyIff(path);
    StrippedEnd(path);
  }

  predicate OnlySlashes(path: string) {
    forall i :: 0 <= i < |path| ==> path[i] == '/'
  }

  lemma OnlySlashesIff(dir: string, c: string)
    ensures OnlySlashes(dir + "/" + c) <==> OnlySlashes(dir) && OnlySlashes(c)
  {
    var path := dir + "/" + c;
    assert forall i :: 0 <= i < |dir| ==> path[i] == dir[i];
    assert forall i :: 0 <= i < |c| ==> path[|dir| + 1 + i] == c[i];
  }

  lemma BaseOfLastElement(dir: string, last: string)
    requires last != "" && SlashFree(last)
    ensures Base(dir + "/" + last) == last
  {
    var path := dir + "/" + last;
    assert path[|path| - 1] == last[|last| - 1];
    assert StripTrailing(path) == path;
    LastElement(dir, last);
  }

  lemma BaseIsLastIff(dir: string, c: string)
    ensures Base(dir + "/" + c) == c <==> (SlashFree(c) && c != "") || (c == SLASH && OnlySlashes(dir))
  {
    BaseShape(dir + "/" + c);
    OnlySlashesIff(dir, c);
    if SlashFree(c) && c != "" {
      BaseOfLastElement(dir, c);
    }
  }

  lemma CreatedIsBase(dir: string, c: string)
    ensures Created(dir, dir + "/" + c) == dir + "/" + c <==> Base(dir + "/" + c) == c
  {
    var base := Base(dir + "/" + c);
    assert (dir + "/" + base)[|dir| + 1..] == base && (dir + "/" + c)[|dir| + 1..] == c;
  }

  /** A suffix brings no slash and takes none away. */
  lemma CandidateShape(name: string, count: nat)
    ensures SlashFree(Candidate(name, count)) <==> SlashFree(name)
    ensures count > 0 ==> Candidate(name, count) != "" && Candidate(name, count) != SLASH
  {
    if count > 0 {
      var e := Ext(name);
      NumberedShape(name, e, count);
      var stem := name[..|name| - |e|];
      assert name == stem + e;
      assert Candidate(name, count)[|stem|] == '_';
    }
  }

  /** The created file is the probed one exactly when the stored name has no directory part and is not
      tried empty; or when the probed path is made of slashes alone and the name is one of them. */
  lemma CreatedIsProbedIff(dir: string, name: string, count: nat)
    ensures var probed := Candidate(dir + "/" + name, count);
            Created(dir, probed) == probed <==>
              (SlashFree(name) && (name != "" || count > 0)) || (name == SLASH && count == 0 && OnlySlashes(dir))
  {
    CandidateInDirectory(dir, name, count);
    CandidateShape(name, count);
    CreatedIsBase(dir, Candidate(name, count));
    BaseIsLastIff(dir, Candidate(name, count));
  }

  /** With a directory part in the name, the probed path is free while the created one exists. */
  lemma DirectoryPartOverwrites()
    ensures var existing := {"/d/b"};
            var probed := Candidate("/d" + "/" + "a/b", 0);
            probed !in existing && Created("/d", probed) in existing
  {
    var dir, last := "/d/a", "b";
    var probed := Candidate("/d" + "/" + "a/b", 0);
    assert probed == dir + "/" + last;
    BaseOfLastElement(dir, last);
    assert "/d" + "/" + last == "/d/b" && |probed| != |"/d/b"|;
  }
}
