/** What the two passes of the adder report: together every node of the tree exactly once, under its
    own path, directories after everything below them. */
module AdderEvents {
  import opened Mfs
  import opened Adder

  /** The event names the path of its node in the tree `t` rooted at `path`. */
  ghost predicate Located(path: string, t: FsNode, e: AddEvent)
    decreases t
  {
    || e == AddEvent(path, t)
    || (t.DirNode? && exists c :: c in t.children && Located(JoinPath(path, c.name), c.node, e))
  }

  /** `x` is `p` or lies below it. */
  predicate Below(p: string, x: string) {
    p == "" || x == p || p + "/" <= x
  }

  lemma BelowIsTransitive(p: string, q: string, x: string)
    requires Below(p, q) && Below(q, x) && q != ""
    ensures Below(p, x)
  {
    if p != "" && q != p && x != q {
      assert (p + "/") <= q <= x;
    }
  }

  lemma BelowChild(path: string, name: string, x: string)
    requires ValidName(name) && Below(JoinPath(path, name), x)
    ensures Below(path, x) && x != path && x != "" && !Below(x, path)
  {
    assert |x| > |path|;
  }

  /** Nothing lies below two siblings. */
  lemma SiblingsApart(path: string, a: string, b: string, x: string)
    requires ValidName(a) && ValidName(b)
    requires Below(JoinPath(path, a), x) && Below(JoinPath(path, b), x)
    ensures a == b
  {
    var p := if path == "" then "" else path + "/";
    assert JoinPath(path, a) == p + a && JoinPath(path, b) == p + b;
    if |a| <= |b| {
      SameStart(p, a, b, x);
    } else {
      SameStart(p, b, a, x);
    }
  }

  lemma SameStart(p: string, a: string, b: string, x: string)
    requires |a| <= |b|
    requires x == p + a || p + a + "/" <= x
    requires p + b <= x
    ensures a == b || '/' in b
  {
    assert a == x[|p|..|p| + |a|] && b == x[|p|..|p| + |b|];
    if |a| < |b| {
      assert x[|p| + |a|] == b[|a|];
      assert (p + a + "/")[|p| + |a|] == '/';
    }
  }

  // ---------- every event is located, every node is reported ----------

  ghost predicate ValidTree(t: FsNode)
  {
    t.DirNode? ==>
      && Distinct(Names(t.children))
      && forall c :: c in t.children ==> ValidName(c.name) && ValidTree(c.node)
  }

  lemma {:induction false} ConvertedIsValid(file: FileNode)
    requires Valid(file)
    ensures ValidTree(Convert(file))
    decreases file
  {
    if file.Directory? {
      var es, t := file.entries, Convert(file);
      forall c | c in t.children ensures ValidName(c.name) && ValidTree(c.node) {
        var i :| 0 <= i < |es| && t.children[i] == c;
        assert es[i] in es;
        ConvertedIsValid(es[i].node);
      }
      assert Names(t.children) == EntryNames(es);
    }
  }

  lemma {:induction false} LocatedIsBelow(path: string, t: FsNode, e: AddEvent)
    requires ValidTree(t) && Located(path, t, e)
    ensures Below(path, e.name) && (path != "" ==> e.name != "")
    decreases t
  {
    if e != AddEvent(path, t) {
      var c :| c in t.children && Located(JoinPath(path, c.name), c.node, e);
      LocatedIsBelow(JoinPath(path, c.name), c.node, e);
      BelowChild(path, c.name, e.name);
    }
  }

  lemma ChildByName(t: FsNode, c: Child)
    requires ValidTree(t) && t.DirNode? && c in t.children
    ensures Find(t.children, c.name) != -1 && ChildNode(t, c.name) == c.node
  {
    var i :| 0 <= i < |t.children| && t.children[i] == c;
    var j := Find(t.children, c.name);
    assert Names(t.children)[i] == Names(t.children)[j];
  }

  /** A path names at most one node. */
  lemma {:induction false} PathsAreUnique(path: string, t: FsNode, d: AddEvent, e: AddEvent)
    requires ValidTree(t) && Located(path, t, d) && Located(path, t, e) && d.name == e.name
    ensures d == e
    decreases t
  {
    if d != AddEvent(path, t) {
      var a :| a in t.children && Located(JoinPath(path, a.name), a.node, d);
      LocatedIsBelow(JoinPath(path, a.name), a.node, d);
      BelowChild(path, a.name, d.name);
      var b :| b in t.children && Located(JoinPath(path, b.name), b.node, e);
      LocatedIsBelow(JoinPath(path, b.name), b.node, e);
      SiblingsApart(path, a.name, b.name, e.name);
      ChildByName(t, a);
      ChildByName(t, b);
      PathsAreUnique(JoinPath(path, a.name), a.node, d, e);
    } else if e != AddEvent(path, t) {
      var b :| b in t.children && Located(JoinPath(path, b.name), b.node, e);
      LocatedIsBelow(JoinPath(path, b.name), b.node, e);
      BelowChild(path, b.name, e.name);
    }
  }

  lemma {:induction false} EntryEventIff(cidOf: CidOf, path: string, es: seq<Entry>, e: AddEvent)
    ensures e in EntryEvents(cidOf, path, es)
       <==> exists x :: x in es && e in LeafEvents(cidOf, JoinPath(path, x.name), x.node)
  {
    if es == [] {
    } else {
      var n := |es| - 1;
      assert es == es[..n] + [es[n]];
      EntryEventIff(cidOf, path, es[..n], e);
    }
  }

  lemma EntryHasChild(es: seq<Entry>, x: Entry)
    requires Valid(Directory(es)) && x in es
    ensures Child(x.name, Convert(x.node)) in ConvertAll(es)
  {
    var i :| 0 <= i < |es| && es[i] == x;
    assert ConvertAll(es)[i] == Child(x.name, Convert(x.node));
  }

  lemma ChildHasEntry(es: seq<Entry>, c: Child) returns (x: Entry)
    requires Valid(Directory(es)) && c in ConvertAll(es)
    ensures x in es && c == Child(x.name, Convert(x.node))
  {
    var i :| 0 <= i < |es| && ConvertAll(es)[i] == c;
    x := es[i];
  }

  /** The first pass reports exactly the leaves. */
  lemma {:induction false} LeafEventIff(cidOf: CidOf, path: string, file: FileNode, e: AddEvent)
    requires Valid(file) && (path != "" || file.Directory?)
    ensures e in LeafEvents(cidOf, path, file) <==> Located(path, Convert(file), e) && e.node.LeafNode?
    decreases file
  {
    if file.Directory? {
      var es, t := file.entries, Convert(file);
      EntryEventIff(cidOf, path, es, e);
      forall x | x in es
        ensures e in LeafEvents(cidOf, JoinPath(path, x.name), x.node)
           <==> Located(JoinPath(path, x.name), Convert(x.node), e) && e.node.LeafNode?
        ensures Child(x.name, Convert(x.node)) in t.children
      {
        LeafEventIff(cidOf, JoinPath(path, x.name), x.node, e);
        EntryHasChild(es, x);
      }
      if e.node.LeafNode? && Located(path, t, e) {
        var c :| c in t.children && Located(JoinPath(path, c.name), c.node, e);
        var x := ChildHasEntry(es, c);
      }
    }
  }

  lemma {:induction false} ListedEventIff(list: Lister, path: string, t: FsNode, names: seq<string>, e: AddEvent)
    requires t.DirNode? && forall n :: n in names ==> Find(t.children, n) != -1
    ensures e in ListedEvents(list, path, t, names)
       <==> exists n :: n in names && e in DirEvents(list, JoinPath(path, n), ChildNode(t, n))
    decreases |names|
  {
    if names == [] {
    } else {
      var k := |names| - 1;
      assert names == names[..k] + [names[k]];
      ListedEventIff(list, path, t, names[..k], e);
    }
  }

  /** The second pass reports exactly the directories. */
  lemma {:induction false} DirEventIff(list: Lister, path: string, t: FsNode, e: AddEvent)
    requires ValidTree(t)
    ensures e in DirEvents(list, path, t) <==> Located(path, t, e) && e.node.DirNode?
    decreases t
  {
    if t.DirNode? {
      var names := list(Names(t.children));
      ListedNames(list, t.children);
      ListedEventIff(list, path, t, names, e);
      forall c | c in t.children
        ensures c.name in names && ChildNode(t, c.name) == c.node
        ensures e in DirEvents(list, JoinPath(path, c.name), c.node)
           <==> Located(JoinPath(path, c.name), c.node, e) && e.node.DirNode?
      {
        ChildByName(t, c);
        ListedName(list, t.children, c.name);
        DirEventIff(list, JoinPath(path, c.name), c.node, e);
      }
      if n :| n in names && e in DirEvents(list, JoinPath(path, n), ChildNode(t, n)) {
        var c := t.children[Find(t.children, n)];
        assert c in t.children;
      }
    }
  }

  // ---------- each once, and in post-order ----------

  ghost predicate DistinctPaths(events: seq<AddEvent>) {
    forall i, j :: 0 <= i < j < |events| ==> events[i].name != events[j].name
  }

  /** No event is followed by one at or below its own path. */
  ghost predicate PostOrder(events: seq<AddEvent>) {
    forall i, j :: 0 <= i < j < |events| ==> !Below(events[i].name, events[j].name)
  }

  lemma EarlierEntriesDiffer(cidOf: CidOf, path: string, es: seq<Entry>, k: nat)
    requires Valid(Directory(es)) && k < |es|
    ensures forall d, e :: (d in EntryEvents(cidOf, path, es[..k]) &&
                            e in LeafEvents(cidOf, JoinPath(path, es[k].name), es[k].node)) ==> d.name != e.name
  {
    forall d, e | d in EntryEvents(cidOf, path, es[..k])
                  && e in LeafEvents(cidOf, JoinPath(path, es[k].name), es[k].node)
      ensures d.name != e.name
    {
      EntryEventIff(cidOf, path, es[..k], d);
      var x :| x in es[..k] && d in LeafEvents(cidOf, JoinPath(path, x.name), x.node);
      var i :| 0 <= i < k && es[i] == x;
      assert EntryNames(es)[i] != EntryNames(es)[k];
      SiblingLeavesDiffer(cidOf, path, x, es[k], d, e);
    }
  }

  lemma {:induction false} EntryEventsAreDistinct(cidOf: CidOf, path: string, file: FileNode, k: nat)
    requires Valid(file) && file.Directory? && k <= |file.entries|
    ensures DistinctPaths(EntryEvents(cidOf, path, file.entries[..k]))
    decreases file, k
  {
    var es := file.entries;
    if k == 0 {
    } else {
      EntryEventsAreDistinct(cidOf, path, file, k - 1);
      assert es[..k][..k - 1] == es[..k - 1];
      LeavesAreDistinct(cidOf, JoinPath(path, es[k - 1].name), es[k - 1].node);
      EarlierEntriesDiffer(cidOf, path, es, k - 1);
      DistinctConcat(EntryEvents(cidOf, path, es[..k - 1]),
                     LeafEvents(cidOf, JoinPath(path, es[k - 1].name), es[k - 1].node));
    }
  }

  lemma SiblingLeavesDiffer(cidOf: CidOf, path: string, x: Entry, y: Entry, d: AddEvent, e: AddEvent)
    requires Valid(x.node) && Valid(y.node) && ValidName(x.name) && ValidName(y.name) && x.name != y.name
    requires d in LeafEvents(cidOf, JoinPath(path, x.name), x.node)
    requires e in LeafEvents(cidOf, JoinPath(path, y.name), y.node)
    ensures d.name != e.name
  {
    LeafIsBelow(cidOf, JoinPath(path, x.name), x.node, d);
    LeafIsBelow(cidOf, JoinPath(path, y.name), y.node, e);
    if d.name == e.name {
      SiblingsApart(path, x.name, y.name, d.name);
    }
  }

  lemma DistinctConcat(a: seq<AddEvent>, b: seq<AddEvent>)
    requires DistinctPaths(a) && DistinctPaths(b)
    requires forall d, e :: d in a && e in b ==> d.name != e.name
    ensures DistinctPaths(a + b)
  {
  }

  lemma LeafIsBelow(cidOf: CidOf, path: string, file: FileNode, e: AddEvent)
    requires Valid(file) && path != "" && e in LeafEvents(cidOf, path, file)
    ensures Below(path, e.name)
  {
    LeafEventIff(cidOf, path, file, e);
    ConvertedIsValid(file);
    LocatedIsBelow(path, Convert(file), e);
  }

  lemma {:induction false} LeavesAreDistinct(cidOf: CidOf, path: string, file: FileNode)
    requires Valid(file)
    ensures DistinctPaths(LeafEvents(cidOf, path, file))
    decreases file
  {
    if file.Directory? {
      EntryEventsAreDistinct(cidOf, path, file, |file.entries|);
      assert file.entries[..|file.entries|] == file.entries;
    }
  }

  lemma PostOrderConcat(a: seq<AddEvent>, b: seq<AddEvent>)
    requires PostOrder(a) && PostOrder(b)
    requires forall d, e :: d in a && e in b ==> !Below(d.name, e.name)
    ensures PostOrder(a + b)
  {
  }

  lemma DirIsBelow(list: Lister, path: string, t: FsNode, e: AddEvent)
    requires ValidTree(t) && e in DirEvents(list, path, t)
    ensures Below(path, e.name) && (path != "" ==> e.name != "")
  {
    DirEventIff(list, path, t, e);
    LocatedIsBelow(path, t, e);
  }

  lemma ArrangedAreDistinct(list: Lister, names: seq<string>)
    requires Distinct(names)
    ensures Distinct(list(names))
  {
    var s := list(names);
    DistinctIff(names);
    DistinctIff(s);
    assert multiset(s) == multiset(names);
  }

  lemma {:induction false} DistinctIff(s: seq<string>)
    ensures Distinct(s) <==> forall x :: multiset(s)[x] <= 1
  {
    if s == [] {
    } else {
      var n := |s| - 1;
      assert s == s[..n] + [s[n]];
      DistinctIff(s[..n]);
      if Distinct(s) {
        assert Distinct(s[..n]);
        assert s[n] !in s[..n];
      }
      if forall x :: multiset(s)[x] <= 1 {
        assert multiset(s) == multiset(s[..n]) + multiset{s[n]};
        assert multiset(s)[s[n]] <= 1;
        assert s[n] !in multiset(s[..n]);
        forall x ensures multiset(s[..n])[x] <= 1 {
          assert multiset(s)[x] <= 1;
        }
      }
    }
  }

  lemma SiblingDirsApart(list: Lister, path: string, m: string, t: FsNode, d: AddEvent,
                         n: string, u: FsNode, e: AddEvent)
    requires ValidTree(t) && ValidTree(u) && ValidName(m) && ValidName(n) && m != n
    requires d in DirEvents(list, JoinPath(path, m), t) && e in DirEvents(list, JoinPath(path, n), u)
    ensures !Below(d.name, e.name)
  {
    DirIsBelow(list, JoinPath(path, m), t, d);
    DirIsBelow(list, JoinPath(path, n), u, e);
    if Below(d.name, e.name) {
      BelowIsTransitive(JoinPath(path, m), d.name, e.name);
      SiblingsApart(path, m, n, e.name);
    }
  }

  /** Nothing listed for the names before `n` has anything of `n`'s at or below it. */
  lemma EarlierListedApart(list: Lister, path: string, t: FsNode, earlier: seq<string>, n: string,
                           d: AddEvent, e: AddEvent)
    requires ValidTree(t) && t.DirNode? && n in list(Names(t.children)) && n !in earlier
    requires forall m :: m in earlier ==> m in list(Names(t.children))
    requires d in ListedEvents(list, path, t, earlier)
    requires Find(t.children, n) != -1 && e in DirEvents(list, JoinPath(path, n), ChildNode(t, n))
    ensures !Below(d.name, e.name)
  {
    ListedNames(list, t.children);
    ListedEventIff(list, path, t, earlier, d);
    var m :| m in earlier && d in DirEvents(list, JoinPath(path, m), ChildNode(t, m));
    ListedChild(list, t, m);
    ListedChild(list, t, n);
    SiblingDirsApart(list, path, m, ChildNode(t, m), d, n, ChildNode(t, n), e);
  }

  ghost predicate Listing(list: Lister, t: FsNode, names: seq<string>)
    requires t.DirNode?
  {
    Distinct(names) && forall n :: n in names ==> n in list(Names(t.children))
  }

  lemma LastListed(list: Lister, path: string, t: FsNode, names: seq<string>)
    requires ValidTree(t) && t.DirNode? && Listing(list, t, names) && names != []
    ensures var earlier, n := names[..|names| - 1], names[|names| - 1];
            && Listing(list, t, earlier) && n !in earlier && n in list(Names(t.children))
            && Find(t.children, n) != -1 && ValidTree(ChildNode(t, n)) && ChildNode(t, n) < t
            && ListedEvents(list, path, t, names)
               == ListedEvents(list, path, t, earlier) + DirEvents(list, JoinPath(path, n), ChildNode(t, n))
  {
    ListedChild(list, t, names[|names| - 1]);
  }

  lemma {:induction false} ListedArePostOrder(list: Lister, path: string, t: FsNode, names: seq<string>)
    requires ValidTree(t) && t.DirNode? && Listing(list, t, names)
    ensures PostOrder(ListedEvents(list, path, t, names))
    decreases t, 0, |names|
  {
    if names == [] {
    } else {
      var earlier, n := names[..|names| - 1], names[|names| - 1];
      LastListed(list, path, t, names);
      ListedArePostOrder(list, path, t, earlier);
      DirsArePostOrder(list, JoinPath(path, n), ChildNode(t, n));
      var a, b := ListedEvents(list, path, t, earlier), DirEvents(list, JoinPath(path, n), ChildNode(t, n));
      forall d, e | d in a && e in b ensures !Below(d.name, e.name) {
        EarlierListedApart(list, path, t, earlier, n, d, e);
      }
      PostOrderConcat(a, b);
    }
  }

  lemma ListedChild(list: Lister, t: FsNode, n: string)
    requires ValidTree(t) && t.DirNode? && n in list(Names(t.children))
    ensures Find(t.children, n) != -1 && ValidName(n) && ValidTree(ChildNode(t, n)) && ChildNode(t, n) < t
  {
    ListedName(list, t.children, n);
    assert t.children[Find(t.children, n)] in t.children;
  }

  lemma {:induction false} DirsArePostOrder(list: Lister, path: string, t: FsNode)
    requires ValidTree(t)
    ensures PostOrder(DirEvents(list, path, t))
    decreases t, 1, 0
  {
    if t.DirNode? {
      var names := list(Names(t.children));
      ArrangedAreDistinct(list, Names(t.children));
      ListedArePostOrder(list, path, t, names);
      ListedNames(list, t.children);
      var a, b := ListedEvents(list, path, t, names), [AddEvent(path, t)];
      forall d, e | d in a && e in b ensures !Below(d.name, e.name) {
        ListedEventIff(list, path, t, names, d);
        var m :| m in names && d in DirEvents(list, JoinPath(path, m), ChildNode(t, m));
        ListedChild(list, t, m);
        DirIsBelow(list, JoinPath(path, m), ChildNode(t, m), d);
        BelowChild(path, m, d.name);
      }
      PostOrderConcat(a, b);
    }
  }

  /** Adding a directory reports every node of its tree, and nothing else, each under a path of its own. */
  lemma {:induction false} EveryNodeReportedOnce(cidOf: CidOf, list: Lister, file: FileNode)
    requires Valid(file) && file.Directory?
    ensures var events := LeafEvents(cidOf, "", file) + DirEvents(list, "", Convert(file));
            DistinctPaths(events) && forall e :: e in events <==> Located("", Convert(file), e)
  {
    var t := Convert(file);
    var leaves, dirs := LeafEvents(cidOf, "", file), DirEvents(list, "", t);
    ConvertedIsValid(file);
    forall e ensures e in leaves <==> Located("", t, e) && e.node.LeafNode? {
      LeafEventIff(cidOf, "", file, e);
    }
    forall e ensures e in dirs <==> Located("", t, e) && e.node.DirNode? {
      DirEventIff(list, "", t, e);
    }
    LeavesAreDistinct(cidOf, "", file);
    DirsAreDistinct(list, "", t);
    forall d, e | d in leaves && e in dirs ensures d.name != e.name {
      if d.name == e.name {
        PathsAreUnique("", t, d, e);
      }
    }
    DistinctConcat(leaves, dirs);
  }

  lemma DirsAreDistinct(list: Lister, path: string, t: FsNode)
    requires ValidTree(t)
    ensures DistinctPaths(DirEvents(list, path, t))
  {
    var dirs := DirEvents(list, path, t);
    DirsArePostOrder(list, path, t);
    forall i, j | 0 <= i < j < |dirs| ensures dirs[i].name != dirs[j].name {
      assert !Below(dirs[i].name, dirs[j].name);
    }
  }

  /** The second pass reports directories only, in post-order, so that the root comes last. */
  lemma {:induction false} DirectoriesArePostOrder(list: Lister, path: string, t: FsNode)
    requires ValidTree(t) && t.DirNode?
    ensures var dirs := DirEvents(list, path, t);
            && PostOrder(dirs) && dirs[|dirs| - 1] == AddEvent(path, t)
            && forall e :: e in dirs ==> e.node.DirNode?
  {
    forall e | e in DirEvents(list, path, t) ensures e.node.DirNode? {
      DirEventIff(list, path, t, e);
    }
    DirsArePostOrder(list, path, t);
  }

  // ---------- as many events as nodes ----------

  /** A file or symlink added on its own is reported under the CID of its own node. */
  lemma SingleLeafEvent(cidOf: CidOf, text: string)
    ensures LeafEvents(cidOf, "", File(text)) == [AddEvent(cidOf(FileDag(text)), LeafNode(FileDag(text)))]
    ensures LeafEvents(cidOf, "", Symlink(text)) == [AddEvent(cidOf(SymlinkDag(text)), LeafNode(SymlinkDag(text)))]
  {
  }

  /** The directories of a tree, those below the named children. */
  function DirCount(t: FsNode): nat
    decreases t, 1, 0
  {
    if t.LeafNode? then 0 else 1 + DirCounts(t, Names(t.children))
  }

  function DirCounts(t: FsNode, names: seq<string>): nat
    requires t.DirNode?
    decreases t, 0, |names|
  {
    if names == [] then 0 else DirCounts(t, names[..|names| - 1]) + CountAt(t, names[|names| - 1])
  }

  function CountAt(t: FsNode, n: string): nat
    requires t.DirNode?
    decreases t, 0, 0
  {
    if Find(t.children, n) == -1 then 0 else DirCount(ChildNode(t, n))
  }

  lemma {:induction false} DirCountsWithout(t: FsNode, names: seq<string>, j: nat)
    requires t.DirNode? && j < |names|
    ensures DirCounts(t, names) == DirCounts(t, names[..j] + names[j + 1..]) + CountAt(t, names[j])
  {
    var n := |names| - 1;
    if j == n {
      assert names[..j] + names[j + 1..] == names[..n];
    } else {
      DirCountsWithout(t, names[..n], j);
      var rest := names[..j] + names[j + 1..];
      assert rest[..|rest| - 1] == names[..n][..j] + names[..n][j + 1..];
      assert rest[|rest| - 1] == names[n];
    }
  }

  lemma Withdraw(a: seq<string>, b: seq<string>) returns (j: nat)
    requires multiset(a) == multiset(b) && a != []
    ensures j < |b| && b[j] == a[|a| - 1]
    ensures multiset(a[..|a| - 1]) == multiset(b[..j] + b[j + 1..])
  {
    var x := a[|a| - 1];
    assert a == a[..|a| - 1] + [x];
    assert x in multiset(b);
    j :| 0 <= j < |b| && b[j] == x;
    WithoutOne(a, |a| - 1);
    WithoutOne(b, j);
    assert a[..|a| - 1] + a[|a| - 1 + 1..] == a[..|a| - 1];
  }

  lemma WithoutOne(s: seq<string>, j: nat)
    requires j < |s|
    ensures multiset(s[..j] + s[j + 1..]) == multiset(s) - multiset{s[j]}
  {
    assert s == s[..j] + [s[j]] + s[j + 1..];
    assert multiset(s) == multiset(s[..j]) + multiset{s[j]} + multiset(s[j + 1..]);
  }

  lemma SameSize(a: seq<string>, b: seq<string>)
    requires multiset(a) == multiset(b)
    ensures |a| == |b|
  {
    assert |multiset(a)| == |a| && |multiset(b)| == |b|;
  }

  /** The count does not depend on the order of the names. */
  lemma {:induction false} DirCountsPermute(t: FsNode, a: seq<string>, b: seq<string>)
    requires t.DirNode? && multiset(a) == multiset(b)
    ensures DirCounts(t, a) == DirCounts(t, b)
  {
    SameSize(a, b);
    if a == [] {
    } else {
      var j := Withdraw(a, b);
      DirCountsPermute(t, a[..|a| - 1], b[..j] + b[j + 1..]);
      DirCountsWithout(t, b, j);
    }
  }

  lemma {:induction false} ListedCount(list: Lister, path: string, t: FsNode, names: seq<string>)
    requires t.DirNode?
    ensures |ListedEvents(list, path, t, names)| == DirCounts(t, names)
    decreases t, 0, |names|
  {
    if names == [] {
    } else {
      var n := names[|names| - 1];
      ListedCount(list, path, t, names[..|names| - 1]);
      if Find(t.children, n) != -1 {
        DirEventCount(list, JoinPath(path, n), ChildNode(t, n));
      }
    }
  }

  lemma {:induction false} DirEventCount(list: Lister, path: string, t: FsNode)
    ensures |DirEvents(list, path, t)| == DirCount(t)
    decreases t, 1, 0
  {
    if t.DirNode? {
      ListedCount(list, path, t, list(Names(t.children)));
      DirCountsPermute(t, list(Names(t.children)), Names(t.children));
    }
  }

  /** The tree has a child for the entry. */
  ghost predicate Holds(t: FsNode, x: Entry)
    requires t.DirNode?
  {
    Valid(x.node) && Find(t.children, x.name) != -1 && ChildNode(t, x.name) == Convert(x.node)
  }

  lemma {:induction false} EntryCount(cidOf: CidOf, path: string, t: FsNode, es: seq<Entry>)
    requires t.DirNode? && forall x :: x in es ==> Holds(t, x)
    ensures |EntryEvents(cidOf, path, es)| + DirCounts(t, EntryNames(es)) == SizeAll(es)
    decreases es
  {
    if es == [] {
    } else {
      var before, e := es[..|es| - 1], es[|es| - 1];
      assert e in es;
      EntryCount(cidOf, path, t, before);
      assert EntryNames(es)[..|es| - 1] == EntryNames(before);
      NodeCount(cidOf, JoinPath(path, e.name), e.node);
    }
  }

  lemma ConvertHolds(file: FileNode, x: Entry)
    requires Valid(file) && file.Directory? && x in file.entries
    ensures Holds(Convert(file), x)
  {
    ConvertedIsValid(file);
    EntryHasChild(file.entries, x);
    ChildByName(Convert(file), Child(x.name, Convert(x.node)));
  }

  lemma {:induction false} NodeCount(cidOf: CidOf, path: string, file: FileNode)
    requires Valid(file)
    ensures |LeafEvents(cidOf, path, file)| + DirCount(Convert(file)) == Size(file)
    decreases file
  {
    if file.Directory? {
      var t := Convert(file);
      forall x | x in file.entries ensures Holds(t, x) {
        ConvertHolds(file, x);
      }
      EntryCount(cidOf, path, t, file.entries);
      assert Names(t.children) == EntryNames(file.entries);
    }
  }

  /** The nodes that the flush counter counts are those reported: a leaf for each event of the first pass,
      a directory for each of the second. */
  lemma {:induction false} EventsCountNodes(cidOf: CidOf, list: Lister, file: FileNode)
    requires Valid(file)
    ensures |LeafEvents(cidOf, "", file)| + |DirEvents(list, "", Convert(file))| == Size(file)
  {
    NodeCount(cidOf, "", file);
    DirEventCount(list, "", Convert(file));
  }
}
