/** The recursive adder: it walks a directory tree, inserts every node by path string into a mutable
    tree with periodic flushes, and reports each node on the output channel. */
module Adder {
  import opened Wrappers
  import opened Mfs

  /** A node to add. `OtherNode` stands for a type the adder does not know. */
  datatype FileNode =
    | Directory(entries: seq<Entry>)
    | File(content: string)
    | Symlink(target: string)
    | OtherNode

  datatype Entry = Entry(name: string, node: FileNode)

  datatype AddEvent = AddEvent(name: string, node: FsNode)

  function EntryNames(es: seq<Entry>): (names: seq<string>)
    ensures |names| == |es| && forall i :: 0 <= i < |es| ==> names[i] == es[i].name
  {
    seq(|es|, i requires 0 <= i < |es| => es[i].name)
  }

  ghost predicate Distinct<T(!new)>(s: seq<T>) {
    forall i, j :: 0 <= i < j < |s| ==> s[i] != s[j]
  }

  /** What a file system holds: known node types, valid names, no name twice in a directory. */
  ghost predicate Valid(file: FileNode) {
    match file
    case Directory(es) =>
      && Distinct(EntryNames(es))
      && forall e :: e in es ==> ValidName(e.name) && Valid(e.node)
    case File(_) => true
    case Symlink(_) => true
    case OtherNode => false
  }

  /** Somewhere in the input is a node of a type the adder does not know. */
  predicate HasUnknown(file: FileNode)
    decreases file
  {
    file.OtherNode? || (file.Directory? && AnyUnknown(file.entries))
  }

  predicate AnyUnknown(es: seq<Entry>)
    decreases es
  {
    es != [] && (AnyUnknown(es[..|es| - 1]) || HasUnknown(es[|es| - 1].node))
  }

  function Leaf(file: FileNode): FsNode
    requires file.File? || file.Symlink?
  {
    LeafNode(if file.File? then FileDag(file.content) else SymlinkDag(file.target))
  }

  /** The tree isomorphic to the input: same names in the same order, each leaf its own node. */
  function Convert(file: FileNode): FsNode
    requires Valid(file)
  {
    if file.Directory? then DirNode(ConvertAll(file.entries)) else Leaf(file)
  }

  function ConvertAll(es: seq<Entry>): (cs: seq<Child>)
    requires forall e :: e in es ==> Valid(e.node)
    ensures |cs| == |es|
    ensures forall i :: 0 <= i < |es| ==> cs[i] == Child(es[i].name, Convert(es[i].node))
  {
    if es == [] then []
    else [Child(es[0].name, Convert(es[0].node))] + ConvertAll(es[1..])
  }

  /** The input that a tree stands for, read off the tree alone. */
  function Input(t: FsNode): FileNode {
    match t
    case DirNode(cs) => Directory(InputAll(cs))
    case LeafNode(FileDag(content)) => File(content)
    case LeafNode(SymlinkDag(target)) => Symlink(target)
  }

  function InputAll(cs: seq<Child>): (es: seq<Entry>)
    ensures |es| == |cs|
    ensures forall i :: 0 <= i < |cs| ==> es[i] == Entry(cs[i].name, Input(cs[i].node))
  {
    if cs == [] then [] else [Entry(cs[0].name, Input(cs[0].node))] + InputAll(cs[1..])
  }

  /** Nothing of a valid input is lost: every name, every content and every link target can be read back
      from its tree. */
  lemma {:induction false} InputOfConvert(file: FileNode)
    requires Valid(file)
    ensures Input(Convert(file)) == file
  {
    if file.Directory? {
      var es, cs := file.entries, ConvertAll(file.entries);
      forall i | 0 <= i < |es| ensures InputAll(cs)[i] == es[i] {
        assert es[i] in es;
        InputOfConvert(es[i].node);
      }
      assert InputAll(cs) == es;
    }
  }

  /** So different inputs have different trees. */
  lemma ConvertIsInjective(a: FileNode, b: FileNode)
    requires Valid(a) && Valid(b) && Convert(a) == Convert(b)
    ensures a == b
  {
    InputOfConvert(a);
    InputOfConvert(b);
  }

  function Size(file: FileNode): (n: nat)
    ensures n >= 1
  {
    if file.Directory? then 1 + SizeAll(file.entries) else 1
  }

  function SizeAll(es: seq<Entry>): nat {
    if es == [] then 0 else SizeAll(es[..|es| - 1]) + Size(es[|es| - 1].node)
  }

  type CidOf = DagNode -> string

  /** The path a node is stored under: a leaf without a path goes under its CID. */
  function PathFor(cidOf: CidOf, path: string, file: FileNode): string {
    if path == "" && (file.File? || file.Symlink?) then cidOf(Leaf(file).dag) else path
  }

  /** The events of the traversal: one per leaf, in the order of the entries. */
  function LeafEvents(cidOf: CidOf, path: string, file: FileNode): seq<AddEvent>
    decreases file
  {
    if file.Directory? then EntryEvents(cidOf, path, file.entries)
    else if file.OtherNode? then []
    else [AddEvent(PathFor(cidOf, path, file), Leaf(file))]
  }

  function EntryEvents(cidOf: CidOf, path: string, es: seq<Entry>): seq<AddEvent>
    decreases es
  {
    if es == [] then []
    else
      var e := es[|es| - 1];
      EntryEvents(cidOf, path, es[..|es| - 1]) + LeafEvents(cidOf, JoinPath(path, e.name), e.node)
  }

  // ---------- the directory pass ----------

  function Names(cs: seq<Child>): (names: seq<string>)
    ensures |names| == |cs| && forall i :: 0 <= i < |cs| ==> names[i] == cs[i].name
  {
    seq(|cs|, i requires 0 <= i < |cs| => cs[i].name)
  }

  /** The order in which a directory lists its names: any fixed way to arrange them. */
  type Lister = list: seq<string> -> seq<string> | Arranges(list) ghost witness names => names

  ghost predicate Arranges(list: seq<string> -> seq<string>) {
    forall names :: multiset(list(names)) == multiset(names)
  }

  lemma ListedName(list: Lister, cs: seq<Child>, name: string)
    ensures name in list(Names(cs)) <==> Find(cs, name) != -1
  {
    var names := Names(cs);
    assert name in list(names) <==> name in multiset(list(names));
    assert name in names <==> name in multiset(names);
    if name in names {
      var i :| 0 <= i < |names| && names[i] == name;
      assert cs[i] in cs;
    }
  }

  /** The node of the child called `name`. */
  function ChildNode(t: FsNode, name: string): FsNode
    requires t.DirNode? && Find(t.children, name) != -1
  {
    t.children[Find(t.children, name)].node
  }

  /** The events of the second pass, directories only, each after those below it. */
  function DirEvents(list: Lister, path: string, t: FsNode): seq<AddEvent>
    decreases t, 1, 0
  {
    if t.LeafNode? then []
    else ListedEvents(list, path, t, list(Names(t.children))) + [AddEvent(path, t)]
  }

  function ListedEvents(list: Lister, path: string, t: FsNode, names: seq<string>): seq<AddEvent>
    requires t.DirNode?
    decreases t, 0, |names|
  {
    if names == [] then []
    else
      var n := names[|names| - 1];
      var before := ListedEvents(list, path, t, names[..|names| - 1]);
      if Find(t.children, n) == -1 then before
      else before + DirEvents(list, JoinPath(path, n), ChildNode(t, n))
  }

  // ---------- the adder ----------

  datatype Cache = Cache(liveNodes: nat, flushes: nat)

  /** The cache after `visited` calls of `AddFileNode`, which flushes first when the cache is full. */
  function CacheAfter(visited: nat, cacheSize: nat): (c: Cache)
    ensures cacheSize > 0 ==> c.liveNodes <= cacheSize
  {
    if visited == 0 then Cache(0, 0)
    else
      var c := CacheAfter(visited - 1, cacheSize);
      if c.liveNodes >= cacheSize then Cache(1, c.flushes + 1) else Cache(c.liveNodes + 1, c.flushes)
  }

  lemma {:induction false} CacheAfterSum(visited: nat, cacheSize: nat)
    requires cacheSize > 0
    ensures var c := CacheAfter(visited, cacheSize);
            c.flushes * cacheSize + c.liveNodes == visited && (visited > 0 ==> c.liveNodes > 0)
  {
    if visited == 0 {
    } else {
      CacheAfterSum(visited - 1, cacheSize);
      OneMoreFlush(CacheAfter(visited - 1, cacheSize).flushes, cacheSize);
    }
  }

  lemma OneMoreFlush(flushes: nat, cacheSize: nat)
    ensures (flushes + 1) * cacheSize == flushes * cacheSize + cacheSize
  {
  }

  lemma AtLeastOnce(x: int, c: nat)
    requires x >= 1
    ensures x * c >= c
  {
  }

  /** How many caches are filled before the last of `n` nodes. */
  function FullCaches(n: nat, cacheSize: nat): nat
    requires cacheSize > 0
  {
    if n <= cacheSize then 0 else FullCaches(n - cacheSize, cacheSize) + 1
  }

  lemma {:induction false} FullCachesAreWhole(n: nat, cacheSize: nat)
    requires cacheSize > 0 && n > 0
    ensures var full := FullCaches(n, cacheSize); full * cacheSize < n <= full * cacheSize + cacheSize
  {
    if n <= cacheSize {
    } else {
      FullCachesAreWhole(n - cacheSize, cacheSize);
      OneMoreFlush(FullCaches(n - cacheSize, cacheSize), cacheSize);
    }
  }

  /** Only one quotient leaves a remainder that fits. */
  lemma WholePartIsUnique(p: nat, q: nat, n: nat, cacheSize: nat)
    requires p * cacheSize < n <= p * cacheSize + cacheSize
    requires q * cacheSize < n <= q * cacheSize + cacheSize
    ensures p == q
  {
    assert (q - p) * cacheSize == q * cacheSize - p * cacheSize;
    assert (p - q) * cacheSize == p * cacheSize - q * cacheSize;
    if p < q {
      AtLeastOnce(q - p, cacheSize);
    } else if q < p {
      AtLeastOnce(p - q, cacheSize);
    }
  }

  lemma FlushesAreFullCaches(visited: nat, cacheSize: nat)
    requires cacheSize > 0 && visited > 0
    ensures CacheAfter(visited, cacheSize).flushes == FullCaches(visited, cacheSize)
  {
    CacheAfterSum(visited, cacheSize);
    FullCachesAreWhole(visited, cacheSize);
    WholePartIsUnique(CacheAfter(visited, cacheSize).flushes, FullCaches(visited, cacheSize), visited, cacheSize);
  }

  lemma QuotientIsWhole(n: nat, cacheSize: nat)
    requires cacheSize > 0 && n > 0
    ensures var q := (n - 1) / cacheSize; q * cacheSize < n <= q * cacheSize + cacheSize
  {
    var q, r := (n - 1) / cacheSize, (n - 1) % cacheSize;
    assert n - 1 == q * cacheSize + r;
  }

  /** In closed form. */
  lemma {:induction false} FullCachesClosed(n: nat, cacheSize: nat)
    requires cacheSize > 0 && n > 0
    ensures FullCaches(n, cacheSize) == (n - 1) / cacheSize
  {
    FullCachesAreWhole(n, cacheSize);
    QuotientIsWhole(n, cacheSize);
    WholePartIsUnique(FullCaches(n, cacheSize), (n - 1) / cacheSize, n, cacheSize);
  }

  /** The number of flushes after `visited` nodes, in closed form. */
  lemma FlushCount(visited: nat, cacheSize: nat)
    requires cacheSize > 0 && visited > 0
    ensures CacheAfter(visited, cacheSize).flushes == (visited - 1) / cacheSize
  {
    FlushesAreFullCaches(visited, cacheSize);
    FullCachesClosed(visited, cacheSize);
  }

  /** `path` names `name` in the directory with elements `dir`. */
  ghost predicate Targets(path: string, dir: seq<string>, name: string) {
    ValidNames(dir) && ValidName(name) && path == PathString(dir + [name])
  }

  lemma EntryTarget(path: string, here: seq<string>, name: string)
    requires ValidNames(here) && path == PathString(here) && ValidName(name)
    ensures Targets(JoinPath(path, name), here, name)
  {
    PathStringSnoc(here, name);
  }

  /** The next entry's name is still free in the directory being filled. */
  lemma EntryFree(base: FsNode, here: seq<string>, es: seq<Entry>, k: nat)
    requires Valid(Directory(es)) && k < |es| && DirAt(base, here) == Some([])
    ensures Free(AppendAt(base, here, ConvertAll(es)[..k]), here, es[k].name)
  {
    var cs := ConvertAll(es)[..k];
    AppendedDir(base, here, cs);
    assert [] + cs == cs;
    forall c | c in cs ensures c.name != es[k].name {
      var i :| 0 <= i < k && cs[i] == c;
      assert EntryNames(es)[i] != EntryNames(es)[k];
    }
  }

  lemma ListedNames(list: Lister, cs: seq<Child>)
    ensures forall n :: n in list(Names(cs)) ==> Find(cs, n) != -1
    ensures list(Names(cs)) == [] ==> cs == []
  {
    forall n | n in list(Names(cs)) ensures Find(cs, n) != -1 {
      ListedName(list, cs, n);
    }
    if cs != [] {
      assert Find(cs, cs[0].name) != -1;
      ListedName(list, cs, cs[0].name);
    }
  }

  lemma SingleChild(list: Lister, c: Child)
    ensures list(Names([c])) == [c.name] && Find([c], c.name) == 0
  {
    assert Names([c]) == [c.name];
    var listed := list([c.name]);
    assert multiset(listed) == multiset{c.name};
    assert |listed| == |multiset(listed)| == 1;
    assert listed[0] in multiset(listed);
  }

  lemma NextListed(list: Lister, path: string, t: FsNode, names: seq<string>, k: nat, out: seq<AddEvent>)
    requires t.DirNode? && k < |names| && Find(t.children, names[k]) != -1
    ensures out + ListedEvents(list, path, t, names[..k + 1])
         == out + ListedEvents(list, path, t, names[..k])
          + DirEvents(list, JoinPath(path, names[k]), ChildNode(t, names[k]))
  {
    assert names[..k + 1][..k] == names[..k];
  }

  /** Nothing is reported by a silent adder. */
  function Emit(out: seq<AddEvent>, silent: bool, events: seq<AddEvent>): seq<AddEvent> {
    if silent then out else out + events
  }

  lemma NextEvents(cidOf: CidOf, path: string, es: seq<Entry>, k: nat, out: seq<AddEvent>, silent: bool)
    requires k < |es|
    ensures AnyUnknown(es[..k + 1]) <==> AnyUnknown(es[..k]) || HasUnknown(es[k].node)
    ensures SizeAll(es[..k + 1]) == SizeAll(es[..k]) + Size(es[k].node)
    ensures Emit(out, silent, EntryEvents(cidOf, path, es[..k + 1]))
         == Emit(Emit(out, silent, EntryEvents(cidOf, path, es[..k])), silent,
                 LeafEvents(cidOf, JoinPath(path, es[k].name), es[k].node))
  {
    assert es[..k + 1][..k] == es[..k];
    var a, b := EntryEvents(cidOf, path, es[..k]), LeafEvents(cidOf, JoinPath(path, es[k].name), es[k].node);
    assert out + (a + b) == out + a + b;
  }

  /** The precondition of adding entry `k`, and what adding it makes of the tree. */
  lemma EntryStep(cidOf: CidOf, base: FsNode, path: string, here: seq<string>, es: seq<Entry>, k: nat)
    requires Filling(base, path, here, es) && k < |es|
    ensures var t, e := Filled(base, here, es, k), es[k];
            && Valid(e.node)
            && Targets(PathFor(cidOf, JoinPath(path, e.name), e.node), here, e.name)
            && Free(t, here, e.name)
            && AppendAt(t, here, [Child(e.name, Convert(e.node))]) == Filled(base, here, es, k + 1)
  {
    var e := es[k];
    assert e in es;
    EntryFree(base, here, es, k);
    EntryTarget(path, here, e.name);
    PathStringSnoc(here, e.name);
    AppendedOneMore(base, here, ConvertAll(es), k);
  }

  lemma AppendedOneMore(base: FsNode, here: seq<string>, cs: seq<Child>, k: nat)
    requires DirAt(base, here).Some? && k < |cs|
    ensures DirAt(AppendAt(base, here, cs[..k]), here).Some?
    ensures AppendAt(AppendAt(base, here, cs[..k]), here, [cs[k]]) == AppendAt(base, here, cs[..k + 1])
  {
    AppendTwice(base, here, cs[..k], [cs[k]]);
    assert cs[..k + 1] == cs[..k] + [cs[k]];
  }

  /** `base` has an empty directory at `here`, which `path` denotes, waiting for `es`. */
  ghost predicate Filling(base: FsNode, path: string, here: seq<string>, es: seq<Entry>) {
    Valid(Directory(es)) && ValidNames(here) && path == PathString(here) && DirAt(base, here) == Some([])
  }

  ghost function Filled(base: FsNode, here: seq<string>, es: seq<Entry>, k: nat): FsNode
    requires Valid(Directory(es)) && DirAt(base, here) == Some([]) && k <= |es|
  {
    AppendAt(base, here, ConvertAll(es)[..k])
  }

  lemma FilledEnds(base: FsNode, here: seq<string>, es: seq<Entry>)
    requires Valid(Directory(es)) && DirAt(base, here) == Some([])
    ensures Filled(base, here, es, 0) == base
    ensures Filled(base, here, es, |es|) == AppendAt(base, here, ConvertAll(es))
  {
    AppendNothing(base, here);
    assert ConvertAll(es)[..|es|] == ConvertAll(es);
  }

  lemma TopLevelTarget(name: string, node: FsNode)
    requires ValidName(name)
    ensures Targets(name, [], name) && Free(DirNode([]), [], name)
    ensures AppendAt(DirNode([]), [], [Child(name, node)]) == DirNode([Child(name, node)])
  {
    assert [] + [name] == [name] && PathString([name]) == name;
    assert [] + [Child(name, node)] == [Child(name, node)];
  }

  /** Where the two steps of `addNode` lead when the name is free in an existing directory. */
  lemma Placed(root: FsNode, path: string, dir: seq<string>, name: string, node: FsNode)
    requires Targets(path, dir, name) && Free(root, dir, name)
    ensures DirOf(path) == "." || Mkdir(root, DirOf(path)) == Some(root)
    ensures PutNode(root, path, node) == Some(AppendAt(root, dir, [Child(name, node)]))
  {
    CutPathString(dir, name);
    MkdirExisting(root, dir);
    PutFree(root, dir, name, node);
    PutNodeByString(root, dir, name, node);
    if dir != [] {
      MkdirByString(root, dir);
    }
  }

  /** Where making a directory leads when its name is free, and what filling it comes to. */
  lemma DirPlaced(root: FsNode, path: string, dir: seq<string>, name: string, es: seq<Entry>)
    requires Targets(path, dir, name) && Free(root, dir, name) && Valid(Directory(es))
    ensures var made := Mkdir(root, path);
            && made.Some? && Filling(made.value, path, dir + [name], es)
            && AppendAt(made.value, dir + [name], ConvertAll(es))
               == AppendAt(root, dir, [Child(name, Convert(Directory(es)))])
  {
    MkdirFree(root, dir, name);
    MkdirByString(root, dir + [name]);
    FillAppended(root, dir, name, ConvertAll(es));
  }

  /** The root is filled in place. */
  lemma RootFilling(es: seq<Entry>)
    requires Valid(Directory(es))
    ensures Filling(DirNode([]), "", [], es)
    ensures AppendAt(DirNode([]), [], ConvertAll(es)) == Convert(Directory(es))
  {
    assert [] + ConvertAll(es) == ConvertAll(es);
  }

  lemma TargetIsNotEmpty(path: string, dir: seq<string>, name: string)
    requires Targets(path, dir, name)
    ensures path != ""
  {
    PathStringSnoc(dir, name);
  }

  /** The root after a first pass over the input: the directory itself, or the leaf under its CID. */
  ghost function TopTree(cidOf: CidOf, file: FileNode): FsNode
    requires Valid(file)
  {
    if file.Directory? then Convert(file) else DirNode([Child(PathFor(cidOf, "", file), Convert(file))])
  }

  lemma TopLeaf(cidOf: CidOf, file: FileNode)
    requires Valid(file) && !file.Directory? && ValidName(PathFor(cidOf, "", file))
    ensures var name := PathFor(cidOf, "", file);
            && Targets(name, [], name) && Free(DirNode([]), [], name)
            && AppendAt(DirNode([]), [], [Child(name, Convert(file))]) == TopTree(cidOf, file)
  {
    TopLevelTarget(PathFor(cidOf, "", file), Convert(file));
  }

  class AdderState {
    const cidOf: CidOf
    const list: Lister
    const cacheSize: nat
    const silent: bool
    var mroot: FsNode
    var liveNodes: nat
    var flushes: nat
    var out: seq<AddEvent>
    ghost var visited: nat

    constructor (cidOf: CidOf, list: Lister, cacheSize: nat, silent: bool)
      requires cacheSize > 0
      ensures Ready() && mroot == DirNode([]) && out == [] && visited == 0
      ensures this.cidOf == cidOf && this.list == list && this.cacheSize == cacheSize && this.silent == silent
    {
      this.cidOf, this.list, this.cacheSize, this.silent := cidOf, list, cacheSize, silent;
      mroot, liveNodes, flushes, out, visited := DirNode([]), 0, 0, [], 0;
    }

    ghost predicate Ready()
      reads this
    {
      && cacheSize > 0 && mroot.DirNode?
      && Cache(liveNodes, flushes) == CacheAfter(visited, cacheSize)
    }

    /** `addNode`: put the node under its path, after making the parent directories. */
    method AddNode(node: DagNode, atPath: string, ghost dir: seq<string>, ghost name: string)
      returns (ok: bool)
      requires Ready()
      modifies this`mroot, this`out
      ensures Ready()
      ensures !ok ==> out == old(out)
      ensures var path := if atPath == "" then cidOf(node) else atPath;
              && (ok ==> out == Emit(old(out), silent, [AddEvent(path, LeafNode(node))]))
              && (Targets(path, dir, name) && Free(old(mroot), dir, name) ==>
                  ok && mroot == AppendAt(old(mroot), dir, [Child(name, LeafNode(node))]))
    {
      var path := atPath;
      if path == "" {
        path := cidOf(node);
      }
      if Targets(path, dir, name) && Free(mroot, dir, name) {
        Placed(mroot, path, dir, name, LeafNode(node));
      }
      var parent := DirOf(path);
      if parent != "." {
        var made := Mkdir(mroot, parent);
        if made.None? {
          return false;
        }
        mroot := made.value;
      }
      assert mroot.DirNode?;
      var put := PutNode(mroot, path, LeafNode(node));
      if put.None? {
        return false;
      }
      mroot := put.value;
      if !silent {
        out := out + [AddEvent(path, LeafNode(node))];
      }
      ok := true;
    }

    /** `addFileNode`. `dir` and `name` say where the path points. */
    method AddFileNode(path: string, file: FileNode, toplevel: bool,
                       ghost dir: seq<string>, ghost name: string)
      returns (ok: bool)
      requires Ready()
      modifies this
      ensures Ready()
      ensures HasUnknown(file) ==> !ok
      ensures ok ==> visited == old(visited) + Size(file)
      ensures ok ==> out == Emit(old(out), silent, LeafEvents(cidOf, path, file))
      ensures Valid(file) && Targets(PathFor(cidOf, path, file), dir, name) && Free(old(mroot), dir, name) ==>
        ok && mroot == AppendAt(old(mroot), dir, [Child(name, Convert(file))])
      ensures Valid(file) && file.Directory? && path == "" && toplevel && old(mroot) == DirNode([]) ==>
        ok && mroot == Convert(file)
      decreases file, 1
    {
      if liveNodes >= cacheSize {
        flushes := flushes + 1;
        liveNodes := 0;
      }
      liveNodes := liveNodes + 1;
      visited := visited + 1;
      match file {
        case Directory(entries) =>
          ok := AddDir(path, file, toplevel, dir, name);
        case Symlink(target) =>
          ok := AddNode(SymlinkDag(target), path, dir, name);
        case File(content) =>
          ok := AddNode(FileDag(content), path, dir, name);
        case OtherNode =>
          ok := false;
      }
    }

    /** `addDir`: create the directory, unless it is the root, then add the entries one by one. */
    method AddDir(path: string, file: FileNode, toplevel: bool,
                  ghost dir: seq<string>, ghost name: string)
      returns (ok: bool)
      requires Ready() && file.Directory?
      modifies this
      ensures Ready()
      ensures HasUnknown(file) ==> !ok
      ensures ok ==> visited == old(visited) + SizeAll(file.entries)
      ensures ok ==> out == Emit(old(out), silent, LeafEvents(cidOf, path, file))
      ensures Valid(file) && Targets(path, dir, name) && Free(old(mroot), dir, name) ==>
        ok && mroot == AppendAt(old(mroot), dir, [Child(name, Convert(file))])
      ensures Valid(file) && path == "" && toplevel && old(mroot) == DirNode([]) ==>
        ok && mroot == Convert(file)
      decreases file, 0
    {
      ghost var here := if toplevel && path == "" then [] else dir + [name];
      if Valid(file) && toplevel && path == "" && mroot == DirNode([]) {
        RootFilling(file.entries);
      }
      if Targets(path, dir, name) {
        TargetIsNotEmpty(path, dir, name);
      }
      if !(toplevel && path == "") {
        ok := MakeDir(path, file.entries, dir, name);
        if !ok {
          return;
        }
      }
      ok := AddEntries(path, file, here);
    }

    /** The directory itself, still empty. */
    method MakeDir(path: string, ghost es: seq<Entry>, ghost dir: seq<string>, ghost name: string) returns (ok: bool)
      requires Ready()
      modifies this`mroot
      ensures Ready()
      ensures Valid(Directory(es)) && Targets(path, dir, name) && Free(old(mroot), dir, name) ==>
        && ok && Filling(mroot, path, dir + [name], es)
        && AppendAt(mroot, dir + [name], ConvertAll(es))
           == AppendAt(old(mroot), dir, [Child(name, Convert(Directory(es)))])
    {
      if Valid(Directory(es)) && Targets(path, dir, name) && Free(mroot, dir, name) {
        DirPlaced(mroot, path, dir, name, es);
      }
      var made := Mkdir(mroot, path);
      if made.None? {
        return false;
      }
      mroot := made.value;
      ok := true;
    }

    /** The entry loop of `addDir`, filling the directory with elements `here`. */
    method AddEntries(path: string, file: FileNode, ghost here: seq<string>) returns (ok: bool)
      requires Ready() && file.Directory?
      modifies this
      ensures Ready()
      ensures HasUnknown(file) ==> !ok
      ensures ok ==> visited == old(visited) + SizeAll(file.entries)
      ensures ok ==> out == Emit(old(out), silent, LeafEvents(cidOf, path, file))
      ensures Filling(old(mroot), path, here, file.entries) ==>
        ok && mroot == AppendAt(old(mroot), here, ConvertAll(file.entries))
      decreases file, 0, 1
    {
      ghost var base := mroot;
      var es := file.entries;
      if Filling(base, path, here, es) {
        FilledEnds(base, here, es);
      }
      for k := 0 to |es|
        invariant Ready()
        invariant Entered(path, es, here, base, old(visited), old(out), k)
      {
        ok := AddEntry(path, file, k, here, base, old(visited), old(out));
        if !ok {
          return;
        }
      }
      assert es[..|es|] == es;
      ok := true;
    }

    /** The first `k` entries have been added to a directory that was empty in `base`. */
    ghost predicate Entered(path: string, es: seq<Entry>, here: seq<string>, base: FsNode, visited0: nat,
                            out0: seq<AddEvent>, k: nat)
      reads this
    {
      && k <= |es| && !AnyUnknown(es[..k])
      && visited == visited0 + SizeAll(es[..k])
      && out == Emit(out0, silent, EntryEvents(cidOf, path, es[..k]))
      && (Filling(base, path, here, es) ==> mroot == Filled(base, here, es, k))
    }

    /** One turn of that loop. */
    method AddEntry(path: string, file: FileNode, k: nat, ghost here: seq<string>, ghost base: FsNode,
                    ghost visited0: nat, ghost out0: seq<AddEvent>)
      returns (ok: bool)
      requires Ready() && file.Directory? && k < |file.entries|
      requires Entered(path, file.entries, here, base, visited0, out0, k)
      modifies this
      ensures Ready()
      ensures ok ==> Entered(path, file.entries, here, base, visited0, out0, k + 1)
      ensures !ok ==> !Filling(base, path, here, file.entries)
      decreases file, 0, 0
    {
      var e := file.entries[k];
      if Filling(base, path, here, file.entries) {
        EntryStep(cidOf, base, path, here, file.entries, k);
      }
      NextEvents(cidOf, path, file.entries, k, out0, silent);
      ok := AddFileNode(JoinPath(path, e.name), e.node, false, here, e.name);
    }

    /** `outputDirs`: report the directories below `path`, each after its contents. */
    method OutputDirs(path: string, t: FsNode)
        modifies this`out
      ensures out == old(out) + DirEvents(list, path, t)
      decreases t
    {
      if t.LeafNode? {
        return;
      }
      var names := list(Names(t.children));
      ListedNames(list, t.children);
      for k := 0 to |names|
        invariant out == old(out) + ListedEvents(list, path, t, names[..k])
      {
        NextListed(list, path, t, names, k, old(out));
        OutputDirs(JoinPath(path, names[k]), ChildNode(t, names[k]));
      }
      assert names[..|names|] == names;
      out := out + [AddEvent(path, t)];
    }

    /** A valid input for an adder that has added nothing yet. */
    ghost predicate Fresh(file: FileNode)
      reads this
    {
      && Valid(file) && mroot == DirNode([]) && visited == 0
      && (file.Directory? || ValidName(PathFor(cidOf, "", file)))
    }

    /** The first pass of `AddAll`, over the input. */
    method AddTop(file: FileNode) returns (ok: bool)
      requires Ready()
      modifies this
      ensures Ready()
      ensures HasUnknown(file) ==> !ok
      ensures ok ==> visited == old(visited) + Size(file)
      ensures ok ==> out == Emit(old(out), silent, LeafEvents(cidOf, "", file))
      ensures old(Fresh(file)) ==> ok && mroot == TopTree(cidOf, file)
    {
      ghost var name := PathFor(cidOf, "", file);
      if Fresh(file) && !file.Directory? {
        TopLeaf(cidOf, file);
      }
      ok := AddFileNode("", file, true, [], name);
    }

    /** `AddAll`. On a fresh adder it returns the tree isomorphic to a valid input, whatever the
        number of flushes on the way; a single leaf comes back as its own node. */
    method AddAll(file: FileNode) returns (result: Option<FsNode>)
      requires Ready()
      modifies this
      ensures Ready()
      ensures HasUnknown(file) ==> result.None?
      ensures old(Fresh(file)) ==> result == Some(Convert(file)) && Input(result.value) == file
      ensures old(Fresh(file)) ==> visited == Size(file) && flushes == FullCaches(visited, cacheSize)
      ensures old(Fresh(file)) ==>
        out == (if silent then old(out) else old(out) + LeafEvents(cidOf, "", file))
               + DirEvents(list, "", Convert(file))
    {
      if Valid(file) {
        InputOfConvert(file);
      }
      var ok := AddTop(file);
      if !ok {
        return None;
      }
      if visited > 0 {
        FlushesAreFullCaches(visited, cacheSize);
      }
      result := Finish(file);
    }

    /** The second pass, over the tree, and the answer. */
    method Finish(file: FileNode) returns (result: Option<FsNode>)
      requires Ready()
      modifies this`out
      ensures Ready()
      ensures Valid(file) && mroot == TopTree(cidOf, file) ==>
        result == Some(Convert(file)) && out == old(out) + DirEvents(list, "", Convert(file))
    {
      var root := RootOf(file.Directory?);
      if root.None? {
        return None;
      }
      OutputDirs(root.value.name, root.value.node);
      result := Some(root.value.node);
    }

    /** The part of `AddAll` that swaps the root for its first child unless a directory was added. */
    method RootOf(isDir: bool) returns (root: Option<Child>)
      requires Ready()
      ensures isDir ==> root == Some(Child("", mroot))
      ensures !isDir && |mroot.children| == 1 ==> root == Some(mroot.children[0])
      ensures root.None? <==> !isDir && mroot.children == []
    {
      if isDir {
        return Some(Child("", mroot));
      }
      var names := list(Names(mroot.children));
      ListedNames(list, mroot.children);
      if names == [] {
        return None;
      }
      if |mroot.children| == 1 {
        SingleChild(list, mroot.children[0]);
        assert mroot.children == [mroot.children[0]];
      }
      root := Some(Child(names[0], ChildNode(mroot, names[0])));
    }
  }
}
