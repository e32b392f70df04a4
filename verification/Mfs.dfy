/** The mutable file system tree that the adder builds, with its operations by path string. */
module Mfs {
  import opened Wrappers
  import opened Text

  datatype DagNode = FileDag(content: string) | SymlinkDag(target: string)

  datatype FsNode = DirNode(children: seq<Child>) | LeafNode(dag: DagNode)

  datatype Child = Child(name: string, node: FsNode)

  /** Position of the child called `name`, or -1. */
  function Find(cs: seq<Child>, name: string): (i: int)
    ensures i == -1 || (0 <= i < |cs| && cs[i].name == name)
    ensures i == -1 <==> forall c :: c in cs ==> c.name != name
    ensures forall j :: 0 <= j < i ==> cs[j].name != name
  {
    if cs == [] then -1
    else if cs[0].name == name then 0
    else var i := Find(cs[1..], name); if i == -1 then -1 else i + 1
  }

  lemma FindInAppended(cs: seq<Child>, more: seq<Child>, name: string)
    ensures Find(cs + more, name) == if Find(cs, name) != -1 then Find(cs, name)
                                     else if Find(more, name) != -1 then |cs| + Find(more, name)
                                     else -1
  {
    var i := Find(cs + more, name);
    if Find(cs, name) != -1 {
      assert (cs + more)[Find(cs, name)] == cs[Find(cs, name)];
    } else if Find(more, name) != -1 {
      assert (cs + more)[|cs| + Find(more, name)] == more[Find(more, name)];
      assert forall j :: 0 <= j < Find(more, name) ==> (cs + more)[|cs| + j] == more[j];
    }
  }

  // ---------- operations by path elements ----------

  /** The children of the directory at `path`, if there is one. */
  function DirAt(t: FsNode, path: seq<string>): Option<seq<Child>> {
    if t.LeafNode? then None
    else if path == [] then Some(t.children)
    else
      var i := Find(t.children, path[0]);
      if i == -1 then None else DirAt(t.children[i].node, path[1..])
  }

  /** `mfs.Mkdir` with `Mkparents`: missing directories are created, existing ones are fine. */
  function MkdirAll(t: FsNode, path: seq<string>): (r: Option<FsNode>)
    ensures r.Some? ==> r.value.DirNode?
    decreases |path|
  {
    if t.LeafNode? then None
    else if path == [] then Some(t)
    else
      var i := Find(t.children, path[0]);
      var below := MkdirAll(if i == -1 then DirNode([]) else t.children[i].node, path[1..]);
      if below.None? then None
      else
        var c := Child(path[0], below.value);
        Some(DirNode(if i == -1 then t.children + [c] else t.children[i := c]))
  }

  /** `Directory.AddChild` in the directory at `dir`: the directory must be there, the name free. */
  function PutAt(t: FsNode, dir: seq<string>, name: string, node: FsNode): (r: Option<FsNode>)
    ensures r.Some? ==> r.value.DirNode?
    decreases |dir|
  {
    if t.LeafNode? then None
    else if dir == [] then
      if Find(t.children, name) != -1 then None else Some(DirNode(t.children + [Child(name, node)]))
    else
      var i := Find(t.children, dir[0]);
      if i == -1 then None
      else
        var below := PutAt(t.children[i].node, dir[1..], name, node);
        if below.None? then None else Some(DirNode(t.children[i := Child(dir[0], below.value)]))
  }

  /** A name that is taken, or a directory that is not there, makes the insertion fail. */
  lemma {:induction false} PutTaken(t: FsNode, dir: seq<string>, name: string, node: FsNode)
    requires DirAt(t, dir).None? || Find(DirAt(t, dir).value, name) != -1
    ensures PutAt(t, dir, name, node).None?
    decreases |dir|
  {
    if t.LeafNode? || dir == [] {
    } else {
      var i := Find(t.children, dir[0]);
      if i != -1 {
        PutTaken(t.children[i].node, dir[1..], name, node);
      }
    }
  }

  /** The tree with `cs` appended to the directory at `path`. */
  function AppendAt(t: FsNode, path: seq<string>, cs: seq<Child>): (r: FsNode)
    requires DirAt(t, path).Some?
    decreases |path|
  {
    if path == [] then DirNode(t.children + cs)
    else
      var i := Find(t.children, path[0]);
      DirNode(t.children[i := Child(path[0], AppendAt(t.children[i].node, path[1..], cs))])
  }

  lemma UpdateTwice<T>(s: seq<T>, i: nat, a: T, b: T)
    requires i < |s|
    ensures s[i := a][i := b] == s[i := b]
  {
  }

  lemma {:induction false} AppendNothing(t: FsNode, path: seq<string>)
    requires DirAt(t, path).Some?
    ensures AppendAt(t, path, []) == t
    decreases |path|
  {
    if path == [] {
      assert t.children + [] == t.children;
    } else {
      var i := Find(t.children, path[0]);
      AppendNothing(t.children[i].node, path[1..]);
      assert t.children[i := Child(path[0], t.children[i].node)] == t.children;
    }
  }

  lemma FindAfterUpdate(cs: seq<Child>, name: string, node: FsNode)
    requires Find(cs, name) != -1
    ensures var i := Find(cs, name); Find(cs[i := Child(name, node)], name) == i
  {
    var i := Find(cs, name);
    var ds := cs[i := Child(name, node)];
    assert ds[i].name == name;
    assert forall j :: 0 <= j < i ==> ds[j] == cs[j];
  }

  lemma {:induction false} AppendedDir(t: FsNode, path: seq<string>, cs: seq<Child>)
    requires DirAt(t, path).Some?
    ensures DirAt(AppendAt(t, path, cs), path) == Some(DirAt(t, path).value + cs)
    decreases |path|
  {
    if path == [] {
    } else {
      var i := Find(t.children, path[0]);
      AppendedDir(t.children[i].node, path[1..], cs);
      FindAfterUpdate(t.children, path[0], AppendAt(t.children[i].node, path[1..], cs));
    }
  }

  lemma {:induction false} AppendTwice(t: FsNode, path: seq<string>, cs: seq<Child>, ds: seq<Child>)
    requires DirAt(t, path).Some?
    ensures DirAt(AppendAt(t, path, cs), path).Some?
    ensures AppendAt(AppendAt(t, path, cs), path, ds) == AppendAt(t, path, cs + ds)
    decreases |path|
  {
    AppendedDir(t, path, cs);
    if path == [] {
      assert t.children + cs + ds == t.children + (cs + ds);
    } else {
      var i := Find(t.children, path[0]);
      var child := t.children[i].node;
      AppendTwice(child, path[1..], cs, ds);
      FindAfterUpdate(t.children, path[0], AppendAt(child, path[1..], cs));
      var u := AppendAt(t, path, cs).children;
      assert u[i := Child(path[0], AppendAt(child, path[1..], cs + ds))]
          == t.children[i := Child(path[0], AppendAt(child, path[1..], cs + ds))];
    }
  }

  ghost predicate Free(t: FsNode, path: seq<string>, name: string) {
    DirAt(t, path).Some? && Find(DirAt(t, path).value, name) == -1
  }

  lemma FillAppendedHere(t: FsNode, name: string, cs: seq<Child>)
    requires t.DirNode? && Find(t.children, name) == -1
    ensures var u := DirNode(t.children + [Child(name, DirNode([]))]);
            && DirAt(u, [name]) == Some([])
            && AppendAt(u, [name], cs) == DirNode(t.children + [Child(name, DirNode(cs))])
  {
    var empty := Child(name, DirNode([]));
    var u := DirNode(t.children + [empty]);
    FindInAppended(t.children, [empty], name);
    assert u.children[|t.children|] == empty;
    assert DirAt(DirNode([]), []) == Some([]);
    assert [name][1..] == [];
    assert AppendAt(DirNode([]), [], cs) == DirNode(cs) by {
      assert [] + cs == cs;
    }
    var full := Child(name, DirNode(cs));
    assert u.children[|t.children| := full] == t.children + [full];
  }

  /** A directory appended under a free name can be filled afterwards or beforehand. */
  lemma {:induction false} FillAppended(t: FsNode, path: seq<string>, name: string, cs: seq<Child>)
    requires Free(t, path, name)
    ensures var u := AppendAt(t, path, [Child(name, DirNode([]))]);
            && DirAt(u, path + [name]) == Some([])
            && AppendAt(u, path + [name], cs) == AppendAt(t, path, [Child(name, DirNode(cs))])
    decreases |path|
  {
    var u := AppendAt(t, path, [Child(name, DirNode([]))]);
    if path == [] {
      assert path + [name] == [name];
      FillAppendedHere(t, name, cs);
    } else {
      var i := Find(t.children, path[0]);
      var child := t.children[i].node;
      var v := AppendAt(child, path[1..], [Child(name, DirNode([]))]);
      FillAppended(child, path[1..], name, cs);
      FindAfterUpdate(t.children, path[0], v);
      assert (path + [name])[1..] == path[1..] + [name];
      UpdateTwice(t.children, i, Child(path[0], v), Child(path[0], AppendAt(v, path[1..] + [name], cs)));
    }
  }

  lemma {:induction false} MkdirExisting(t: FsNode, path: seq<string>)
    requires DirAt(t, path).Some?
    ensures MkdirAll(t, path) == Some(t)
    decreases |path|
  {
    if path == [] {
    } else {
      var i := Find(t.children, path[0]);
      MkdirExisting(t.children[i].node, path[1..]);
      assert t.children[i := Child(path[0], t.children[i].node)] == t.children;
    }
  }

  lemma {:induction false} MkdirFree(t: FsNode, path: seq<string>, name: string)
    requires Free(t, path, name)
    ensures MkdirAll(t, path + [name]) == Some(AppendAt(t, path, [Child(name, DirNode([]))]))
    decreases |path|
  {
    assert (path + [name])[0] == if path == [] then name else path[0];
    if path == [] {
      assert (path + [name])[1..] == [];
    } else {
      var i := Find(t.children, path[0]);
      assert (path + [name])[1..] == path[1..] + [name];
      MkdirFree(t.children[i].node, path[1..], name);
    }
  }

  lemma {:induction false} PutFree(t: FsNode, path: seq<string>, name: string, node: FsNode)
    requires Free(t, path, name)
    ensures PutAt(t, path, name, node) == Some(AppendAt(t, path, [Child(name, node)]))
    decreases |path|
  {
    if path == [] {
    } else {
      var i := Find(t.children, path[0]);
      PutFree(t.children[i].node, path[1..], name, node);
    }
  }

  // ---------- path strings ----------

  /** `gopath.Join` for elements that need no cleaning. */
  function JoinPath(path: string, name: string): string {
    if path == "" then name else if name == "" then path else path + "/" + name
  }

  /** `gopath.Dir`. */
  function DirOf(path: string): string {
    var i := LastCut(path);
    if i <= 1 then (if i == 0 then "." else "/") else path[..i - 1]
  }

  /** The elements of a path as `mfs` takes them: one leading and one trailing empty element go. */
  function PathElements(path: string): seq<string> {
    var parts := Split(path, SLASH);
    var noHead := if parts[0] == "" then parts[1..] else parts;
    if noHead != [] && noHead[|noHead| - 1] == "" then noHead[..|noHead| - 1] else noHead
  }

  predicate ValidName(name: string) {
    name != "" && SlashFree(name) && name != "." && name != ".."
  }

  ghost predicate ValidNames(path: seq<string>) {
    forall n :: n in path ==> ValidName(n)
  }

  function PathString(path: seq<string>): string {
    Join(path, SLASH)
  }

  lemma {:induction false} PathStringSnoc(path: seq<string>, name: string)
    requires ValidNames(path) && ValidName(name)
    ensures PathString(path + [name]) == JoinPath(PathString(path), name)
    ensures PathString(path + [name]) != ""
  {
    if path == [] {
      assert path + [name] == [name];
    } else {
      assert path[0] in path;
      assert (path + [name])[1..] == path[1..] + [name];
      PathStringSnoc(path[1..], name);
      if |path| > 1 {
        assert path[1..][0] in path;
        PathStringNonempty(path[1..]);
      }
    }
  }

  lemma PathStringNonempty(path: seq<string>)
    requires ValidNames(path) && path != []
    ensures PathString(path) != ""
  {
    assert path[0] in path;
  }

  lemma PathElementsOfString(path: seq<string>)
    requires ValidNames(path) && path != []
    ensures PathElements(PathString(path)) == path
  {
    SlashIsBorderless();
    forall p | p in path ensures !Contains(p, SLASH) {
      SlashFreeMeans(p);
    }
    SplitOfJoin(path, SLASH);
    assert path[0] in path && path[|path| - 1] in path;
  }

  lemma CutsOf(path: seq<string>, name: string)
    requires ValidNames(path) && ValidName(name)
    ensures var s := PathString(path + [name]);
            var i := LastCut(s);
            && s[i..] == name
            && (path == [] ==> i == 0)
            && (path != [] ==> i > 0 && s[..i - 1] == PathString(path))
  {
    PathStringSnoc(path, name);
    if path == [] {
      LastCutOfName(name);
    } else {
      PathStringNonempty(path);
      LastCutAfter(PathString(path), name);
      var s := PathString(path + [name]);
      assert s[..|PathString(path)|] == PathString(path);
      assert s[|PathString(path)| + 1..] == name;
    }
  }

  lemma CutPathString(path: seq<string>, name: string)
    requires ValidNames(path) && ValidName(name)
    ensures var s := PathString(path + [name]);
            && AfterLastSlash(s) == name
            && DirOf(s) == (if path == [] then "." else PathString(path))
  {
    CutsOf(path, name);
    if path != [] {
      PathStringNonempty(path);
    }
  }

  // ---------- operations by path string ----------

  /** `mfs.Mkdir(root, path, Mkparents)`. */
  function Mkdir(root: FsNode, path: string): Option<FsNode> {
    if path == "" then None else MkdirAll(root, PathElements(path))
  }

  /** `mfs.PutNode(root, path, node)`. */
  function PutNode(root: FsNode, path: string, node: FsNode): Option<FsNode> {
    var i := LastCut(path);
    if path[i..] == "" then None
    else PutAt(root, if i == 0 then [] else PathElements(path[..i - 1]), path[i..], node)
  }

  lemma MkdirByString(root: FsNode, path: seq<string>)
    requires ValidNames(path) && path != []
    ensures Mkdir(root, PathString(path)) == MkdirAll(root, path)
  {
    PathStringNonempty(path);
    PathElementsOfString(path);
  }

  lemma PutNodeByString(root: FsNode, path: seq<string>, name: string, node: FsNode)
    requires ValidNames(path) && ValidName(name)
    ensures PutNode(root, PathString(path + [name]), node) == PutAt(root, path, name, node)
  {
    CutsOf(path, name);
    if path != [] {
      PathElementsOfString(path);
    }
  }
}
