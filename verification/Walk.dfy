/** The concurrent walk over a graph of blocks, and the deletion of a file that relies on it. */
module Walk {
  type Cid = string

  datatype LinksResult = Links(children: seq<Cid>) | Unavailable

  type GetLinks = Cid -> LinksResult

  /** `descendants` validates every CID before it asks for its links. */
  function Verified(isValid: Cid -> bool, getLinks: GetLinks): GetLinks {
    c => if isValid(c) then getLinks(c) else Unavailable
  }

  ghost predicate Edge(g: GetLinks, c: Cid, d: Cid) {
    g(c).Links? && d in g(c).children
  }

  /** A nonempty walk along links through nodes outside `avoid`. */
  ghost predicate Path(g: GetLinks, avoid: set<Cid>, p: seq<Cid>) {
    && p != []
    && (forall i :: 0 <= i < |p| ==> p[i] !in avoid)
    && (forall i :: 0 <= i < |p| - 1 ==> Edge(g, p[i], p[i + 1]))
  }

  ghost predicate Reachable(g: GetLinks, avoid: set<Cid>, roots: seq<Cid>, c: Cid) {
    exists p :: Path(g, avoid, p) && p[0] in roots && p[|p| - 1] == c
  }

  lemma RootIsReachable(g: GetLinks, avoid: set<Cid>, roots: seq<Cid>, c: Cid)
    requires c in roots && c !in avoid
    ensures Reachable(g, avoid, roots, c)
  {
    assert Path(g, avoid, [c]);
  }

  lemma ChildIsReachable(g: GetLinks, avoid: set<Cid>, roots: seq<Cid>, c: Cid, d: Cid)
    requires Reachable(g, avoid, roots, c) && Edge(g, c, d) && d !in avoid
    ensures Reachable(g, avoid, roots, d)
  {
    var p :| Path(g, avoid, p) && p[0] in roots && p[|p| - 1] == c;
    var q := p + [d];
    assert forall i :: 0 <= i < |q| - 1 ==> q[i] == p[i];
    assert Path(g, avoid, q) && q[|q| - 1] == d;
  }

  /** A set closed under links keeps every path that starts in it. */
  lemma {:induction false} PathStaysInside(g: GetLinks, avoid: set<Cid>, s: set<Cid>, p: seq<Cid>)
    requires Path(g, avoid, p) && p[0] in s
    requires forall c, d :: c in s && c !in avoid && Edge(g, c, d) ==> d in s
    ensures p[|p| - 1] in s
  {
    if |p| > 1 {
      var q := p[1..];
      assert Edge(g, p[0], p[1]);
      assert Path(g, avoid, q) by {
        forall i | 0 <= i < |q| - 1 ensures Edge(g, q[i], q[i + 1]) {
          assert q[i] == p[i + 1] && q[i + 1] == p[i + 2];
        }
      }
      PathStaysInside(g, avoid, s, q);
    }
  }

  /** `cid.Set`, shared by the walks over all roots. */
  class CidSet {
    var cids: set<Cid>

    constructor ()
      ensures cids == {}
    {
      cids := {};
    }

    method Visit(c: Cid) returns (added: bool)
      modifies this
      ensures added == (c !in old(cids)) && cids == old(cids) + {c}
    {
      added := c !in cids;
      cids := cids + {c};
    }
  }

  /** What holds while walks from `roots` run: nothing was added without a path to it, and every
      added node has been expanded except those in `open`, whose targets may sit in `waiting`. */
  ghost predicate Walking(g: GetLinks, avoid: set<Cid>, roots: seq<Cid>, universe: set<Cid>,
                          visited: set<Cid>, open: set<Cid>, waiting: seq<Cid>) {
    && avoid <= visited
    && open <= visited - avoid
    && open <= universe && (forall c :: c in waiting ==> c in universe)
    && (forall c :: c in visited && c !in avoid ==> Reachable(g, avoid, roots, c))
    && (forall c :: c in waiting && c !in avoid ==> Reachable(g, avoid, roots, c))
    && (forall c :: c in visited && c !in avoid && c !in open ==> g(c).Links?)
    && (forall c, d :: c in visited && c !in avoid && c !in open && Edge(g, c, d) ==> d in visited || d in waiting)
  }

  ghost predicate FailureSeen(g: GetLinks, avoid: set<Cid>, roots: seq<Cid>, visited: set<Cid>) {
    && avoid <= visited
    && (forall c :: c in visited && c !in avoid ==> Reachable(g, avoid, roots, c))
    && (exists c :: c in visited && c !in avoid && g(c).Unavailable?)
  }

  lemma FinishedWalk(g: GetLinks, avoid: set<Cid>, roots: seq<Cid>, universe: set<Cid>, visited: set<Cid>)
    requires Walking(g, avoid, roots, universe, visited, {}, [])
    requires forall r :: r in roots ==> r in visited
    ensures forall c :: c in visited <==> c in avoid || Reachable(g, avoid, roots, c)
  {
    forall c | Reachable(g, avoid, roots, c) ensures c in visited {
      var p :| Path(g, avoid, p) && p[0] in roots && p[|p| - 1] == c;
      PathStaysInside(g, avoid, visited, p);
    }
  }

  lemma VisitStep(g: GetLinks, avoid: set<Cid>, roots: seq<Cid>, universe: set<Cid>, visited: set<Cid>,
                  open: set<Cid>, waiting: seq<Cid>, i: nat)
    requires Walking(g, avoid, roots, universe, visited, open, waiting) && i < |waiting|
    ensures var c := waiting[i];
            Walking(g, avoid, roots, universe, visited + {c}, if c in visited then open else open + {c},
                    waiting[..i] + waiting[i + 1..])
  {
    var c, rest := waiting[i], waiting[..i] + waiting[i + 1..];
    assert waiting == waiting[..i] + [c] + waiting[i + 1..];
    assert forall d :: d in waiting <==> d == c || d in rest;
  }

  lemma ExpandStep(g: GetLinks, avoid: set<Cid>, roots: seq<Cid>, universe: set<Cid>, visited: set<Cid>,
                   open: set<Cid>, waiting: seq<Cid>, c: Cid)
    requires Walking(g, avoid, roots, universe, visited, open, waiting) && c in open && g(c).Links?
    requires forall c, d :: c in universe && Edge(g, c, d) ==> d in universe
    ensures Walking(g, avoid, roots, universe, visited, open - {c}, waiting + g(c).children)
  {
    forall d | d in g(c).children ensures d in universe && (d in avoid || Reachable(g, avoid, roots, d)) {
      assert Edge(g, c, d);
      if d !in avoid {
        ChildIsReachable(g, avoid, roots, c, d);
      }
    }
  }

  /** One `dag.Walk` with concurrent workers. A waiting node is handed to some worker, which visits
      it; a visited node's links come back at some later moment. Both choices are arbitrary, so the
      loop covers every schedule. `avoid` is what the set held before the first walk. */
  method WalkFrom(g: GetLinks, root: Cid, visited: CidSet,
                  ghost avoid: set<Cid>, ghost roots: seq<Cid>, ghost universe: set<Cid>)
    returns (ok: bool)
    requires Walking(g, avoid, roots, universe, visited.cids, {}, []) && root in roots
    requires root in universe && forall c, d :: c in universe && Edge(g, c, d) ==> d in universe
    modifies visited
    ensures old(visited.cids) <= visited.cids
    ensures ok ==> Walking(g, avoid, roots, universe, visited.cids, {}, []) && root in visited.cids
    ensures !ok ==> FailureSeen(g, avoid, roots, visited.cids)
  {
    var waiting, open := [root], {};
    if root !in avoid {
      RootIsReachable(g, avoid, roots, root);
    }
    while waiting != [] || open != {}
      invariant old(visited.cids) <= visited.cids
      invariant Walking(g, avoid, roots, universe, visited.cids, open, waiting)
      invariant root in visited.cids || root in waiting
      decreases universe - visited.cids, |open|, |waiting|
    {
      if
      case waiting != [] =>
        var i :| 0 <= i < |waiting|;
        var c := waiting[i];
        VisitStep(g, avoid, roots, universe, visited.cids, open, waiting, i);
        waiting := waiting[..i] + waiting[i + 1..];
        var added := visited.Visit(c);
        if added {
          open := open + {c};
        }
      case open != {} =>
        var c :| c in open;
        match g(c) {
          case Unavailable =>
            return false;
          case Links(children) =>
            ExpandStep(g, avoid, roots, universe, visited.cids, open, waiting, c);
            open := open - {c};
            waiting := waiting + children;
        }
    }
    ok := true;
  }

  /** `descendants`: one walk per root into the shared set. It succeeds with exactly the nodes
      reachable from the roots (beside what the set held), or stops at a reachable node whose links
      cannot be had. */
  method Descendants(isValid: Cid -> bool, getLinks: GetLinks, visited: CidSet, roots: seq<Cid>,
                     ghost universe: set<Cid>)
    returns (ok: bool)
    requires forall r :: r in roots ==> r in universe
    requires forall c, d :: c in universe && Edge(getLinks, c, d) ==> d in universe
    modifies visited
    ensures ok ==> (forall c :: c in visited.cids <==>
      c in old(visited.cids) || Reachable(Verified(isValid, getLinks), old(visited.cids), roots, c))
    ensures ok <==> (forall c :: Reachable(Verified(isValid, getLinks), old(visited.cids), roots, c) ==>
      isValid(c) && getLinks(c).Links?)
    ensures !ok ==> FailureSeen(Verified(isValid, getLinks), old(visited.cids), roots, visited.cids)
  {
    var g := Verified(isValid, getLinks);
    ghost var avoid := visited.cids;
    forall c, d | c in universe && Edge(g, c, d) ensures d in universe {
      assert Edge(getLinks, c, d);
    }
    for k := 0 to |roots|
      invariant Walking(g, avoid, roots, universe, visited.cids, {}, [])
      invariant forall i :: 0 <= i < k ==> roots[i] in visited.cids
    {
      ok := WalkFrom(g, roots[k], visited, avoid, roots, universe);
      if !ok {
        return;
      }
    }
    FinishedWalk(g, avoid, roots, universe, visited.cids);
    ok := true;
  }

  // ---------- deletion ----------

  datatype DeleteResult = Deleted | NotFound | WalkFailed | RemovalFailed

  class Blockstore {
    var blocks: set<Cid>
    const undeletable: set<Cid>

    constructor (blocks: set<Cid>, undeletable: set<Cid>)
      ensures this.blocks == blocks && this.undeletable == undeletable
    {
      this.blocks := blocks;
      this.undeletable := undeletable;
    }

    method DeleteBlock(c: Cid) returns (ok: bool)
      modifies this
      ensures ok == (c !in undeletable)
      ensures blocks == if ok then old(blocks) - {c} else old(blocks)
    {
      ok := c !in undeletable;
      if ok {
        blocks := blocks - {c};
      }
    }
  }

  /** The closure that `DeleteFile` passes: it asks for the links of the captured root, whatever
      node it is called with. */
  function RootLinks(links: GetLinks, root: Cid): GetLinks {
    _ => links(root)
  }

  /** What the walk collects with that closure: the root and its direct links. */
  function Collected(links: GetLinks, root: Cid): set<Cid> {
    {root} + if links(root).Links? then (set d | d in links(root).children) else {}
  }

  lemma RootLinksReach(isValid: Cid -> bool, links: GetLinks, root: Cid, c: Cid)
    ensures Reachable(Verified(isValid, RootLinks(links, root)), {}, [root], c)
       <==> c in (if isValid(root) then Collected(links, root) else {root})
  {
    var g := Verified(isValid, RootLinks(links, root));
    var s := if isValid(root) then Collected(links, root) else {root};
    RootIsReachable(g, {}, [root], root);
    if c in s && c != root {
      assert Edge(g, root, c);
      ChildIsReachable(g, {}, [root], root, c);
    }
    if Reachable(g, {}, [root], c) {
      var p :| Path(g, {}, p) && p[0] in [root] && p[|p| - 1] == c;
      assert isValid(root) || forall d :: !Edge(g, root, d);
      PathStaysInside(g, {}, s, p);
    }
  }

  /** The `ForEach` over the collected set, in any order, up to the first block that cannot go. */
  method RemoveBlocks(store: Blockstore, cids: set<Cid>) returns (ok: bool)
    modifies store
    ensures ok <==> cids !! store.undeletable
    ensures ok ==> store.blocks == old(store.blocks) - cids
    ensures old(store.blocks) - cids <= store.blocks <= old(store.blocks)
  {
    var rest := cids;
    while rest != {}
      invariant rest <= cids
      invariant store.blocks == old(store.blocks) - (cids - rest)
      invariant cids - rest !! store.undeletable
      decreases rest
    {
      var d :| d in rest;
      ok := store.DeleteBlock(d);
      if !ok {
        return;
      }
      rest := rest - {d};
    }
    ok := true;
  }

  /** `DeleteFile`. `links` are the links the DAG service reports. */
  method DeleteFile(store: Blockstore, isValid: Cid -> bool, links: GetLinks, c: Cid)
    returns (result: DeleteResult)
    modifies store
    ensures result == NotFound <==> c !in old(store.blocks)
    ensures result == Deleted
       <==> c in old(store.blocks) && links(c).Links?
            && (forall d :: d in Collected(links, c) ==> isValid(d) && d !in store.undeletable)
    ensures result == Deleted ==> store.blocks == old(store.blocks) - Collected(links, c)
    ensures result == NotFound || result == WalkFailed ==> store.blocks == old(store.blocks)
    ensures old(store.blocks) - Collected(links, c) <= store.blocks <= old(store.blocks)
  {
    if c !in store.blocks {
      return NotFound;
    }
    var gcs := new CidSet();
    var getLinks := RootLinks(links, c);
    var g := Verified(isValid, getLinks);
    forall d ensures Reachable(g, {}, [c], d) <==> d in (if isValid(c) then Collected(links, c) else {c}) {
      RootLinksReach(isValid, links, c, d);
    }
    var ok := Descendants(isValid, getLinks, gcs, [c], Collected(links, c));
    if !ok {
      return WalkFailed;
    }
    assert Reachable(g, {}, [c], c);
    assert gcs.cids == Collected(links, c);
    ok := RemoveBlocks(store, gcs.cids);
    result := if ok then Deleted else RemovalFailed;
  }

  /** The collected set is the whole DAG below the root exactly when no direct link leads further
      than back to the root or to another direct link: for a DAG, height at most one. */
  lemma CollectsWholeDagIff(links: GetLinks, root: Cid)
    ensures (forall c :: c in Collected(links, root) <==> Reachable(links, {}, [root], c))
       <==> (forall c, d :: c in Collected(links, root) && Edge(links, c, d) ==> d in Collected(links, root))
  {
    var s := Collected(links, root);
    RootIsReachable(links, {}, [root], root);
    forall c | c in s ensures Reachable(links, {}, [root], c) {
      if c != root {
        assert Edge(links, root, c);
        ChildIsReachable(links, {}, [root], root, c);
      }
    }
    forall c, d | c in s && Edge(links, c, d) ensures Reachable(links, {}, [root], d) {
      ChildIsReachable(links, {}, [root], c, d);
    }
    if forall c, d :: c in s && Edge(links, c, d) ==> d in s {
      forall c | Reachable(links, {}, [root], c) ensures c in s {
        var p :| Path(links, {}, p) && p[0] in [root] && p[|p| - 1] == c;
        PathStaysInside(links, {}, s, p);
      }
    }
  }

  /** A chain of three blocks: the last one belongs to the file and survives its deletion. */
  lemma GrandchildSurvives()
    ensures var links: GetLinks := c => Links(if c == "root" then ["a"] else if c == "a" then ["b"] else []);
            Reachable(links, {}, ["root"], "b") && "b" !in Collected(links, "root")
  {
    var links: GetLinks := c => Links(if c == "root" then ["a"] else if c == "a" then ["b"] else []);
    var p := ["root", "a", "b"];
    assert Edge(links, p[0], p[1]) && Edge(links, p[1], p[2]);
    assert Path(links, {}, p);
  }
}
