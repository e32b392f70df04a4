/** The replication manager: hooks, watcher and download tasks over the repository's state. */
module Manager {
  import opened Wrappers
  import opened Text
  import opened Keys
  import opened ContentMatrix
  import opened StateKeeping
  import Keeper
  import opened Replication

  class ReplicationManager {
    const cfg: Config
    const repo: FsRepo
    const stateKeeper: StateKeeper
    const matrix: Keeper.MatrixKeeper
    var store: Store
    var sent: seq<Metatag>
    var waiting: set<nat>
    var taken: set<nat>
    var running: set<nat>
    var unmarked: set<nat>
    var finished: set<nat>
    var failed: set<nat>
    var lost: set<nat>

    ghost predicate Ready()
      reads this, repo, stateKeeper
    {
      stateKeeper.hash == cfg.hash && stateKeeper.file.Some? && repo.stateFile.Some?
    }

    /** The state as the specification sees it. */
    ghost function S(): Node
      requires Ready()
      reads this, repo, stateKeeper, matrix, matrix.db
    {
      Node(store, repo.state, repo.stateFile.value, stateKeeper.states, stateKeeper.file.value,
           matrix.content, Keeper.Load(matrix.db.nodeImage, matrix.db.contentImage).content,
           sent, waiting, taken, running, unmarked, finished, failed, lost)
    }

    /** A manager over a repository directory without any files. */
    constructor New(cfg: Config)
      ensures Ready() && S() == NEW_NODE && this.cfg == cfg
      ensures fresh(repo) && fresh(stateKeeper) && fresh(matrix) && fresh(matrix.db)
    {
      this.cfg := cfg;
      repo := new FsRepo.Open(None);
      stateKeeper := new StateKeeper.Load(cfg.hash, None);
      var db := new Keeper.Datastore();
      matrix := new Keeper.MatrixKeeper(db);
      store, sent := map[], [];
      waiting, taken, running, unmarked, finished, failed, lost := {}, {}, {}, {}, {}, {}, {};
    }

    /** The node comes back: store and files survive, tasks in flight do not. */
    constructor Restarted(before: ReplicationManager)
      requires before.Ready()
      ensures Ready() && S() == Step(before.cfg, before.S(), Restart) && cfg == before.cfg
    {
      cfg := before.cfg;
      repo := new FsRepo.Open(before.repo.stateFile);
      stateKeeper := new StateKeeper.Load(before.cfg.hash, before.stateKeeper.file);
      matrix := new Keeper.MatrixKeeper(before.matrix.db);
      store, sent := before.store, before.sent;
      finished, failed := before.finished, before.failed;
      lost := before.lost + before.waiting + before.taken + before.running;
      waiting, taken, running, unmarked := {}, {}, {}, {};
    }

    method CheckMembership(memberTag: Key, key: string) returns (isMember: bool)
      ensures isMember == (memberTag in store && store[memberTag] == PlainText(key))
    {
      if memberTag !in store {
        return false;
      }
      isMember := store[memberTag] == PlainText(key);
    }

    method GetContentMetadata(groupID: string) returns (indexes: seq<Metatag>)
      ensures (set m | m in indexes :: m.tag) == IndexTags(store, groupID)
    {
      indexes := [];
      var rest := store.Keys;
      ghost var seen: Store := map[];
      while rest != {}
        invariant rest <= store.Keys && seen == (map k | k in store && k !in rest :: store[k])
        invariant (set m | m in indexes :: m.tag) == IndexTags(seen, groupID)
        decreases rest
      {
        var k :| k in rest;
        rest := rest - {k};
        IndexTagsOfOneMore(seen, k, store[k], groupID);
        seen := seen[k := store[k]];
        if Under(k, INDEX_PREFIX + "/" + groupID) {
          var meta := ParseMeta(store[k]);
          if meta.Some? {
            TagsOfOneMore(indexes, meta.value);
            indexes := indexes + [meta.value];
          }
        }
      }
      assert seen == store;
    }

    /** Adds to the global filter and saves it. */
    method RecordTag(tag: string)
      requires Ready()
      modifies repo
      ensures Ready() && S() == GlobalAdd(cfg, old(S()), tag)
    {
      repo.Add(cfg.hash, tag);
      repo.SetState();
    }

    method RecordGroup(groupID: string, deltas: seq<string>)
      requires Ready()
      modifies stateKeeper
      ensures Ready() && S() == GroupAdd(cfg, old(S()), groupID, Elements(deltas))
    {
      var _ := stateKeeper.AddOrUpdateState(groupID, true, deltas);
    }

    method SendToDownload(m: Metatag)
      requires Ready()
      modifies this
      ensures Ready() && S() == Send(old(S()), m)
    {
      waiting := waiting + {|sent|};
      sent := sent + [m];
    }

    method PutHook(k: Key, v: Value)
      requires Ready() && WellFormed(k)
      modifies this, repo, stateKeeper
      ensures Ready() && S() == Replication.PutHook(cfg, old(S()), k, v)
    {
      FamiliesAreDisjoint(k);
      if HasPrefix(k, MEMBER_PREFIX) {
        MemberPut(k);
        return;
      }
      if !HasPrefix(k, MEMBER_PREFIX) && !HasPrefix(k, GROUP_PREFIX) {
        ContentPut(k, v);
      }
    }

    /** The branch of the put hook for membership records. */
    method MemberPut(k: Key)
      requires Ready() && |List(k)| >= 3
      modifies stateKeeper
      ensures Ready() && S() == MemberHook(cfg, old(S()), k)
    {
      var groupID, userID := List(k)[2], List(k)[1];
      if cfg.self != userID {
        return;
      }
      var indexes := GetContentMetadata(groupID);
      var deltas := [];
      for i := 0 to |indexes|
        invariant |deltas| == i && forall j :: 0 <= j < i ==> deltas[j] == indexes[j].tag
      {
        deltas := deltas + [indexes[i].tag];
      }
      DeltasAreTags(indexes, deltas);
      RecordGroup(groupID, deltas);
    }

    /** The branch of the put hook for content, plain or below a group's index. */
    method ContentPut(k: Key, v: Value)
      requires Ready() && WellFormed(k)
      modifies this, repo, stateKeeper
      ensures Ready() && S() == ContentHook(cfg, old(S()), k, v)
    {
      var parsed := ParseMeta(v);
      if parsed.None? {
        return;
      }
      var m := parsed.value;
      if HasPrefix(k, INDEX_PREFIX) {
        var groupID := List(k)[1];
        var isMember := CheckMembership(MemberKey(cfg.self, groupID), cfg.key);
        if !isMember {
          return;
        }
        assert Elements([m.tag]) == {m.tag};
        RecordGroup(groupID, [m.tag]);
      }
      if cfg.self != m.owner && cfg.autoDownload {
        SendToDownload(m);
      } else {
        RecordTag(m.tag);
      }
    }

    /** A local or remote write and its hook. */
    method Put(k: Key, v: Value)
      requires Ready() && WellFormed(k)
      modifies this, repo, stateKeeper
      ensures Ready() && S() == Step(cfg, old(S()), Event.Put(k, v))
    {
      store := store[k := v];
      PutHook(k, v);
    }

    method Delete(k: Key)
      requires Ready()
      modifies this, repo
      ensures Ready() && S() == Step(cfg, old(S()), Event.Delete(k))
    {
      store := store - {k};
      RecordTag(RemovalMarker(k));
    }

    /** The watcher takes one metadata out of the channel and looks for its providers. */
    method Take(id: nat, providers: seq<PeerId>)
      requires Ready() && Enabled(S(), Event.Take(id, providers))
      modifies this, matrix`content
      ensures Ready() && S() == Step(cfg, old(S()), Event.Take(id, providers))
    {
      var hash := sent[id].hash;
      matrix.NewContent(hash);
      AddFound(hash, providers);
      waiting, taken := waiting - {id}, taken + {id};
    }

    /** Records the providers found, one by one. */
    method AddFound(hash: Hash, providers: seq<PeerId>)
      requires Ready() && hash in matrix.content
      modifies matrix`content
      ensures Ready() && matrix.content == AddProviders(old(matrix.content), hash, providers)
    {
      for i := 0 to |providers|
        invariant matrix.content == AddProviders(old(matrix.content), hash, providers[..i])
      {
        assert providers[..i + 1][..i] == providers[..i];
        matrix.ContentAddProvider(hash, providers[i]);
      }
      assert providers[..|providers|] == providers;
    }

    /** The task manager accepts the download task or refuses it. */
    method Launch(id: nat, accepted: bool)
      requires Ready() && Enabled(S(), Event.Launch(id, accepted))
      modifies this
      ensures Ready() && S() == Step(cfg, old(S()), Event.Launch(id, accepted))
    {
      taken := taken - {id};
      if !accepted {
        failed := failed + {id};
        return;
      }
      running, unmarked := running + {id}, unmarked + {id};
    }

    method MarkStarted(id: nat, now: int)
      requires Ready() && Enabled(S(), Event.MarkStarted(id, now))
      modifies this, matrix`content
      ensures Ready() && S() == Step(cfg, old(S()), Event.MarkStarted(id, now))
    {
      var meta := sent[id];
      matrix.ContentDownloadStarted(meta.tag, meta.hash, meta.size, now);
      unmarked := unmarked - {id};
    }

    /** The end of `DownloaderTask.Execute`: the callback runs if `Download` returned success. */
    method Execute(id: nat, ok: bool, now: int)
      requires Ready() && Enabled(S(), Done(id, ok, now))
      modifies this, matrix`content, repo, stateKeeper
      ensures Ready() && S() == Step(cfg, old(S()), Done(id, ok, now))
    {
      running := running - {id};
      if !ok {
        failed := failed + {id};
        return;
      }
      finished := finished + {id};
      var meta := sent[id];
      matrix.ContentDownloadFinished(meta.hash, now);
      if meta.group != "" {
        assert Elements([meta.tag]) == {meta.tag};
        RecordGroup(meta.group, [meta.tag]);
      } else {
        RecordTag(meta.tag);
      }
    }

    /** `order` is the order in which the map of content records is visited. */
    method StartUnfinishedDownload(order: seq<Hash>)
      requires Ready() && Enabled(S(), Reconnect(order))
      modifies this
      ensures Ready() && S() == Step(cfg, old(S()), Reconnect(order))
    {
      ghost var s := S();
      OrderVisitsRecords(s, order);
      NothingSent(s);
      for i := 0 to |order|
        invariant forall h :: h in order ==> h in s.contents
        invariant Ready() && S() == SendAll(s, Resumed(s, order[..i]))
      {
        assert order[..i + 1][..i] == order[..i];
        var v := matrix.content[order[i]];
        if v.finishedAt == 0 {
          var meta := FindTag(store, v.tag);
          if meta.Some? {
            OneMoreSent(s, Resumed(s, order[..i]), meta.value);
            SendToDownload(meta.value);
          }
        }
      }
      assert order[..|order|] == order;
    }

    /** A completed flush of the matrix. */
    method Save()
      requires Ready()
      modifies matrix.db
      ensures Ready() && S() == Step(cfg, old(S()), Event.Save)
    {
      var _ := matrix.Flush(Keeper.Completes);
    }
  }

  // ---------- helpers of the loops ----------

  lemma IndexTagsOfOneMore(seen: Store, k: Key, v: Value, groupID: string)
    requires k !in seen
    ensures IndexTags(seen[k := v], groupID) == IndexTags(seen, groupID) +
      if Under(k, INDEX_PREFIX + "/" + groupID) && ParseMeta(v).Some? then {ParseMeta(v).value.tag} else {}
  {
    var p, more := INDEX_PREFIX + "/" + groupID, seen[k := v];
    forall t | t in IndexTags(seen, groupID) ensures t in IndexTags(more, groupID) {
      var x :| x in seen && Under(x, p) && ParseMeta(seen[x]).Some? && ParseMeta(seen[x]).value.tag == t;
      assert x in more && more[x] == seen[x];
    }
    if Under(k, p) && ParseMeta(v).Some? {
      assert k in more && more[k] == v;
    }
  }

  lemma TagsOfOneMore(indexes: seq<Metatag>, m: Metatag)
    ensures (set x | x in indexes + [m] :: x.tag) == (set x | x in indexes :: x.tag) + {m.tag}
  {
    assert m in indexes + [m];
    assert forall x :: x in indexes ==> x in indexes + [m];
  }

  lemma DeltasAreTags(indexes: seq<Metatag>, deltas: seq<string>)
    requires |deltas| == |indexes| && forall j :: 0 <= j < |deltas| ==> deltas[j] == indexes[j].tag
    ensures Elements(deltas) == (set m | m in indexes :: m.tag)
  {
    forall t | t in Elements(deltas) ensures t in (set m | m in indexes :: m.tag) {
      var j :| 0 <= j < |deltas| && deltas[j] == t;
      assert indexes[j] in indexes;
    }
    forall m | m in indexes ensures m.tag in Elements(deltas) {
      var j :| 0 <= j < |indexes| && indexes[j] == m;
      assert deltas[j] in deltas;
    }
  }

  lemma NothingSent(s: Node)
    ensures SendAll(s, []) == s
  {
    assert s.sent + [] == s.sent && Ids(|s.sent|, |s.sent|) == {};
    assert s.waiting + {} == s.waiting;
  }

  lemma OneMoreSent(s: Node, ms: seq<Metatag>, m: Metatag)
    ensures Send(SendAll(s, ms), m) == SendAll(s, ms + [m])
  {
    assert s.sent + ms + [m] == s.sent + (ms + [m]);
    var n := |s.sent| + |ms|;
    assert Ids(|s.sent|, n + 1) == Ids(|s.sent|, n) + {n};
  }
}
