/** One node's replication as a state machine: the put and delete hooks of the replicated store, the
    content watcher with its download tasks, and restarts. */
module Replication {
  import opened Wrappers
  import opened Bloom
  import opened Keys
  import opened ContentMatrix
  import opened StateKeeping

  // ---------- values ----------

  datatype Metatag = Metatag(tag: string, size: int, kind: string, name: string, hash: Hash, timestamp: int,
                             owner: PeerId, isEncrypted: bool, group: string)

  datatype GroupMetadata = GroupMetadata(name: string, ownerID: PeerId, ownerPublicKey: string,
                                         groupID: string, isOpen: bool)

  /** What a key holds: one of the two JSON documents, or text that is no JSON document. A public key
      is stored as its base64 text, and this model writes keys as that text throughout. */
  datatype Value = ContentJson(content: Metatag) | GroupJson(groupMeta: GroupMetadata) | PlainText(text: string)

  /** Decoding ignores unknown fields, so a group document reads as content with only a name. */
  function ParseMeta(v: Value): Option<Metatag> {
    match v
    case ContentJson(m) => Some(m)
    case GroupJson(g) => Some(Metatag("", 0, "", g.name, "", 0, "", false, ""))
    case PlainText(_) => None
  }

  function ParseGroup(v: Value): Option<GroupMetadata> {
    match v
    case ContentJson(m) => Some(GroupMetadata(m.name, "", "", "", false))
    case GroupJson(g) => Some(g)
    case PlainText(_) => None
  }

  type Store = map<Key, Value>

  // ---------- the node ----------

  /** `key` is the base64 text of the node's own public key. */
  datatype Config = Config(self: PeerId, key: string, autoDownload: bool, hash: Bloom.TagHash)

  /** The downloads are numbered in the order in which their metadata was handed to the channel.
      `waiting` blocks in the channel, `taken` is with the watcher, `running` in the task manager;
      `unmarked` tasks were accepted but not yet recorded as started. A restart loses the open ones. */
  datatype Node = Node(store: Store,
                       global: Filter, globalFile: Filter,
                       groups: GroupStates, groupsFile: GroupStates,
                       contents: Contents, contentsFile: Contents,
                       sent: seq<Metatag>, waiting: set<nat>, taken: set<nat>, running: set<nat>,
                       unmarked: set<nat>, finished: set<nat>, failed: set<nat>, lost: set<nat>)

  const NEW_NODE := Node(map[], EMPTY, EMPTY, map[], map[], map[], map[], [], {}, {}, {}, {}, {}, {}, {})

  function GlobalAdd(c: Config, s: Node, tag: string): Node {
    var filter := Add(c.hash, s.global, tag);
    s.(global := filter, globalFile := filter)
  }

  ghost function GroupAdd(c: Config, s: Node, group: string, tags: set<string>): Node {
    var states := AddOrUpdate(c.hash, s.groups, group, true, tags);
    s.(groups := states, groupsFile := states)
  }

  function Send(s: Node, m: Metatag): Node {
    s.(sent := s.sent + [m], waiting := s.waiting + {|s.sent|})
  }

  predicate IsMember(c: Config, store: Store, group: string) {
    var k := MemberKey(c.self, group);
    k in store && store[k] == PlainText(c.key)
  }

  /** `getContentMetadata`: the tags under a group's index; values that do not decode are skipped. */
  function IndexTags(store: Store, group: string): set<string> {
    set k | k in store && Under(k, INDEX_PREFIX + "/" + group) && ParseMeta(store[k]).Some?
      :: ParseMeta(store[k]).value.tag
  }

  function FindTag(store: Store, tag: string): Option<Metatag> {
    var k := NewKey(tag);
    if k in store then ParseMeta(store[k]) else None
  }

  // ---------- the hooks ----------

  ghost function MemberHook(c: Config, s: Node, k: Key): Node
    requires |List(k)| >= 3
  {
    var userID, groupID := List(k)[1], List(k)[2];
    if c.self != userID then s else GroupAdd(c, s, groupID, IndexTags(s.store, groupID))
  }

  function Announce(c: Config, s: Node, m: Metatag): Node {
    if c.self != m.owner && c.autoDownload then Send(s, m) else GlobalAdd(c, s, m.tag)
  }

  ghost function ContentHook(c: Config, s: Node, k: Key, v: Value): Node
    requires IsIndexKey(k) ==> |List(k)| >= 2
  {
    match ParseMeta(v)
    case None => s
    case Some(m) =>
      if IsIndexKey(k) then
        var groupID := List(k)[1];
        if !IsMember(c, s.store, groupID) then s
        else Announce(c, GroupAdd(c, s, groupID, {m.tag}), m)
      else Announce(c, s, m)
  }

  ghost function PutHook(c: Config, s: Node, k: Key, v: Value): Node
    requires WellFormed(k)
  {
    var s := if IsMemberKey(k) then MemberHook(c, s, k) else s;
    if !IsMemberKey(k) && !IsGroupKey(k) then ContentHook(c, s, k, v) else s
  }

  function DeleteHook(c: Config, s: Node, k: Key): Node {
    GlobalAdd(c, s, RemovalMarker(k))
  }

  // ---------- downloads ----------

  /** Metadata that `StartUnfinishedDownload` sends, visiting the content records in `order`. */
  function Resumed(s: Node, order: seq<Hash>): seq<Metatag>
    requires forall h :: h in order ==> h in s.contents
  {
    if order == [] then []
    else
      var h := order[|order| - 1];
      var before := Resumed(s, order[..|order| - 1]);
      if s.contents[h].finishedAt != 0 then before
      else match FindTag(s.store, s.contents[h].tag)
        case None => before
        case Some(m) => before + [m]
  }

  function Ids(lo: nat, hi: nat): (ids: set<nat>)
    requires lo <= hi
    ensures forall i: nat :: i in ids <==> lo <= i < hi
    decreases hi
  {
    if lo == hi then {} else Ids(lo, hi - 1) + {hi - 1}
  }

  function SendAll(s: Node, ms: seq<Metatag>): Node {
    s.(sent := s.sent + ms, waiting := s.waiting + Ids(|s.sent|, |s.sent| + |ms|))
  }

  /** A task leaves the task manager. */
  function Settle(s: Node, id: nat, ok: bool): Node {
    if ok then s.(running := s.running - {id}, finished := s.finished + {id})
    else s.(running := s.running - {id}, failed := s.failed + {id})
  }

  /** The callback of a finished download. */
  ghost function Callback(c: Config, s: Node, m: Metatag, now: int): Node
    requires m.hash in s.contents
  {
    var s := s.(contents := Finished(s.contents, m.hash, now));
    if m.group != "" then GroupAdd(c, s, m.group, {m.tag}) else GlobalAdd(c, s, m.tag)
  }

  // ---------- steps ----------

  /** A local and a remote put run the same hook. `Launch` is the task manager's answer, `Done` the
      end of a task, `Reconnect` a peer coming back, `Save` a completed flush of the matrix. */
  datatype Event =
    | Put(key: Key, value: Value)
    | Delete(key: Key)
    | Take(id: nat, providers: seq<PeerId>)
    | Launch(id: nat, accepted: bool)
    | MarkStarted(id: nat, now: int)
    | Done(id: nat, ok: bool, now: int)
    | Reconnect(order: seq<Hash>)
    | Save
    | Restart

  ghost predicate Enabled(s: Node, e: Event) {
    match e
    case Put(k, _) => WellFormed(k)
    case Delete(_) => true
    case Take(id, _) => id in s.waiting && id < |s.sent|
    case Launch(id, _) => id in s.taken && id < |s.sent|
    case MarkStarted(id, _) => id in s.unmarked && id < |s.sent| && s.sent[id].hash in s.contents
    case Done(id, ok, now) => id in s.running && id < |s.sent| && now > 0 && (ok ==> s.sent[id].hash in s.contents)
    case Reconnect(order) => multiset(order) == multiset(s.contents.Keys)
    case Save => true
    case Restart => true
  }

  lemma OrderVisitsRecords(s: Node, order: seq<Hash>)
    requires multiset(order) == multiset(s.contents.Keys)
    ensures forall h :: h in order ==> h in s.contents
  {
    forall h | h in order ensures h in s.contents {
      assert h in multiset(order);
    }
  }

  ghost function Step(c: Config, s: Node, e: Event): Node
    requires Enabled(s, e)
  {
    match e
    case Put(k, v) => PutHook(c, s.(store := s.store[k := v]), k, v)
    case Delete(k) => DeleteHook(c, s.(store := s.store - {k}), k)
    case Take(id, providers) =>
      var hash := s.sent[id].hash;
      var contents := NewContent(s.contents, hash);
      s.(waiting := s.waiting - {id}, taken := s.taken + {id},
      contents := AddProviders(contents, hash, providers))
    case Launch(id, accepted) =>
      if accepted
      then s.(taken := s.taken - {id}, running := s.running + {id}, unmarked := s.unmarked + {id})
      else s.(taken := s.taken - {id}, failed := s.failed + {id})
    case MarkStarted(id, now) =>
      var m := s.sent[id];
      s.(unmarked := s.unmarked - {id}, contents := Started(s.contents, m.hash, m.tag, m.size, now))
    case Done(id, ok, now) =>
      if ok then Callback(c, Settle(s, id, true), s.sent[id], now) else Settle(s, id, false)
    case Reconnect(order) =>
      OrderVisitsRecords(s, order);
      SendAll(s, Resumed(s, order))
    case Save => s.(contentsFile := s.contents)
    case Restart =>
      s.(global := s.globalFile, groups := s.groupsFile, contents := s.contentsFile,
      lost := s.lost + s.waiting + s.taken + s.running,
      waiting := {}, taken := {}, running := {}, unmarked := {})
  }

  // ---------- runs ----------

  /** Every event is enabled where it happens. */
  ghost predicate Legal(c: Config, es: seq<Event>)
    decreases |es|, 0
  {
    es == [] || (Legal(c, es[..|es| - 1]) && Enabled(Run(c, es[..|es| - 1]), es[|es| - 1]))
  }

  /** The node after the events, from a new repository. */
  ghost function Run(c: Config, es: seq<Event>): Node
    requires Legal(c, es)
    decreases |es|, 1
  {
    if es == [] then NEW_NODE else Step(c, Run(c, es[..|es| - 1]), es[|es| - 1])
  }
}
