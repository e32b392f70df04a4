/** The group calls as functions on the store, and what holds over whole runs of them. */
module Groups {
  import opened Wrappers
  import opened Text
  import opened Keys
  import opened Replication

  datatype GroupError = NoGroup | NotPermitted | NoMemberRecord | NotMember

  /** The calls that write. Keys are base64 texts of public keys. `TagContent` is a plain tag. */
  datatype Call =
    | CreateGroup(name: string, groupID: string, ownerID: string, ownerKey: string, isOpen: bool)
    | AddMember(memberID: string, newMemberID: string, groupID: string, memberKey: string, newKey: string)
    | AddContent(peerID: string, groupID: string, key: string, meta: Metatag)
    | TagContent(tag: string, meta: Metatag)

  function GroupRecord(store: Store, groupID: string): Option<GroupMetadata> {
    var k := GroupKey(groupID);
    if k in store then ParseGroup(store[k]) else None
  }

  /** The checks shared by adding members, adding content and reading the group's information. */
  function Check(store: Store, peerID: string, groupID: string, key: string): Option<GroupError> {
    var record := GroupRecord(store, groupID);
    if record.None? then Some(NoGroup)
    else if !record.value.isOpen && record.value.ownerID != peerID then Some(NotPermitted)
    else CheckMember(store, peerID, groupID, key)
  }

  function CheckMember(store: Store, peerID: string, groupID: string, key: string): Option<GroupError> {
    var k := MemberKey(peerID, groupID);
    if k !in store then Some(NoMemberRecord)
    else if store[k] != PlainText(key) then Some(NotMember)
    else None
  }

  function Metadata(c: Call): GroupMetadata
    requires c.CreateGroup?
  {
    GroupMetadata(c.name, c.ownerID, c.ownerKey, c.groupID, c.isOpen)
  }

  predicate Succeeds(store: Store, c: Call) {
    match c
    case CreateGroup(_, _, _, _, _) => true
    case AddMember(memberID, _, groupID, memberKey, _) => Check(store, memberID, groupID, memberKey).None?
    case AddContent(peerID, groupID, key, _) => Check(store, peerID, groupID, key).None?
    case TagContent(_, _) => true
  }

  /** The entries a call writes. */
  function Writes(store: Store, c: Call): Store {
    if !Succeeds(store, c) then map[]
    else match c
      case CreateGroup(_, groupID, ownerID, ownerKey, _) =>
        map[GroupKey(groupID) := GroupJson(Metadata(c)), MemberKey(ownerID, groupID) := PlainText(ownerKey)]
      case AddMember(_, newMemberID, groupID, _, newKey) => map[MemberKey(newMemberID, groupID) := PlainText(newKey)]
      case AddContent(_, groupID, _, meta) =>
        map[IndexKey(groupID, meta.tag) := ContentJson(meta.(group := groupID))]
      case TagContent(tag, meta) => map[NewKey(tag) := ContentJson(meta)]
  }

  function StoreAfter(calls: seq<Call>): Store {
    if calls == [] then map[]
    else
      var before := StoreAfter(calls[..|calls| - 1]);
      before + Writes(before, calls[|calls| - 1])
  }

  function StoreBefore(calls: seq<Call>, i: nat): Store
    requires i <= |calls|
  {
    StoreAfter(calls[..i])
  }

  // ---------- valid runs ----------

  /** Key construction leaves the path as it is. */
  predicate CleanPath(path: string) {
    forall e :: e in Split(path, SLASH) ==> e != "" && e != "." && e != ".."
  }

  predicate IsID(id: string) {
    SlashFree(id) && CleanPath(id)
  }

  predicate ValidCall(c: Call) {
    match c
    case CreateGroup(_, groupID, ownerID, _, _) => IsID(groupID) && IsID(ownerID)
    case AddMember(memberID, newMemberID, groupID, _, _) => IsID(memberID) && IsID(newMemberID) && IsID(groupID)
    case AddContent(peerID, groupID, _, meta) => IsID(peerID) && IsID(groupID) && CleanPath(meta.tag)
    case TagContent(tag, _) => IsPlainKey(NewKey(tag)) && CleanPath(NewKey(tag)[1..])
  }

  /** Identifiers and tags are clean, plain tags stay out of the reserved families, and every created
      group has an identifier of its own. */
  ghost predicate ValidRun(calls: seq<Call>) {
    && (forall c :: c in calls ==> ValidCall(c))
    && (forall i, j :: 0 <= i < j < |calls| && calls[i].CreateGroup? && calls[j].CreateGroup? ==>
        calls[i].groupID != calls[j].groupID)
  }

  lemma ValidPrefix(calls: seq<Call>, n: nat)
    requires ValidRun(calls) && n <= |calls|
    ensures ValidRun(calls[..n])
  {
    forall c | c in calls[..n] ensures ValidCall(c) {
      assert c in calls;
    }
  }

  // ---------- which keys a call writes ----------

  datatype Grant = Grant(memberID: string, groupID: string, key: string)

  /** The membership record a call writes. */
  function Grants(store: Store, c: Call): Option<Grant> {
    if !Succeeds(store, c) then None
    else if c.CreateGroup? then Some(Grant(c.ownerID, c.groupID, c.ownerKey))
    else if c.AddMember? then Some(Grant(c.newMemberID, c.groupID, c.newKey))
    else None
  }

  lemma KeyFamilies(memberID: string, groupID: string, tag: string)
    ensures IsGroupKey(GroupKey(groupID)) && !IsMemberKey(GroupKey(groupID)) && !IsIndexKey(GroupKey(groupID))
    ensures IsMemberKey(MemberKey(memberID, groupID)) && !IsIndexKey(MemberKey(memberID, groupID))
    ensures IsIndexKey(IndexKey(groupID, tag))
  {
    assert GroupKey(groupID)[..|GROUP_PREFIX|] == GROUP_PREFIX;
    assert MemberKey(memberID, groupID)[..|MEMBER_PREFIX|] == MEMBER_PREFIX;
    assert IndexKey(groupID, tag)[..|INDEX_PREFIX|] == INDEX_PREFIX;
    FamiliesAreDisjoint(GroupKey(groupID));
    FamiliesAreDisjoint(MemberKey(memberID, groupID));
  }

  lemma MemberWrites(store: Store, c: Call, memberID: string, groupID: string)
    requires ValidCall(c) && SlashFree(memberID) && SlashFree(groupID)
    ensures var k, w, g := MemberKey(memberID, groupID), Writes(store, c), Grants(store, c);
            && (k in w <==> g.Some? && g.value.memberID == memberID && g.value.groupID == groupID)
            && (k in w ==> w[k] == PlainText(g.value.key))
  {
    var k := MemberKey(memberID, groupID);
    KeyFamilies(memberID, groupID, "");
    if Succeeds(store, c) {
      match c
      case CreateGroup(_, id, ownerID, _, _) =>
        KeyFamilies(ownerID, id, "");
        if k == MemberKey(ownerID, id) {
          MemberKeysAreInjective(memberID, groupID, ownerID, id);
        }
      case AddMember(_, newMemberID, id, _, _) =>
        if k == MemberKey(newMemberID, id) {
          MemberKeysAreInjective(memberID, groupID, newMemberID, id);
        }
      case AddContent(peerID, id, _, meta) => KeyFamilies(peerID, id, meta.tag);
      case TagContent(tag, _) =>
    }
  }

  lemma GroupWrites(store: Store, c: Call, groupID: string)
    requires ValidCall(c)
    ensures var k, w := GroupKey(groupID), Writes(store, c);
            && (k in w <==> c.CreateGroup? && c.groupID == groupID)
            && (k in w ==> w[k] == GroupJson(Metadata(c)))
  {
    var k := GroupKey(groupID);
    KeyFamilies("", groupID, "");
    match c
    case CreateGroup(_, id, ownerID, _, _) =>
      KeyFamilies(ownerID, id, "");
      if k == GroupKey(id) {
        GroupKeysAreInjective(groupID, id);
      }
    case AddMember(_, newMemberID, id, _, _) => KeyFamilies(newMemberID, id, "");
    case AddContent(peerID, id, _, meta) => KeyFamilies(peerID, id, meta.tag);
    case TagContent(tag, _) =>
  }

  lemma IndexWrites(store: Store, c: Call, groupID: string, tag: string)
    requires ValidCall(c) && SlashFree(groupID)
    ensures var k, w := IndexKey(groupID, tag), Writes(store, c);
            && (k in w <==> Succeeds(store, c) && c.AddContent? && c.groupID == groupID && c.meta.tag == tag)
            && (k in w ==> w[k] == ContentJson(c.meta.(group := groupID)))
  {
    var k := IndexKey(groupID, tag);
    KeyFamilies("", groupID, tag);
    if Succeeds(store, c) {
      match c
      case CreateGroup(_, id, ownerID, _, _) => KeyFamilies(ownerID, id, "");
      case AddMember(_, newMemberID, id, _, _) => KeyFamilies(newMemberID, id, "");
      case AddContent(_, id, _, meta) =>
        if k == IndexKey(id, meta.tag) {
          IndexKeysAreInjective(groupID, tag, id, meta.tag);
        }
      case TagContent(_, _) =>
    }
  }

  // ---------- what a run leaves behind, told from the calls ----------

  /** The call that created the group, if any. */
  function Creation(calls: seq<Call>, groupID: string): (created: Option<Call>)
    ensures created.Some? ==> created.value.CreateGroup? && created.value.groupID == groupID
  {
    if calls == [] then None
    else
      var c := calls[|calls| - 1];
      if c.CreateGroup? && c.groupID == groupID then Some(c) else Creation(calls[..|calls| - 1], groupID)
  }

  /** The key last given to the member, if any. */
  function LastKey(calls: seq<Call>, memberID: string, groupID: string): Option<string> {
    if calls == [] then None
    else
      var before, c := calls[..|calls| - 1], calls[|calls| - 1];
      var g := Grants(StoreAfter(before), c);
      if g.Some? && g.value.memberID == memberID && g.value.groupID == groupID then Some(g.value.key)
      else LastKey(before, memberID, groupID)
  }

  /** The metadata last added under each tag of the group. */
  function LastContent(calls: seq<Call>, groupID: string): map<string, Metatag> {
    if calls == [] then map[]
    else
      var before, c := calls[..|calls| - 1], calls[|calls| - 1];
      var content := LastContent(before, groupID);
      if c.AddContent? && c.groupID == groupID && Succeeds(StoreAfter(before), c)
      then content[c.meta.tag := c.meta.(group := groupID)]
      else content
  }

  lemma LastIsValid(calls: seq<Call>)
    requires ValidRun(calls) && calls != []
    ensures ValidRun(calls[..|calls| - 1]) && ValidCall(calls[|calls| - 1])
  {
    ValidPrefix(calls, |calls| - 1);
    assert calls[|calls| - 1] in calls;
  }

  lemma {:induction false} GroupRecordIs(calls: seq<Call>, groupID: string)
    requires ValidRun(calls)
    ensures var created := Creation(calls, groupID);
            GroupRecord(StoreAfter(calls), groupID) ==
              if created.None? then None
              else var c := created.value; Some(GroupMetadata(c.name, c.ownerID, c.ownerKey, c.groupID, c.isOpen))
  {
    if calls == [] {
    } else {
      LastIsValid(calls);
      GroupRecordIs(calls[..|calls| - 1], groupID);
      GroupWrites(StoreAfter(calls[..|calls| - 1]), calls[|calls| - 1], groupID);
    }
  }

  lemma {:induction false} MemberRecordIs(calls: seq<Call>, memberID: string, groupID: string)
    requires ValidRun(calls) && SlashFree(memberID) && SlashFree(groupID)
    ensures var k, store, key := MemberKey(memberID, groupID), StoreAfter(calls), LastKey(calls, memberID, groupID);
            && (k in store <==> key.Some?)
            && (k in store ==> store[k] == PlainText(key.value))
  {
    if calls == [] {
    } else {
      LastIsValid(calls);
      MemberRecordIs(calls[..|calls| - 1], memberID, groupID);
      MemberWrites(StoreAfter(calls[..|calls| - 1]), calls[|calls| - 1], memberID, groupID);
    }
  }

  lemma {:induction false} IndexRecordIs(calls: seq<Call>, groupID: string, tag: string)
    requires ValidRun(calls) && SlashFree(groupID)
    ensures var k, store, content := IndexKey(groupID, tag), StoreAfter(calls), LastContent(calls, groupID);
            && (k in store <==> tag in content)
            && (k in store ==> store[k] == ContentJson(content[tag]) && content[tag].tag == tag)
  {
    if calls == [] {
    } else {
      LastIsValid(calls);
      IndexRecordIs(calls[..|calls| - 1], groupID, tag);
      IndexWrites(StoreAfter(calls[..|calls| - 1]), calls[|calls| - 1], groupID, tag);
    }
  }

  /** A group's record never changes once created. */
  lemma {:induction false} CreationStays(calls: seq<Call>, n: nat, groupID: string)
    requires ValidRun(calls) && n <= |calls| && Creation(calls[..n], groupID).Some?
    ensures Creation(calls, groupID) == Creation(calls[..n], groupID)
    decreases |calls|
  {
    if n == |calls| {
      assert calls[..n] == calls;
    } else {
      LastIsValid(calls);
      var before := calls[..|calls| - 1];
      assert before[..n] == calls[..n];
      CreationStays(before, n, groupID);
      CreationIsACall(before, groupID);
    }
  }

  lemma {:induction false} CreationIsACall(calls: seq<Call>, groupID: string)
    requires Creation(calls, groupID).Some?
    ensures exists i :: 0 <= i < |calls| && calls[i] == Creation(calls, groupID).value && calls[i].CreateGroup?
                        && calls[i].groupID == groupID
  {
    var n := |calls| - 1;
    if !(calls[n].CreateGroup? && calls[n].groupID == groupID) {
      CreationIsACall(calls[..n], groupID);
      var i :| 0 <= i < n && calls[..n][i] == Creation(calls[..n], groupID).value && calls[..n][i].CreateGroup?
               && calls[..n][i].groupID == groupID;
      assert calls[i] == calls[..n][i];
    }
  }

  // ---------- provenance of membership ----------

  /** Call `i` wrote the record (member, group, key). */
  predicate GrantedAt(calls: seq<Call>, i: nat, g: Grant) {
    i < |calls| && Grants(StoreBefore(calls, i), calls[i]) == Some(g)
  }

  /** The record traces back through ever earlier calls to the creation of the group: it was written
      at the creation, for the owner, or by a member whose own record traces back from before then. */
  ghost predicate Traces(calls: seq<Call>, n: nat, g: Grant)
    decreases n
  {
    exists i: nat :: i < n && GrantedAt(calls, i, g) &&
      (calls[i].CreateGroup? ||
       (calls[i].AddMember? && Traces(calls, i, Grant(calls[i].memberID, g.groupID, calls[i].memberKey))))
  }

  lemma {:induction false} LastKeyWasGranted(calls: seq<Call>, n: nat, memberID: string, groupID: string)
    requires n <= |calls| && LastKey(calls[..n], memberID, groupID).Some?
    ensures exists i: nat ::
      i < n && GrantedAt(calls, i, Grant(memberID, groupID, LastKey(calls[..n], memberID, groupID).value))
  {
    var before := calls[..n][..n - 1];
    assert before == calls[..n - 1];
    var g := Grants(StoreAfter(before), calls[n - 1]);
    if g.Some? && g.value.memberID == memberID && g.value.groupID == groupID {
      assert GrantedAt(calls, n - 1, g.value);
    } else {
      LastKeyWasGranted(calls, n - 1, memberID, groupID);
      var i: nat :| i < n - 1 &&
        GrantedAt(calls, i, Grant(memberID, groupID, LastKey(calls[..n - 1], memberID, groupID).value));
    }
  }

  /** Every membership record of every reachable store traces back to the creation of its group. */
  lemma {:induction false} MembershipTracesToOwner(calls: seq<Call>, n: nat, memberID: string, groupID: string,
                                                   key: string)
    requires ValidRun(calls) && n <= |calls| && SlashFree(memberID) && SlashFree(groupID)
    requires CheckMember(StoreBefore(calls, n), memberID, groupID, key).None?
    ensures Traces(calls, n, Grant(memberID, groupID, key))
    decreases n
  {
    ValidPrefix(calls, n);
    MemberRecordIs(calls[..n], memberID, groupID);
    LastKeyWasGranted(calls, n, memberID, groupID);
    var g := Grant(memberID, groupID, key);
    var i: nat :| i < n && GrantedAt(calls, i, g);
    var c := calls[i];
    assert c in calls;
    if c.AddMember? {
      assert Check(StoreBefore(calls, i), c.memberID, groupID, c.memberKey).None?;
      MembershipTracesToOwner(calls, i, c.memberID, groupID, c.memberKey);
    }
  }

  /** Who acts in a call that changes an existing group, and with which key. */
  function ActorID(c: Call): string
    requires c.AddMember? || c.AddContent?
  {
    if c.AddMember? then c.memberID else c.peerID
  }

  function ActorKey(c: Call): string
    requires c.AddMember? || c.AddContent?
  {
    if c.AddMember? then c.memberKey else c.key
  }

  /** Whoever adds a member or content holds a record that traces back to the creation of the group,
      and if the group is closed it is the owner named at creation. */
  lemma ActorsAreEntitled(calls: seq<Call>, i: nat)
    requires ValidRun(calls) && i < |calls| && (calls[i].AddMember? || calls[i].AddContent?)
    requires Succeeds(StoreBefore(calls, i), calls[i])
    ensures var c := calls[i];
            var created := Creation(calls, c.groupID);
            && created.Some? && created.value in calls[..i]
            && Traces(calls, i, Grant(ActorID(c), c.groupID, ActorKey(c)))
            && (!created.value.isOpen ==> ActorID(c) == created.value.ownerID)
  {
    var c := calls[i];
    assert c in calls;
    ValidPrefix(calls, i);
    GroupRecordIs(calls[..i], c.groupID);
    CreationStays(calls, i, c.groupID);
    CreationIsACall(calls[..i], c.groupID);
    MembershipTracesToOwner(calls, i, ActorID(c), c.groupID, ActorKey(c));
  }

  /** What a caller is told, from the calls made so far: the first of the group, the right, the record and
      the key that is missing. */
  lemma CheckIs(calls: seq<Call>, peerID: string, groupID: string, key: string)
    requires ValidRun(calls) && SlashFree(peerID) && SlashFree(groupID)
    ensures var created, last := Creation(calls, groupID), LastKey(calls, peerID, groupID);
            Check(StoreAfter(calls), peerID, groupID, key) ==
              if created.None? then Some(NoGroup)
              else if !created.value.isOpen && created.value.ownerID != peerID then Some(NotPermitted)
              else if last.None? then Some(NoMemberRecord)
              else if last.value != key then Some(NotMember)
              else None
  {
    GroupRecordIs(calls, groupID);
    MemberRecordIs(calls, peerID, groupID);
  }

  /** The shorter check of the content query. */
  lemma CheckMemberIs(calls: seq<Call>, peerID: string, groupID: string, key: string)
    requires ValidRun(calls) && SlashFree(peerID) && SlashFree(groupID)
    ensures var last := LastKey(calls, peerID, groupID);
            CheckMember(StoreAfter(calls), peerID, groupID, key) ==
              if last.None? then Some(NoMemberRecord) else if last.value != key then Some(NotMember) else None
  {
    MemberRecordIs(calls, peerID, groupID);
  }

  /** Exactly the entitled succeed: those who hold the key last given to them in a group that is open or
      their own. */
  lemma SucceedsIff(calls: seq<Call>, c: Call)
    requires ValidRun(calls) && ValidCall(c) && (c.AddMember? || c.AddContent?)
    ensures var created := Creation(calls, c.groupID);
            Succeeds(StoreAfter(calls), c) <==>
              && created.Some? && (created.value.isOpen || created.value.ownerID == ActorID(c))
              && LastKey(calls, ActorID(c), c.groupID) == Some(ActorKey(c))
  {
    CheckIs(calls, ActorID(c), c.groupID, ActorKey(c));
  }

  // ---------- queries ----------

  /** Some order of exactly the store's keys below a prefix. */
  ghost predicate Lists(store: Store, prefix: string, keys: seq<Key>) {
    && (forall i, j :: 0 <= i < j < |keys| ==> keys[i] != keys[j])
    && (forall k :: k in keys <==> k in store && Under(k, prefix))
  }

  /** What `GroupGetAllContent` appends: the values that decode. */
  function Decoded(store: Store, keys: seq<Key>): seq<Metatag>
    requires forall k :: k in keys ==> k in store
  {
    if keys == [] then []
    else
      var m := ParseMeta(store[keys[|keys| - 1]]);
      Decoded(store, keys[..|keys| - 1]) + if m.Some? then [m.value] else []
  }

  /** What `GroupGetAllGroups` appends: groups whose record decodes, for keys that hold `key`. */
  function JoinedGroups(store: Store, key: string, keys: seq<Key>): seq<GroupMetadata>
    requires forall k :: k in keys ==> k in store && |Split(k, SLASH)| >= 4
  {
    if keys == [] then []
    else
      var k := keys[|keys| - 1];
      var record := GroupRecord(store, Split(k, SLASH)[3]);
      JoinedGroups(store, key, keys[..|keys| - 1])
      + if store[k] == PlainText(key) && record.Some? then [record.value] else []
  }

  function TagOf(groupID: string, k: Key): string
    requires Under(k, INDEX_PREFIX + "/" + groupID)
  {
    k[|INDEX_PREFIX| + |groupID| + 2..]
  }

  /** The tags of a group's content, in the order in which the query meets them. */
  function TagsOf(groupID: string, keys: seq<Key>): (tags: seq<string>)
    requires forall k :: k in keys ==> Under(k, INDEX_PREFIX + "/" + groupID)
    ensures |tags| == |keys|
  {
    seq(|keys|, i requires 0 <= i < |keys| => TagOf(groupID, keys[i]))
  }

  lemma {:induction false} DecodedAll(store: Store, keys: seq<Key>, metas: seq<Metatag>)
    requires |metas| == |keys|
    requires forall i :: 0 <= i < |keys| ==> keys[i] in store && store[keys[i]] == ContentJson(metas[i])
    ensures forall k :: k in keys ==> k in store
    ensures Decoded(store, keys) == metas
  {
    if keys == [] {
    } else {
      var n := |keys| - 1;
      DecodedAll(store, keys[..n], metas[..n]);
      assert metas == metas[..n] + [metas[n]];
    }
  }

  /** After any run the content query of a group returns exactly the last metadata of each of its tags,
      each once, whatever order the store answers in. */
  lemma ContentQueryIsLastContent(calls: seq<Call>, groupID: string, keys: seq<Key>)
    requires ValidRun(calls) && SlashFree(groupID)
    requires Lists(StoreAfter(calls), INDEX_PREFIX + "/" + groupID, keys)
    ensures var content := LastContent(calls, groupID);
            var metas := Decoded(StoreAfter(calls), keys);
            && |metas| == |keys|
            && (forall i :: 0 <= i < |metas| ==> metas[i].tag in content && metas[i] == content[metas[i].tag])
            && (forall i, j :: 0 <= i < j < |metas| ==> metas[i].tag != metas[j].tag)
            && (forall tag :: tag in content ==> content[tag] in metas)
  {
    var store, content := StoreAfter(calls), LastContent(calls, groupID);
    var tags := TagsOf(groupID, keys);
    forall i | 0 <= i < |keys|
      ensures keys[i] in store && keys[i] == IndexKey(groupID, tags[i]) && tags[i] in content
      ensures store[keys[i]] == ContentJson(content[tags[i]]) && content[tags[i]].tag == tags[i]
    {
      assert keys[i] in keys;
      IndexKeyParses(groupID, keys[i]);
      IndexRecordIs(calls, groupID, tags[i]);
    }
    var metas := seq(|keys|, i requires 0 <= i < |keys| => content[tags[i]]);
    DecodedAll(store, keys, metas);
    forall tag | tag in content ensures content[tag] in metas {
      IndexRecordIs(calls, groupID, tag);
      IndexKeyIsUnder(groupID, tag);
      var k := IndexKey(groupID, tag);
      assert k in keys;
      var i :| 0 <= i < |keys| && keys[i] == k;
      IndexKeysAreInjective(groupID, tag, groupID, tags[i]);
      assert metas[i] == content[tag];
    }
  }

  // ---------- joined groups ----------

  /** The member keys a run leaves under a user all have the form the split expects. */
  lemma {:induction false} MemberKeysAreClean(calls: seq<Call>, k: Key)
    requires ValidRun(calls) && k in StoreAfter(calls) && IsMemberKey(k)
    ensures exists u, g :: SlashFree(u) && SlashFree(g) && k == MemberKey(u, g)
  {
    var before, c := StoreAfter(calls[..|calls| - 1]), calls[|calls| - 1];
    LastIsValid(calls);
    if k in Writes(before, c) {
      match c
      case CreateGroup(_, groupID, ownerID, _, _) => KeyFamilies(ownerID, groupID, "");
      case AddMember(_, newMemberID, groupID, _, _) =>
      case AddContent(peerID, groupID, _, meta) =>
        KeyFamilies(peerID, groupID, meta.tag);
        FamiliesAreDisjoint(k);
      case TagContent(_, _) =>
    } else {
      MemberKeysAreClean(calls[..|calls| - 1], k);
    }
  }

  lemma MemberKeyOf(calls: seq<Call>, userID: string, k: Key) returns (groupID: string)
    requires ValidRun(calls) && SlashFree(userID)
    requires k in StoreAfter(calls) && Under(k, MEMBER_PREFIX + "/" + userID)
    ensures SlashFree(groupID) && k == MemberKey(userID, groupID)
    ensures Split(k, SLASH) == ["", "group-member", userID, groupID]
  {
    assert k[..|MEMBER_PREFIX|] == (MEMBER_PREFIX + "/" + userID + "/")[..|MEMBER_PREFIX|] == MEMBER_PREFIX;
    MemberKeysAreClean(calls, k);
    var u, g :| SlashFree(u) && SlashFree(g) && k == MemberKey(u, g);
    SplitMember(u, g);
    SplitSlash(g, "");
    UnderMember(userID, k);
    assert Split(k, SLASH)[2] == u == userID;
    groupID := g;
  }

  ghost predicate Clean(store: Store, userID: string, keys: seq<Key>, ids: seq<string>) {
    |ids| == |keys| && forall i :: 0 <= i < |keys| ==>
      && SlashFree(ids[i]) && keys[i] in store && keys[i] == MemberKey(userID, ids[i])
      && |Split(keys[i], SLASH)| >= 4 && Split(keys[i], SLASH)[3] == ids[i]
  }

  lemma {:induction false} CleanIds(calls: seq<Call>, userID: string, keys: seq<Key>) returns (ids: seq<string>)
    requires ValidRun(calls) && SlashFree(userID)
    requires forall k :: k in keys ==> k in StoreAfter(calls) && Under(k, MEMBER_PREFIX + "/" + userID)
    ensures Clean(StoreAfter(calls), userID, keys, ids)
  {
    ids := [];
    if keys == [] {
    } else {
      var n := |keys| - 1;
      var before := CleanIds(calls, userID, keys[..n]);
      assert keys[n] in keys;
      var id := MemberKeyOf(calls, userID, keys[n]);
      ids := before + [id];
      forall i | 0 <= i < |keys|
        ensures SlashFree(ids[i]) && keys[i] in StoreAfter(calls) && keys[i] == MemberKey(userID, ids[i])
        ensures |Split(keys[i], SLASH)| >= 4 && Split(keys[i], SLASH)[3] == ids[i]
      {
        if i < n {
          assert keys[i] == keys[..n][i] && ids[i] == before[i];
        }
      }
    }
  }

  lemma CleanKeysSplit(store: Store, userID: string, keys: seq<Key>, ids: seq<string>)
    requires Clean(store, userID, keys, ids)
    ensures forall k :: k in keys ==> k in store && |Split(k, SLASH)| >= 4
  {
    forall k | k in keys ensures k in store && |Split(k, SLASH)| >= 4 {
      var i :| 0 <= i < |keys| && keys[i] == k;
    }
  }

  /** The groups of a user are those whose last record for the user holds the key. */
  predicate Joined(calls: seq<Call>, userID: string, key: string, groupID: string) {
    LastKey(calls, userID, groupID) == Some(key) && Creation(calls, groupID).Some?
  }

  ghost predicate JoinedWith(calls: seq<Call>, userID: string, key: string, m: GroupMetadata) {
    exists id :: SlashFree(id) && Joined(calls, userID, key, id) && m == Metadata(Creation(calls, id).value)
  }

  /** What one visited key adds to the answer. */
  lemma JoinedByKey(calls: seq<Call>, userID: string, key: string, id: string)
    requires ValidRun(calls) && SlashFree(userID) && SlashFree(id) && MemberKey(userID, id) in StoreAfter(calls)
    ensures StoreAfter(calls)[MemberKey(userID, id)] == PlainText(key) && GroupRecord(StoreAfter(calls), id).Some?
            <==> Joined(calls, userID, key, id)
    ensures Creation(calls, id).Some? ==>
              GroupRecord(StoreAfter(calls), id) == Some(Metadata(Creation(calls, id).value))
  {
    MemberRecordIs(calls, userID, id);
    GroupRecordIs(calls, id);
  }

  /** The records of the joined groups among `ids`, in order. */
  function JoinedOf(calls: seq<Call>, userID: string, key: string, ids: seq<string>): seq<GroupMetadata> {
    if ids == [] then []
    else
      var id := ids[|ids| - 1];
      JoinedOf(calls, userID, key, ids[..|ids| - 1])
      + if Joined(calls, userID, key, id) then [Metadata(Creation(calls, id).value)] else []
  }

  lemma {:induction false} JoinedGroupsAre(calls: seq<Call>, userID: string, key: string, keys: seq<Key>,
                                            ids: seq<string>)
    requires ValidRun(calls) && SlashFree(userID) && Clean(StoreAfter(calls), userID, keys, ids)
    ensures forall k :: k in keys ==> k in StoreAfter(calls) && |Split(k, SLASH)| >= 4
    ensures JoinedGroups(StoreAfter(calls), key, keys) == JoinedOf(calls, userID, key, ids)
  {
    CleanKeysSplit(StoreAfter(calls), userID, keys, ids);
    if keys == [] {
    } else {
      var n := |keys| - 1;
      CleanPrefix(StoreAfter(calls), userID, keys, ids);
      JoinedGroupsAre(calls, userID, key, keys[..n], ids[..n]);
      JoinedByKey(calls, userID, key, ids[n]);
    }
  }

  lemma CleanPrefix(store: Store, userID: string, keys: seq<Key>, ids: seq<string>)
    requires Clean(store, userID, keys, ids) && keys != []
    ensures Clean(store, userID, keys[..|keys| - 1], ids[..|ids| - 1])
  {
  }

  lemma {:induction false} JoinedOfEach(calls: seq<Call>, userID: string, key: string, ids: seq<string>)
    requires forall i, j :: 0 <= i < j < |ids| ==> ids[i] != ids[j]
    ensures var ms := JoinedOf(calls, userID, key, ids);
            && (forall m :: m in ms ==> m.groupID in ids && Joined(calls, userID, key, m.groupID)
                                        && m == Metadata(Creation(calls, m.groupID).value))
            && (forall id :: id in ids && Joined(calls, userID, key, id) ==> Metadata(Creation(calls, id).value) in ms)
            && (forall i, j :: 0 <= i < j < |ms| ==> ms[i].groupID != ms[j].groupID)
  {
    if ids == [] {
    } else {
      var n := |ids| - 1;
      assert ids == ids[..n] + [ids[n]];
      JoinedOfEach(calls, userID, key, ids[..n]);
    }
  }

  /** After any run the group query of a user returns exactly the groups whose last record for that user
      holds the given key, each once. */
  lemma GroupQueryIsJoinedGroups(calls: seq<Call>, userID: string, key: string, keys: seq<Key>)
    requires ValidRun(calls) && SlashFree(userID)
    requires Lists(StoreAfter(calls), MEMBER_PREFIX + "/" + userID, keys)
    ensures forall k :: k in keys ==> k in StoreAfter(calls) && |Split(k, SLASH)| >= 4
    ensures var ms := JoinedGroups(StoreAfter(calls), key, keys);
            && (forall m :: m in ms <==> JoinedWith(calls, userID, key, m))
            && (forall i, j :: 0 <= i < j < |ms| ==> ms[i].groupID != ms[j].groupID)
  {
    var ids := CleanIds(calls, userID, keys);
    JoinedGroupsAre(calls, userID, key, keys, ids);
    IdsDiffer(StoreAfter(calls), userID, keys, ids);
    JoinedOfEach(calls, userID, key, ids);
    forall m | JoinedWith(calls, userID, key, m) ensures m in JoinedOf(calls, userID, key, ids) {
      var id :| SlashFree(id) && Joined(calls, userID, key, id) && m == Metadata(Creation(calls, id).value);
      MemberRecordIs(calls, userID, id);
      MemberKeyIsUnder(userID, id);
      IdOfKey(StoreAfter(calls), userID, keys, ids, id);
    }
    forall m | m in JoinedOf(calls, userID, key, ids) ensures JoinedWith(calls, userID, key, m) {
      var i :| 0 <= i < |ids| && ids[i] == m.groupID;
      assert SlashFree(ids[i]);
    }
  }

  lemma IdsDiffer(store: Store, userID: string, keys: seq<Key>, ids: seq<string>)
    requires Clean(store, userID, keys, ids)
    requires forall i, j :: 0 <= i < j < |keys| ==> keys[i] != keys[j]
    ensures forall i, j :: 0 <= i < j < |ids| ==> ids[i] != ids[j]
  {
    forall i, j | 0 <= i < j < |ids| ensures ids[i] != ids[j] {
      assert keys[i] != keys[j];
    }
  }

  lemma IdOfKey(store: Store, userID: string, keys: seq<Key>, ids: seq<string>, id: string)
    requires SlashFree(userID) && SlashFree(id) && Clean(store, userID, keys, ids) && MemberKey(userID, id) in keys
    ensures id in ids
  {
    var i :| 0 <= i < |keys| && keys[i] == MemberKey(userID, id);
    MemberKeysAreInjective(userID, id, userID, ids[i]);
  }
}
