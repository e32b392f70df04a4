/** The group calls of the replication manager. Each takes the caller's public key as base64 text. */
module GroupApi {
  import opened Wrappers
  import opened Text
  import opened Keys
  import opened StateKeeping
  import opened Replication
  import opened Downloads
  import opened GroupFilter
  import opened Groups
  import opened GroupConvergence
  import opened Resumption
  import Convergence
  import opened Manager
  import Discovery

  // ---------- calls as events of the replicated store ----------

  function CallEvents(store: Store, c: Call): seq<Event> {
    if !Succeeds(store, c) then []
    else match c
      case CreateGroup(_, groupID, ownerID, ownerKey, _) =>
        [Event.Put(GroupKey(groupID), GroupJson(Metadata(c))),
         Event.Put(MemberKey(ownerID, groupID), PlainText(ownerKey))]
      case AddMember(_, newMemberID, groupID, _, newKey) =>
        [Event.Put(MemberKey(newMemberID, groupID), PlainText(newKey))]
      case AddContent(_, groupID, _, meta) =>
        [Event.Put(IndexKey(groupID, meta.tag), ContentJson(meta.(group := groupID)))]
      case TagContent(tag, meta) => [Event.Put(NewKey(tag), ContentJson(meta))]
  }

  function EventsOf(calls: seq<Call>): seq<Event> {
    if calls == [] then []
    else
      var before := calls[..|calls| - 1];
      EventsOf(before) + CallEvents(StoreAfter(before), calls[|calls| - 1])
  }

  ghost function StepAll(c: Config, s: Node, es: seq<Event>): Node
    requires forall e :: e in es ==> e.Put? && WellFormed(e.key)
  {
    if es == [] then s else Step(c, StepAll(c, s, es[..|es| - 1]), es[|es| - 1])
  }

  lemma StepAllOne(c: Config, s: Node, e: Event)
    requires e.Put? && WellFormed(e.key)
    ensures StepAll(c, s, [e]) == Step(c, s, e)
  {
    assert [e][..0] == [];
  }

  lemma StepAllTwo(c: Config, s: Node, e: Event, f: Event)
    requires e.Put? && WellFormed(e.key) && f.Put? && WellFormed(f.key)
    ensures StepAll(c, s, [e, f]) == Step(c, Step(c, s, e), f)
  {
    StepAllOne(c, s, e);
    assert [e, f][..1] == [e];
  }

  /** Every key a valid call writes parses the way the put hook expects. */
  lemma CallEventsAreEnabled(store: Store, c: Call)
    requires ValidCall(c)
    ensures forall e :: e in CallEvents(store, c) ==> e.Put? && WellFormed(e.key)
  {
    match c
    case CreateGroup(_, groupID, ownerID, _, _) =>
      KeyFamilies(ownerID, groupID, "");
      MemberKeyParses(ownerID, groupID);
    case AddMember(_, newMemberID, groupID, _, _) => MemberKeyParses(newMemberID, groupID);
    case AddContent(_, groupID, _, meta) =>
      IndexKeyIsUnder(groupID, meta.tag);
      IndexKeyParses(groupID, IndexKey(groupID, meta.tag));
    case TagContent(_, _) =>
  }

  /** The store after the puts, from an empty one. */
  function Entries(es: seq<Event>): Store
    requires forall e :: e in es ==> e.Put?
  {
    if es == [] then map[]
    else
      var last := es[|es| - 1];
      Entries(es[..|es| - 1])[last.key := last.value]
  }

  lemma {:induction false} PutsWrite(cfg: Config, s: Node, es: seq<Event>)
    requires forall e :: e in es ==> e.Put? && WellFormed(e.key)
    ensures StepAll(cfg, s, es).store == s.store + Entries(es)
  {
    if es == [] {
      assert s.store + map[] == s.store;
    } else {
      var before, last := es[..|es| - 1], es[|es| - 1];
      PutsWrite(cfg, s, before);
      PutWrites(cfg, StepAll(cfg, s, before), last.key, last.value);
      assert s.store + Entries(before)[last.key := last.value] == (s.store + Entries(before))[last.key := last.value];
    }
  }

  lemma EntriesAreWrites(store: Store, c: Call)
    requires ValidCall(c)
    ensures forall e :: e in CallEvents(store, c) ==> e.Put? && WellFormed(e.key)
    ensures Entries(CallEvents(store, c)) == Writes(store, c)
  {
    CallEventsAreEnabled(store, c);
    var es := CallEvents(store, c);
    if |es| == 1 {
      EntriesOfOne(es[0]);
    } else if |es| == 2 {
      EntriesOfTwo(es[0], es[1]);
    }
  }

  lemma EntriesOfOne(e: Event)
    requires e.Put?
    ensures Entries([e]) == map[e.key := e.value]
  {
    assert [e][..0] == [];
  }

  lemma EntriesOfTwo(e: Event, f: Event)
    requires e.Put? && f.Put?
    ensures Entries([e, f]) == map[e.key := e.value, f.key := f.value]
  {
    EntriesOfOne(e);
    assert [e, f][..1] == [e];
  }

  /** The events of a call leave exactly its writes in the store. */
  lemma CallEventsWrite(cfg: Config, s: Node, c: Call)
    requires ValidCall(c)
    ensures forall e :: e in CallEvents(s.store, c) ==> e.Put? && WellFormed(e.key)
    ensures StepAll(cfg, s, CallEvents(s.store, c)).store == s.store + Writes(s.store, c)
  {
    EntriesAreWrites(s.store, c);
    PutsWrite(cfg, s, CallEvents(s.store, c));
  }

  lemma PutWrites(cfg: Config, s: Node, k: Key, v: Value)
    requires WellFormed(k)
    ensures Step(cfg, s, Event.Put(k, v)).store == s.store[k := v]
  {
    HookKeepsStore(cfg, s.(store := s.store[k := v]), k, v);
  }

  lemma {:induction false} RunAppends(cfg: Config, es: seq<Event>, fs: seq<Event>)
    requires Legal(cfg, es) && forall f :: f in fs ==> f.Put? && WellFormed(f.key)
    ensures Legal(cfg, es + fs) && Run(cfg, es + fs) == StepAll(cfg, Run(cfg, es), fs)
  {
    if fs == [] {
      assert es + fs == es;
    } else {
      var n := |fs| - 1;
      assert (es + fs)[..|es + fs| - 1] == es + fs[..n];
      RunAppends(cfg, es, fs[..n]);
    }
  }

  /** Any run of group calls is a run of the replicated store, ending in the store the calls leave. */
  lemma {:induction false} CallsAreARun(cfg: Config, calls: seq<Call>)
    requires ValidRun(calls)
    ensures Legal(cfg, EventsOf(calls)) && Run(cfg, EventsOf(calls)).store == StoreAfter(calls)
  {
    if calls == [] {
    } else {
      LastIsValid(calls);
      var before, c := calls[..|calls| - 1], calls[|calls| - 1];
      CallsAreARun(cfg, before);
      var s := Run(cfg, EventsOf(before));
      CallEventsWrite(cfg, s, c);
      RunAppends(cfg, EventsOf(before), CallEvents(s.store, c));
    }
  }

  /** After any run of calls a node that was last given its own key finds all content of the group
      in the group's filter. */
  lemma MembersFilterHasContent(cfg: Config, calls: seq<Call>, groupID: string, tag: string)
    requires ValidRun(calls) && SlashFree(cfg.self) && SlashFree(groupID)
    requires LastKey(calls, cfg.self, groupID) == Some(cfg.key) && tag in LastContent(calls, groupID)
    ensures Legal(cfg, EventsOf(calls))
    ensures Bloom.Test(cfg.hash, FilterOf(Run(cfg, EventsOf(calls)).groups, groupID), tag)
  {
    CallsAreARun(cfg, calls);
    var s := Run(cfg, EventsOf(calls));
    MemberRecordIs(calls, cfg.self, groupID);
    IndexRecordIs(calls, groupID, tag);
    IndexKeyIsUnder(groupID, tag);
    var k := IndexKey(groupID, tag);
    assert k in s.store && Under(k, INDEX_PREFIX + "/" + groupID) && ParseMeta(s.store[k]).value.tag == tag;
    RunCovers(cfg, EventsOf(calls));
    Bloom.BitsTestPositive(cfg.hash, IndexTags(s.store, groupID), tag);
  }

  /** `checkMembership` after any run of calls: it accepts the node for a group exactly if the last key
      given to the node there is its own. */
  lemma MembershipIsLastGrant(cfg: Config, calls: seq<Call>, groupID: string)
    requires ValidRun(calls) && SlashFree(cfg.self) && SlashFree(groupID)
    ensures IsMember(cfg, StoreAfter(calls), groupID) <==> LastKey(calls, cfg.self, groupID) == Some(cfg.key)
  {
    MemberRecordIs(calls, cfg.self, groupID);
  }

  // ---------- calls write orderly, filed content ----------

  /** Plain content is added without a group. */
  ghost predicate PlainWithoutGroup(calls: seq<Call>) {
    forall c :: c in calls && c.TagContent? ==> c.meta.group == ""
  }

  lemma EventsAreFiled(store: Store, c: Call)
    requires ValidCall(c) && (c.TagContent? ==> c.meta.group == "")
    ensures forall e :: e in CallEvents(store, c) ==> e.Put? && Filed(e.key, e.value)
  {
    match c
    case CreateGroup(_, groupID, ownerID, _, _) => KeyFamilies(ownerID, groupID, "");
    case AddMember(_, newMemberID, groupID, _, _) => KeyFamilies(newMemberID, groupID, "");
    case AddContent(_, groupID, _, meta) =>
      KeyFamilies("", groupID, meta.tag);
      IDsAreNotEmpty(groupID);
    case TagContent(_, _) =>
  }

  lemma IDsAreNotEmpty(id: string)
    requires IsID(id)
    ensures id != ""
  {
    SplitSlash(id, "");
    assert id in [id];
  }

  lemma {:induction false} CallsAreFiled(calls: seq<Call>)
    requires ValidRun(calls) && PlainWithoutGroup(calls)
    ensures FiledRun(EventsOf(calls)) && forall e :: e in EventsOf(calls) ==> e.Put?
  {
    if calls == [] {
    } else {
      var before, c := calls[..|calls| - 1], calls[|calls| - 1];
      LastIsValid(calls);
      assert forall d :: d in before ==> d in calls;
      assert c in calls;
      CallsAreFiled(before);
      EventsAreFiled(StoreAfter(before), c);
    }
  }

  /** Tags stay out of the reserved families. */
  ghost predicate TagsArePlain(calls: seq<Call>) {
    forall c :: c in calls && (c.TagContent? || c.AddContent?) ==> IsPlainKey(NewKey(c.meta.tag))
  }

  lemma EventsArePlainlyTagged(store: Store, c: Call)
    requires c.TagContent? || c.AddContent? ==> IsPlainKey(NewKey(c.meta.tag))
    ensures PlainlyTagged(CallEvents(store, c))
  {
    assert |NewKey("")| == 1;
  }

  lemma {:induction false} CallsArePlainlyTagged(calls: seq<Call>)
    requires TagsArePlain(calls)
    ensures PlainlyTagged(EventsOf(calls))
  {
    if calls == [] {
    } else {
      var before, c := calls[..|calls| - 1], calls[|calls| - 1];
      assert forall d :: d in before ==> d in calls;
      assert c in calls;
      CallsArePlainlyTagged(before);
      EventsArePlainlyTagged(StoreAfter(before), c);
    }
  }

  /** So runs of calls meet what is asked for about convergence and about resumed downloads. */
  lemma {:induction false} CallsAreOrderly(calls: seq<Call>)
    requires ValidRun(calls) && PlainWithoutGroup(calls) && TagsArePlain(calls)
    ensures Convergence.Orderly(EventsOf(calls))
    ensures NamedRun(EventsOf(calls)) && PlainlyTagged(EventsOf(calls))
  {
    var es := EventsOf(calls);
    CallsAreFiled(calls);
    CallsArePlainlyTagged(calls);
    forall t | t in Convergence.AllTags(es) ensures NewKey(t) !in Convergence.RecordKeys(es) {
      var e :| e in es && e.Put? && ParseMeta(e.value).Some? && ParseMeta(e.value).value.tag == t;
    }
    forall e | e in es && e.Put? ensures Convergence.LabelledPut(e.key, e.value) && NamesGroup(e.key, e.value) {
      assert Filed(e.key, e.value);
    }
  }

  lemma IndexIsContent(calls: seq<Call>, groupID: string)
    requires ValidRun(calls) && SlashFree(groupID)
    ensures IndexTags(StoreAfter(calls), groupID) == LastContent(calls, groupID).Keys
  {
    var store, prefix := StoreAfter(calls), INDEX_PREFIX + "/" + groupID;
    forall t | t in IndexTags(store, groupID) ensures t in LastContent(calls, groupID) {
      var k :| k in store && Under(k, prefix) && ParseMeta(store[k]).Some? && ParseMeta(store[k]).value.tag == t;
      IndexKeyParses(groupID, k);
      IndexRecordIs(calls, groupID, TagOf(groupID, k));
    }
    forall t | t in LastContent(calls, groupID) ensures t in IndexTags(store, groupID) {
      var k := IndexKey(groupID, t);
      IndexRecordIs(calls, groupID, t);
      IndexKeyIsUnder(groupID, t);
      assert k in store && Under(k, prefix) && ParseMeta(store[k]).value.tag == t;
    }
  }

  /** After any run of calls the group's filter of a node last given its own key has exactly the bits of
      the tags of the group's content: no bit is missing, and none is there for anything else. */
  lemma {:induction false} MembersFilterIsContent(cfg: Config, calls: seq<Call>, groupID: string)
    requires ValidRun(calls) && PlainWithoutGroup(calls) && SlashFree(cfg.self) && SlashFree(groupID)
    requires LastKey(calls, cfg.self, groupID) == Some(cfg.key)
    ensures Legal(cfg, EventsOf(calls))
    ensures FilterOf(Run(cfg, EventsOf(calls)).groups, groupID)
         == Bloom.Bits(cfg.hash, LastContent(calls, groupID).Keys)
  {
    CallsAreARun(cfg, calls);
    CallsAreFiled(calls);
    MembershipIsLastGrant(cfg, calls, groupID);
    IndexIsTags(cfg, EventsOf(calls), groupID);
    MemberFilterIsExact(cfg, EventsOf(calls), groupID);
    IndexIsContent(calls, groupID);
  }

  /** Whoever adds content as itself has a filter of the group that holds the new tag, so there is one to
      advertise. */
  lemma ContributorHasFilter(cfg: Config, s: Node, t: Node, call: Call)
    requires ValidCall(call) && call.AddContent? && Succeeds(s.store, call) && Performed(cfg, s, t, call)
    requires call.peerID == cfg.self && call.key == cfg.key
    ensures call.groupID in t.groups && Bloom.Test(cfg.hash, t.groups[call.groupID].filter, call.meta.tag)
  {
    var g, m := call.groupID, call.meta.(group := call.groupID);
    var k, v := IndexKey(g, m.tag), ContentJson(m);
    var es := CallEvents(s.store, call);
    assert es[0] in es;
    CallEventsAreEnabled(s.store, call);
    StepAllOne(cfg, s, es[0]);
    IndexKeyIsUnder(g, m.tag);
    IndexKeyParses(g, k);
    GlobalFilter.MemberAfterPut(cfg, s.store, k, v, g);
    HookGrowsFilters(cfg, s.(store := s.store[k := v]), k, v, g);
    Bloom.SomePosition(cfg.hash, m.tag);
  }

  // ---------- the calls ----------

  /** The new group's identifier is a hash of its name and the time. */
  method CreateGroup(m: ReplicationManager, groupID: string, name: string, ownerID: string, ownerKey: string)
    returns (created: GroupMetadata)
    requires m.Ready() && ValidCall(Call.CreateGroup(name, groupID, ownerID, ownerKey, false))
    modifies m, m.repo, m.stateKeeper
    ensures var call := Call.CreateGroup(name, groupID, ownerID, ownerKey, false);
            && m.Ready() && Performed(m.cfg, old(m.S()), m.S(), call)
            && created == Metadata(call)
  {
    ghost var s, call := m.S(), Call.CreateGroup(name, groupID, ownerID, ownerKey, false);
    CallEventsWrite(m.cfg, s, call);
    created := StoreGroup(m, groupID, name, ownerID, ownerKey, false);
  }

  /** The records both kinds of groups begin with. */
  method StoreGroup(m: ReplicationManager, groupID: string, name: string, ownerID: string, ownerKey: string,
                    isOpen: bool)
    returns (created: GroupMetadata)
    requires m.Ready() && ValidCall(Call.CreateGroup(name, groupID, ownerID, ownerKey, isOpen))
    modifies m, m.repo, m.stateKeeper
    ensures var call := Call.CreateGroup(name, groupID, ownerID, ownerKey, isOpen);
            && m.Ready() && Performed(m.cfg, old(m.S()), m.S(), call)
            && created == Metadata(call)
  {
    ghost var s, call := m.S(), Call.CreateGroup(name, groupID, ownerID, ownerKey, isOpen);
    CallEventsWrite(m.cfg, s, call);
    created := GroupMetadata(name, ownerID, ownerKey, groupID, isOpen);
    ghost var es := CallEvents(s.store, call);
    assert es[0] in es && es[1] in es;
    StepAllTwo(m.cfg, s, es[0], es[1]);
    m.Put(GroupKey(groupID), GroupJson(created));
    m.Put(MemberKey(ownerID, groupID), PlainText(ownerKey));
  }

  /** The node after a call: its events have happened, and the store holds its writes. */
  ghost predicate Performed(cfg: Config, s: Node, t: Node, call: Call)
    requires ValidCall(call)
  {
    CallEventsWrite(cfg, s, call);
    t == StepAll(cfg, s, CallEvents(s.store, call)) && t.store == s.store + Writes(s.store, call)
  }

  /** An open group also gets a filter of its own at once. */
  method CreateOpenGroup(m: ReplicationManager, groupID: string, name: string, ownerID: string, ownerKey: string)
    returns (created: GroupMetadata)
    requires m.Ready() && ValidCall(Call.CreateGroup(name, groupID, ownerID, ownerKey, true))
    modifies m, m.repo, m.stateKeeper
    ensures var call := Call.CreateGroup(name, groupID, ownerID, ownerKey, true);
            && m.Ready() && created == Metadata(call)
            && exists t :: Performed(m.cfg, old(m.S()), t, call) && m.S() == GroupAdd(m.cfg, t, groupID, {})
  {
    created := StoreGroup(m, groupID, name, ownerID, ownerKey, true);
    ghost var t := m.S();
    m.RecordGroup(groupID, []);
    assert Elements([]) == {};
    assert m.S() == GroupAdd(m.cfg, t, groupID, {});
  }

  /** For an owner that creates its own group, the put hook has made that filter already. */
  lemma OpenGroupFilterIsThere(cfg: Config, s: Node, t: Node, call: Call)
    requires ValidCall(call) && call.CreateGroup? && call.ownerID == cfg.self && Performed(cfg, s, t, call)
    ensures GroupAdd(cfg, t, call.groupID, {}) == t
  {
    var es := CallEvents(s.store, call);
    CallEventsAreEnabled(s.store, call);
    assert es[0] in es && es[1] in es;
    StepAllTwo(cfg, s, es[0], es[1]);
    MemberKeyParses(cfg.self, call.groupID);
    OwnRecordMakesFilter(cfg, Step(cfg, s, es[0]), call.groupID, PlainText(call.ownerKey));
  }

  lemma OwnRecordMakesFilter(cfg: Config, s: Node, groupID: string, v: Value)
    requires SlashFree(cfg.self) && SlashFree(groupID) && WellFormed(MemberKey(cfg.self, groupID))
    ensures var t := Step(cfg, s, Event.Put(MemberKey(cfg.self, groupID), v)); GroupAdd(cfg, t, groupID, {}) == t
  {
    var k := MemberKey(cfg.self, groupID);
    MemberKeyParses(cfg.self, groupID);
    var s' := s.(store := s.store[k := v]);
    var t := GroupAdd(cfg, s', groupID, IndexTags(s'.store, groupID));
    assert t == Step(cfg, s, Event.Put(k, v));
    Bloom.BitsOfNone(cfg.hash);
    assert t.groups[groupID] == GroupState(FilterOf(t.groups, groupID) + Bloom.EMPTY, true);
    assert t.groups[groupID := t.groups[groupID]] == t.groups;
  }

  method Access(m: ReplicationManager, peerID: string, groupID: string, key: string)
    returns (error: Option<GroupError>)
    ensures error == Check(m.store, peerID, groupID, key)
  {
    if GroupKey(groupID) !in m.store || ParseGroup(m.store[GroupKey(groupID)]).None? {
      return Some(NoGroup);
    }
    var group := ParseGroup(m.store[GroupKey(groupID)]).value;
    if !group.isOpen {
      if group.ownerID != peerID {
        return Some(NotPermitted);
      }
    }
    error := Membership(m, peerID, groupID, key);
  }

  method Membership(m: ReplicationManager, peerID: string, groupID: string, key: string)
    returns (error: Option<GroupError>)
    ensures error == CheckMember(m.store, peerID, groupID, key)
  {
    var k := MemberKey(peerID, groupID);
    if k !in m.store {
      return Some(NoMemberRecord);
    }
    if m.store[k] != PlainText(key) {
      return Some(NotMember);
    }
    error := None;
  }

  method GroupAddMember(m: ReplicationManager, memberID: string, newMemberID: string, groupID: string,
                        memberKey: string, newKey: string)
    returns (error: Option<GroupError>)
    requires m.Ready() && ValidCall(AddMember(memberID, newMemberID, groupID, memberKey, newKey))
    modifies m, m.repo, m.stateKeeper
    ensures m.Ready() && error == Check(old(m.store), memberID, groupID, memberKey)
    ensures Performed(m.cfg, old(m.S()), m.S(), AddMember(memberID, newMemberID, groupID, memberKey, newKey))
  {
    ghost var s, call := m.S(), AddMember(memberID, newMemberID, groupID, memberKey, newKey);
    CallEventsWrite(m.cfg, s, call);
    error := Access(m, memberID, groupID, memberKey);
    if error.Some? {
      return;
    }
    ghost var es := CallEvents(s.store, call);
    assert es[0] in es;
    StepAllOne(m.cfg, s, es[0]);
    m.Put(MemberKey(newMemberID, groupID), PlainText(newKey));
  }

  method GroupAddContent(m: ReplicationManager, peerID: string, groupID: string, key: string, meta: Metatag)
    returns (error: Option<GroupError>)
    requires m.Ready() && ValidCall(AddContent(peerID, groupID, key, meta))
    modifies m, m.repo, m.stateKeeper
    ensures m.Ready() && error == Check(old(m.store), peerID, groupID, key)
    ensures Performed(m.cfg, old(m.S()), m.S(), AddContent(peerID, groupID, key, meta))
  {
    ghost var s, call := m.S(), AddContent(peerID, groupID, key, meta);
    CallEventsWrite(m.cfg, s, call);
    error := Access(m, peerID, groupID, key);
    if error.Some? {
      return;
    }
    ghost var es := CallEvents(s.store, call);
    assert es[0] in es;
    StepAllOne(m.cfg, s, es[0]);
    m.Put(IndexKey(groupID, meta.tag), ContentJson(meta.(group := groupID)));
  }

  method GroupGetInfo(m: ReplicationManager, peerID: string, groupID: string, key: string)
    returns (info: Option<GroupMetadata>, error: Option<GroupError>)
    ensures error == Check(m.store, peerID, groupID, key)
    ensures info == if error.None? then GroupRecord(m.store, groupID) else None
  {
    info := None;
    error := Access(m, peerID, groupID, key);
    if error.Some? {
      return;
    }
    info := ParseGroup(m.store[GroupKey(groupID)]);
  }

  /** The store answers a query in an order of its own, here `keys`. */
  method GroupGetAllContent(m: ReplicationManager, peerID: string, groupID: string, key: string, keys: seq<Key>)
    returns (indexes: seq<Metatag>, error: Option<GroupError>)
    requires Lists(m.store, INDEX_PREFIX + "/" + groupID, keys)
    ensures error == CheckMember(m.store, peerID, groupID, key)
    ensures indexes == if error.None? then Decoded(m.store, keys) else []
  {
    indexes := [];
    error := Membership(m, peerID, groupID, key);
    if error.Some? {
      return;
    }
    for i := 0 to |keys|
      invariant indexes == Decoded(m.store, keys[..i])
    {
      assert keys[..i + 1][..i] == keys[..i];
      var meta := ParseMeta(m.store[keys[i]]);
      if meta.Some? {
        indexes := indexes + [meta.value];
      }
    }
    assert keys[..|keys|] == keys;
  }

  method GroupGetAllGroups(m: ReplicationManager, ownerID: string, ownerKey: string, keys: seq<Key>)
    returns (groups: seq<GroupMetadata>)
    requires SlashFree(ownerID) && Lists(m.store, MEMBER_PREFIX + "/" + ownerID, keys)
    ensures forall k :: k in keys ==> k in m.store && |Split(k, SLASH)| >= 4
    ensures groups == JoinedGroups(m.store, ownerKey, keys)
  {
    forall k | k in keys ensures k in m.store && |Split(k, SLASH)| >= 4 {
      UnderMember(ownerID, k);
    }
    groups := [];
    for i := 0 to |keys|
      invariant groups == JoinedGroups(m.store, ownerKey, keys[..i])
    {
      assert keys[..i + 1][..i] == keys[..i];
      var k := keys[i];
      assert k in keys;
      if m.store[k] == PlainText(ownerKey) {
        var groupID := Split(k, SLASH)[3];
        if GroupKey(groupID) in m.store {
          var record := ParseGroup(m.store[GroupKey(groupID)]);
          if record.Some? {
            groups := groups + [record.value];
          }
        }
      }
    }
    assert keys[..|keys|] == keys;
  }

  const CRDT_STATUS := "datahop-crdt-status"

  /** The end of a mobile `GroupAdd`: the group's filter is advertised as the state. `textOf` writes the
      bits of a filter. */
  method AdvertiseGroup(m: ReplicationManager, service: Discovery.DiscoveryService, groupID: string,
                        textOf: Bloom.Filter -> string)
    returns (ok: bool)
    requires m.Ready() && service.Valid()
    modifies service, service.discovery, service.advertiser
    ensures service.Valid() && m.S() == old(m.S())
    ensures ok <==> groupID in m.S().groups
    ensures ok ==> Discovery.LastSent(service.advertiser.adverts, CRDT_STATUS) == textOf(m.S().groups[groupID].filter)
    ensures !ok ==> service.S() == old(service.S())
    ensures ok ==> service.S() == Discovery.Step(old(service.S()),
                     Discovery.Advertise(CRDT_STATUS, textOf(m.S().groups[groupID].filter)))
  {
    var state := m.stateKeeper.GetState(groupID);
    if state.None? {
      return false;
    }
    service.AddAdvertisingInfo(CRDT_STATUS, textOf(state.value.filter));
    ok := true;
  }
}
