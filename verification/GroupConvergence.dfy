/** What a group's filter holds, in every reachable state, and when two members hold the same one. */
module GroupConvergence {
  import opened Text
  import opened Bloom
  import opened Keys
  import opened ContentMatrix
  import opened StateKeeping
  import opened Replication
  import opened Downloads
  import opened GlobalFilter
  import opened GroupFilter

  type Event = Replication.Event

  // ---------- the filter is exact ----------

  /** The tags that one event should make the group's filter hold. */
  function GroupRecordedBy(c: Config, s: Node, e: Event, group: string): set<string>
    requires e.Put? ==> WellFormed(e.key)
  {
    match e
    case Put(k, v) =>
      if IsMemberKey(k) then
        if List(k)[1] == c.self && List(k)[2] == group then IndexTags(s.store, group) else {}
      else if IsIndexKey(k) && Accepted(c, s.store, k, v) && List(k)[1] == group then {ParseMeta(v).value.tag}
      else {}
    case Done(id, ok, _) =>
      if ok && id < |s.sent| && s.sent[id].group == group && group != "" then {s.sent[id].tag} else {}
    case Delete(_) => {}
    case Take(_, _) => {}
    case Launch(_, _) => {}
    case MarkStarted(_, _) => {}
    case Reconnect(_) => {}
    case Save => {}
    case Restart => {}
  }

  /** The tags recorded for the group by a run: those of its index whenever a membership of this node
      arrived, those of content accepted as a member, and those of the group's finished downloads. */
  ghost function GroupRecorded(c: Config, es: seq<Event>, group: string): set<string>
    requires Legal(c, es)
  {
    if es == [] then {}
    else
      var before := es[..|es| - 1];
      GroupRecorded(c, before, group) + GroupRecordedBy(c, Run(c, before), es[|es| - 1], group)
  }

  ghost predicate Adds(c: Config, s: Node, t: Node, group: string, tags: set<string>) {
    && FilterOf(t.groups, group) == FilterOf(s.groups, group) + Bits(c.hash, tags)
    && (s.groupsFile == s.groups ==> t.groupsFile == t.groups)
  }

  lemma GroupAddAdds(c: Config, s: Node, name: string, tags: set<string>, group: string)
    ensures Adds(c, s, GroupAdd(c, s, name, tags), group, if name == group then tags else {})
  {
    BitsOfNone(c.hash);
  }

  lemma AnnounceKeepsGroups(c: Config, s: Node, m: Metatag)
    ensures Announce(c, s, m).groups == s.groups && Announce(c, s, m).groupsFile == s.groupsFile
  {
  }

  lemma MemberPutAdds(c: Config, s: Node, k: Key, v: Value, group: string)
    requires IsMemberKey(k) && WellFormed(k)
    ensures Adds(c, s, Step(c, s, Put(k, v)), group, GroupRecordedBy(c, s, Put(k, v), group))
  {
    var s' := s.(store := s.store[k := v]);
    var name := List(k)[2];
    FamiliesAreDisjoint(k);
    MemberKeyIsNotUnderIndex(k, name);
    IndexTagsAfterPut(s.store, k, v, name);
    GroupAddAdds(c, s', name, IndexTags(s'.store, name), group);
    BitsOfNone(c.hash);
  }

  lemma ContentPutAdds(c: Config, s: Node, k: Key, v: Value, group: string)
    requires !IsMemberKey(k) && WellFormed(k)
    ensures Adds(c, s, Step(c, s, Put(k, v)), group, GroupRecordedBy(c, s, Put(k, v), group))
  {
    var s' := s.(store := s.store[k := v]);
    FamiliesAreDisjoint(k);
    BitsOfNone(c.hash);
    if ParseMeta(v).Some? {
      var m := ParseMeta(v).value;
      AnnounceKeepsGroups(c, s', m);
      if IsIndexKey(k) {
        MemberAfterPut(c, s.store, k, v, List(k)[1]);
        GroupAddAdds(c, s', List(k)[1], {m.tag}, group);
        AnnounceKeepsGroups(c, GroupAdd(c, s', List(k)[1], {m.tag}), m);
      }
    }
  }

  lemma DoneAdds(c: Config, s: Node, id: nat, ok: bool, now: int, group: string)
    requires Enabled(s, Done(id, ok, now))
    ensures Adds(c, s, Step(c, s, Done(id, ok, now)), group, GroupRecordedBy(c, s, Done(id, ok, now), group))
  {
    BitsOfNone(c.hash);
    if ok {
      var m, settled := s.sent[id], Settle(s, id, true);
      var marked := settled.(contents := Finished(settled.contents, m.hash, now));
      GroupAddAdds(c, marked, m.group, {m.tag}, group);
    }
  }

  lemma StepAdds(c: Config, s: Node, e: Event, group: string)
    requires Enabled(s, e) && s.groupsFile == s.groups
    ensures Adds(c, s, Step(c, s, e), group, GroupRecordedBy(c, s, e, group))
  {
    BitsOfNone(c.hash);
    match e
    case Put(k, v) =>
      if IsMemberKey(k) {
        MemberPutAdds(c, s, k, v, group);
      } else {
        ContentPutAdds(c, s, k, v, group);
      }
    case Done(id, ok, now) => DoneAdds(c, s, id, ok, now, group);
    case Delete(_) =>
    case Take(_, _) =>
    case Launch(_, _) =>
    case MarkStarted(_, _) =>
    case Reconnect(_) =>
    case Save =>
    case Restart =>
  }

  /** In every reachable state, restarts included, a group's filter has exactly the bits of the tags
      recorded for it, and the state file agrees with memory. */
  lemma {:induction false} GroupFilterIsExact(c: Config, es: seq<Event>, group: string)
    requires Legal(c, es)
    ensures FilterOf(Run(c, es).groups, group) == Bits(c.hash, GroupRecorded(c, es, group))
    ensures Run(c, es).groupsFile == Run(c, es).groups
  {
    if es == [] {
      BitsOfNone(c.hash);
    } else {
      var before, e := es[..|es| - 1], es[|es| - 1];
      GroupFilterIsExact(c, before, group);
      StepAdds(c, Run(c, before), e, group);
      BitsOfUnion(c.hash, GroupRecorded(c, before, group), GroupRecordedBy(c, Run(c, before), e, group));
    }
  }

  /** A restart finds every filter as it was. */
  lemma {:induction false} RestartFindsFilters(c: Config, es: seq<Event>)
    requires Legal(c, es)
    ensures var s, t := Run(c, es), Step(c, Run(c, es), Restart); t.global == s.global && t.groups == s.groups
  {
    GlobalFilterIsExact(c, es);
    GroupFilterIsExact(c, es, "");
  }

  /** A node keeps filters only of groups it is, or was, a member of: every state kept says so. */
  lemma {:induction false} StatesAreMemberships(c: Config, es: seq<Event>)
    requires Legal(c, es)
    ensures forall g :: g in Run(c, es).groups ==> Run(c, es).groups[g].membership
  {
    if es == [] {
    } else {
      var before, e := es[..|es| - 1], es[|es| - 1];
      StatesAreMemberships(c, before);
      GroupFilterIsExact(c, before, "");
      StepKeepsMemberships(c, Run(c, before), e);
    }
  }

  ghost predicate AllMembers(s: Node) {
    forall g :: g in s.groups ==> s.groups[g].membership
  }

  lemma StepKeepsMemberships(c: Config, s: Node, e: Event)
    requires Enabled(s, e) && AllMembers(s) && s.groupsFile == s.groups
    ensures AllMembers(Step(c, s, e))
  {
    if e.Put? {
      PutKeepsMemberships(c, s.(store := s.store[e.key := e.value]), e.key, e.value);
    }
  }

  lemma PutKeepsMemberships(c: Config, s: Node, k: Key, v: Value)
    requires WellFormed(k) && AllMembers(s)
    ensures AllMembers(PutHook(c, s, k, v))
  {
    FamiliesAreDisjoint(k);
    if ParseMeta(v).Some? {
      var m := ParseMeta(v).value;
      AnnounceKeepsGroups(c, s, m);
      if IsIndexKey(k) {
        AnnounceKeepsGroups(c, GroupAdd(c, s, List(k)[1], {m.tag}), m);
      }
    }
  }

  // ---------- members converge ----------

  /** What adding content writes: below an index only content, under its own group and tag. */
  predicate Filed(k: Key, v: Value) {
    var m := ParseMeta(v);
    if IsIndexKey(k) then m.Some? && m.value.group != "" && SlashFree(m.value.group)
                          && k == IndexKey(m.value.group, m.value.tag)
    else m.Some? ==> m.value.group == ""
  }

  ghost predicate FiledRun(es: seq<Event>) {
    forall e :: e in es && e.Put? ==> Filed(e.key, e.value)
  }

  /** The tags put below the group's index. */
  function GroupTag(e: Event, group: string): set<string> {
    if e.Put? && IsIndexKey(e.key) && ParseMeta(e.value).Some? && ParseMeta(e.value).value.group == group
    then {ParseMeta(e.value).value.tag} else {}
  }

  function GroupTags(es: seq<Event>, group: string): set<string> {
    if es == [] then {} else GroupTags(es[..|es| - 1], group) + GroupTag(es[|es| - 1], group)
  }

  ghost predicate StoreFiled(store: Store) {
    forall k :: k in store ==> Filed(k, store[k])
  }

  lemma FiledUnderIff(k: Key, v: Value, group: string)
    requires Filed(k, v) && SlashFree(group)
    ensures Under(k, INDEX_PREFIX + "/" + group) <==> IsIndexKey(k) && ParseMeta(v).value.group == group
    ensures IsIndexKey(k) ==> WellFormed(k) && List(k)[1] == ParseMeta(v).value.group
  {
    if IsIndexKey(k) {
      var m := ParseMeta(v).value;
      IndexKeyIsUnder(m.group, m.tag);
      IndexKeyParses(m.group, k);
    }
    if Under(k, INDEX_PREFIX + "/" + group) {
      IndexKeyParses(group, k);
    }
  }

  /** A filed put overwrites content only with content of the same tag. */
  lemma IndexTagsAfterFiledPut(store: Store, k: Key, v: Value, group: string)
    requires StoreFiled(store) && Filed(k, v) && SlashFree(group)
    ensures IndexTags(store[k := v], group) == IndexTags(store, group) + GroupTag(Event.Put(k, v), group)
  {
    var store', prefix := store[k := v], INDEX_PREFIX + "/" + group;
    IndexTagsAfterPut(store, k, v, group);
    FiledUnderIff(k, v, group);
    forall t | t in IndexTags(store, group) ensures t in IndexTags(store', group) {
      var x :| x in store && Under(x, prefix) && ParseMeta(store[x]).Some? && ParseMeta(store[x]).value.tag == t;
      SameKeySameTag(store, x, k, v, group);
      assert x in store';
    }
    if GroupTag(Event.Put(k, v), group) != {} {
      assert k in store' && Under(k, prefix) && store'[k] == v;
    }
  }

  lemma SameKeySameTag(store: Store, x: Key, k: Key, v: Value, group: string)
    requires StoreFiled(store) && Filed(k, v) && SlashFree(group)
    requires x in store && Under(x, INDEX_PREFIX + "/" + group)
    ensures var now := store[k := v][x];
            ParseMeta(now).Some? && ParseMeta(store[x]).Some?
            && ParseMeta(now).value.tag == ParseMeta(store[x]).value.tag
  {
    FiledUnderIff(x, store[x], group);
    if x == k {
      var old', new' := ParseMeta(store[x]).value, ParseMeta(v).value;
      IndexKeysAreInjective(old'.group, old'.tag, new'.group, new'.tag);
    }
  }

  ghost predicate SentIndexed(sent: seq<Metatag>, tags: set<string>, group: string) {
    forall m :: m in sent && m.group == group && group != "" ==> m.tag in tags
  }

  /** The store holds filed values, and what is in the group's index, recorded for the group or handed to
      the channel for it is among the tags put. */
  ghost predicate Indexed(s: Node, recorded: set<string>, tags: set<string>, group: string) {
    && StoreFiled(s.store) && IndexTags(s.store, group) <= tags
    && recorded <= tags && SentIndexed(s.sent, tags, group)
  }

  lemma PutStaysIndexed(c: Config, s: Node, k: Key, v: Value, recorded: set<string>, tags: set<string>, group: string)
    requires Indexed(s, recorded, tags, group) && WellFormed(k) && Filed(k, v) && SlashFree(group)
    ensures var e: Event := Put(k, v);
            Indexed(Step(c, s, e), recorded + GroupRecordedBy(c, s, e, group), tags + GroupTag(e, group), group)
  {
    PutEffect(c, s, k, v);
    IndexTagsAfterFiledPut(s.store, k, v, group);
    PutRecordsIndexed(c, s, k, v, tags, group);
  }

  /** What a put records or hands over for the group is what it writes, or was in the index before. */
  lemma PutRecordsIndexed(c: Config, s: Node, k: Key, v: Value, tags: set<string>, group: string)
    requires WellFormed(k) && Filed(k, v) && SlashFree(group) && IndexTags(s.store, group) <= tags
    ensures GroupRecordedBy(c, s, Put(k, v), group) <= tags + GroupTag(Event.Put(k, v), group)
    ensures SentIndexed(Handed(c, s, k, v), tags + GroupTag(Event.Put(k, v), group), group)
  {
    FiledUnderIff(k, v, group);
    FamiliesAreDisjoint(k);
  }

  lemma {:induction false} ResumedAreIndexed(s: Node, order: seq<Hash>, group: string)
    requires forall h :: h in order ==> h in s.contents
    requires StoreFiled(s.store) && SlashFree(group)
    ensures SentIndexed(Resumed(s, order), IndexTags(s.store, group), group)
  {
    if order == [] {
    } else {
      ResumedAreIndexed(s, order[..|order| - 1], group);
      var k := NewKey(s.contents[order[|order| - 1]].tag);
      if k in s.store {
        FiledUnderIff(k, s.store[k], group);
      }
    }
  }

  lemma DoneStaysIndexed(c: Config, s: Node, id: nat, now: int, recorded: set<string>, tags: set<string>, group: string)
    requires Indexed(s, recorded, tags, group) && Enabled(s, Done(id, true, now))
    ensures var e: Event := Done(id, true, now);
            Indexed(Step(c, s, e), recorded + GroupRecordedBy(c, s, e, group), tags, group)
  {
    var m, settled := s.sent[id], Settle(s, id, true);
    CallbackKeepsDownloads(c, settled, m, now);
    assert m in s.sent;
    assert Callback(c, settled, m, now).store == s.store;
  }

  lemma StepStaysIndexed(c: Config, s: Node, e: Event, recorded: set<string>, tags: set<string>, group: string)
    requires Indexed(s, recorded, tags, group) && Enabled(s, e) && FiledRun([e]) && SlashFree(group)
    ensures Indexed(Step(c, s, e), recorded + GroupRecordedBy(c, s, e, group), tags + GroupTag(e, group), group)
  {
    assert e in [e];
    match e
    case Put(k, v) => PutStaysIndexed(c, s, k, v, recorded, tags, group);
    case Reconnect(order) =>
      OrderVisitsRecords(s, order);
      ResumedAreIndexed(s, order, group);
    case Delete(k) => IndexTagsAfterDelete(s.store, k, group);
    case Done(id, ok, now) =>
      if ok {
        DoneStaysIndexed(c, s, id, now, recorded, tags, group);
      }
    case Take(_, _) =>
    case Launch(_, _) =>
    case MarkStarted(_, _) =>
    case Save =>
    case Restart =>
  }

  lemma {:induction false} RunStaysIndexed(c: Config, es: seq<Event>, group: string)
    requires Legal(c, es) && FiledRun(es) && SlashFree(group)
    ensures Indexed(Run(c, es), GroupRecorded(c, es, group), GroupTags(es, group), group)
  {
    if es == [] {
    } else {
      var before, e := es[..|es| - 1], es[|es| - 1];
      assert forall f :: f in before ==> f in es;
      assert e in es;
      RunStaysIndexed(c, before, group);
      StepStaysIndexed(c, Run(c, before), e, GroupRecorded(c, before, group), GroupTags(before, group), group);
    }
  }

  /** The filter never has a bit that no tag put below the group's index has; so it has exactly their bits
      if and only if all of them test positive. Deletions are free. */
  lemma {:induction false} GroupFilterIsTagsIff(c: Config, es: seq<Event>, group: string)
    requires Legal(c, es) && FiledRun(es) && SlashFree(group)
    ensures FilterOf(Run(c, es).groups, group) <= Bits(c.hash, GroupTags(es, group))
    ensures FilterOf(Run(c, es).groups, group) == Bits(c.hash, GroupTags(es, group))
       <==> AllTestPositive(c.hash, FilterOf(Run(c, es).groups, group), GroupTags(es, group))
  {
    RunStaysIndexed(c, es, group);
    GroupFilterIsExact(c, es, group);
    BitsAreMonotone(c.hash, GroupRecorded(c, es, group), GroupTags(es, group));
    BitsInsideIff(c.hash, FilterOf(Run(c, es).groups, group), GroupTags(es, group));
  }

  /** Two nodes hold equal filters of a group exactly if what each has recorded for it tests positive at
      the other, over any two runs. */
  lemma {:induction false} GroupFiltersAgreeIff(c: Config, es: seq<Event>, d: Config, fs: seq<Event>, group: string)
    requires c.hash == d.hash && Legal(c, es) && Legal(d, fs)
    ensures FilterOf(Run(c, es).groups, group) == FilterOf(Run(d, fs).groups, group) <==>
              && AllTestPositive(c.hash, FilterOf(Run(d, fs).groups, group), GroupRecorded(c, es, group))
              && AllTestPositive(c.hash, FilterOf(Run(c, es).groups, group), GroupRecorded(d, fs, group))
  {
    GroupFilterIsExact(c, es, group);
    GroupFilterIsExact(d, fs, group);
    BitsInsideIff(c.hash, FilterOf(Run(d, fs).groups, group), GroupRecorded(c, es, group));
    BitsInsideIff(c.hash, FilterOf(Run(c, es).groups, group), GroupRecorded(d, fs, group));
  }

  // ---------- deletions that cost a member no tag ----------

  /** Content of the group is deleted only while the node is a member. Other deletions are free. */
  ghost predicate DeletedAsMember(c: Config, es: seq<Event>, group: string)
    requires Legal(c, es)
  {
    es == [] ||
    var before, e := es[..|es| - 1], es[|es| - 1];
    && DeletedAsMember(c, before, group)
    && (e.Delete? && Under(e.key, INDEX_PREFIX + "/" + group) ==> IsMember(c, Run(c, before).store, group))
  }

  ghost predicate NothingDeletedBelow(es: seq<Event>, group: string) {
    forall e :: e in es && e.Delete? ==> !Under(e.key, INDEX_PREFIX + "/" + group)
  }

  /** If nothing below the group's index is deleted, the index holds exactly the tags put, and deletions
      of anything else cost a member no tag. */
  lemma {:induction false} IndexIsTags(c: Config, es: seq<Event>, group: string)
    requires Legal(c, es) && FiledRun(es) && SlashFree(group) && NothingDeletedBelow(es, group)
    ensures IndexTags(Run(c, es).store, group) == GroupTags(es, group) && DeletedAsMember(c, es, group)
  {
    if es == [] {
    } else {
      var before, e := es[..|es| - 1], es[|es| - 1];
      assert es == before + [e];
      IndexIsTags(c, before, group);
      RunStaysIndexed(c, before, group);
      StepIndexTags(c, Run(c, before), e, group);
    }
  }

  lemma StepIndexTags(c: Config, s: Node, e: Event, group: string)
    requires Enabled(s, e) && StoreFiled(s.store) && FiledRun([e]) && SlashFree(group)
    requires NothingDeletedBelow([e], group)
    ensures IndexTags(Step(c, s, e).store, group) == IndexTags(s.store, group) + GroupTag(e, group)
  {
    assert e in [e];
    match e
    case Put(k, v) =>
      PutEffect(c, s, k, v);
      IndexTagsAfterFiledPut(s.store, k, v, group);
    case Delete(k) => IndexTagsAfterDeleteElsewhere(s.store, k, group);
    case Done(_, _, _) => assert Step(c, s, e).store == s.store;
    case Take(_, _) =>
    case Launch(_, _) =>
    case MarkStarted(_, _) =>
    case Reconnect(_) =>
    case Save =>
    case Restart =>
  }

  /** A member has recorded its whole index, and no tag ever put is lost outside it. */
  ghost predicate Kept(c: Config, s: Node, recorded: set<string>, tags: set<string>, group: string) {
    && (IsMember(c, s.store, group) ==> IndexTags(s.store, group) <= recorded)
    && tags <= recorded + IndexTags(s.store, group)
  }

  lemma PutKeepsTags(c: Config, s: Node, k: Key, v: Value, recorded: set<string>, tags: set<string>, group: string)
    requires Kept(c, s, recorded, tags, group) && StoreFiled(s.store) && WellFormed(k) && Filed(k, v)
    requires SlashFree(c.self) && SlashFree(group)
    ensures var e: Event := Put(k, v);
            Kept(c, Step(c, s, e), recorded + GroupRecordedBy(c, s, e, group), tags + GroupTag(e, group), group)
  {
    PutEffect(c, s, k, v);
    IndexTagsAfterFiledPut(s.store, k, v, group);
    FiledUnderIff(k, v, group);
    FamiliesAreDisjoint(k);
    MemberKeyParses(c.self, group);
  }

  lemma IndexTagsAfterDeleteElsewhere(store: Store, k: Key, group: string)
    requires !Under(k, INDEX_PREFIX + "/" + group)
    ensures IndexTags(store - {k}, group) == IndexTags(store, group)
  {
    var prefix := INDEX_PREFIX + "/" + group;
    IndexTagsAfterDelete(store, k, group);
    forall t | t in IndexTags(store, group) ensures t in IndexTags(store - {k}, group) {
      var x :| x in store && Under(x, prefix) && ParseMeta(store[x]).Some? && ParseMeta(store[x]).value.tag == t;
      assert x in store - {k};
    }
  }

  lemma DeleteKeepsTags(c: Config, s: Node, k: Key, recorded: set<string>, tags: set<string>, group: string)
    requires Kept(c, s, recorded, tags, group)
    requires Under(k, INDEX_PREFIX + "/" + group) ==> IsMember(c, s.store, group)
    ensures Kept(c, Step(c, s, Event.Delete(k)), recorded, tags, group)
  {
    IndexTagsAfterDelete(s.store, k, group);
    if !Under(k, INDEX_PREFIX + "/" + group) {
      IndexTagsAfterDeleteElsewhere(s.store, k, group);
    }
  }

  lemma StepKeepsTags(c: Config, s: Node, e: Event, recorded: set<string>, tags: set<string>, group: string)
    requires Kept(c, s, recorded, tags, group) && StoreFiled(s.store) && Enabled(s, e) && FiledRun([e])
    requires SlashFree(c.self) && SlashFree(group)
    requires e.Delete? && Under(e.key, INDEX_PREFIX + "/" + group) ==> IsMember(c, s.store, group)
    ensures Kept(c, Step(c, s, e), recorded + GroupRecordedBy(c, s, e, group), tags + GroupTag(e, group), group)
  {
    assert e in [e];
    match e
    case Put(k, v) => PutKeepsTags(c, s, k, v, recorded, tags, group);
    case Delete(k) => DeleteKeepsTags(c, s, k, recorded, tags, group);
    case Done(id, ok, now) => assert Step(c, s, e).store == s.store;
    case Take(_, _) =>
    case Launch(_, _) =>
    case MarkStarted(_, _) =>
    case Reconnect(_) =>
    case Save =>
    case Restart =>
  }

  lemma {:induction false} RunKeepsTags(c: Config, es: seq<Event>, group: string)
    requires Legal(c, es) && FiledRun(es) && DeletedAsMember(c, es, group)
    requires SlashFree(c.self) && SlashFree(group)
    ensures Kept(c, Run(c, es), GroupRecorded(c, es, group), GroupTags(es, group), group)
  {
    if es == [] {
    } else {
      var before, e := es[..|es| - 1], es[|es| - 1];
      assert forall f :: f in before ==> f in es;
      assert e in es;
      RunKeepsTags(c, before, group);
      RunStaysIndexed(c, before, group);
      StepKeepsTags(c, Run(c, before), e, GroupRecorded(c, before, group), GroupTags(before, group), group);
    }
  }

  /** The filter of a group that the node is a member of has exactly the bits of the tags ever put below
      the group's index, however late the membership came and whether or not downloads have ended, if
      content of the group was deleted only while the node was a member. */
  lemma {:induction false} MemberFilterIsExact(c: Config, es: seq<Event>, group: string)
    requires Legal(c, es) && FiledRun(es) && SlashFree(c.self) && SlashFree(group)
    requires DeletedAsMember(c, es, group) && IsMember(c, Run(c, es).store, group)
    ensures FilterOf(Run(c, es).groups, group) == Bits(c.hash, GroupTags(es, group))
  {
    RunStaysIndexed(c, es, group);
    RunKeepsTags(c, es, group);
    GroupFilterIsExact(c, es, group);
    assert GroupRecorded(c, es, group) == GroupTags(es, group);
  }

  /** Two such members that processed the same puts below a group's index, in any orders and repetitions,
      hold equal filters of the group. */
  lemma {:induction false} MembersConverge(c: Config, es: seq<Event>, d: Config, fs: seq<Event>, group: string)
    requires c.hash == d.hash && SlashFree(c.self) && SlashFree(d.self) && SlashFree(group)
    requires Legal(c, es) && FiledRun(es) && DeletedAsMember(c, es, group) && IsMember(c, Run(c, es).store, group)
    requires Legal(d, fs) && FiledRun(fs) && DeletedAsMember(d, fs, group) && IsMember(d, Run(d, fs).store, group)
    requires GroupTags(es, group) == GroupTags(fs, group)
    ensures FilterOf(Run(c, es).groups, group) == FilterOf(Run(d, fs).groups, group)
  {
    MemberFilterIsExact(c, es, group);
    MemberFilterIsExact(d, fs, group);
  }

  // ---------- a tag deleted before the membership ----------

  /** One more event. */
  lemma GroupSnoc(c: Config, es: seq<Event>, e: Event, group: string)
    requires Legal(c, es) && Enabled(Run(c, es), e) && FiledRun(es) && FiledRun([e])
    ensures Legal(c, es + [e]) && FiledRun(es + [e]) && Run(c, es + [e]) == Step(c, Run(c, es), e)
    ensures GroupRecorded(c, es + [e], group) == GroupRecorded(c, es, group) + GroupRecordedBy(c, Run(c, es), e, group)
    ensures GroupTags(es + [e], group) == GroupTags(es, group) + GroupTag(e, group)
  {
    assert (es + [e])[..|es|] == es;
    assert e in [e];
  }

  lemma HeardAsStranger(c: Config, k: Key, v: Value) returns (es: seq<Event>)
    requires IsIndexKey(k) && WellFormed(k) && Filed(k, v)
    ensures es == [Put(k, v)] && Legal(c, es) && FiledRun(es) && Run(c, es).store == map[k := v]
    ensures GroupRecorded(c, es, ParseMeta(v).value.group) == {}
    ensures GroupTags(es, ParseMeta(v).value.group) == {ParseMeta(v).value.tag}
  {
    var e: Event := Put(k, v);
    es := [] + [e];
    FamiliesAreDisjoint(k);
    PutEffect(c, NEW_NODE, k, v);
    GroupSnoc(c, [], e, ParseMeta(v).value.group);
  }

  lemma Forgotten(c: Config, k: Key, v: Value) returns (es: seq<Event>)
    requires IsIndexKey(k) && WellFormed(k) && Filed(k, v)
    ensures es == [Put(k, v), Event.Delete(k)] && Legal(c, es) && FiledRun(es) && Run(c, es).store == map[]
    ensures GroupRecorded(c, es, ParseMeta(v).value.group) == {}
    ensures GroupTags(es, ParseMeta(v).value.group) == {ParseMeta(v).value.tag}
  {
    es := HeardAsStranger(c, k, v);
    GroupSnoc(c, es, Event.Delete(k), ParseMeta(v).value.group);
    es := es + [Event.Delete(k)];
  }

  /** Joining adds what the index holds then: nothing, if the store is empty. */
  lemma JoinEmpty(c: Config, es: seq<Event>, group: string)
    requires Legal(c, es) && FiledRun(es) && SlashFree(c.self) && SlashFree(group) && Run(c, es).store == map[]
    ensures var longer := es + [Put(MemberKey(c.self, group), PlainText(c.key))];
            && Legal(c, longer) && FiledRun(longer) && IsMember(c, Run(c, longer).store, group)
            && GroupRecorded(c, longer, group) == GroupRecorded(c, es, group)
            && GroupTags(longer, group) == GroupTags(es, group)
  {
    var own, v := MemberKey(c.self, group), PlainText(c.key);
    MemberKeyParses(c.self, group);
    FamiliesAreDisjoint(own);
    PutEffect(c, Run(c, es), own, v);
    GroupSnoc(c, es, Put(own, v), group);
    assert IndexTags(map[], group) == {};
  }

  /** A node that joins after content of the group was deleted has none of its tag's bits, unlike a member
      that was there before. */
  lemma LateMemberMissesDeleted(c: Config, m: Metatag) returns (es: seq<Event>)
    requires SlashFree(c.self) && SlashFree(m.group) && m.group != ""
    ensures var k, own := IndexKey(m.group, m.tag), MemberKey(c.self, m.group);
            es == [Put(k, ContentJson(m)), Event.Delete(k)] + [Put(own, PlainText(c.key))]
    ensures Legal(c, es) && FiledRun(es) && IsMember(c, Run(c, es).store, m.group)
    ensures GroupTags(es, m.group) == {m.tag} && FilterOf(Run(c, es).groups, m.group) == EMPTY
    ensures !AllTestPositive(c.hash, EMPTY, GroupTags(es, m.group))
  {
    var k := IndexKey(m.group, m.tag);
    IndexKeyIsUnder(m.group, m.tag);
    IndexKeyParses(m.group, k);
    es := Forgotten(c, k, ContentJson(m));
    JoinEmpty(c, es, m.group);
    es := es + [Put(MemberKey(c.self, m.group), PlainText(c.key))];
    GroupFilterIsExact(c, es, m.group);
    BitsOfNone(c.hash);
    SomePosition(c.hash, m.tag);
  }
}
