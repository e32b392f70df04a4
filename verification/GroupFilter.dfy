/** A member's group filter covers the group's index, whichever record arrived first. */
module GroupFilter {
  import opened Text
  import opened Bloom
  import opened Keys
  import opened StateKeeping
  import opened Replication
  import opened Downloads

  /** The filter of `group` has the bits of every tag stored under the group's index. */
  ghost predicate Covers(c: Config, s: Node, group: string) {
    Bits(c.hash, IndexTags(s.store, group)) <= FilterOf(s.groups, group)
  }

  ghost predicate MembersCovered(c: Config, s: Node) {
    forall group :: SlashFree(group) && IsMember(c, s.store, group) ==> Covers(c, s, group)
  }

  // ---------- what a write changes ----------

  lemma IndexTagsAfterPut(store: Store, k: Key, v: Value, group: string)
    ensures !Under(k, INDEX_PREFIX + "/" + group) ==> IndexTags(store[k := v], group) == IndexTags(store, group)
    ensures IndexTags(store[k := v], group)
         <= IndexTags(store, group) + if ParseMeta(v).Some? then {ParseMeta(v).value.tag} else {}
  {
    var store' := store[k := v];
    forall t | t in IndexTags(store', group)
      ensures t in IndexTags(store, group) || (ParseMeta(v).Some? && t == ParseMeta(v).value.tag)
    {
      var x :| x in store' && Under(x, INDEX_PREFIX + "/" + group) && ParseMeta(store'[x]).Some?
               && ParseMeta(store'[x]).value.tag == t;
      if x != k {
        assert x in store && store[x] == store'[x];
      }
    }
    if !Under(k, INDEX_PREFIX + "/" + group) {
      forall t | t in IndexTags(store, group) ensures t in IndexTags(store', group) {
        var x :| x in store && Under(x, INDEX_PREFIX + "/" + group) && ParseMeta(store[x]).Some?
                 && ParseMeta(store[x]).value.tag == t;
        assert x in store' && store'[x] == store[x];
      }
    }
  }

  lemma IndexTagsAfterDelete(store: Store, k: Key, group: string)
    ensures IndexTags(store - {k}, group) <= IndexTags(store, group)
  {
    var store' := store - {k};
    forall t | t in IndexTags(store', group) ensures t in IndexTags(store, group) {
      var x :| x in store' && Under(x, INDEX_PREFIX + "/" + group) && ParseMeta(store'[x]).Some?
               && ParseMeta(store'[x]).value.tag == t;
      assert x in store && store[x] == store'[x];
    }
  }

  lemma MemberKeyIsNotUnderIndex(k: Key, group: string)
    requires IsMemberKey(k)
    ensures !Under(k, INDEX_PREFIX + "/" + group)
  {
    FamiliesAreDisjoint(k);
    if Under(k, INDEX_PREFIX + "/" + group) {
      UnderIndexIsIndexKey(k, group);
    }
  }

  lemma UnderIndexIsIndexKey(k: Key, group: string)
    requires Under(k, INDEX_PREFIX + "/" + group)
    ensures IsIndexKey(k)
  {
    assert k[..|INDEX_PREFIX|] == (INDEX_PREFIX + "/" + group + "/")[..|INDEX_PREFIX|] == INDEX_PREFIX;
  }

  lemma BitsAreMonotone(hash: Bloom.TagHash, a: set<string>, b: set<string>)
    requires a <= b
    ensures Bits(hash, a) <= Bits(hash, b)
  {
    BitsOfUnion(hash, a, b);
    assert a + b == b;
  }

  /** The hook reads only records of other families than the one being written, so it does not
      matter whether it runs before or after the write takes effect. */
  lemma HookBeforeOrAfterWrite(c: Config, s: Node, k: Key, v: Value)
    requires WellFormed(k)
    ensures PutHook(c, s.(store := s.store[k := v]), k, v) == PutHook(c, s, k, v).(store := s.store[k := v])
  {
    FamiliesAreDisjoint(k);
    if IsMemberKey(k) {
      var group := List(k)[2];
      MemberKeyIsNotUnderIndex(k, group);
      IndexTagsAfterPut(s.store, k, v, group);
    } else if IsIndexKey(k) {
      var mk := MemberKey(c.self, List(k)[1]);
      assert mk[..|MEMBER_PREFIX|] == MEMBER_PREFIX;
      FamiliesAreDisjoint(mk);
    }
  }

  // ---------- one step ----------

  /** Filters only grow, and a put below the index of a group the node belongs to adds its tag. */
  lemma HookGrowsFilters(c: Config, s: Node, k: Key, v: Value, group: string)
    requires WellFormed(k)
    ensures FilterOf(s.groups, group) <= FilterOf(PutHook(c, s, k, v).groups, group)
    ensures s.groupsFile == s.groups ==> PutHook(c, s, k, v).groupsFile == PutHook(c, s, k, v).groups
    ensures IsIndexKey(k) && List(k)[1] == group && IsMember(c, s.store, group) && ParseMeta(v).Some? ==>
      Test(c.hash, FilterOf(PutHook(c, s, k, v).groups, group), ParseMeta(v).value.tag)
    ensures IsMemberKey(k) && List(k)[1] == c.self && List(k)[2] == group ==>
      Bits(c.hash, IndexTags(s.store, group)) <= FilterOf(PutHook(c, s, k, v).groups, group)
  {
    FamiliesAreDisjoint(k);
    if ParseMeta(v).Some? {
      BitsOfOne(c.hash, ParseMeta(v).value.tag);
    }
  }

  lemma PutCovers(c: Config, s: Node, k: Key, v: Value, group: string)
    requires SlashFree(c.self) && SlashFree(group) && WellFormed(k)
    requires IsMember(c, s.store, group) ==> Covers(c, s, group)
    ensures var t := Step(c, s, Put(k, v)); IsMember(c, t.store, group) ==> Covers(c, t, group)
  {
    var s' := s.(store := s.store[k := v]);
    var t := PutHook(c, s', k, v);
    HookGrowsFilters(c, s', k, v, group);
    HookKeepsStore(c, s', k, v);
    MemberKeyParses(c.self, group);
    if k != MemberKey(c.self, group) && IsMember(c, t.store, group) {
      IndexTagsAfterPut(s.store, k, v, group);
      if Under(k, INDEX_PREFIX + "/" + group) && ParseMeta(v).Some? {
        IndexKeyParses(group, k);
        PutBelowIndexCovers(c, s, t, group, ParseMeta(v).value.tag);
      } else {
        assert IndexTags(t.store, group) <= IndexTags(s.store, group);
        BitsAreMonotone(c.hash, IndexTags(t.store, group), IndexTags(s.store, group));
      }
    }
  }

  lemma PutBelowIndexCovers(c: Config, s: Node, t: Node, group: string, tag: string)
    requires Covers(c, s, group) && FilterOf(s.groups, group) <= FilterOf(t.groups, group)
    requires IndexTags(t.store, group) <= IndexTags(s.store, group) + {tag}
    requires Test(c.hash, FilterOf(t.groups, group), tag)
    ensures Covers(c, t, group)
  {
    BitsAreMonotone(c.hash, IndexTags(t.store, group), IndexTags(s.store, group) + {tag});
    BitsOfUnion(c.hash, IndexTags(s.store, group), {tag});
    BitsOfOne(c.hash, tag);
  }

  lemma DeleteCovers(c: Config, s: Node, k: Key, group: string)
    requires IsMember(c, s.store, group) ==> Covers(c, s, group)
    ensures var t := Step(c, s, Delete(k)); IsMember(c, t.store, group) ==> Covers(c, t, group)
  {
    IndexTagsAfterDelete(s.store, k, group);
    BitsAreMonotone(c.hash, IndexTags(s.store - {k}, group), IndexTags(s.store, group));
  }

  lemma CallbackGrowsFilters(c: Config, s: Node, m: Metatag, now: int, group: string)
    requires m.hash in s.contents
    ensures var t := Callback(c, s, m, now);
            && t.store == s.store && FilterOf(s.groups, group) <= FilterOf(t.groups, group)
            && (s.groupsFile == s.groups ==> t.groupsFile == t.groups)
  {
  }

  lemma StepCovers(c: Config, s: Node, e: Replication.Event)
    requires SlashFree(c.self) && Enabled(s, e) && s.groupsFile == s.groups && MembersCovered(c, s)
    ensures MembersCovered(c, Step(c, s, e)) && Step(c, s, e).groupsFile == Step(c, s, e).groups
  {
    var t := Step(c, s, e);
    if e.Put? {
      HookGrowsFilters(c, s.(store := s.store[e.key := e.value]), e.key, e.value, "");
      forall group | SlashFree(group) && IsMember(c, t.store, group) ensures Covers(c, t, group) {
        PutCovers(c, s, e.key, e.value, group);
      }
    } else if e.Delete? {
      forall group | SlashFree(group) && IsMember(c, t.store, group) ensures Covers(c, t, group) {
        DeleteCovers(c, s, e.key, group);
      }
    } else if e.Done? && e.ok {
      CallbackGrowsFilters(c, Settle(s, e.id, true), s.sent[e.id], e.now, "");
      forall group | SlashFree(group) && IsMember(c, t.store, group) ensures Covers(c, t, group) {
        CallbackGrowsFilters(c, Settle(s, e.id, true), s.sent[e.id], e.now, group);
        assert Covers(c, s, group);
      }
    } else {
      assert t.store == s.store && t.groups == s.groups && t.groupsFile == s.groupsFile;
      forall group | SlashFree(group) && IsMember(c, t.store, group) ensures Covers(c, t, group) {
        assert Covers(c, s, group);
      }
    }
  }

  lemma {:induction false} RunCovers(c: Config, es: seq<Replication.Event>)
    requires SlashFree(c.self) && Legal(c, es)
    ensures MembersCovered(c, Run(c, es)) && Run(c, es).groupsFile == Run(c, es).groups
  {
    if es == [] {
      assert forall group :: !IsMember(c, NEW_NODE.store, group);
    } else {
      RunCovers(c, es[..|es| - 1]);
      StepCovers(c, Run(c, es[..|es| - 1]), es[|es| - 1]);
    }
  }

  /** In every reachable state of a node whose stored membership record for a group holds its own key,
      the group's filter tests positive for every tag stored under the group's index, and so does the
      filter that a restart would load. */
  lemma MemberFilterCoversIndex(c: Config, es: seq<Replication.Event>, group: string, k: Key)
    requires SlashFree(c.self) && SlashFree(group) && Legal(c, es)
    requires IsMember(c, Run(c, es).store, group)
    requires k in Run(c, es).store && Under(k, INDEX_PREFIX + "/" + group) && ParseMeta(Run(c, es).store[k]).Some?
    ensures var s := Run(c, es);
            var tag := ParseMeta(s.store[k]).value.tag;
            && group in s.groups && Test(c.hash, s.groups[group].filter, tag)
            && group in s.groupsFile && Test(c.hash, s.groupsFile[group].filter, tag)
  {
    RunCovers(c, es);
    var s := Run(c, es);
    var tag := ParseMeta(s.store[k]).value.tag;
    assert Covers(c, s, group);
    assert tag in IndexTags(s.store, group);
    BitsTestPositive(c.hash, IndexTags(s.store, group), tag);
    SomePosition(c.hash, tag);
  }
}
