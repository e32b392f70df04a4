/** When two nodes end with the same global filter. */
module Convergence {
  import opened Bloom
  import opened Keys
  import opened ContentMatrix
  import opened Replication
  import opened GlobalFilter

  type Event = Replication.Event

  // ---------- runs ----------

  predicate IsRecordKey(k: Key) {
    IsMemberKey(k) || IsGroupKey(k)
  }

  /** Content below a group's index names a group, plain content does not. */
  predicate LabelledPut(k: Key, v: Value) {
    ParseMeta(v).Some? && !IsRecordKey(k) ==> (IsIndexKey(k) <==> ParseMeta(v).value.group != "")
  }

  ghost predicate Labelled(es: seq<Event>) {
    forall e :: e in es && e.Put? ==> LabelledPut(e.key, e.value)
  }

  /** Tags of all values put that decode. */
  ghost function AllTags(es: seq<Event>): set<string> {
    set e | e in es && e.Put? && ParseMeta(e.value).Some? :: ParseMeta(e.value).value.tag
  }

  /** Keys of groups and memberships put. */
  ghost function RecordKeys(es: seq<Event>): set<Key> {
    set e | e in es && e.Put? && IsRecordKey(e.key) :: e.key
  }

  ghost predicate Apart(tags: set<string>, keys: set<Key>) {
    forall t :: t in tags ==> NewKey(t) !in keys
  }

  /** Content is labelled, and no tag is itself the key of a group or a membership. */
  ghost predicate Orderly(es: seq<Event>) {
    Labelled(es) && Apart(AllTags(es), RecordKeys(es))
  }

  /** The tags of the plain content put in a run. */
  ghost function PlainTags(es: seq<Event>): set<string> {
    set e | e in es && e.Put? && IsPlainKey(e.key) && ParseMeta(e.value).Some? :: ParseMeta(e.value).value.tag
  }

  /** The markers of the keys deleted in a run. */
  ghost function Markers(es: seq<Event>): set<string> {
    set e | e in es && e.Delete? :: RemovalMarker(e.key)
  }

  function OwnGroupTag(c: Config, s: Node, e: Event): set<string>
    requires e.Put? ==> WellFormed(e.key)
  {
    if e.Put? && IsIndexKey(e.key) then RecordedBy(c, s, e) else {}
  }

  /** The tags of the group content that this node accepted as a member and did not have to download. */
  ghost function OwnGroupTags(c: Config, es: seq<Event>): set<string>
    requires Legal(c, es)
  {
    if es == [] then {}
    else
      var before := es[..|es| - 1];
      OwnGroupTags(c, before) + OwnGroupTag(c, Run(c, before), es[|es| - 1])
  }

  ghost predicate TagFinished(s: Node, tag: string) {
    exists id: nat :: id in s.finished && id < |s.sent| && s.sent[id].tag == tag && s.sent[id].group == ""
  }

  /** Whatever plain content was handed to the channel has been downloaded by now, at the first attempt
      or later. */
  ghost predicate Settled(s: Node) {
    forall m :: m in s.sent && m.group == "" ==> TagFinished(s, m.tag)
  }

  // ---------- the invariant of a run ----------

  /** What a run has put, deleted and recorded so far. */
  datatype Summary = Summary(recorded: set<string>, plain: set<string>, own: set<string>, markers: set<string>,
                             tags: set<string>, keys: set<Key>)

  ghost function SummaryOf(c: Config, es: seq<Event>): Summary
    requires Legal(c, es)
  {
    Summary(Recorded(c, es), PlainTags(es), OwnGroupTags(c, es), Markers(es), AllTags(es), RecordKeys(es))
  }

  ghost function Next(c: Config, s: Node, e: Event, z: Summary): Summary
    requires e.Put? ==> WellFormed(e.key)
  {
    Summary(z.recorded + RecordedBy(c, s, e), z.plain + PlainTags([e]), z.own + OwnGroupTag(c, s, e),
            z.markers + Markers([e]), z.tags + AllTags([e]), z.keys + RecordKeys([e]))
  }

  lemma SummaryGrows(c: Config, es: seq<Event>)
    requires Legal(c, es) && es != []
    ensures var before := es[..|es| - 1];
            SummaryOf(c, es) == Next(c, Run(c, before), es[|es| - 1], SummaryOf(c, before))
  {
    var before, e := es[..|es| - 1], es[|es| - 1];
    assert es == before + [e];
    assert PlainTags(es) == PlainTags(before) + PlainTags([e]);
    assert Markers(es) == Markers(before) + Markers([e]);
    assert AllTags(es) == AllTags(before) + AllTags([e]);
    assert RecordKeys(es) == RecordKeys(before) + RecordKeys([e]);
  }

  predicate FromPuts(z: Summary, m: Metatag) {
    m.tag in z.tags && (m.group == "" ==> m.tag in z.plain)
  }

  predicate SetsTrack(z: Summary) {
    z.recorded <= z.plain + z.own + z.markers && z.markers <= z.recorded && z.own <= z.recorded
  }

  ghost predicate SentTracks(sent: seq<Metatag>, z: Summary) {
    && (forall t :: t in z.plain ==> t in z.recorded || exists m :: m in sent && m.tag == t && m.group == "")
    && (forall m :: m in sent ==> FromPuts(z, m))
  }

  ghost predicate StoreTracks(store: Store, z: Summary) {
    forall k :: k in store ==>
      if IsRecordKey(k) then k in z.keys else ParseMeta(store[k]).Some? ==> FromPuts(z, ParseMeta(store[k]).value)
  }

  ghost predicate TagsKnown(contents: Contents, tags: set<string>) {
    forall h :: h in contents ==> contents[h].tag == "" || contents[h].tag in tags
  }

  ghost predicate FinishedTracks(s: Node, recorded: set<string>) {
    forall id: nat :: id in s.finished ==>
      id < |s.sent| && (s.sent[id].group == "" ==> s.sent[id].tag in recorded)
  }

  ghost predicate Tracks(s: Node, z: Summary) {
    && SetsTrack(z) && SentTracks(s.sent, z) && StoreTracks(s.store, z)
    && TagsKnown(s.contents, z.tags) && TagsKnown(s.contentsFile, z.tags) && FinishedTracks(s, z.recorded)
  }

  // ---------- one step ----------

  lemma PutSummary(c: Config, s: Node, k: Key, v: Value, z: Summary)
    requires WellFormed(k)
    ensures var m, next, e := ParseMeta(v), Next(c, s, Put(k, v), z), Put(k, v);
            && next.markers == z.markers
            && next.recorded == z.recorded + RecordedBy(c, s, e) && next.own == z.own + OwnGroupTag(c, s, e)
            && next.tags == (if m.Some? then z.tags + {m.value.tag} else z.tags)
            && next.plain == (if IsPlainKey(k) && m.Some? then z.plain + {m.value.tag} else z.plain)
            && next.keys == (if IsRecordKey(k) then z.keys + {k} else z.keys)
  {
    var e: Event := Put(k, v);
    assert e in [e];
    assert Markers([e]) == {};
    if ParseMeta(v).Some? {
      assert AllTags([e]) == {ParseMeta(v).value.tag};
      assert PlainTags([e]) == if IsPlainKey(k) then {ParseMeta(v).value.tag} else {};
    } else {
      assert AllTags([e]) == {} && PlainTags([e]) == {};
    }
    assert RecordKeys([e]) == if IsRecordKey(k) then {k} else {};
  }

  lemma OtherSummary(c: Config, s: Node, e: Event, z: Summary)
    requires !e.Put?
    ensures var next := Next(c, s, e, z);
            && next == z.(recorded := z.recorded + RecordedBy(c, s, e), markers := z.markers + Markers([e]))
            && (!e.Delete? ==> next.markers == z.markers)
  {
    assert PlainTags([e]) == {} && AllTags([e]) == {} && RecordKeys([e]) == {};
    if !e.Delete? {
      assert Markers([e]) == {};
    }
  }

  predicate Within(z: Summary, w: Summary) {
    && z.recorded <= w.recorded && z.plain <= w.plain && z.own <= w.own && z.markers <= w.markers
    && z.tags <= w.tags && z.keys <= w.keys
  }

  lemma NextIsLarger(c: Config, s: Node, e: Event, z: Summary)
    requires e.Put? ==> WellFormed(e.key)
    ensures Within(z, Next(c, s, e, z))
  {
  }

  lemma StoreTracksPut(store: Store, k: Key, v: Value, z: Summary, w: Summary)
    requires StoreTracks(store, z) && Within(z, w)
    requires if IsRecordKey(k) then k in w.keys else ParseMeta(v).Some? ==> FromPuts(w, ParseMeta(v).value)
    ensures StoreTracks(store[k := v], w)
  {
  }

  lemma SentTracksPut(sent: seq<Metatag>, more: seq<Metatag>, z: Summary, w: Summary)
    requires SentTracks(sent, z) && Within(z, w) && forall m :: m in more ==> FromPuts(w, m)
    requires forall t :: t in w.plain ==>
      t in z.plain || t in w.recorded || exists m :: m in more && m.tag == t && m.group == ""
    ensures SentTracks(sent + more, w)
  {
    forall t | t in w.plain ensures t in w.recorded || exists m :: m in sent + more && m.tag == t && m.group == "" {
      if t !in w.recorded {
        var m :| (m in sent || m in more) && m.tag == t && m.group == "";
        assert m in sent + more;
      }
    }
  }

  lemma PutTracks(c: Config, s: Node, k: Key, v: Value, z: Summary)
    requires Tracks(s, z) && WellFormed(k) && LabelledPut(k, v)
    ensures Tracks(Step(c, s, Put(k, v)), Next(c, s, Put(k, v), z))
  {
    var w := Next(c, s, Put(k, v), z);
    var m := ParseMeta(v);
    PutEffect(c, s, k, v);
    PutSummary(c, s, k, v, z);
    NextIsLarger(c, s, Put(k, v), z);
    FamiliesAreDisjoint(k);
    StoreTracksPut(s.store, k, v, z, w);
    if Accepted(c, s.store, k, v) && IsForeign(c, m.value) {
      assert m.value in [m.value];
      SentTracksPut(s.sent, [m.value], z, w);
    } else {
      SentTracksPut(s.sent, [], z, w);
    }
  }

  lemma {:induction false} ResumedAreFromPuts(s: Node, order: seq<Hash>, z: Summary)
    requires forall h :: h in order ==> h in s.contents
    requires StoreTracks(s.store, z) && TagsKnown(s.contents, z.tags) && Apart(z.tags, z.keys)
    ensures forall m :: m in Resumed(s, order) ==> FromPuts(z, m)
  {
    if order == [] {
    } else {
      ResumedAreFromPuts(s, order[..|order| - 1], z);
      FoundIsFromPuts(s.store, s.contents[order[|order| - 1]].tag, z);
    }
  }

  lemma FoundIsFromPuts(store: Store, tag: string, z: Summary)
    requires StoreTracks(store, z) && Apart(z.tags, z.keys) && (tag == "" || tag in z.tags)
    ensures FindTag(store, tag).Some? ==> FromPuts(z, FindTag(store, tag).value)
  {
    if tag == "" {
      assert |NewKey(tag)| == 1;
    }
  }

  lemma ReconnectTracks(c: Config, s: Node, order: seq<Hash>, z: Summary)
    requires Tracks(s, z) && Apart(z.tags, z.keys) && Enabled(s, Reconnect(order))
    ensures Tracks(Step(c, s, Reconnect(order)), z)
  {
    OrderVisitsRecords(s, order);
    ResumedAreFromPuts(s, order, z);
    SentTracksPut(s.sent, Resumed(s, order), z, z);
  }

  lemma DoneTracks(c: Config, s: Node, id: nat, now: int, z: Summary)
    requires Tracks(s, z) && Enabled(s, Done(id, true, now))
    ensures Tracks(Step(c, s, Done(id, true, now)), z.(recorded := z.recorded + RecordedBy(c, s, Done(id, true, now))))
  {
    var m, t := s.sent[id], Step(c, s, Done(id, true, now));
    assert FromPuts(z, m);
    assert t.sent == s.sent && t.store == s.store && t.finished == s.finished + {id};
    assert t.contents == Finished(s.contents, m.hash, now) && t.contentsFile == s.contentsFile;
  }

  lemma ContentsTrack(c: Config, s: Node, e: Event, z: Summary)
    requires Tracks(s, z) && Enabled(s, e) && (e.Take? || e.MarkStarted?)
    ensures Tracks(Step(c, s, e), z)
  {
    var t := Step(c, s, e);
    assert s.sent[e.id] in s.sent;
    if e.Take? {
      assert TagsKnown(NewContent(s.contents, s.sent[e.id].hash), z.tags);
    }
    assert t.sent == s.sent && t.store == s.store && t.finished == s.finished;
  }

  lemma StepTracks(c: Config, s: Node, e: Event, z: Summary)
    requires Tracks(s, z) && Enabled(s, e) && Labelled([e]) && Apart(z.tags, z.keys)
    ensures Tracks(Step(c, s, e), Next(c, s, e, z))
  {
    assert e in [e];
    if e.Put? {
      PutTracks(c, s, e.key, e.value, z);
    } else {
      OtherSummary(c, s, e, z);
      assert !e.Delete? && !e.Done? ==> z.recorded + RecordedBy(c, s, e) == z.recorded;
      match e
      case Reconnect(order) => ReconnectTracks(c, s, order, z);
      case Done(id, ok, now) =>
        if ok {
          DoneTracks(c, s, id, now, z);
        } else {
          assert z.recorded + RecordedBy(c, s, e) == z.recorded;
        }
      case Delete(k) => DeleteTracks(c, s, k, z);
      case Take(_, _) => ContentsTrack(c, s, e, z);
      case MarkStarted(_, _) => ContentsTrack(c, s, e, z);
      case Launch(_, _) =>
      case Save =>
      case Restart =>
    }
  }

  lemma DeleteTracks(c: Config, s: Node, k: Key, z: Summary)
    requires Tracks(s, z)
    ensures Tracks(Step(c, s, Event.Delete(k)), Next(c, s, Event.Delete(k), z))
  {
    var e := Event.Delete(k);
    OtherSummary(c, s, e, z);
    assert e in [e];
    assert Markers([e]) == {RemovalMarker(k)};
    assert Step(c, s, e).store == s.store - {k};
  }

  lemma OrderlyPrefix(es: seq<Event>)
    requires Orderly(es) && es != []
    ensures Orderly(es[..|es| - 1]) && Labelled([es[|es| - 1]])
  {
    var before := es[..|es| - 1];
    assert forall e :: e in before ==> e in es;
    assert AllTags(before) <= AllTags(es) && RecordKeys(before) <= RecordKeys(es);
    assert es[|es| - 1] in es;
  }

  lemma {:induction false} RunTracks(c: Config, es: seq<Event>)
    requires Legal(c, es) && Orderly(es)
    ensures Tracks(Run(c, es), SummaryOf(c, es))
  {
    if es == [] {
    } else {
      var before := es[..|es| - 1];
      OrderlyPrefix(es);
      RunTracks(c, before);
      StepTracks(c, Run(c, before), es[|es| - 1], SummaryOf(c, before));
      SummaryGrows(c, es);
    }
  }

  // ---------- convergence ----------

  /** Once its downloads have settled, a node has recorded exactly the tags of the plain content, the
      group tags of its own, and the markers of the keys deleted. */
  lemma {:induction false} SettledRecordsAll(c: Config, es: seq<Event>)
    requires Legal(c, es) && Orderly(es) && Settled(Run(c, es))
    ensures Recorded(c, es) == PlainTags(es) + OwnGroupTags(c, es) + Markers(es)
  {
    RunTracks(c, es);
    var s, z := Run(c, es), SummaryOf(c, es);
    assert forall m :: m in s.sent && m.group == "" ==> TagFinished(s, m.tag);
  }

  /** The two nodes processed the same plain content and deletions, in any orders and repetitions, along
      with any group content, and have settled. */
  ghost predicate SettledAlike(c: Config, es: seq<Event>, d: Config, fs: seq<Event>) {
    && c.hash == d.hash
    && Legal(c, es) && Orderly(es) && Settled(Run(c, es))
    && Legal(d, fs) && Orderly(fs) && Settled(Run(d, fs))
    && PlainTags(es) == PlainTags(fs) && Markers(es) == Markers(fs)
  }

  lemma SettledFilter(c: Config, es: seq<Event>)
    requires Legal(c, es) && Orderly(es) && Settled(Run(c, es))
    ensures Run(c, es).global
         == Bits(c.hash, PlainTags(es)) + Bits(c.hash, OwnGroupTags(c, es)) + Bits(c.hash, Markers(es))
  {
    SettledRecordsAll(c, es);
    GlobalFilterIsExact(c, es);
    BitsOfUnion(c.hash, PlainTags(es) + OwnGroupTags(c, es), Markers(es));
    BitsOfUnion(c.hash, PlainTags(es), OwnGroupTags(c, es));
  }

  /** Two such nodes hold equal global filters exactly if the own group tags of each test positive at the
      other. */
  lemma {:induction false} SettledNodesAgreeIff(c: Config, es: seq<Event>, d: Config, fs: seq<Event>)
    requires SettledAlike(c, es, d, fs)
    ensures Run(c, es).global == Run(d, fs).global <==>
              && AllTestPositive(c.hash, Run(d, fs).global, OwnGroupTags(c, es))
              && AllTestPositive(c.hash, Run(c, es).global, OwnGroupTags(d, fs))
  {
    SettledFilter(c, es);
    SettledFilter(d, fs);
    BitsInsideIff(c.hash, Run(d, fs).global, OwnGroupTags(c, es));
    BitsInsideIff(c.hash, Run(c, es).global, OwnGroupTags(d, fs));
  }

  /** A node that has group content of its own and one that has none agree exactly if the first one's
      group tags happen to test positive in what the two share. */
  lemma {:induction false} OwnerAndReaderAgreeIff(c: Config, es: seq<Event>, d: Config, fs: seq<Event>)
    requires SettledAlike(c, es, d, fs) && OwnGroupTags(d, fs) == {}
    ensures Run(c, es).global == Run(d, fs).global <==>
              AllTestPositive(c.hash, Bits(c.hash, PlainTags(es) + Markers(es)), OwnGroupTags(c, es))
  {
    SettledNodesAgreeIff(c, es, d, fs);
    SettledFilter(d, fs);
    BitsOfNone(c.hash);
    BitsOfUnion(c.hash, PlainTags(es), Markers(es));
  }

  // ---------- nodes without groups ----------

  /** Only plain content is put; deletes, downloads, reconnects and restarts are free. */
  ghost predicate NonGroup(es: seq<Event>) {
    forall e :: e in es && e.Put? ==> IsPlainKey(e.key) && LabelledPut(e.key, e.value)
  }

  lemma {:induction false} NonGroupOwnsNone(c: Config, es: seq<Event>)
    requires Legal(c, es) && NonGroup(es)
    ensures OwnGroupTags(c, es) == {} && Orderly(es) && PlainTags(es) == AllTags(es)
  {
    assert RecordKeys(es) == {};
    if es == [] {
    } else {
      assert es == es[..|es| - 1] + [es[|es| - 1]];
      NonGroupOwnsNone(c, es[..|es| - 1]);
    }
  }

  /** Convergence: two nodes that processed the same non-group puts and deletes, in any orders and with
      any repetitions, and whose downloads have settled, hold bit for bit equal global filters. */
  lemma {:induction false} SettledNodesConverge(c: Config, es: seq<Event>, d: Config, fs: seq<Event>)
    requires c.hash == d.hash
    requires Legal(c, es) && NonGroup(es) && Settled(Run(c, es))
    requires Legal(d, fs) && NonGroup(fs) && Settled(Run(d, fs))
    requires AllTags(es) == AllTags(fs) && Markers(es) == Markers(fs)
    ensures Run(c, es).global == Run(d, fs).global
  {
    NonGroupOwnsNone(c, es);
    NonGroupOwnsNone(d, fs);
    SettledNodesAgreeIff(c, es, d, fs);
  }
}
