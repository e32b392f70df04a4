/** Which downloads a returning peer resumes. */
module Resumption {
  import opened Wrappers
  import opened Keys
  import opened ContentMatrix
  import opened Replication
  import opened Downloads
  import GlobalFilter

  type Event = Replication.Event

  /** Hashes with a completed download, as far as memory and the saved image remember. */
  datatype Completed = Completed(memory: set<Hash>, image: set<Hash>)

  ghost function CompletedBy(s: Node, before: Completed, e: Event): Completed
    requires Enabled(s, e)
  {
    match e
    case Done(id, ok, _) => if ok then before.(memory := before.memory + {s.sent[id].hash}) else before
    case Save => before.(image := before.memory)
    case Restart => before.(memory := before.image)
    case Put(_, _) => before
    case Delete(_) => before
    case Take(_, _) => before
    case Launch(_, _) => before
    case MarkStarted(_, _) => before
    case Reconnect(_) => before
  }

  ghost function CompletedIn(c: Config, es: seq<Event>): Completed
    requires Legal(c, es)
  {
    if es == [] then Completed({}, {})
    else CompletedBy(Run(c, es[..|es| - 1]), CompletedIn(c, es[..|es| - 1]), es[|es| - 1])
  }

  /** The finish stamps of the records say which hashes completed. */
  ghost predicate StampsMatch(contents: Contents, completed: set<Hash>) {
    && completed <= contents.Keys
    && forall h :: h in contents ==> (contents[h].finishedAt != 0 <==> h in completed)
  }

  lemma CallbackStamps(c: Config, s: Node, m: Metatag, now: int, completed: set<Hash>)
    requires m.hash in s.contents && now > 0 && StampsMatch(s.contents, completed)
    ensures StampsMatch(Callback(c, s, m, now).contents, completed + {m.hash})
    ensures Callback(c, s, m, now).contentsFile == s.contentsFile
  {
    assert Callback(c, s, m, now).contents == Finished(s.contents, m.hash, now);
  }

  lemma TakeStamps(contents: Contents, hash: Hash, providers: seq<PeerId>, completed: set<Hash>)
    requires StampsMatch(contents, completed)
    ensures StampsMatch(AddProviders(NewContent(contents, hash), hash, providers), completed)
  {
    assert StampsMatch(NewContent(contents, hash), completed);
  }

  lemma StepStamps(c: Config, s: Node, e: Event, done: Completed)
    requires Enabled(s, e)
    requires StampsMatch(s.contents, done.memory) && StampsMatch(s.contentsFile, done.image)
    ensures var t, next := Step(c, s, e), CompletedBy(s, done, e);
            StampsMatch(t.contents, next.memory) && StampsMatch(t.contentsFile, next.image)
  {
    match e
    case Put(k, v) => HookKeepsContents(c, s.(store := s.store[k := v]), k, v);
    case Take(id, providers) => TakeStamps(s.contents, s.sent[id].hash, providers, done.memory);
    case Done(id, ok, now) =>
      if ok {
        CallbackStamps(c, Settle(s, id, true), s.sent[id], now, done.memory);
      }
    case MarkStarted(_, _) =>
    case Delete(_) =>
    case Launch(_, _) =>
    case Reconnect(_) =>
    case Save =>
    case Restart =>
  }

  /** A record has a finish stamp exactly when a download of its hash completed. */
  lemma {:induction false} StampedIffCompleted(c: Config, es: seq<Event>)
    requires Legal(c, es)
    ensures StampsMatch(Run(c, es).contents, CompletedIn(c, es).memory)
    ensures StampsMatch(Run(c, es).contentsFile, CompletedIn(c, es).image)
  {
    if es == [] {
    } else {
      StampedIffCompleted(c, es[..|es| - 1]);
      StepStamps(c, Run(c, es[..|es| - 1]), es[|es| - 1], CompletedIn(c, es[..|es| - 1]));
    }
  }

  predicate HasFinished(s: Node, h: Hash) {
    h in s.contents && s.contents[h].finishedAt != 0
  }

  lemma FinishedIffInMemory(c: Config, es: seq<Event>, h: Hash)
    requires Legal(c, es)
    ensures HasFinished(Run(c, es), h) <==> h in CompletedIn(c, es).memory
  {
    StampedIffCompleted(c, es);
  }

  lemma StepKeepsFinished(c: Config, es: seq<Event>, h: Hash)
    requires Legal(c, es) && es != [] && es[|es| - 1] != Restart
    ensures HasFinished(Run(c, es[..|es| - 1]), h) ==> HasFinished(Run(c, es), h)
  {
    FinishedIffInMemory(c, es[..|es| - 1], h);
    FinishedIffInMemory(c, es, h);
  }

  /** From any moment on, a completed hash stays completed until the node restarts. */
  lemma {:induction false} CompletionIsPermanent(c: Config, es: seq<Event>, n: nat, h: Hash)
    requires Legal(c, es) && n <= |es| && forall i :: n <= i < |es| ==> es[i] != Restart
    ensures Legal(c, es[..n]) && (HasFinished(Run(c, es[..n]), h) ==> HasFinished(Run(c, es), h))
    decreases |es|
  {
    if n == |es| {
      assert es[..n] == es;
    } else {
      var before := es[..|es| - 1];
      assert before[..n] == es[..n];
      CompletionIsPermanent(c, before, n, h);
      StepKeepsFinished(c, es, h);
    }
  }

  /** The stamp is in memory and in the saved image. */
  predicate SavedFinished(s: Node, h: Hash) {
    HasFinished(s, h) && h in s.contentsFile && s.contentsFile[h].finishedAt != 0
  }

  lemma SavedIffInBoth(c: Config, es: seq<Event>, h: Hash)
    requires Legal(c, es)
    ensures SavedFinished(Run(c, es), h) <==> h in CompletedIn(c, es).memory && h in CompletedIn(c, es).image
  {
    StampedIffCompleted(c, es);
  }

  lemma StepKeepsSaved(c: Config, es: seq<Event>, h: Hash)
    requires Legal(c, es) && es != []
    ensures SavedFinished(Run(c, es[..|es| - 1]), h) ==> SavedFinished(Run(c, es), h)
  {
    SavedIffInBoth(c, es[..|es| - 1], h);
    SavedIffInBoth(c, es, h);
  }

  /** Once saved, a completion is permanent: over every continuation, restarts included. */
  lemma {:induction false} SavedCompletionIsPermanent(c: Config, es: seq<Event>, n: nat, h: Hash)
    requires Legal(c, es) && n <= |es|
    ensures Legal(c, es[..n]) && (SavedFinished(Run(c, es[..n]), h) ==> SavedFinished(Run(c, es), h))
    decreases |es|
  {
    if n == |es| {
      assert es[..n] == es;
    } else {
      var before := es[..|es| - 1];
      assert before[..n] == es[..n];
      SavedCompletionIsPermanent(c, before, n, h);
      StepKeepsSaved(c, es, h);
    }
  }

  /** A completion survives a restart exactly if the saved image has it. */
  lemma {:induction false} RestartKeepsIffSaved(c: Config, es: seq<Event>, h: Hash)
    requires Legal(c, es)
    ensures HasFinished(Step(c, Run(c, es), Restart), h) <==> h in CompletedIn(c, es).image
  {
    StampedIffCompleted(c, es);
  }

  // ---------- what a reconnect sends ----------

  /** The metadata that a value holds, field by field: content as it was stored; of a group's document
      only its name is metadata of content. */
  predicate Holds(v: Value, m: Metatag) {
    match v
    case ContentJson(content) => m == content
    case GroupJson(g) => m == Metatag("", 0, "", g.name, "", 0, "", false, "")
    case PlainText(_) => false
  }

  /** The store has the metadata under the tag. */
  predicate StoredUnder(store: Store, tag: string, m: Metatag) {
    NewKey(tag) in store && Holds(store[NewKey(tag)], m)
  }

  lemma FoundIffStored(store: Store, tag: string, m: Metatag)
    ensures FindTag(store, tag) == Some(m) <==> StoredUnder(store, tag, m)
  {
  }

  /** Whatever is stored for an unfinished record is resumed. */
  lemma {:induction false} StoredIsResumed(s: Node, order: seq<Hash>, h: Hash, m: Metatag)
    requires forall x :: x in order ==> x in s.contents
    requires h in order && s.contents[h].finishedAt == 0 && StoredUnder(s.store, s.contents[h].tag, m)
    ensures m in Resumed(s, order)
  {
    FoundIffStored(s.store, s.contents[h].tag, m);
    if order[|order| - 1] != h {
      StoredIsResumed(s, order[..|order| - 1], h, m);
    }
  }

  /** And nothing else is. */
  lemma {:induction false} ResumedIsStored(s: Node, order: seq<Hash>, m: Metatag)
    requires forall x :: x in order ==> x in s.contents
    requires m in Resumed(s, order)
    ensures exists h :: h in order && s.contents[h].finishedAt == 0 && StoredUnder(s.store, s.contents[h].tag, m)
  {
    var before, last := order[..|order| - 1], order[|order| - 1];
    if m in Resumed(s, before) {
      ResumedIsStored(s, before, m);
    } else {
      FoundIffStored(s.store, s.contents[last].tag, m);
      assert last in order;
    }
  }

  predicate Resumable(s: Node, h: Hash) {
    h in s.contents && s.contents[h].finishedAt == 0 && FindTag(s.store, s.contents[h].tag).Some?
  }

  function ResumableMeta(s: Node, h: Hash): Metatag
    requires Resumable(s, h)
  {
    FindTag(s.store, s.contents[h].tag).value
  }

  function ResumableHashes(s: Node, order: seq<Hash>): seq<Hash> {
    if order == [] then []
    else
      var h := order[|order| - 1];
      ResumableHashes(s, order[..|order| - 1]) + if Resumable(s, h) then [h] else []
  }

  lemma {:induction false} ResumableHashesAre(s: Node, order: seq<Hash>)
    requires forall i, j :: 0 <= i < j < |order| ==> order[i] != order[j]
    ensures var hs := ResumableHashes(s, order);
            && (forall h :: h in hs <==> h in order && Resumable(s, h))
            && (forall i, j :: 0 <= i < j < |hs| ==> hs[i] != hs[j])
  {
    if order == [] {
    } else {
      ResumableHashesAre(s, order[..|order| - 1]);
      assert order == order[..|order| - 1] + [order[|order| - 1]];
    }
  }

  lemma {:induction false} ResumedAre(s: Node, order: seq<Hash>)
    requires forall h :: h in order ==> h in s.contents
    ensures var ms, hs := Resumed(s, order), ResumableHashes(s, order);
            |ms| == |hs| && forall i :: 0 <= i < |hs| ==> Resumable(s, hs[i]) && ms[i] == ResumableMeta(s, hs[i])
  {
    if order == [] {
    } else {
      ResumedAre(s, order[..|order| - 1]);
    }
  }

  lemma {:induction false} NoRepeats(order: seq<Hash>, keys: set<Hash>)
    requires multiset(order) == multiset(keys)
    ensures forall i, j :: 0 <= i < j < |order| ==> order[i] != order[j]
    ensures forall h :: h in order <==> h in keys
  {
    forall h ensures h in order <==> h in keys {
      assert h in order <==> h in multiset(order);
    }
    if order == [] {
    } else {
      var n := |order| - 1;
      var last := order[n];
      assert order == order[..n] + [last];
      assert multiset(order) == multiset(order[..n]) + multiset{last};
      assert last in keys;
      forall h ensures multiset(order[..n])[h] == multiset(keys - {last})[h] {
        assert multiset(order)[h] == multiset(keys)[h];
      }
      NoRepeats(order[..n], keys - {last});
    }
  }

  /** Some metadata is stored under the record's tag. */
  ghost predicate HasStored(s: Node, h: Hash)
    requires h in s.contents
  {
    exists m :: StoredUnder(s.store, s.contents[h].tag, m)
  }

  /** A returning peer gets sent exactly one metadata for each hash whose download never completed and
      whose recorded tag is in the store: the metadata now stored under that tag, unchanged. */
  lemma {:induction false} ReconnectResumesUnfinished(c: Config, es: seq<Event>, order: seq<Hash>) returns (hs: seq<Hash>)
    requires Legal(c, es) && Enabled(Run(c, es), Reconnect(order))
    ensures var s, t := Run(c, es), Step(c, Run(c, es), Reconnect(order));
            && (forall i, j :: 0 <= i < j < |hs| ==> hs[i] != hs[j])
            && (forall h :: h in hs <==> h in s.contents && h !in CompletedIn(c, es).memory && HasStored(s, h))
            && |t.sent| == |s.sent| + |hs| && t.sent[..|s.sent|] == s.sent
            && (forall i :: 0 <= i < |hs| ==>
                hs[i] in s.contents && StoredUnder(s.store, s.contents[hs[i]].tag, t.sent[|s.sent| + i])
                && |s.sent| + i in t.waiting)
  {
    var s := Run(c, es);
    StampedIffCompleted(c, es);
    NoRepeats(order, s.contents.Keys);
    hs := UnfinishedStored(s, order);
    StoredAreSent(s, order, hs);
  }

  lemma UnfinishedStored(s: Node, order: seq<Hash>) returns (hs: seq<Hash>)
    requires forall i, j :: 0 <= i < j < |order| ==> order[i] != order[j]
    requires forall h :: h in order <==> h in s.contents
    ensures hs == ResumableHashes(s, order) && forall i, j :: 0 <= i < j < |hs| ==> hs[i] != hs[j]
    ensures forall h :: h in hs <==> h in s.contents && s.contents[h].finishedAt == 0 && HasStored(s, h)
  {
    hs := ResumableHashes(s, order);
    ResumableHashesAre(s, order);
    forall h | h in s.contents ensures Resumable(s, h) <==> s.contents[h].finishedAt == 0 && HasStored(s, h) {
      ResumableIffStored(s, h);
    }
  }

  lemma StoredAreSent(s: Node, order: seq<Hash>, hs: seq<Hash>)
    requires hs == ResumableHashes(s, order) && forall h :: h in order ==> h in s.contents
    ensures |Resumed(s, order)| == |hs|
    ensures forall i :: 0 <= i < |hs| ==>
      hs[i] in s.contents && StoredUnder(s.store, s.contents[hs[i]].tag, Resumed(s, order)[i])
  {
    ResumedAre(s, order);
    forall i | 0 <= i < |hs|
      ensures hs[i] in s.contents && StoredUnder(s.store, s.contents[hs[i]].tag, Resumed(s, order)[i])
    {
      FoundIffStored(s.store, s.contents[hs[i]].tag, Resumed(s, order)[i]);
    }
  }

  lemma ResumableIffStored(s: Node, h: Hash)
    requires h in s.contents
    ensures Resumable(s, h) <==> s.contents[h].finishedAt == 0 && HasStored(s, h)
  {
    var tag := s.contents[h].tag;
    if FindTag(s.store, tag).Some? {
      FoundIffStored(s.store, tag, FindTag(s.store, tag).value);
    }
    forall m | StoredUnder(s.store, tag, m) ensures FindTag(s.store, tag).Some? {
      FoundIffStored(s.store, tag, m);
    }
  }

  /** The same in terms of the channel: after the peer has returned, the metadata of every unfinished
      record waits, and what came to wait is the metadata of one. */
  lemma {:induction false} ReconnectSendsStored(c: Config, es: seq<Event>, order: seq<Hash>, m: Metatag)
    requires Legal(c, es) && Enabled(Run(c, es), Reconnect(order))
    ensures var s, t := Run(c, es), Step(c, Run(c, es), Reconnect(order));
            |s.sent| <= |t.sent| &&
            (m in t.sent[|s.sent|..] <==>
             exists h :: h in s.contents && h !in CompletedIn(c, es).memory
                         && StoredUnder(s.store, s.contents[h].tag, m))
  {
    var s, t := Run(c, es), Step(c, Run(c, es), Reconnect(order));
    OrderVisitsRecords(s, order);
    NoRepeats(order, s.contents.Keys);
    StampedIffCompleted(c, es);
    assert t.sent[|s.sent|..] == Resumed(s, order);
    if m in Resumed(s, order) {
      ResumedIsStored(s, order, m);
    }
    forall h | h in s.contents && h !in CompletedIn(c, es).memory && StoredUnder(s.store, s.contents[h].tag, m)
      ensures m in Resumed(s, order)
    {
      StoredIsResumed(s, order, h, m);
    }
  }

  // ---------- group content is not resumed ----------

  /** Content below a group's index names a group, other content does not. */
  predicate NamesGroup(k: Key, v: Value) {
    ParseMeta(v).Some? ==> (IsIndexKey(k) <==> ParseMeta(v).value.group != "")
  }

  predicate IsPlainTag(tag: string) {
    IsPlainKey(NewKey(tag))
  }

  predicate TaggedPlainly(v: Value) {
    ParseMeta(v).Some? ==> IsPlainTag(ParseMeta(v).value.tag)
  }

  ghost predicate NamedRun(es: seq<Event>) {
    forall e :: e in es && e.Put? ==> NamesGroup(e.key, e.value)
  }

  /** Tags stay out of the reserved families. Group puts, plain puts, deletions, downloads and restarts
      are all free. */
  ghost predicate PlainlyTagged(es: seq<Event>) {
    forall e :: e in es && e.Put? ==> TaggedPlainly(e.value)
  }

  ghost predicate StoreNamed(store: Store) {
    forall k :: k in store ==> NamesGroup(k, store[k])
  }

  lemma {:induction false} RunStoreNamed(c: Config, es: seq<Event>)
    requires Legal(c, es) && NamedRun(es)
    ensures StoreNamed(Run(c, es).store)
  {
    if es == [] {
    } else {
      var before, e := es[..|es| - 1], es[|es| - 1];
      assert es == before + [e];
      RunStoreNamed(c, before);
      StepStore(c, Run(c, before), e);
    }
  }

  lemma StepStore(c: Config, s: Node, e: Event)
    requires Enabled(s, e)
    ensures Step(c, s, e).store == match e
                                   case Put(k, v) => s.store[k := v]
                                   case Delete(k) => s.store - {k}
                                   case _ => s.store
  {
    if e.Put? {
      HookKeepsStore(c, s.(store := s.store[e.key := e.value]), e.key, e.value);
    }
  }

  ghost predicate RecordsTagged(contents: Contents) {
    forall h :: h in contents ==> IsPlainTag(contents[h].tag)
  }

  ghost predicate StoreTagged(store: Store) {
    forall k :: k in store ==> TaggedPlainly(store[k])
  }

  /** Everything the node remembers by a tag has a plain one. */
  ghost predicate AllTagged(s: Node) {
    && StoreTagged(s.store) && (forall m :: m in s.sent ==> IsPlainTag(m.tag))
    && RecordsTagged(s.contents) && RecordsTagged(s.contentsFile)
  }

  lemma NoTagIsPlain()
    ensures IsPlainTag("")
  {
    assert |NewKey("")| == 1;
  }

  /** What is resumed is found in the store, under the tag of a record. */
  lemma {:induction false} ResumedAreTagged(s: Node, order: seq<Hash>)
    requires StoreTagged(s.store) && forall h :: h in order ==> h in s.contents
    ensures forall m :: m in Resumed(s, order) ==> IsPlainTag(m.tag)
  {
    if order == [] {
    } else {
      ResumedAreTagged(s, order[..|order| - 1]);
    }
  }

  lemma PutKeepsTagged(c: Config, s: Node, k: Key, v: Value)
    requires AllTagged(s) && WellFormed(k) && TaggedPlainly(v)
    ensures AllTagged(Step(c, s, Put(k, v)))
  {
    GlobalFilter.PutEffect(c, s, k, v);
  }

  lemma DoneKeepsTagged(c: Config, s: Node, id: nat, now: int)
    requires AllTagged(s) && Enabled(s, Done(id, true, now))
    ensures AllTagged(Step(c, s, Done(id, true, now)))
  {
    var m, settled := s.sent[id], Settle(s, id, true);
    var t := Callback(c, settled, m, now);
    assert t.store == s.store && t.sent == s.sent && t.contentsFile == s.contentsFile;
    assert t.contents == Finished(s.contents, m.hash, now);
    assert RecordsTagged(t.contents);
  }

  lemma StepKeepsTagged(c: Config, s: Node, e: Event)
    requires AllTagged(s) && Enabled(s, e) && (e.Put? ==> TaggedPlainly(e.value))
    ensures AllTagged(Step(c, s, e))
  {
    NoTagIsPlain();
    match e
    case Put(k, v) => PutKeepsTagged(c, s, k, v);
    case Take(id, providers) =>
      assert RecordsTagged(NewContent(s.contents, s.sent[id].hash));
    case Reconnect(order) =>
      OrderVisitsRecords(s, order);
      ResumedAreTagged(s, order);
    case Done(id, ok, now) =>
      if ok {
        DoneKeepsTagged(c, s, id, now);
      }
    case MarkStarted(id, _) =>
      assert s.sent[id] in s.sent;
    case Delete(_) =>
    case Launch(_, _) =>
    case Save =>
    case Restart =>
  }

  lemma {:induction false} RunKeepsTagged(c: Config, es: seq<Event>)
    requires Legal(c, es) && PlainlyTagged(es)
    ensures AllTagged(Run(c, es))
  {
    if es == [] {
    } else {
      var before, e := es[..|es| - 1], es[|es| - 1];
      assert es == before + [e];
      RunKeepsTagged(c, before);
      StepKeepsTagged(c, Run(c, before), e);
    }
  }

  /** Exactly which metadata sent for a returning peer belongs to a group: that of a record whose tag is
      itself the key of content below an index. */
  lemma ResumedGroupIff(c: Config, es: seq<Event>, h: Hash)
    requires Legal(c, es) && NamedRun(es) && Resumable(Run(c, es), h)
    ensures var s := Run(c, es); ResumableMeta(s, h).group != "" <==> IsIndexKey(NewKey(s.contents[h].tag))
  {
    RunStoreNamed(c, es);
  }

  /** So with plain tags nothing of a group is ever resumed, whatever else the node holds, and however
      many downloads of group content failed or were lost: a returning peer gets plain content only. */
  lemma {:induction false} GroupDownloadsAreNotResumed(c: Config, es: seq<Event>, order: seq<Hash>)
    requires Legal(c, es) && NamedRun(es) && PlainlyTagged(es) && Enabled(Run(c, es), Reconnect(order))
    ensures var s, t := Run(c, es), Step(c, Run(c, es), Reconnect(order));
            && |s.sent| <= |t.sent| && t.sent[..|s.sent|] == s.sent
            && forall i :: |s.sent| <= i < |t.sent| ==> t.sent[i].group == ""
  {
    var s := Run(c, es);
    OrderVisitsRecords(s, order);
    ResumedAre(s, order);
    var hs := ResumableHashes(s, order);
    RunKeepsTagged(c, es);
    forall i | 0 <= i < |hs| ensures Resumed(s, order)[i].group == "" {
      ResumedGroupIff(c, es, hs[i]);
      FamiliesAreDisjoint(NewKey(s.contents[hs[i]].tag));
    }
  }

  /** All puts are in the reserved families. */
  ghost predicate GroupOnly(es: seq<Event>) {
    PlainlyTagged(es) && forall e :: e in es && e.Put? ==> !IsPlainKey(e.key)
  }

  lemma {:induction false} GroupOnlyStore(c: Config, es: seq<Event>)
    requires Legal(c, es) && GroupOnly(es)
    ensures forall k :: k in Run(c, es).store ==> !IsPlainKey(k)
  {
    if es == [] {
    } else {
      var before, e := es[..|es| - 1], es[|es| - 1];
      assert es == before + [e];
      GroupOnlyStore(c, before);
      StepStore(c, Run(c, before), e);
    }
  }

  lemma {:induction false} NothingResumable(s: Node, order: seq<Hash>)
    requires forall h :: h in order ==> h in s.contents && !Resumable(s, h)
    ensures Resumed(s, order) == []
  {
    if order == [] {
    } else {
      NothingResumable(s, order[..|order| - 1]);
    }
  }

  /** A node that has only group content resumes nothing at all. */
  lemma {:induction false} GroupOnlyResumesNothing(c: Config, es: seq<Event>, order: seq<Hash>)
    requires Legal(c, es) && GroupOnly(es) && Enabled(Run(c, es), Reconnect(order))
    ensures Step(c, Run(c, es), Reconnect(order)).sent == Run(c, es).sent
  {
    var s := Run(c, es);
    OrderVisitsRecords(s, order);
    RunKeepsTagged(c, es);
    GroupOnlyStore(c, es);
    NothingResumable(s, order);
  }

  // ---------- a group download that failed for good ----------

  lemma Extended(c: Config, es: seq<Event>, e: Event) returns (longer: seq<Event>)
    requires Legal(c, es) && GroupOnly(es) && Enabled(Run(c, es), e)
    requires e.Put? ==> !IsPlainKey(e.key) && TaggedPlainly(e.value)
    ensures longer == es + [e] && Legal(c, longer) && GroupOnly(longer)
    ensures Run(c, longer) == Step(c, Run(c, es), e)
  {
    longer := es + [e];
    assert longer[..|es|] == es;
  }

  function Member(hash: Bloom.TagHash): Config {
    Config("b", "key", true, hash)
  }

  const META := Metatag("x", 1, "", "x", "h", 0, "a", false, "g")

  /** A node that has been sent nothing yet. */
  ghost predicate Idle(s: Node) {
    && s.sent == [] && s.waiting == {} && s.taken == {} && s.running == {} && s.unmarked == {} && s.failed == {}
    && s.contents == map[]
  }

  /** The node joins the group. */
  lemma Joined(hash: Bloom.TagHash) returns (es: seq<Event>)
    ensures Legal(Member(hash), es) && GroupOnly(es)
    ensures Idle(Run(Member(hash), es)) && IsMember(Member(hash), Run(Member(hash), es).store, "g")
  {
    var k := MemberKey("b", "g");
    MemberKeyParses("b", "g");
    es := Extended(Member(hash), [], Put(k, PlainText("key")));
  }

  lemma HearContent(c: Config, s: Node, k: Key)
    requires c.self == "b" && c.autoDownload && IsMember(c, s.store, "g") && Idle(s)
    requires IsIndexKey(k) && WellFormed(k) && List(k)[1] == "g"
    ensures var t := Step(c, s, Put(k, ContentJson(META)));
            && t.store == s.store[k := ContentJson(META)]
            && Idle(t.(sent := [], waiting := {})) && t.sent == [META] && t.waiting == {0}
  {
    FamiliesAreDisjoint(k);
    GlobalFilter.MemberAfterPut(c, s.store, k, ContentJson(META), "g");
    var s' := s.(store := s.store[k := ContentJson(META)]);
    assert PutHook(c, s', k, ContentJson(META)) == Send(GroupAdd(c, s', "g", {"x"}), META);
  }

  lemma ShortTagIsPlain()
    ensures IsPlainTag("x")
  {
    assert "x"[0] != "/"[0];
    assert |NewKey("x")| == 2;
  }

  /** It hears of content of another member. */
  lemma Heard(hash: Bloom.TagHash) returns (es: seq<Event>)
    ensures Legal(Member(hash), es) && GroupOnly(es)
    ensures var s := Run(Member(hash), es);
            IndexKey("g", "x") in s.store && Idle(s.(sent := [], waiting := {})) && s.sent == [META] && s.waiting == {0}
  {
    var k := IndexKey("g", "x");
    var before := Joined(hash);
    IndexKeyIsUnder("g", "x");
    IndexKeyParses("g", k);
    ShortTagIsPlain();
    HearContent(Member(hash), Run(Member(hash), before), k);
    es := Extended(Member(hash), before, Put(k, ContentJson(META)));
  }

  lemma StartDownload(c: Config, s: Node)
    requires Idle(s.(sent := [], waiting := {})) && s.sent == [META] && s.waiting == {0}
    ensures Enabled(s, Take(0, []))
    ensures var t := Step(c, s, Take(0, []));
            && Enabled(t, Launch(0, true))
            && var u := Step(c, t, Launch(0, true));
               && u.store == s.store && u.sent == [META] && u.running == {0} && u.unmarked == {0} && u.failed == {}
               && u.contents == map["h" := NEW_CONTENT]
  {
  }

  /** The download starts. */
  lemma Launched(hash: Bloom.TagHash) returns (es: seq<Event>)
    ensures Legal(Member(hash), es) && GroupOnly(es)
    ensures var s := Run(Member(hash), es);
            && IndexKey("g", "x") in s.store && s.sent == [META] && s.running == {0} && s.unmarked == {0}
            && s.failed == {} && s.contents == map["h" := NEW_CONTENT]
  {
    var before := Heard(hash);
    StartDownload(Member(hash), Run(Member(hash), before));
    es := Extended(Member(hash), before, Take(0, []));
    es := Extended(Member(hash), es, Launch(0, true));
  }

  /** It fails, and its record stays unfinished. */
  lemma Failed(hash: Bloom.TagHash) returns (es: seq<Event>)
    ensures Legal(Member(hash), es) && GroupOnly(es)
    ensures var s := Run(Member(hash), es);
            && IndexKey("g", "x") in s.store && s.failed == {0} && s.contents.Keys == {"h"}
            && s.contents["h"].finishedAt == 0 && s.contents["h"].tag == "x"
  {
    es := Launched(hash);
    es := Extended(Member(hash), es, MarkStarted(0, 1));
    es := Extended(Member(hash), es, Done(0, false, 2));
  }

  /** For every hash there is a run of group content only after which the record of a failed download is
      unfinished, its content still in the store, and a returning peer resumes nothing. */
  lemma {:induction false} FailedGroupDownloadStays(hash: Bloom.TagHash) returns (es: seq<Event>)
    ensures var c := Member(hash);
            && Legal(c, es) && GroupOnly(es)
            && var s := Run(c, es);
               && "h" in s.contents && !HasFinished(s, "h") && s.contents["h"].tag == META.tag
               && IndexKey(META.group, META.tag) in s.store && s.failed == {0}
               && Enabled(s, Reconnect(["h"])) && Step(c, s, Reconnect(["h"])).sent == s.sent
  {
    es := Failed(hash);
    GroupOnlyResumesNothing(Member(hash), es, ["h"]);
  }
}
