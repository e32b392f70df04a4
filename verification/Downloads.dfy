/** Conservation of downloads: where each one is, and that its callback runs at most once. */
module Downloads {
  import opened Keys
  import opened ContentMatrix
  import opened Replication

  type Event = Replication.Event

  // ---------- conservation of downloads ----------

  function In(id: nat, ids: set<nat>): nat {
    if id in ids then 1 else 0
  }

  /** In how many places a download is. */
  function Places(s: Node, id: nat): nat {
    In(id, s.waiting) + In(id, s.taken) + In(id, s.running) + In(id, s.finished) + In(id, s.failed) + In(id, s.lost)
  }

  /** A download that was handed to the channel is in one place, and no other number is in any. */
  ghost predicate EachInOnePlace(s: Node) {
    forall id: nat :: Places(s, id) == if id < |s.sent| then 1 else 0
  }

  /** Where the code follows the content record of a download there is one. */
  ghost predicate RecordsPresent(s: Node) {
    forall id: nat :: id in s.taken || id in s.running || id in s.unmarked ==>
      id < |s.sent| && s.sent[id].hash in s.contents
  }

  lemma SendAllKeepsPlaces(s: Node, ms: seq<Metatag>)
    requires EachInOnePlace(s) && RecordsPresent(s)
    ensures EachInOnePlace(SendAll(s, ms)) && RecordsPresent(SendAll(s, ms))
  {
    var t := SendAll(s, ms);
    forall id: nat ensures Places(t, id) == if id < |t.sent| then 1 else 0 {
      assert Places(s, id) == if id < |s.sent| then 1 else 0;
    }
  }

  predicate SameDownloads(s: Node, t: Node) {
    && s.sent == t.sent && s.contents.Keys <= t.contents.Keys
    && s.waiting == t.waiting && s.taken == t.taken && s.running == t.running
    && s.finished == t.finished && s.failed == t.failed && s.lost == t.lost
    && t.unmarked <= s.unmarked
  }

  lemma SameDownloadsKeepPlaces(s: Node, t: Node)
    requires SameDownloads(s, t)
    ensures EachInOnePlace(s) ==> EachInOnePlace(t)
    ensures RecordsPresent(s) ==> RecordsPresent(t)
  {
    forall id: nat ensures Places(t, id) == Places(s, id) {
    }
    if EachInOnePlace(s) {
      forall id: nat ensures Places(t, id) == if id < |t.sent| then 1 else 0 {
        assert Places(s, id) == if id < |s.sent| then 1 else 0;
      }
    }
  }

  /** The put hook hands over at most the metadata it was called with. */
  lemma HookSendsAtMostOne(c: Config, s: Node, k: Key, v: Value)
    requires WellFormed(k)
    ensures var t := PutHook(c, s, k, v);
            || SameDownloads(s, t)
            || (ParseMeta(v).Some? && SameDownloads(SendAll(s, [ParseMeta(v).value]), t))
  {
    FamiliesAreDisjoint(k);
    assert Ids(|s.sent|, |s.sent| + 1) == {|s.sent|};
  }

  lemma HookKeepsStore(c: Config, s: Node, k: Key, v: Value)
    requires WellFormed(k)
    ensures PutHook(c, s, k, v).store == s.store
  {
    var s' := if IsMemberKey(k) then MemberHook(c, s, k) else s;
    assert s'.store == s.store;
  }

  lemma HookKeepsContents(c: Config, s: Node, k: Key, v: Value)
    requires WellFormed(k)
    ensures PutHook(c, s, k, v).contents == s.contents && PutHook(c, s, k, v).contentsFile == s.contentsFile
  {
    var s' := if IsMemberKey(k) then MemberHook(c, s, k) else s;
    assert s'.contents == s.contents && s'.contentsFile == s.contentsFile;
  }

  lemma PutKeepsPlaces(c: Config, s: Node, k: Key, v: Value)
    requires EachInOnePlace(s) && RecordsPresent(s) && WellFormed(k)
    ensures var t := Step(c, s, Put(k, v)); EachInOnePlace(t) && RecordsPresent(t)
  {
    var s' := s.(store := s.store[k := v]);
    var t := PutHook(c, s', k, v);
    SameDownloadsKeepPlaces(s, s');
    HookSendsAtMostOne(c, s', k, v);
    if SameDownloads(s', t) {
      SameDownloadsKeepPlaces(s', t);
    } else {
      SendAllKeepsPlaces(s', [ParseMeta(v).value]);
      SameDownloadsKeepPlaces(SendAll(s', [ParseMeta(v).value]), t);
    }
  }

  lemma TakeKeepsPlaces(c: Config, s: Node, id: nat, providers: seq<PeerId>)
    requires EachInOnePlace(s) && RecordsPresent(s) && Enabled(s, Take(id, providers))
    ensures var t := Step(c, s, Take(id, providers)); EachInOnePlace(t) && RecordsPresent(t)
  {
    var t := Step(c, s, Take(id, providers));
    forall i: nat ensures Places(t, i) == if i < |t.sent| then 1 else 0 {
      assert Places(s, i) == if i < |s.sent| then 1 else 0;
      assert Places(s, id) == 1;
    }
    assert s.contents.Keys <= t.contents.Keys && s.sent[id].hash in t.contents;
  }

  lemma LaunchKeepsPlaces(c: Config, s: Node, id: nat, accepted: bool)
    requires EachInOnePlace(s) && RecordsPresent(s) && Enabled(s, Launch(id, accepted))
    ensures var t := Step(c, s, Launch(id, accepted)); EachInOnePlace(t) && RecordsPresent(t)
  {
    var t := Step(c, s, Launch(id, accepted));
    forall i: nat ensures Places(t, i) == if i < |t.sent| then 1 else 0 {
      assert Places(s, i) == if i < |s.sent| then 1 else 0;
      assert Places(s, id) == 1;
    }
  }

  lemma SettleKeepsPlaces(s: Node, id: nat, ok: bool)
    requires EachInOnePlace(s) && RecordsPresent(s) && id in s.running
    ensures EachInOnePlace(Settle(s, id, ok)) && RecordsPresent(Settle(s, id, ok))
  {
    var t := Settle(s, id, ok);
    forall i: nat ensures Places(t, i) == if i < |t.sent| then 1 else 0 {
      assert Places(s, i) == if i < |s.sent| then 1 else 0;
      assert Places(s, id) == 1;
    }
  }

  lemma CallbackKeepsDownloads(c: Config, s: Node, m: Metatag, now: int)
    requires m.hash in s.contents
    ensures SameDownloads(s, Callback(c, s, m, now))
  {
  }

  lemma DoneKeepsPlaces(c: Config, s: Node, id: nat, ok: bool, now: int)
    requires EachInOnePlace(s) && RecordsPresent(s) && Enabled(s, Done(id, ok, now))
    ensures var t := Step(c, s, Done(id, ok, now)); EachInOnePlace(t) && RecordsPresent(t)
  {
    var settled := Settle(s, id, ok);
    SettleKeepsPlaces(s, id, ok);
    if ok {
      CallbackKeepsDownloads(c, settled, s.sent[id], now);
      SameDownloadsKeepPlaces(settled, Callback(c, settled, s.sent[id], now));
    }
  }

  lemma RestartKeepsPlaces(c: Config, s: Node)
    requires EachInOnePlace(s)
    ensures EachInOnePlace(Step(c, s, Restart))
  {
    var t := Step(c, s, Restart);
    forall id: nat ensures Places(t, id) == if id < |t.sent| then 1 else 0 {
      assert Places(s, id) == if id < |s.sent| then 1 else 0;
    }
  }

  lemma StepKeepsPlaces(c: Config, s: Node, e: Event)
    requires EachInOnePlace(s) && RecordsPresent(s) && Enabled(s, e)
    ensures EachInOnePlace(Step(c, s, e)) && RecordsPresent(Step(c, s, e))
  {
    match e
    case Put(k, v) => PutKeepsPlaces(c, s, k, v);
    case Delete(k) => SameDownloadsKeepPlaces(s, Step(c, s, e));
    case Take(id, providers) => TakeKeepsPlaces(c, s, id, providers);
    case Launch(id, accepted) => LaunchKeepsPlaces(c, s, id, accepted);
    case MarkStarted(_, _) => SameDownloadsKeepPlaces(s, Step(c, s, e));
    case Done(id, ok, now) => DoneKeepsPlaces(c, s, id, ok, now);
    case Reconnect(order) =>
      OrderVisitsRecords(s, order);
      SendAllKeepsPlaces(s, Resumed(s, order));
    case Save => SameDownloadsKeepPlaces(s, Step(c, s, e));
    case Restart => RestartKeepsPlaces(c, s);
  }

  /** In every reachable state each metadata ever handed to the channel is in exactly one of waiting,
      taken, running, finished, failed and lost. */
  lemma {:induction false} DownloadsAreConserved(c: Config, es: seq<Event>)
    requires Legal(c, es)
    ensures EachInOnePlace(Run(c, es)) && RecordsPresent(Run(c, es))
  {
    if es == [] {
    } else {
      DownloadsAreConserved(c, es[..|es| - 1]);
      StepKeepsPlaces(c, Run(c, es[..|es| - 1]), es[|es| - 1]);
    }
  }

  // ---------- runs ----------

  lemma {:induction false} LegalPrefix(c: Config, es: seq<Event>, n: nat)
    requires Legal(c, es) && n <= |es|
    ensures Legal(c, es[..n]) && (n < |es| ==> Legal(c, es[..n + 1]))
    ensures n < |es| ==> Enabled(Run(c, es[..n]), es[n]) && Run(c, es[..n + 1]) == Step(c, Run(c, es[..n]), es[n])
    decreases |es|
  {
    if n == |es| {
      assert es[..n] == es;
    } else if n == |es| - 1 {
      assert es[..n + 1] == es;
    } else {
      var before := es[..|es| - 1];
      LegalPrefix(c, before, n);
      assert before[..n] == es[..n] && before[..n + 1] == es[..n + 1];
    }
  }

  /** Ended downloads stay ended. */
  lemma StepKeepsEnded(c: Config, s: Node, e: Event)
    requires Enabled(s, e)
    ensures var t := Step(c, s, e); s.finished <= t.finished && s.failed <= t.failed
  {
    if e.Put? {
      HookSendsAtMostOne(c, s.(store := s.store[e.key := e.value]), e.key, e.value);
    } else if e.Done? && e.ok {
      CallbackKeepsDownloads(c, Settle(s, e.id, true), s.sent[e.id], e.now);
    }
  }

  lemma {:induction false} EndedStays(c: Config, es: seq<Event>, n: nat)
    requires Legal(c, es) && n <= |es|
    ensures Legal(c, es[..n])
    ensures Run(c, es[..n]).finished <= Run(c, es).finished && Run(c, es[..n]).failed <= Run(c, es).failed
    decreases |es|
  {
    LegalPrefix(c, es, n);
    if n == |es| {
      assert es[..n] == es;
    } else {
      var before := es[..|es| - 1];
      EndedStays(c, before, n);
      assert before[..n] == es[..n];
      StepKeepsEnded(c, Run(c, before), es[|es| - 1]);
    }
  }

  lemma EndedAfterDone(c: Config, s: Node, id: nat, ok: bool, now: int)
    requires Enabled(s, Done(id, ok, now))
    ensures var t := Step(c, s, Done(id, ok, now)); id in t.finished || id in t.failed
  {
    if ok {
      CallbackKeepsDownloads(c, Settle(s, id, true), s.sent[id], now);
    }
  }

  lemma EndedIsNotRunning(s: Node, id: nat)
    requires EachInOnePlace(s) && (id in s.finished || id in s.failed)
    ensures id !in s.running
  {
    assert Places(s, id) <= 1;
  }

  /** No download ends twice, so its callback runs at most once. */
  lemma EndsAtMostOnce(c: Config, es: seq<Event>, i: nat, j: nat)
    requires Legal(c, es) && i < j < |es| && es[i].Done? && es[j].Done?
    ensures es[i].id != es[j].id
  {
    LegalPrefix(c, es, i);
    LegalPrefix(c, es, j);
    EndedAfterDone(c, Run(c, es[..i]), es[i].id, es[i].ok, es[i].now);
    EndedStays(c, es[..j], i + 1);
    assert es[..j][..i + 1] == es[..i + 1];
    DownloadsAreConserved(c, es[..j]);
    EndedIsNotRunning(Run(c, es[..j]), es[i].id);
  }

  /** Some event of the run is the successful end of download `id`. */
  predicate Succeeded(es: seq<Event>, id: nat) {
    es != [] &&
    var e := es[|es| - 1];
    (e.Done? && e.ok && e.id == id) || Succeeded(es[..|es| - 1], id)
  }

  lemma StepFinishes(c: Config, s: Node, e: Event)
    requires Enabled(s, e)
    ensures Step(c, s, e).finished == s.finished + if e.Done? && e.ok then {e.id} else {}
  {
    if e.Put? {
      HookSendsAtMostOne(c, s.(store := s.store[e.key := e.value]), e.key, e.value);
    } else if e.Done? && e.ok {
      CallbackKeepsDownloads(c, Settle(s, e.id, true), s.sent[e.id], e.now);
    }
  }

  /** A download counts as finished exactly when its `Download` returned success. */
  lemma {:induction false} FinishedIffSucceeded(c: Config, es: seq<Event>, id: nat)
    requires Legal(c, es)
    ensures id in Run(c, es).finished <==> Succeeded(es, id)
  {
    if es == [] {
    } else {
      FinishedIffSucceeded(c, es[..|es| - 1], id);
      StepFinishes(c, Run(c, es[..|es| - 1]), es[|es| - 1]);
    }
  }
}
