/** Devices that exchange their global filters and release their links when the filters agree.
    Messages may be delayed, reordered, repeated and lost. */
module AutoDisconnect {
  import opened Wrappers
  import opened Bloom
  import opened Keys
  import opened ContentMatrix
  import opened Replication
  import opened Downloads
  import opened GlobalFilter
  import opened Convergence
  import Discovery
  import Manager

  /** A message with the moment its filter was read, counted in events of the sender's replication. */
  datatype Snapshot = Snapshot(sender: PeerId, state: Filter, takenAt: nat)

  /** A published message, with the moment of its publication. */
  datatype Message = Message(body: Snapshot, sentAt: nat)

  datatype Device = Device(history: seq<Replication.Event>, service: Discovery.Device)

  /** `prepared` are the snapshots whose publishers are waiting out their ten seconds. */
  datatype System = System(devices: map<PeerId, Device>, prepared: set<Snapshot>, flight: set<Message>)

  /** `Local` is a replication event, `Handle` a discovery handler, `Deliver` the state watcher. */
  datatype Action =
    | Local(id: PeerId, event: Replication.Event)
    | Handle(id: PeerId, handled: Discovery.Event)
    | Prepare(id: PeerId)
    | Publish(snapshot: Snapshot)
    | Deliver(id: PeerId, message: Message, peerCount: nat)

  type Configs = map<PeerId, Config>

  /** All devices run the same filter library. */
  ghost predicate Uniform(cfgs: Configs, hash: TagHash) {
    forall id :: id in cfgs ==> cfgs[id].self == id && cfgs[id].hash == hash
  }

  ghost predicate Sound(cfgs: Configs, s: System) {
    s.devices.Keys == cfgs.Keys && forall id :: id in cfgs ==> Legal(cfgs[id], s.devices[id].history)
  }

  /** The global filter a device holds now. */
  ghost function FilterNow(cfgs: Configs, s: System, id: PeerId): Filter
    requires Sound(cfgs, s) && id in cfgs
  {
    Run(cfgs[id], s.devices[id].history).global
  }

  ghost function Take(cfgs: Configs, s: System, id: PeerId): Snapshot
    requires Sound(cfgs, s) && id in cfgs
  {
    Snapshot(id, FilterNow(cfgs, s, id), |s.devices[id].history|)
  }

  ghost predicate Possible(cfgs: Configs, s: System, a: Action)
    requires Sound(cfgs, s)
  {
    match a
    case Local(id, e) => id in cfgs && Enabled(Run(cfgs[id], s.devices[id].history), e)
    case Handle(id, e) => id in cfgs && !e.SameState?
    case Prepare(id) => id in cfgs
    case Publish(snapshot) => snapshot in s.prepared && snapshot.sender in cfgs
    case Deliver(id, message, _) => id in cfgs && message in s.flight
  }

  /** The watcher acts on the messages of others that carry its own state. */
  ghost predicate Matches(cfgs: Configs, s: System, id: PeerId, body: Snapshot)
    requires Sound(cfgs, s) && id in cfgs
  {
    body.sender != id && body.state == FilterNow(cfgs, s, id)
  }

  function Serve(s: System, id: PeerId, e: Discovery.Event): System
    requires id in s.devices
  {
    s.(devices := s.devices[id := s.devices[id].(service := Discovery.Step(s.devices[id].service, e))])
  }

  /** One turn of the watcher. On a match it publishes its state anew, without any wait. */
  ghost function Delivered(cfgs: Configs, s: System, id: PeerId, message: Message, peerCount: nat): System
    requires Sound(cfgs, s) && id in cfgs
  {
    if !Matches(cfgs, s, id, message.body) then s
    else
      var own := Take(cfgs, s, id);
      Serve(s.(flight := s.flight + {Message(own, own.takenAt)}), id, Discovery.SameState(peerCount))
  }

  ghost function Act(cfgs: Configs, s: System, a: Action): System
    requires Sound(cfgs, s) && Possible(cfgs, s, a)
  {
    match a
    case Local(id, e) => s.(devices := s.devices[id := s.devices[id].(history := s.devices[id].history + [e])])
    case Handle(id, e) => Serve(s, id, e)
    case Prepare(id) => s.(prepared := s.prepared + {Take(cfgs, s, id)})
    case Publish(snapshot) =>
      s.(prepared := s.prepared - {snapshot},
         flight := s.flight + {Message(snapshot, |s.devices[snapshot.sender].history|)})
    case Deliver(id, message, peerCount) => Delivered(cfgs, s, id, message, peerCount)
  }

  ghost function Start(cfgs: Configs): System {
    System(map id | id in cfgs :: Device([], Discovery.NewDevice(map[])), {}, {})
  }

  lemma StartIsSound(cfgs: Configs)
    ensures Sound(cfgs, Start(cfgs))
  {
  }

  lemma ActIsSound(cfgs: Configs, s: System, a: Action)
    requires Sound(cfgs, s) && Possible(cfgs, s, a)
    ensures Sound(cfgs, Act(cfgs, s, a))
  {
    if a.Local? {
      var h := s.devices[a.id].history;
      assert (h + [a.event])[..|h + [a.event]| - 1] == h;
    }
  }

  /** The system can get from its start to `s` by the actions. */
  ghost predicate Reaches(cfgs: Configs, actions: seq<Action>, s: System)
    decreases |actions|
  {
    if actions == [] then s == Start(cfgs)
    else exists before :: Reaches(cfgs, actions[..|actions| - 1], before) && Sound(cfgs, before)
                          && Possible(cfgs, before, actions[|actions| - 1])
                          && s == Act(cfgs, before, actions[|actions| - 1])
  }

  // ---------- snapshots are honest ----------

  /** The snapshot is what its sender's global filter was when it was taken. */
  ghost predicate Honest(cfgs: Configs, s: System, b: Snapshot, until: nat)
    requires Sound(cfgs, s)
  {
    && b.sender in cfgs && b.takenAt <= until <= |s.devices[b.sender].history|
    && Legal(cfgs[b.sender], s.devices[b.sender].history[..b.takenAt])
    && b.state == Run(cfgs[b.sender], s.devices[b.sender].history[..b.takenAt]).global
  }

  ghost predicate AllHonest(cfgs: Configs, s: System)
    requires Sound(cfgs, s)
  {
    && (forall b :: b in s.prepared ==> Honest(cfgs, s, b, b.takenAt))
    && (forall m :: m in s.flight ==> Honest(cfgs, s, m.body, m.sentAt))
  }

  lemma TakeIsHonest(cfgs: Configs, s: System, id: PeerId)
    requires Sound(cfgs, s) && id in cfgs
    ensures Honest(cfgs, s, Take(cfgs, s, id), |s.devices[id].history|)
  {
    assert s.devices[id].history[..|s.devices[id].history|] == s.devices[id].history;
  }

  /** Histories only grow, so an honest snapshot stays honest. */
  lemma HonestStays(cfgs: Configs, s: System, t: System, b: Snapshot, until: nat)
    requires Sound(cfgs, s) && Sound(cfgs, t) && Honest(cfgs, s, b, until)
    requires s.devices[b.sender].history <= t.devices[b.sender].history
    ensures Honest(cfgs, t, b, until)
  {
    assert t.devices[b.sender].history[..b.takenAt] == s.devices[b.sender].history[..b.takenAt];
  }

  lemma HistoriesGrow(cfgs: Configs, s: System, a: Action, id: PeerId)
    requires Sound(cfgs, s) && Possible(cfgs, s, a) && id in cfgs
    ensures Act(cfgs, s, a).devices.Keys == s.devices.Keys
    ensures s.devices[id].history <= Act(cfgs, s, a).devices[id].history
  {
    ActIsSound(cfgs, s, a);
  }

  lemma NewMessageIsHonest(cfgs: Configs, s: System, a: Action, m: Message)
    requires Sound(cfgs, s) && Possible(cfgs, s, a) && AllHonest(cfgs, s)
    requires m in Act(cfgs, s, a).flight
    ensures Honest(cfgs, s, m.body, m.sentAt)
  {
    match a
    case Deliver(id, _, _) => TakeIsHonest(cfgs, s, id);
    case Publish(snapshot) => assert Honest(cfgs, s, snapshot, snapshot.takenAt);
    case Local(_, _) =>
    case Handle(_, _) =>
    case Prepare(_) =>
  }

  lemma NewSnapshotIsHonest(cfgs: Configs, s: System, a: Action, b: Snapshot)
    requires Sound(cfgs, s) && Possible(cfgs, s, a) && AllHonest(cfgs, s)
    requires b in Act(cfgs, s, a).prepared
    ensures Honest(cfgs, s, b, b.takenAt)
  {
    if a.Prepare? {
      TakeIsHonest(cfgs, s, a.id);
    }
  }

  lemma {:induction false} ActKeepsHonest(cfgs: Configs, s: System, a: Action)
    requires Sound(cfgs, s) && Possible(cfgs, s, a) && AllHonest(cfgs, s)
    ensures Sound(cfgs, Act(cfgs, s, a)) && AllHonest(cfgs, Act(cfgs, s, a))
  {
    ActIsSound(cfgs, s, a);
    var t := Act(cfgs, s, a);
    forall b | b in t.prepared ensures Honest(cfgs, t, b, b.takenAt) {
      NewSnapshotIsHonest(cfgs, s, a, b);
      HistoriesGrow(cfgs, s, a, b.sender);
      HonestStays(cfgs, s, t, b, b.takenAt);
    }
    forall m | m in t.flight ensures Honest(cfgs, t, m.body, m.sentAt) {
      NewMessageIsHonest(cfgs, s, a, m);
      HistoriesGrow(cfgs, s, a, m.body.sender);
      HonestStays(cfgs, s, t, m.body, m.sentAt);
    }
  }

  lemma {:induction false} ReachedIsHonest(cfgs: Configs, actions: seq<Action>, s: System)
    requires Reaches(cfgs, actions, s)
    ensures Sound(cfgs, s) && AllHonest(cfgs, s)
  {
    if actions == [] {
      StartIsSound(cfgs);
    } else {
      var before :| Reaches(cfgs, actions[..|actions| - 1], before) && Sound(cfgs, before)
                    && Possible(cfgs, before, actions[|actions| - 1])
                    && s == Act(cfgs, before, actions[|actions| - 1]);
      ReachedIsHonest(cfgs, actions[..|actions| - 1], before);
      ActKeepsHonest(cfgs, before, actions[|actions| - 1]);
    }
  }

  // ---------- safety ----------

  /** What a device had recorded after the first `n` events of its history. */
  ghost function RecordedAt(cfgs: Configs, s: System, id: PeerId, n: nat): set<string>
    requires Sound(cfgs, s) && id in cfgs && n <= |s.devices[id].history|
  {
    LegalPrefix(cfgs[id], s.devices[id].history, n);
    Recorded(cfgs[id], s.devices[id].history[..n])
  }

  /** A step of the watcher touches hotspot or link only if every text the sender had recorded when the
      snapshot was taken tests positive here, and every text recorded here tests positive at the sender
      as it is now. The state may have changed any number of times while the message was on its way. */
  lemma {:induction false} WatcherActsOnlyInAgreement(cfgs: Configs, hash: TagHash, actions: seq<Action>, s: System,
                                                       id: PeerId, m: Message, peerCount: nat)
    requires Uniform(cfgs, hash) && Reaches(cfgs, actions, s) && Sound(cfgs, s)
    requires id in cfgs && m in s.flight
    ensures m.body.sender in cfgs && m.body.takenAt <= m.sentAt <= |s.devices[m.body.sender].history|
    ensures Delivered(cfgs, s, id, m, peerCount).devices != s.devices ==>
      && m.body.sender != id
      && AllTestPositive(hash, FilterNow(cfgs, s, id), RecordedAt(cfgs, s, m.body.sender, m.body.takenAt))
      && AllTestPositive(hash, FilterNow(cfgs, s, m.body.sender), RecordedAt(cfgs, s, id, |s.devices[id].history|))
  {
    ReachedIsHonest(cfgs, actions, s);
    assert Honest(cfgs, s, m.body, m.sentAt);
    if Matches(cfgs, s, id, m.body) {
      MatchMeansAgreement(cfgs, hash, s, id, m.body);
    }
  }

  lemma MatchMeansAgreement(cfgs: Configs, hash: TagHash, s: System, id: PeerId, b: Snapshot)
    requires Uniform(cfgs, hash) && Sound(cfgs, s) && id in cfgs && Matches(cfgs, s, id, b)
    requires Honest(cfgs, s, b, b.takenAt)
    ensures AllTestPositive(hash, FilterNow(cfgs, s, id), RecordedAt(cfgs, s, b.sender, b.takenAt))
    ensures AllTestPositive(hash, FilterNow(cfgs, s, b.sender), RecordedAt(cfgs, s, id, |s.devices[id].history|))
  {
    var from, here := s.devices[b.sender].history, s.devices[id].history;
    GlobalFilterIsExact(cfgs[b.sender], from[..b.takenAt]);
    GlobalFilterGrows(cfgs[b.sender], from, b.takenAt);
    GlobalFilterIsExact(cfgs[id], here);
    assert here[..|here|] == here;
    BitsInsideIff(hash, FilterNow(cfgs, s, id), RecordedAt(cfgs, s, b.sender, b.takenAt));
    BitsInsideIff(hash, FilterNow(cfgs, s, b.sender), RecordedAt(cfgs, s, id, |here|));
  }

  /** On a match the watcher answers at once with its own state as it is now, and lets go of hotspot and
      link as a matching state demands; on any other message it does nothing at all. */
  lemma MatchIsAnswered(cfgs: Configs, s: System, id: PeerId, m: Message, peerCount: nat)
    requires Sound(cfgs, s) && id in cfgs
    ensures var t := Delivered(cfgs, s, id, m, peerCount);
            if m.body.sender != id && m.body.state == FilterNow(cfgs, s, id)
            then var n := |s.devices[id].history|;
                 && t.flight == s.flight + {Message(Snapshot(id, m.body.state, n), n)} && t.prepared == s.prepared
                 && t.devices.Keys == s.devices.Keys && t.devices[id].history == s.devices[id].history
                 && t.devices[id].service
                    == Discovery.Step(s.devices[id].service, Discovery.SameState(peerCount))
                 && forall d :: d in s.devices && d != id ==> t.devices[d] == s.devices[d]
            else t == s
  {
  }

  // ---------- what the sender recorded while its publisher waited ----------

  /** What a sender recorded up to a later moment tests positive in its earlier filter exactly if the
      filter is still the same. */
  lemma {:induction false} LaterIsCoveredIff(c: Config, es: seq<Replication.Event>, taken: nat, sent: nat)
    requires Legal(c, es) && taken <= sent <= |es|
    ensures Legal(c, es[..taken]) && Legal(c, es[..sent])
    ensures AllTestPositive(c.hash, Run(c, es[..taken]).global, Recorded(c, es[..sent]))
            <==> Run(c, es[..sent]).global == Run(c, es[..taken]).global
  {
    LegalPrefix(c, es, sent);
    GlobalFilterIsExact(c, es[..sent]);
    GlobalFilterGrows(c, es[..sent], taken);
    assert es[..sent][..taken] == es[..taken];
    BitsInsideIff(c.hash, Run(c, es[..taken]).global, Recorded(c, es[..sent]));
  }

  /** On a match, what the sender had recorded by the time of publication is covered exactly if its
      filter had not changed since the snapshot. */
  lemma {:induction false} PublishedIsCoveredIff(cfgs: Configs, hash: TagHash, actions: seq<Action>, s: System,
                                                  id: PeerId, m: Message)
    requires Uniform(cfgs, hash) && Reaches(cfgs, actions, s) && Sound(cfgs, s)
    requires id in cfgs && m in s.flight && Matches(cfgs, s, id, m.body)
    ensures m.body.sender in cfgs && m.sentAt <= |s.devices[m.body.sender].history|
    ensures Legal(cfgs[m.body.sender], s.devices[m.body.sender].history[..m.sentAt])
    ensures AllTestPositive(hash, FilterNow(cfgs, s, id), RecordedAt(cfgs, s, m.body.sender, m.sentAt))
            <==> Run(cfgs[m.body.sender], s.devices[m.body.sender].history[..m.sentAt]).global == m.body.state
  {
    ReachedIsHonest(cfgs, actions, s);
    assert Honest(cfgs, s, m.body, m.sentAt);
    LaterIsCoveredIff(cfgs[m.body.sender], s.devices[m.body.sender].history, m.body.takenAt, m.sentAt);
  }

  lemma {:induction false} Reach(cfgs: Configs, actions: seq<Action>, s: System, a: Action)
    requires Reaches(cfgs, actions, s) && Sound(cfgs, s) && Possible(cfgs, s, a)
    ensures Reaches(cfgs, actions + [a], Act(cfgs, s, a)) && Sound(cfgs, Act(cfgs, s, a))
  {
    assert (actions + [a])[..|actions + [a]| - 1] == actions;
    ActIsSound(cfgs, s, a);
  }

  function TwoDevices(hash: TagHash): Configs {
    map["a" := Config("a", "", true, hash), "b" := Config("b", "", true, hash)]
  }

  const OWN_TAG: Replication.Event :=
    Replication.Event.Put("/x", ContentJson(Metatag("x", 0, "", "x", "h", 0, "a", false, "")))

  const STALE := Snapshot("a", EMPTY, 0)

  /** Device b gets its link, a prepares its message, records a tag while it waits, and publishes. */
  const STALE_RUN: seq<Action> :=
    [Handle("b", Discovery.ConnectionSuccess("a", 0, 0, 0, 1)), Prepare("a"), Local("a", OWN_TAG), Publish(STALE)]

  lemma OwnTagChangesFilter(c: Config)
    requires c.self == "a"
    ensures Legal(c, []) && Legal(c, [OWN_TAG]) && Run(c, [OWN_TAG]).global != Run(c, []).global
  {
    assert [OWN_TAG][..0] == [];
    assert OWN_TAG.key[0] != GROUP_PREFIX[0] || OWN_TAG.key[1] != GROUP_PREFIX[1];
    FamiliesAreDisjoint(OWN_TAG.key);
    SomePosition(c.hash, "x");
  }

  /** What matters of the two devices. */
  ghost predicate Stage(hash: TagHash, n: nat, s: System, history: seq<Replication.Event>) {
    && n <= |STALE_RUN| && Reaches(TwoDevices(hash), STALE_RUN[..n], s) && Sound(TwoDevices(hash), s)
    && s.devices["a"].history == history && s.devices["b"].history == []
    && s.devices["b"].service.connected && !s.devices["b"].service.isHost
  }

  lemma StaleLinked(hash: TagHash) returns (s: System)
    ensures Stage(hash, 1, s, [])
  {
    var cfgs := TwoDevices(hash);
    StartIsSound(cfgs);
    assert STALE_RUN[..0] + [STALE_RUN[0]] == STALE_RUN[..1];
    Reach(cfgs, STALE_RUN[..0], Start(cfgs), STALE_RUN[0]);
    s := Act(cfgs, Start(cfgs), STALE_RUN[0]);
  }

  lemma StalePrepared(hash: TagHash) returns (s: System)
    ensures Stage(hash, 2, s, []) && STALE in s.prepared
  {
    var cfgs := TwoDevices(hash);
    var before := StaleLinked(hash);
    assert STALE_RUN[..1] + [STALE_RUN[1]] == STALE_RUN[..2];
    Reach(cfgs, STALE_RUN[..1], before, STALE_RUN[1]);
    s := Act(cfgs, before, STALE_RUN[1]);
  }

  lemma StaleRecorded(hash: TagHash) returns (s: System)
    ensures Stage(hash, 3, s, [OWN_TAG]) && STALE in s.prepared
  {
    var cfgs := TwoDevices(hash);
    var before := StalePrepared(hash);
    OwnTagChangesFilter(cfgs["a"]);
    assert STALE_RUN[..2] + [STALE_RUN[2]] == STALE_RUN[..3];
    Reach(cfgs, STALE_RUN[..2], before, STALE_RUN[2]);
    s := Act(cfgs, before, STALE_RUN[2]);
  }

  lemma PublishEffect(cfgs: Configs, s: System, snapshot: Snapshot)
    requires Sound(cfgs, s) && snapshot in s.prepared && snapshot.sender in cfgs
    ensures var t := Act(cfgs, s, Publish(snapshot));
            t.devices == s.devices && Message(snapshot, |s.devices[snapshot.sender].history|) in t.flight
  {
  }

  lemma StalePublished(hash: TagHash) returns (s: System)
    ensures Stage(hash, 4, s, [OWN_TAG]) && Message(STALE, 1) in s.flight
  {
    var cfgs := TwoDevices(hash);
    var before := StaleRecorded(hash);
    assert STALE_RUN[..3] + [STALE_RUN[3]] == STALE_RUN[..4];
    PublishEffect(cfgs, before, STALE);
    Reach(cfgs, STALE_RUN[..3], before, STALE_RUN[3]);
    s := Act(cfgs, before, STALE_RUN[3]);
  }

  /** With any hash, a device can drop its link on a message although its sender had recorded a tag by
      the time it published that does not test positive here. */
  lemma {:induction false} PublishedMayBeUncovered(hash: TagHash) returns (s: System, m: Message)
    ensures var cfgs := TwoDevices(hash);
            && Reaches(cfgs, STALE_RUN, s) && Sound(cfgs, s) && m in s.flight
            && m.body.sender == "a" && m.sentAt <= |s.devices["a"].history|
            && s.devices["b"].service.connected
            && !Delivered(cfgs, s, "b", m, 1).devices["b"].service.connected
            && !AllTestPositive(hash, FilterNow(cfgs, s, "b"), RecordedAt(cfgs, s, "a", m.sentAt))
  {
    s := StalePublished(hash);
    m := Message(STALE, 1);
    var cfgs := TwoDevices(hash);
    assert STALE_RUN[..4] == STALE_RUN;
    OwnTagChangesFilter(cfgs["a"]);
    assert [OWN_TAG][..1] == [OWN_TAG];
    PublishedIsCoveredIff(cfgs, hash, STALE_RUN, s, "b", m);
  }

  // ---------- agreement is detected ----------

  /** Once two devices have settled on the same plain content, along with any group content, the next
      message of either matches at the other exactly if the own group tags of each test positive there. */
  lemma {:induction false} SettledDevicesMatchIff(cfgs: Configs, hash: TagHash, s: System, id: PeerId, other: PeerId)
    requires Uniform(cfgs, hash) && Sound(cfgs, s) && id in cfgs && other in cfgs && id != other
    requires SettledAlike(cfgs[id], s.devices[id].history, cfgs[other], s.devices[other].history)
    ensures Matches(cfgs, s, id, Take(cfgs, s, other)) <==>
              && AllTestPositive(hash, FilterNow(cfgs, s, other), OwnGroupTags(cfgs[id], s.devices[id].history))
              && AllTestPositive(hash, FilterNow(cfgs, s, id), OwnGroupTags(cfgs[other], s.devices[other].history))
    ensures Matches(cfgs, s, id, Take(cfgs, s, other)) <==> Matches(cfgs, s, other, Take(cfgs, s, id))
  {
    SettledNodesAgreeIff(cfgs[id], s.devices[id].history, cfgs[other], s.devices[other].history);
  }

  /** Without group content it always does. */
  lemma {:induction false} SettledDevicesMatch(cfgs: Configs, hash: TagHash, s: System, id: PeerId, other: PeerId)
    requires Uniform(cfgs, hash) && Sound(cfgs, s) && id in cfgs && other in cfgs && id != other
    requires var es, fs := s.devices[id].history, s.devices[other].history;
             && NonGroup(es) && NonGroup(fs) && Settled(Run(cfgs[id], es)) && Settled(Run(cfgs[other], fs))
             && AllTags(es) == AllTags(fs) && Markers(es) == Markers(fs)
    ensures Matches(cfgs, s, id, Take(cfgs, s, other)) && Matches(cfgs, s, other, Take(cfgs, s, id))
  {
    SettledNodesConverge(cfgs[id], s.devices[id].history, cfgs[other], s.devices[other].history);
  }

  // ---------- the watcher ----------

  /** One turn of the watcher's loop, on the global filter of the running node. `published` is the state
      it sends back. */
  method Watch(m: Manager.ReplicationManager, service: Discovery.DiscoveryService, sender: PeerId, state: Filter,
               peerCount: nat)
    returns (published: Option<Filter>)
    requires m.Ready() && service.Valid()
    modifies service, service.wifi, service.hotspot
    ensures service.Valid()
    ensures var same := sender != m.cfg.self && state == m.S().global;
            && published == (if same then Some(m.S().global) else None)
            && service.S() == if same then Discovery.Step(old(service.S()), Discovery.SameState(peerCount))
                              else old(service.S())
  {
    published := None;
    if sender != m.cfg.self {
      if state == m.repo.state {
        published := Some(m.repo.state);
        service.OnSameState(peerCount);
      }
    }
  }
}
