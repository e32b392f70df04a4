/** The discovery service of a mobile device: what its handlers do to the hotspot, the wifi link and
    the two Bluetooth drivers. Each handler is one step. */
module Discovery {
  import Ledger
  import Keeper

  datatype HotspotCommand = StartHotspot | StopHotspot

  datatype WifiCommand = Connect(network: string, pass: string, peerId: string) | Disconnect

  datatype Advert = Advert(topic: string, info: string)

  /** A device as the specification sees it: the drivers are the commands they were given, `adverts`
      is what both Bluetooth drivers were told, and `peers` the connection ledger. */
  datatype Device = Device(isHost: bool, connected: bool, advertisingInfo: map<string, string>,
                           adverts: seq<Advert>, hotspot: seq<HotspotCommand>, wifi: seq<WifiCommand>,
                           peers: map<string, Ledger.Peer>)

  /** `PeerFound` is `DiscoveryPeerDifferentStatus`, `PeerAsks` is `AdvertiserPeerDifferentStatus`, and
      `SameState` the state watcher's reaction to a message that equals the device's own state. */
  datatype Event =
    | Advertise(topic: string, info: string)
    | PeerFound(network: string, pass: string, peerId: string, now: int)
    | PeerAsks(peerId: string, isLinked: bool, now: int)
    | ConnectionSuccess(host: string, rssi: int, speed: int, frequency: int, now: int)
    | ConnectionFailure
    | Disconnected
    | Close
    | SameState(peerCount: nat)

  function Info(known: map<string, string>, topic: string): string {
    if topic in known then known[topic] else ""
  }

  /** A topic that is not known holds the empty string, so an empty first value is not sent either. */
  function Step(d: Device, e: Event): Device {
    match e
    case Advertise(topic, info) =>
      if Info(d.advertisingInfo, topic) == info then d
      else d.(adverts := d.adverts + [Advert(topic, info)], advertisingInfo := d.advertisingInfo[topic := info])
    case PeerFound(network, pass, peerId, now) =>
      if d.connected then d
      else d.(peers := Keeper.Recorded(d.peers, peerId, Ledger.BleDiscovered(now)),
              wifi := d.wifi + [Connect(network, pass, peerId)])
    case PeerAsks(peerId, isLinked, now) =>
      if isLinked then d
      else
        var d := d.(peers := Keeper.Recorded(d.peers, peerId, Ledger.BleDiscovered(now)));
        if d.isHost then d else d.(isHost := true, hotspot := d.hotspot + [StartHotspot])
    case ConnectionSuccess(host, rssi, speed, frequency, now) =>
      d.(peers := Keeper.Recorded(d.peers, host, Ledger.WifiConnected(now, rssi, speed, frequency)), connected := true)
    case ConnectionFailure => d.(connected := false, wifi := d.wifi + [Disconnect])
    case Disconnected => d.(connected := false)
    case Close => d.(isHost := false, wifi := d.wifi + [Disconnect], hotspot := d.hotspot + [StopHotspot])
    case SameState(peerCount) =>
      var d := if !d.isHost && d.connected then d.(connected := false, wifi := d.wifi + [Disconnect]) else d;
      if d.isHost && peerCount < 2 then d.(isHost := false, hotspot := d.hotspot + [StopHotspot]) else d
  }

  function NewDevice(peers: map<string, Ledger.Peer>): Device {
    Device(false, false, map[], [], [], [], peers)
  }

  function Run(d: Device, es: seq<Event>): Device {
    if es == [] then d else Step(Run(d, es[..|es| - 1]), es[|es| - 1])
  }

  lemma RunSnoc(d: Device, es: seq<Event>, e: Event)
    ensures Run(d, es + [e]) == Step(Run(d, es), e)
  {
    assert (es + [e])[..|es|] == es;
  }

  // ---------- the hotspot ----------

  predicate Running(log: seq<HotspotCommand>) {
    log != [] && log[|log| - 1] == StartHotspot
  }

  /** No start follows a start. */
  ghost predicate NeverStartedTwice(log: seq<HotspotCommand>) {
    forall i :: 0 < i < |log| && log[i] == StartHotspot ==> log[i - 1] == StopHotspot
  }

  ghost predicate HotspotFollowsHost(d: Device) {
    d.isHost == Running(d.hotspot) && NeverStartedTwice(d.hotspot)
  }

  lemma CommandFollows(log: seq<HotspotCommand>, c: HotspotCommand)
    requires NeverStartedTwice(log) && (c == StartHotspot ==> !Running(log))
    ensures NeverStartedTwice(log + [c]) && Running(log + [c]) == (c == StartHotspot)
  {
  }

  lemma StepFollowsHost(d: Device, e: Event)
    requires HotspotFollowsHost(d)
    ensures HotspotFollowsHost(Step(d, e))
  {
    CommandFollows(d.hotspot, StopHotspot);
    if !d.isHost {
      CommandFollows(d.hotspot, StartHotspot);
    }
  }

  /** In every run the hotspot runs exactly while the device is a host, and is never started twice. */
  lemma {:induction false} HotspotRunsIffHost(peers: map<string, Ledger.Peer>, es: seq<Event>)
    ensures var d := Run(NewDevice(peers), es); d.isHost == Running(d.hotspot) && NeverStartedTwice(d.hotspot)
  {
    if es == [] {
    } else {
      HotspotRunsIffHost(peers, es[..|es| - 1]);
      StepFollowsHost(Run(NewDevice(peers), es[..|es| - 1]), es[|es| - 1]);
    }
  }

  /** Whether a hotspot is asked for after one more event. */
  predicate HostAskedNext(asked: bool, e: Event) {
    match e
    case PeerAsks(_, isLinked, _) => !isLinked || asked
    case Close => false
    case SameState(peerCount) => peerCount >= 2 && asked
    case Advertise(_, _) => asked
    case PeerFound(_, _, _, _) => asked
    case ConnectionSuccess(_, _, _, _, _) => asked
    case ConnectionFailure => asked
    case Disconnected => asked
  }

  /** Told from the events: a peer that is not linked has asked, and since then the service was not closed
      nor did a matching state arrive with fewer than two peers to serve. */
  predicate HostAsked(es: seq<Event>) {
    es != [] && HostAskedNext(HostAsked(es[..|es| - 1]), es[|es| - 1])
  }

  /** The commands one event gives the hotspot. */
  function HotspotCommandsOf(asked: bool, e: Event): seq<HotspotCommand> {
    if e.PeerAsks? && !e.isLinked && !asked then [StartHotspot]
    else if e.Close? || (e.SameState? && e.peerCount < 2 && asked) then [StopHotspot]
    else []
  }

  /** The commands the hotspot is given, told from the events. */
  function HotspotCommands(es: seq<Event>): seq<HotspotCommand> {
    if es == [] then []
    else HotspotCommands(es[..|es| - 1]) + HotspotCommandsOf(HostAsked(es[..|es| - 1]), es[|es| - 1])
  }

  /** In every run the hotspot runs exactly if it was asked for and not released, and it was given exactly
      these commands: it is started by the first unlinked peer that asks. */
  lemma {:induction false} HotspotFollowsEvents(peers: map<string, Ledger.Peer>, es: seq<Event>)
    ensures var d := Run(NewDevice(peers), es);
            && d.isHost == Running(d.hotspot) == HostAsked(es)
            && d.hotspot == HotspotCommands(es)
  {
    HotspotRunsIffHost(peers, es);
    if es == [] {
    } else {
      HotspotFollowsEvents(peers, es[..|es| - 1]);
      HostStep(Run(NewDevice(peers), es[..|es| - 1]), es[|es| - 1]);
      HotspotStep(Run(NewDevice(peers), es[..|es| - 1]), es[|es| - 1]);
    }
  }

  lemma HostStep(d: Device, e: Event)
    ensures Step(d, e).isHost == HostAskedNext(d.isHost, e)
  {
  }

  lemma HotspotStep(d: Device, e: Event)
    ensures Step(d, e).hotspot == d.hotspot + HotspotCommandsOf(d.isHost, e)
  {
  }

  /** After an unlinked peer has asked the hotspot runs, and it was started just then exactly if it did not
      run before. */
  lemma UnlinkedPeerGetsHotspot(peers: map<string, Ledger.Peer>, es: seq<Event>, peerId: string, now: int)
    ensures var d, d' := Run(NewDevice(peers), es), Run(NewDevice(peers), es + [PeerAsks(peerId, false, now)]);
            && Running(d'.hotspot)
            && d'.hotspot == d.hotspot + if Running(d.hotspot) then [] else [StartHotspot]
  {
    RunSnoc(NewDevice(peers), es, PeerAsks(peerId, false, now));
    HotspotRunsIffHost(peers, es);
    HotspotRunsIffHost(peers, es + [PeerAsks(peerId, false, now)]);
  }

  // ---------- advertising ----------

  /** The info the drivers were last given for a topic. */
  function LastSent(adverts: seq<Advert>, topic: string): string {
    if adverts == [] then ""
    else
      var a := adverts[|adverts| - 1];
      if a.topic == topic then a.info else LastSent(adverts[..|adverts| - 1], topic)
  }

  /** The info last asked for. */
  function LastAsked(es: seq<Event>, topic: string): string {
    if es == [] then ""
    else
      var e := es[|es| - 1];
      if e.Advertise? && e.topic == topic then e.info else LastAsked(es[..|es| - 1], topic)
  }

  /** What one step tells the drivers. */
  lemma StepTells(d: Device, e: Event, topic: string)
    requires Info(d.advertisingInfo, topic) == LastSent(d.adverts, topic)
    ensures var d', asked := Step(d, e), e.Advertise? && e.topic == topic;
            && Info(d'.advertisingInfo, topic) == LastSent(d'.adverts, topic)
            && LastSent(d'.adverts, topic) == if asked then e.info else LastSent(d.adverts, topic)
  {
    if e.Advertise? {
      var adverts := d.adverts + [Advert(e.topic, e.info)];
      assert adverts[..|adverts| - 1] == d.adverts;
    } else {
      StepKeepsAdverts(d, e);
    }
  }

  lemma StepKeepsAdverts(d: Device, e: Event)
    requires !e.Advertise?
    ensures Step(d, e).adverts == d.adverts && Step(d, e).advertisingInfo == d.advertisingInfo
  {
  }

  ghost predicate DriversKnow(known: map<string, string>, adverts: seq<Advert>) {
    forall topic :: Info(known, topic) == LastSent(adverts, topic)
  }

  lemma AdvertIsKnown(d: Device, topic: string, info: string)
    requires DriversKnow(d.advertisingInfo, d.adverts)
    ensures var d' := Step(d, Advertise(topic, info));
            DriversKnow(d'.advertisingInfo, d'.adverts) && LastSent(d'.adverts, topic) == info
  {
    var e := Advertise(topic, info);
    forall t ensures Info(Step(d, e).advertisingInfo, t) == LastSent(Step(d, e).adverts, t) {
      StepTells(d, e, t);
    }
    StepTells(d, e, topic);
  }

  /** Although unchanged values are not sent, the drivers know for each topic what was last asked for,
      and so does the cache. */
  lemma {:induction false} DriversKnowLastAsked(peers: map<string, Ledger.Peer>, es: seq<Event>, topic: string)
    ensures var d := Run(NewDevice(peers), es);
            Info(d.advertisingInfo, topic) == LastSent(d.adverts, topic) == LastAsked(es, topic)
  {
    if es == [] {
    } else {
      DriversKnowLastAsked(peers, es[..|es| - 1], topic);
      StepTells(Run(NewDevice(peers), es[..|es| - 1]), es[|es| - 1], topic);
    }
  }

  /** Nothing is sent that the drivers already know. */
  lemma {:induction false} EveryAdvertIsNews(peers: map<string, Ledger.Peer>, es: seq<Event>, i: nat)
    requires i < |Run(NewDevice(peers), es).adverts|
    ensures var adverts := Run(NewDevice(peers), es).adverts;
            adverts[i].info != LastSent(adverts[..i], adverts[i].topic)
  {
    var before, e := es[..|es| - 1], es[|es| - 1];
    var d := Run(NewDevice(peers), before);
    if i < |d.adverts| {
      EveryAdvertIsNews(peers, before, i);
    }
    if e.Advertise? {
      DriversKnowLastAsked(peers, before, e.topic);
      var adverts := d.adverts + [Advert(e.topic, e.info)];
      assert adverts[..|d.adverts|] == d.adverts;
      assert i < |d.adverts| ==> adverts[..i] == d.adverts[..i];
    } else {
      StepKeepsAdverts(d, e);
    }
  }

  // ---------- the link ----------

  /** What is said of the link after one more event. A host keeps its link on a matching state. */
  predicate LinkReportedNext(asked: bool, linked: bool, e: Event) {
    match e
    case ConnectionSuccess(_, _, _, _, _) => true
    case ConnectionFailure => false
    case Disconnected => false
    case SameState(_) => asked && linked
    case Close => linked
    case Advertise(_, _) => linked
    case PeerFound(_, _, _, _) => linked
    case PeerAsks(_, _, _) => linked
  }

  /** What the last event that concerns the link says. */
  predicate LinkReported(es: seq<Event>) {
    es != [] &&
    var before := es[..|es| - 1];
    LinkReportedNext(HostAsked(before), LinkReported(before), es[|es| - 1])
  }

  /** The device believes in its link exactly if the last event that concerns it said so. */
  lemma {:induction false} ConnectedIffReported(peers: map<string, Ledger.Peer>, es: seq<Event>)
    ensures Run(NewDevice(peers), es).connected <==> LinkReported(es)
  {
    if es == [] {
    } else {
      ConnectedIffReported(peers, es[..|es| - 1]);
      HotspotFollowsEvents(peers, es[..|es| - 1]);
      LinkStep(Run(NewDevice(peers), es[..|es| - 1]), es[|es| - 1]);
    }
  }

  lemma LinkStep(d: Device, e: Event)
    ensures Step(d, e).connected == LinkReportedNext(d.isHost, d.connected, e)
  {
  }

  /** The commands the wifi driver is given by one event. */
  function WifiCommandsOf(before: seq<Event>, e: Event): seq<WifiCommand> {
    match e
    case PeerFound(network, pass, peerId, _) => if LinkReported(before) then [] else [Connect(network, pass, peerId)]
    case ConnectionFailure => [Disconnect]
    case Close => [Disconnect]
    case SameState(_) => if LinkReported(before) && !HostAsked(before) then [Disconnect] else []
    case Advertise(_, _) => []
    case PeerAsks(_, _, _) => []
    case ConnectionSuccess(_, _, _, _, _) => []
    case Disconnected => []
  }

  function WifiCommands(es: seq<Event>): seq<WifiCommand> {
    if es == [] then []
    else WifiCommands(es[..|es| - 1]) + WifiCommandsOf(es[..|es| - 1], es[|es| - 1])
  }

  /** A found peer is connected to with its own network and password, exactly if there is no link. */
  lemma {:induction false} WifiFollowsEvents(peers: map<string, Ledger.Peer>, es: seq<Event>)
    ensures Run(NewDevice(peers), es).wifi == WifiCommands(es)
  {
    if es == [] {
    } else {
      var before := es[..|es| - 1];
      WifiFollowsEvents(peers, before);
      ConnectedIffReported(peers, before);
      HotspotFollowsEvents(peers, before);
      WifiStep(Run(NewDevice(peers), before), before, es[|es| - 1]);
    }
  }

  lemma WifiStep(d: Device, before: seq<Event>, e: Event)
    requires d.connected == LinkReported(before) && d.isHost == HostAsked(before)
    ensures Step(d, e).wifi == d.wifi + WifiCommandsOf(before, e)
  {
  }

  /** What one event adds to the connection ledger. */
  function LedgerEntries(before: seq<Event>, e: Event): seq<Keeper.Addressed> {
    match e
    case PeerFound(_, _, peerId, now) =>
      if LinkReported(before) then [] else [Keeper.Addressed(peerId, Ledger.BleDiscovered(now))]
    case PeerAsks(peerId, isLinked, now) =>
      if isLinked then [] else [Keeper.Addressed(peerId, Ledger.BleDiscovered(now))]
    case ConnectionSuccess(host, rssi, speed, frequency, now) =>
      [Keeper.Addressed(host, Ledger.WifiConnected(now, rssi, speed, frequency))]
    case ConnectionFailure => []
    case Disconnected => []
    case Close => []
    case SameState(_) => []
    case Advertise(_, _) => []
  }

  function LedgerLog(es: seq<Event>): seq<Keeper.Addressed> {
    if es == [] then [] else LedgerLog(es[..|es| - 1]) + LedgerEntries(es[..|es| - 1], es[|es| - 1])
  }

  /** The connection ledger holds exactly the discoveries and connections that the handlers report. */
  lemma {:induction false} LedgerFollowsEvents(es: seq<Event>)
    ensures Run(NewDevice(map[]), es).peers == Keeper.RunPeers(LedgerLog(es))
  {
    if es == [] {
    } else {
      var before, e := es[..|es| - 1], es[|es| - 1];
      LedgerFollowsEvents(before);
      ConnectedIffReported(map[], before);
      LedgerStep(Run(NewDevice(map[]), before), before, e);
      RunPeersOneMore(LedgerLog(before), LedgerEntries(before, e));
    }
  }

  lemma LedgerStep(d: Device, before: seq<Event>, e: Event)
    requires d.connected == LinkReported(before)
    ensures var more := LedgerEntries(before, e);
            Step(d, e).peers == if more == [] then d.peers else Keeper.Recorded(d.peers, more[0].address, more[0].event)
    ensures |LedgerEntries(before, e)| <= 1
  {
  }

  lemma RunPeersOneMore(log: seq<Keeper.Addressed>, more: seq<Keeper.Addressed>)
    requires |more| <= 1
    ensures Keeper.RunPeers(log + more) ==
              if more == [] then Keeper.RunPeers(log)
              else Keeper.Recorded(Keeper.RunPeers(log), more[0].address, more[0].event)
  {
    if more == [] {
      assert log + more == log;
    } else {
      Keeper.RunPeersSnoc(log, more[0]);
      assert more == [more[0]];
    }
  }

  /** After any run, one matching state stops the hotspot and ends the link, unless the hotspot runs and
      has two peers to serve or the device has a link of its own beside it. With fewer than two peers a
      second match does the rest. */
  lemma MatchReleasesIff(peers: map<string, Ledger.Peer>, es: seq<Event>, peerCount: nat)
    ensures var d := Run(NewDevice(peers), es);
            var once := Run(NewDevice(peers), es + [SameState(peerCount)]);
            var twice := Run(NewDevice(peers), es + [SameState(peerCount)] + [SameState(peerCount)]);
            && (!Running(once.hotspot) && !once.connected
                <==> !(Running(d.hotspot) && (peerCount >= 2 || d.connected)))
            && (!Running(twice.hotspot) && !twice.connected <==> !(Running(d.hotspot) && peerCount >= 2))
  {
    var start, once := NewDevice(peers), es + [SameState(peerCount)];
    RunSnoc(start, es, SameState(peerCount));
    RunSnoc(start, once, SameState(peerCount));
    HotspotRunsIffHost(peers, es);
    HotspotRunsIffHost(peers, once);
    HotspotRunsIffHost(peers, once + [SameState(peerCount)]);
  }

  /** Closing takes the link down but leaves `connected` as it was. A device that was connected ignores
      every peer it finds from then on, until the wifi driver reports the end of the link; one that was
      not connects to them. */
  lemma {:induction false} ClosedStaysConnected(d: Device, es: seq<Event>)
    requires forall e :: e in es ==> e.PeerFound? || e.PeerAsks? || e.Advertise?
    ensures Run(Step(d, Close), es).connected <==> d.connected
    ensures Run(Step(d, Close), es).wifi
         == d.wifi + [Disconnect] + if d.connected then [] else ConnectsTo(es)
  {
    if es == [] {
    } else {
      ClosedStaysConnected(d, es[..|es| - 1]);
    }
  }

  /** A request to connect for every peer found. */
  function ConnectsTo(es: seq<Event>): seq<WifiCommand> {
    if es == [] then []
    else
      var e := es[|es| - 1];
      ConnectsTo(es[..|es| - 1]) + if e.PeerFound? then [Connect(e.network, e.pass, e.peerId)] else []
  }

  // ---------- the service ----------

  class Hotspot {
    var log: seq<HotspotCommand>

    constructor ()
      ensures log == []
    {
      log := [];
    }

    /** A hotspot that runs must not be started again. */
    method Start()
      requires !Running(log)
      modifies this
      ensures log == old(log) + [StartHotspot]
    {
      log := log + [StartHotspot];
    }

    method Stop()
      modifies this
      ensures log == old(log) + [StopHotspot]
    {
      log := log + [StopHotspot];
    }
  }

  class Wifi {
    var log: seq<WifiCommand>

    constructor ()
      ensures log == []
    {
      log := [];
    }

    method Give(c: WifiCommand)
      modifies this
      ensures log == old(log) + [c]
    {
      log := log + [c];
    }
  }

  /** The Bluetooth driver that scans, or the one that advertises. */
  class Bluetooth {
    var adverts: seq<Advert>

    constructor ()
      ensures adverts == []
    {
      adverts := [];
    }

    method AddAdvertisingInfo(topic: string, info: string)
      modifies this
      ensures adverts == old(adverts) + [Advert(topic, info)]
    {
      adverts := adverts + [Advert(topic, info)];
    }
  }

  class DiscoveryService {
    const discovery: Bluetooth
    const advertiser: Bluetooth
    const hotspot: Hotspot
    const wifi: Wifi
    const matrix: Keeper.MatrixKeeper
    var isHost: bool
    var connected: bool
    var advertisingInfo: map<string, string>

    /** Both Bluetooth drivers were told the same, which is what the cache holds, and the hotspot follows
        `isHost`. */
    ghost predicate Valid()
      reads this, discovery, advertiser, hotspot, wifi
    {
      && discovery != advertiser
      && discovery.adverts == advertiser.adverts
      && DriversKnow(advertisingInfo, discovery.adverts)
      && isHost == Running(hotspot.log) && NeverStartedTwice(hotspot.log)
    }

    ghost function S(): Device
      reads this, discovery, hotspot, wifi, matrix
    {
      Device(isHost, connected, advertisingInfo, discovery.adverts, hotspot.log, wifi.log, matrix.node.nodesDiscovered)
    }

    constructor (matrix: Keeper.MatrixKeeper)
      ensures Valid() && S() == NewDevice(matrix.node.nodesDiscovered) && this.matrix == matrix
      ensures fresh(discovery) && fresh(advertiser) && fresh(hotspot) && fresh(wifi)
    {
      discovery := new Bluetooth();
      advertiser := new Bluetooth();
      hotspot := new Hotspot();
      wifi := new Wifi();
      this.matrix := matrix;
      isHost, connected, advertisingInfo := false, false, map[];
    }

    method AddAdvertisingInfo(topic: string, info: string)
      requires Valid()
      modifies this, discovery, advertiser
      ensures Valid() && S() == Step(old(S()), Advertise(topic, info))
      ensures LastSent(discovery.adverts, topic) == LastSent(advertiser.adverts, topic) == info
    {
      AdvertIsKnown(S(), topic, info);
      if Info(advertisingInfo, topic) != info {
        discovery.AddAdvertisingInfo(topic, info);
        advertiser.AddAdvertisingInfo(topic, info);
        advertisingInfo := advertisingInfo[topic := info];
      }
    }

    method DiscoveryPeerDifferentStatus(network: string, pass: string, peerId: string, now: int)
      requires Valid()
      modifies wifi, matrix`node
      ensures Valid() && S() == Step(old(S()), PeerFound(network, pass, peerId, now))
    {
      if connected {
        return;
      }
      matrix.BleDiscovered(peerId, now);
      wifi.Give(Connect(network, pass, peerId));
    }

    method AdvertiserPeerDifferentStatus(peerId: string, isLinked: bool, now: int)
      requires Valid()
      modifies this, hotspot, matrix`node
      ensures Valid() && S() == Step(old(S()), PeerAsks(peerId, isLinked, now))
    {
      if isLinked {
        return;
      }
      matrix.BleDiscovered(peerId, now);
      if !isHost {
        CommandFollows(hotspot.log, StartHotspot);
        hotspot.Start();
        isHost := true;
      }
    }

    method OnConnectionSuccess(host: string, rssi: int, speed: int, frequency: int, now: int)
      requires Valid()
      modifies this, matrix`node
      ensures Valid() && S() == Step(old(S()), ConnectionSuccess(host, rssi, speed, frequency, now))
    {
      matrix.WifiConnected(host, now, rssi, speed, frequency);
      connected := true;
    }

    method OnConnectionFailure()
      requires Valid()
      modifies this, wifi
      ensures Valid() && S() == Step(old(S()), ConnectionFailure)
    {
      wifi.Give(Disconnect);
      connected := false;
    }

    method OnDisconnect()
      requires Valid()
      modifies this
      ensures Valid() && S() == Step(old(S()), Disconnected)
    {
      connected := false;
    }

    method CloseAll()
      requires Valid()
      modifies this, wifi, hotspot
      ensures Valid() && S() == Step(old(S()), Close)
    {
      wifi.Give(Disconnect);
      CommandFollows(hotspot.log, StopHotspot);
      hotspot.Stop();
      isHost := false;
    }

    /** The end of the state watcher's reaction to a message that equals the own state. */
    method OnSameState(peerCount: nat)
      requires Valid()
      modifies this, wifi, hotspot
      ensures Valid() && S() == Step(old(S()), SameState(peerCount))
    {
      if !isHost && connected {
        wifi.Give(Disconnect);
        connected := false;
      }
      if isHost && peerCount < 2 {
        isHost := false;
        CommandFollows(hotspot.log, StopHotspot);
        hotspot.Stop();
      }
    }
  }
}
