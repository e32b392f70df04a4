/** The matrix keeper: connection and content records in memory and their two images in the
    datastore. */
module Keeper {
  import opened Wrappers
  import opened ContentMatrix
  import opened Ledger

  datatype NodeMatrix = NodeMatrix(totalUptime: int, nodesDiscovered: map<string, Peer>)

  const NEW_NODE_MATRIX := NodeMatrix(0, map[])

  /** Where a flush stops, if one of its two writes fails or the process dies. */
  datatype Fault = Completes | StopsFirst | StopsBetween

  datatype State = State(node: NodeMatrix, content: Contents,
                         nodeImage: Option<NodeMatrix>, contentImage: Option<Contents>)

  function Load(nodeImage: Option<NodeMatrix>, contentImage: Option<Contents>): State {
    if nodeImage.None? || contentImage.None? then State(NEW_NODE_MATRIX, map[], nodeImage, contentImage)
    else State(nodeImage.value, contentImage.value, nodeImage, contentImage)
  }

  function Flushed(s: State, fault: Fault): State {
    match fault
    case StopsFirst => s
    case StopsBetween => s.(nodeImage := Some(s.node))
    case Completes => s.(nodeImage := Some(s.node), contentImage := Some(s.content))
  }

  function Ticked(s: State): State {
    s.(node := s.node.(totalUptime := s.node.totalUptime + 30))
  }

  function PeerOf(nodes: map<string, Peer>, address: string): Peer {
    if address in nodes then nodes[address] else NEW_PEER
  }

  /** The effect of one connection event: the record of `address` moves on, all others stay. */
  function Recorded(nodes: map<string, Peer>, address: string, e: Ledger.Event): map<string, Peer> {
    nodes[address := Ledger.Apply(PeerOf(nodes, address), e)]
  }

  class Datastore {
    var nodeImage: Option<NodeMatrix>
    var contentImage: Option<Contents>

    constructor ()
      ensures nodeImage == None && contentImage == None
    {
      nodeImage, contentImage := None, None;
    }
  }

  class MatrixKeeper {
    const db: Datastore
    var node: NodeMatrix
    var content: Contents

    function S(): State
      reads this, db
    {
      State(node, content, db.nodeImage, db.contentImage)
    }

    /** `NewMatrixKeeper`: an image without its partner is not used. */
    constructor (db: Datastore)
      ensures this.db == db && S() == Load(db.nodeImage, db.contentImage)
    {
      this.db := db;
      node, content := NEW_NODE_MATRIX, map[];
      new;
      if db.nodeImage.None? {
        return;
      }
      if db.contentImage.None? {
        return;
      }
      node := db.nodeImage.value;
      content := db.contentImage.value;
    }

    method Flush(fault: Fault) returns (ok: bool)
      modifies db
      ensures S() == Flushed(old(S()), fault) && ok == fault.Completes?
    {
      if fault.StopsFirst? {
        return false;
      }
      db.nodeImage := Some(node);
      if fault.StopsBetween? {
        return false;
      }
      db.contentImage := Some(content);
      ok := true;
    }

    /** One round of the ticker. */
    method Tick(fault: Fault)
      modifies this, db
      ensures S() == Flushed(Ticked(old(S())), fault)
    {
      node := node.(totalUptime := node.totalUptime + 30);
      var _ := Flush(fault);
    }

    method BleDiscovered(address: string, now: int)
      modifies this`node
      ensures node == old(node).(nodesDiscovered :=
                Recorded(old(node).nodesDiscovered, address, Ledger.BleDiscovered(now)))
    {
      EnsureNode(address);
      var p := node.nodesDiscovered[address];
      if p.connectionAlive {
        return;
      }
      SetNode(address, p.(bleDiscoveredAt := now));
    }

    method WifiConnected(address: string, now: int, rssi: int, speed: int, frequency: int)
      modifies this`node
      ensures node == old(node).(nodesDiscovered :=
                Recorded(old(node).nodesDiscovered, address, Ledger.WifiConnected(now, rssi, speed, frequency)))
    {
      EnsureNode(address);
      var p := node.nodesDiscovered[address];
      if p.connectionAlive {
        return;
      }
      SetNode(address, p.(wifiConnectedAt := now, rssi := rssi, speed := speed, frequency := frequency));
    }

    method NodeConnected(address: string, now: int)
      modifies this`node
      ensures node == old(node).(nodesDiscovered :=
                Recorded(old(node).nodesDiscovered, address, Ledger.Connected(now)))
    {
      EnsureNode(address);
      var p := node.nodesDiscovered[address];
      p := p.(successCount := p.successCount + 1, ipfsConnectedAt := now, connectionAlive := true);
      if p.bleDiscoveredAt != 0 {
        var delay := p.ipfsConnectedAt - p.bleDiscoveredAt;
        if delay == 0 {
          delay := 1;
        }
        p := p.(discoveryDelays := p.discoveryDelays + [delay]);
      }
      SetNode(address, p);
    }

    method NodeConnectionFailed(address: string)
      modifies this`node
      ensures node == old(node).(nodesDiscovered :=
                Recorded(old(node).nodesDiscovered, address, Ledger.ConnectionFailed))
    {
      EnsureNode(address);
      var p := node.nodesDiscovered[address];
      p := p.(failureCount := p.failureCount + 1);
      SetNode(address, p.(bleDiscoveredAt := 0, wifiConnectedAt := 0, rssi := 0, speed := 0, frequency := 0));
    }

    /** The record must be there: the source follows the map entry without a check. */
    method NodeDisconnected(address: string, first: int, now: int)
      requires address in node.nodesDiscovered
      modifies this`node
      ensures node == old(node).(nodesDiscovered :=
                Recorded(old(node).nodesDiscovered, address, Ledger.Disconnected(first, now)))
    {
      var p := node.nodesDiscovered[address];
      p := p.(lastDuration := first - p.ipfsConnectedAt);
      var info := ConnectionInfo(p.bleDiscoveredAt, p.wifiConnectedAt, p.rssi, p.speed, p.frequency,
                                 p.ipfsConnectedAt, now);
      p := p.(history := p.history + [info], connectionAlive := false);
      SetNode(address, p.(bleDiscoveredAt := 0, wifiConnectedAt := 0, ipfsConnectedAt := 0,
                          rssi := 0, speed := 0, frequency := 0));
    }

    method EnsureNode(address: string)
      modifies this`node
      ensures node == old(node).(nodesDiscovered :=
                old(node).nodesDiscovered[address := PeerOf(old(node).nodesDiscovered, address)])
    {
      if address !in node.nodesDiscovered {
        SetNode(address, NEW_PEER);
      } else {
        assert node.nodesDiscovered[address := node.nodesDiscovered[address]] == node.nodesDiscovered;
      }
    }

    method SetNode(address: string, p: Peer)
      modifies this`node
      ensures node == old(node).(nodesDiscovered := old(node).nodesDiscovered[address := p])
    {
      node := node.(nodesDiscovered := node.nodesDiscovered[address := p]);
    }

    method NewContent(hash: Hash)
      modifies this`content
      ensures content == ContentMatrix.NewContent(old(content), hash)
    {
      if hash !in content {
        content := content[hash := NEW_CONTENT];
      }
    }

    method ContentDownloadStarted(tag: string, hash: Hash, size: int, now: int)
      requires hash in content
      modifies this`content
      ensures content == ContentMatrix.Started(old(content), hash, tag, size, now)
    {
      content := content[hash := content[hash].(tag := tag, startedAt := now, size := size)];
    }

    method ContentDownloadFinished(hash: Hash, now: int)
      requires hash in content
      modifies this`content
      ensures content == ContentMatrix.Finished(old(content), hash, now)
    {
      var c := content[hash].(finishedAt := now);
      var timeConsumed := c.finishedAt - c.startedAt;
      if timeConsumed == 0 {
        timeConsumed := 1;
      }
      content := content[hash := c.(avgSpeed := SizeInMB(c.size) / timeConsumed as real)];
    }

    method ContentAddProvider(hash: Hash, provider: PeerId)
      requires hash in content
      modifies this`content
      ensures content == ContentMatrix.AddProvider(old(content), hash, provider)
    {
      var providers := content[hash].providedBy;
      var found := false;
      var i := 0;
      while i < |providers| && !found
        invariant 0 <= i <= |providers|
        invariant found <==> provider in providers[..i]
      {
        found := providers[i] == provider;
        i := i + 1;
      }
      assert found ==> provider in providers;
      assert !found ==> providers[..i] == providers;
      if !found {
        content := content[hash := content[hash].(providedBy := providers + [provider])];
      }
    }
  }

  // ---------- all peers at once ----------

  datatype Addressed = Addressed(address: string, event: Ledger.Event)

  function RunPeers(es: seq<Addressed>): map<string, Peer> {
    if es == [] then map[]
    else Recorded(RunPeers(es[..|es| - 1]), es[|es| - 1].address, es[|es| - 1].event)
  }

  function EventsOf(es: seq<Addressed>, address: string): seq<Ledger.Event> {
    if es == [] then []
    else
      var before, e := EventsOf(es[..|es| - 1], address), es[|es| - 1];
      if e.address == address then before + [e.event] else before
  }

  /** Each record depends on its own peer's events only, so the laws of one ledger hold for each. */
  lemma {:induction false} PeersAreIndependent(es: seq<Addressed>, address: string)
    ensures PeerOf(RunPeers(es), address) == Ledger.Run(EventsOf(es, address))
  {
    if es == [] {
    } else {
      var before, e := es[..|es| - 1], es[|es| - 1];
      PeersAreIndependent(before, address);
      if e.address == address {
        var events := EventsOf(before, address);
        assert (events + [e.event])[..|events|] == events;
      }
    }
  }

  // ---------- persistence over all histories ----------

  /** `Record` is one of the methods that record connections, `Update` one that records downloads. */
  datatype Event =
    | Tick(fault: Fault)
    | FlushNow(fault: Fault)
    | Record(address: string, event: Ledger.Event)
    | Update(content: Contents)
    | Reload

  function Step(s: State, e: Event): State {
    match e
    case Tick(fault) => Flushed(Ticked(s), fault)
    case FlushNow(fault) => Flushed(s, fault)
    case Record(address, event) =>
      s.(node := s.node.(nodesDiscovered := Recorded(s.node.nodesDiscovered, address, event)))
    case Update(content) => s.(content := content)
    case Reload => Load(s.nodeImage, s.contentImage)
  }

  /** A keeper started on an empty datastore. */
  function Run(es: seq<Event>): State {
    if es == [] then Load(None, None) else Step(Run(es[..|es| - 1]), es[|es| - 1])
  }

  function FaultOf(e: Event): Fault {
    if e.Tick? || e.FlushNow? then e.fault else StopsFirst
  }

  /** Some flush of the run completed. */
  predicate EverCompleted(es: seq<Event>) {
    es != [] && (FaultOf(es[|es| - 1]).Completes? || EverCompleted(es[..|es| - 1]))
  }

  /** The node matrix in memory at the last flush that got past its first write. */
  function LastNodeWritten(es: seq<Event>): NodeMatrix {
    if es == [] then NEW_NODE_MATRIX
    else if FaultOf(es[|es| - 1]).StopsFirst? then LastNodeWritten(es[..|es| - 1])
    else Run(es).node
  }

  /** The content matrix in memory at the last flush that completed. */
  function LastContentCompleted(es: seq<Event>): Contents {
    if es == [] then map[]
    else if FaultOf(es[|es| - 1]).Completes? then Run(es).content
    else LastContentCompleted(es[..|es| - 1])
  }

  lemma {:induction false} ImagesAre(es: seq<Event>)
    ensures var s := Run(es);
            && (s.contentImage.Some? <==> EverCompleted(es))
            && (s.contentImage.Some? ==> s.nodeImage.Some? && s.contentImage.value == LastContentCompleted(es))
            && (s.nodeImage.Some? ==> s.nodeImage.value == LastNodeWritten(es))
  {
    if es == [] {
    } else {
      ImagesAre(es[..|es| - 1]);
    }
  }

  /** A restart after any history of flushes, some cut short, finds the last node matrix written with
      the content matrix of the last completed flush, or nothing if no flush ever completed. */
  lemma RestartFinds(es: seq<Event>)
    ensures var s := Run(es + [Reload]);
            if EverCompleted(es)
            then s.node == LastNodeWritten(es) && s.content == LastContentCompleted(es)
            else s.node == NEW_NODE_MATRIX && s.content == map[]
  {
    ImagesAre(es);
    assert (es + [Reload])[..|es|] == es;
  }

  /** Ticks counted by the running keeper, those before a restart only as far as the image it came from. */
  function TicksInMemory(es: seq<Event>): nat {
    if es == [] then 0
    else
      var before, e := es[..|es| - 1], es[|es| - 1];
      if e.Tick? then TicksInMemory(before) + 1
      else if e.Reload? then (if EverCompleted(before) then TicksInImage(before) else 0)
      else TicksInMemory(before)
  }

  function TicksInImage(es: seq<Event>): nat {
    if es == [] then 0
    else
      var before, e := es[..|es| - 1], es[|es| - 1];
      if FaultOf(e).StopsFirst? then TicksInImage(before)
      else TicksInMemory(before) + if e.Tick? then 1 else 0
  }

  /** Total uptime is thirty seconds per tick, across restarts. */
  lemma {:induction false} UptimeIsThirtyPerTick(es: seq<Event>)
    ensures Run(es).node.totalUptime == 30 * TicksInMemory(es)
    ensures LastNodeWritten(es).totalUptime == 30 * TicksInImage(es)
  {
    if es == [] {
    } else {
      var before := es[..|es| - 1];
      UptimeIsThirtyPerTick(before);
      ImagesAre(before);
    }
  }

  // ---------- the ledgers across restarts ----------

  /** The connection events that the running keeper still remembers. */
  function MemoryLog(es: seq<Event>): seq<Addressed> {
    if es == [] then []
    else
      var before, e := es[..|es| - 1], es[|es| - 1];
      match e
      case Record(address, event) => MemoryLog(before) + [Addressed(address, event)]
      case Reload => if EverCompleted(before) then ImageLog(before) else []
      case Tick(_) => MemoryLog(before)
      case FlushNow(_) => MemoryLog(before)
      case Update(_) => MemoryLog(before)
  }

  /** Those that the node image remembers. */
  function ImageLog(es: seq<Event>): seq<Addressed> {
    if es == [] then []
    else if FaultOf(es[|es| - 1]).StopsFirst? then ImageLog(es[..|es| - 1])
    else MemoryLog(es[..|es| - 1])
  }

  lemma RunPeersSnoc(log: seq<Addressed>, a: Addressed)
    ensures RunPeers(log + [a]) == Recorded(RunPeers(log), a.address, a.event)
  {
    assert (log + [a])[..|log|] == log;
  }

  lemma {:induction false} RecordsAreOfLogs(es: seq<Event>)
    ensures Run(es).node.nodesDiscovered == RunPeers(MemoryLog(es))
    ensures LastNodeWritten(es).nodesDiscovered == RunPeers(ImageLog(es))
  {
    if es == [] {
    } else {
      var before, e := es[..|es| - 1], es[|es| - 1];
      RecordsAreOfLogs(before);
      ImagesAre(before);
      if e.Record? {
        RunPeersSnoc(MemoryLog(before), Addressed(e.address, e.event));
      }
    }
  }

  /** After any history of flushes, crashes and restarts a peer's record is the ledger of exactly the
      events that survived. */
  lemma PeerIsLedgerOfSurvivors(es: seq<Event>, address: string)
    ensures PeerOf(Run(es).node.nodesDiscovered, address) == Ledger.Run(EventsOf(MemoryLog(es), address))
  {
    RecordsAreOfLogs(es);
    PeersAreIndependent(MemoryLog(es), address);
  }

  /** The last clock reading of any process. */
  function Clock(es: seq<Event>): int {
    if es == [] then 0
    else
      var e := es[|es| - 1];
      if e.Record? && !e.event.ConnectionFailed? then e.event.now else Clock(es[..|es| - 1])
  }

  /** The clock is positive and goes on across restarts. */
  predicate ClockGoesOn(es: seq<Event>) {
    es == [] ||
    var before, e := es[..|es| - 1], es[|es| - 1];
    ClockGoesOn(before) && (e.Record? ==> TimelyNext(Clock(before), e.event))
  }

  /** This process has connected to the peer and not disconnected since. */
  predicate Linked(es: seq<Event>, address: string) {
    es != [] &&
    var before, e := es[..|es| - 1], es[|es| - 1];
    match e
    case Record(a, event) =>
      if a != address then Linked(before, address)
      else event.Connected? || (!event.Disconnected? && Linked(before, address))
    case Reload => false
    case Tick(_) => Linked(before, address)
    case FlushNow(_) => Linked(before, address)
    case Update(_) => Linked(before, address)
  }

  /** A process reports the end of its own connections only. */
  predicate EndsOwnLinks(es: seq<Event>) {
    es == [] ||
    var before, e := es[..|es| - 1], es[|es| - 1];
    EndsOwnLinks(before) && (e.Record? && e.event.Disconnected? ==> Linked(before, e.address))
  }

  lemma EventsOfSnoc(log: seq<Addressed>, a: Addressed, address: string)
    ensures EventsOf(log + [a], address)
         == EventsOf(log, address) + if a.address == address then [a.event] else []
  {
    assert (log + [a])[..|log|] == log;
  }

  ghost predicate TimelyUpTo(log: seq<Addressed>, address: string, time: int) {
    Timely(EventsOf(log, address)) && LastTime(EventsOf(log, address)) <= time
  }

  lemma TimelyUpToSnoc(log: seq<Addressed>, a: Addressed, address: string, time: int)
    requires TimelyUpTo(log, address, time) && TimelyNext(time, a.event)
    ensures TimelyUpTo(log + [a], address, if a.event.ConnectionFailed? then time else a.event.now)
  {
    EventsOfSnoc(log, a, address);
    if a.address == address {
      Snoc(EventsOf(log, address), a.event);
    } else {
      assert EventsOf(log, address) + [] == EventsOf(log, address);
    }
  }

  lemma {:induction false} SurvivorsAreTimely(es: seq<Event>, address: string)
    requires ClockGoesOn(es)
    ensures 0 <= Clock(es)
    ensures TimelyUpTo(MemoryLog(es), address, Clock(es)) && TimelyUpTo(ImageLog(es), address, Clock(es))
  {
    if es == [] {
    } else {
      var before, e := es[..|es| - 1], es[|es| - 1];
      SurvivorsAreTimely(before, address);
      if e.Record? {
        TimelyUpToSnoc(MemoryLog(before), Addressed(e.address, e.event), address, Clock(before));
      }
    }
  }

  lemma {:induction false} SurvivorsCloseOpen(es: seq<Event>, address: string)
    requires EndsOwnLinks(es)
    ensures var kept := EventsOf(MemoryLog(es), address); ClosesOpen(kept) && (Linked(es, address) ==> Open(kept))
    ensures ClosesOpen(EventsOf(ImageLog(es), address))
  {
    if es == [] {
    } else {
      var before, e := es[..|es| - 1], es[|es| - 1];
      SurvivorsCloseOpen(before, address);
      if e.Record? {
        EventsOfSnoc(MemoryLog(before), Addressed(e.address, e.event), address);
        Snoc(EventsOf(MemoryLog(before), address), e.event);
      }
    }
  }

  /** The intervals of a peer stay disjoint, with stamps in the gaps, over any history of flushes and
      crashes, crashes while connected included, as long as each process ends its own connections only. */
  lemma HistoriesSurviveCrashes(es: seq<Event>, address: string)
    requires ClockGoesOn(es) && EndsOwnLinks(es)
    ensures var history := PeerOf(Run(es).node.nodesDiscovered, address).history;
            DisjointIntervals(history) && StampsInGaps(history)
  {
    PeerIsLedgerOfSurvivors(es, address);
    SurvivorsAreTimely(es, address);
    SurvivorsCloseOpen(es, address);
    ConnectionsAreDisjointIff(EventsOf(MemoryLog(es), address));
    StampsAreInGaps(EventsOf(MemoryLog(es), address));
  }

  lemma {:induction false} AlternatingIsBalanced(es: seq<Ledger.Event>)
    requires Timely(es) && Alternating(es)
    ensures Balanced(Ledger.Run(es)) && Ledger.Run(es).connectionAlive == Open(es)
  {
    BalancedIffAlternating(es);
    AliveIffStamped(es);
  }

  /** The account of successes survives a crash exactly if no image was saved while connected: else the
      first connect of the new process is one success too many. */
  lemma FirstReconnectIsBalancedIff(es: seq<Event>, address: string, now: int)
    requires ClockGoesOn(es) && Alternating(EventsOf(ImageLog(es), address))
    ensures var after := Run(es + [Reload] + [Record(address, Connected(now))]);
            Balanced(PeerOf(after.node.nodesDiscovered, address)) <==>
              !(EverCompleted(es) && Open(EventsOf(ImageLog(es), address)))
  {
    var restarted := es + [Reload];
    assert restarted[..|es|] == es;
    assert (restarted + [Record(address, Connected(now))])[..|restarted|] == restarted;
    assert MemoryLog(restarted) == if EverCompleted(es) then ImageLog(es) else [];
    PeerIsLedgerOfSurvivors(restarted, address);
    SurvivorsAreTimely(es, address);
    AlternatingIsBalanced(EventsOf(ImageLog(es), address));
  }
}
