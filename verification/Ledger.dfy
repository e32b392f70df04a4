/** The record that a node keeps of its connections to one other node. */
module Ledger {

  datatype ConnectionInfo = ConnectionInfo(bleDiscoveredAt: int, wifiConnectedAt: int, rssi: int, speed: int,
                                           frequency: int, ipfsConnectedAt: int, disconnectedAt: int)

  datatype Peer = Peer(connectionAlive: bool, successCount: int, failureCount: int, lastDuration: int,
                       bleDiscoveredAt: int, wifiConnectedAt: int, rssi: int, speed: int, frequency: int,
                       ipfsConnectedAt: int, discoveryDelays: seq<int>, history: seq<ConnectionInfo>)

  const NEW_PEER := Peer(false, 0, 0, 0, 0, 0, 0, 0, 0, 0, [], [])

  /** What happens to a peer, with the clock readings taken. A disconnection reads the clock twice. */
  datatype Event =
    | BleDiscovered(now: int)
    | WifiConnected(now: int, rssi: int, speed: int, frequency: int)
    | Connected(now: int)
    | ConnectionFailed
    | Disconnected(first: int, now: int)

  function Apply(p: Peer, e: Event): Peer {
    match e
    case BleDiscovered(now) =>
      if p.connectionAlive then p else p.(bleDiscoveredAt := now)
    case WifiConnected(now, rssi, speed, frequency) =>
      if p.connectionAlive then p
      else p.(wifiConnectedAt := now, rssi := rssi, speed := speed, frequency := frequency)
    case Connected(now) =>
      var delay := if now == p.bleDiscoveredAt then 1 else now - p.bleDiscoveredAt;
      p.(successCount := p.successCount + 1, ipfsConnectedAt := now, connectionAlive := true,
      discoveryDelays := if p.bleDiscoveredAt != 0 then p.discoveryDelays + [delay] else p.discoveryDelays)
    case ConnectionFailed =>
      p.(failureCount := p.failureCount + 1, bleDiscoveredAt := 0, wifiConnectedAt := 0,
      rssi := 0, speed := 0, frequency := 0)
    case Disconnected(first, now) =>
      var info := ConnectionInfo(p.bleDiscoveredAt, p.wifiConnectedAt, p.rssi, p.speed, p.frequency,
                                 p.ipfsConnectedAt, now);
      p.(lastDuration := first - p.ipfsConnectedAt, history := p.history + [info], connectionAlive := false,
      bleDiscoveredAt := 0, wifiConnectedAt := 0, ipfsConnectedAt := 0, rssi := 0, speed := 0, frequency := 0)
  }

  function Run(es: seq<Event>): Peer {
    if es == [] then NEW_PEER else Apply(Run(es[..|es| - 1]), es[|es| - 1])
  }

  // ---------- what is said about a run without looking at the record ----------

  function LastTime(es: seq<Event>): int {
    if es == [] then 0
    else if es[|es| - 1].ConnectionFailed? then LastTime(es[..|es| - 1])
    else es[|es| - 1].now
  }

  /** The clock is positive and never goes back. */
  predicate Timely(es: seq<Event>) {
    es == [] || (Timely(es[..|es| - 1]) && TimelyNext(LastTime(es[..|es| - 1]), es[|es| - 1]))
  }

  predicate TimelyNext(last: int, e: Event) {
    && (!e.ConnectionFailed? ==> 0 < e.now && last <= e.now)
    && (e.Disconnected? ==> last <= e.first <= e.now)
  }

  function Connects(es: seq<Event>): nat {
    if es == [] then 0 else Connects(es[..|es| - 1]) + if es[|es| - 1].Connected? then 1 else 0
  }

  function Disconnects(es: seq<Event>): nat {
    if es == [] then 0 else Disconnects(es[..|es| - 1]) + if es[|es| - 1].Disconnected? then 1 else 0
  }

  /** The last connection event, if any, was a connect. */
  predicate Open(es: seq<Event>) {
    es != [] &&
    var e := es[|es| - 1];
    e.Connected? || (!e.Disconnected? && Open(es[..|es| - 1]))
  }

  predicate Alternating(es: seq<Event>) {
    es == [] ||
    var before, e := es[..|es| - 1], es[|es| - 1];
    && Alternating(before)
    && (e.Connected? ==> !Open(before))
    && (e.Disconnected? ==> Open(before))
  }

  /** Every disconnect ends a connection. Connects may follow each other. */
  predicate ClosesOpen(es: seq<Event>) {
    es == [] || (ClosesOpen(es[..|es| - 1]) && (es[|es| - 1].Disconnected? ==> Open(es[..|es| - 1])))
  }

  // ---------- the ledger over all runs ----------

  /** A peer is alive exactly between a connect and the next disconnect, and exactly when its connect
      stamp is nonzero. */
  lemma {:induction false} AliveIffStamped(es: seq<Event>)
    requires Timely(es)
    ensures Run(es).connectionAlive == Open(es) == (Run(es).ipfsConnectedAt != 0)
  {
    if es == [] {
    } else {
      AliveIffStamped(es[..|es| - 1]);
    }
  }

  /** Successes count the connects and the history the disconnects, in any run. */
  lemma {:induction false} CountsEvents(es: seq<Event>)
    ensures Run(es).successCount == Connects(es) && |Run(es).history| == Disconnects(es)
  {
    if es == [] {
    } else {
      CountsEvents(es[..|es| - 1]);
    }
  }

  /** The successes are the finished connections and the open one, if any. */
  predicate Balanced(p: Peer) {
    p.successCount == |p.history| + if p.connectionAlive then 1 else 0
  }

  /** Balanced at every moment of the run. */
  predicate AlwaysBalanced(es: seq<Event>) {
    Balanced(Run(es)) && (es == [] || AlwaysBalanced(es[..|es| - 1]))
  }

  /** The account is balanced at every moment exactly if connects and disconnects alternate. */
  lemma {:induction false} BalancedIffAlternating(es: seq<Event>)
    requires Timely(es)
    ensures AlwaysBalanced(es) <==> Alternating(es)
  {
    if es == [] {
    } else {
      BalancedIffAlternating(es[..|es| - 1]);
      AliveIffStamped(es[..|es| - 1]);
    }
  }

  /** A stamp taken before a connect at `at`: absent, or not before `from` and not after `at`. */
  predicate StampWithin(stamp: int, from: int, at: int) {
    stamp == 0 || from <= stamp <= at
  }

  /** End of the last of the first `i` connections. */
  function EndOf(history: seq<ConnectionInfo>, i: nat): int
    requires i <= |history|
  {
    if i == 0 then 0 else history[i - 1].disconnectedAt
  }

  /** Connection `i` comes after the one before it and holds stamps from the gap between them. */
  predicate EntryInOrder(history: seq<ConnectionInfo>, i: nat)
    requires i < |history|
  {
    var c, gap := history[i], EndOf(history, i);
    && 0 < c.ipfsConnectedAt && gap <= c.ipfsConnectedAt <= c.disconnectedAt
    && StampWithin(c.bleDiscoveredAt, gap, c.ipfsConnectedAt)
    && StampWithin(c.wifiConnectedAt, gap, c.ipfsConnectedAt)
  }

  ghost predicate HistoryInOrder(history: seq<ConnectionInfo>) {
    forall i :: 0 <= i < |history| ==> EntryInOrder(history, i)
  }

  /** The record after a timely run that closes only open connections, with last clock reading `time`. */
  ghost predicate InOrder(p: Peer, time: int) {
    var gap, at := EndOf(p.history, |p.history|), if p.connectionAlive then p.ipfsConnectedAt else time;
    && HistoryInOrder(p.history)
    && gap <= time
    && (p.connectionAlive ==> 0 < p.ipfsConnectedAt && gap <= p.ipfsConnectedAt <= time)
    && StampWithin(p.bleDiscoveredAt, gap, at)
    && StampWithin(p.wifiConnectedAt, gap, at)
  }

  lemma HistorySnoc(history: seq<ConnectionInfo>, c: ConnectionInfo)
    requires HistoryInOrder(history) && EntryInOrder(history + [c], |history|)
    ensures HistoryInOrder(history + [c])
  {
    var longer := history + [c];
    forall i | 0 <= i < |longer| ensures EntryInOrder(longer, i) {
      if i < |history| {
        assert EntryInOrder(history, i);
      }
    }
  }

  lemma {:induction false} RunIsInOrder(es: seq<Event>)
    requires Timely(es) && ClosesOpen(es)
    ensures InOrder(Run(es), LastTime(es))
  {
    if es == [] {
    } else {
      var before, e := es[..|es| - 1], es[|es| - 1];
      RunIsInOrder(before);
      AliveIffStamped(before);
      var p := Run(before);
      if e.Disconnected? {
        var info := Apply(p, e).history[|p.history|];
        assert EndOf(p.history + [info], |p.history|) == EndOf(p.history, |p.history|);
        HistorySnoc(p.history, info);
      }
    }
  }

  lemma {:induction false} EndsAscend(history: seq<ConnectionInfo>, i: nat, j: nat)
    requires HistoryInOrder(history) && i <= j < |history|
    ensures history[i].disconnectedAt <= history[j].disconnectedAt
    decreases j
  {
    if i < j {
      EndsAscend(history, i, j - 1);
      assert EntryInOrder(history, j);
    }
  }

  ghost predicate DisjointIntervals(h: seq<ConnectionInfo>) {
    && (forall i :: 0 <= i < |h| ==> 0 < h[i].ipfsConnectedAt <= h[i].disconnectedAt)
    && (forall i, j :: 0 <= i < j < |h| ==> h[i].disconnectedAt <= h[j].ipfsConnectedAt)
  }

  ghost predicate StampsInGaps(h: seq<ConnectionInfo>) {
    forall i :: 0 <= i < |h| ==>
      && StampWithin(h[i].bleDiscoveredAt, EndOf(h, i), h[i].ipfsConnectedAt)
      && StampWithin(h[i].wifiConnectedAt, EndOf(h, i), h[i].ipfsConnectedAt)
  }

  lemma OrderedIsDisjoint(h: seq<ConnectionInfo>)
    requires HistoryInOrder(h)
    ensures DisjointIntervals(h)
  {
    forall i, j | 0 <= i < j < |h| ensures h[i].disconnectedAt <= h[j].ipfsConnectedAt {
      EndsAscend(h, i, j - 1);
      assert EntryInOrder(h, j);
    }
    forall i | 0 <= i < |h| ensures 0 < h[i].ipfsConnectedAt <= h[i].disconnectedAt {
      assert EntryInOrder(h, i);
    }
  }

  lemma OrderedHasStampsInGaps(h: seq<ConnectionInfo>)
    requires HistoryInOrder(h)
    ensures StampsInGaps(h)
  {
    forall i | 0 <= i < |h|
      ensures StampWithin(h[i].bleDiscoveredAt, EndOf(h, i), h[i].ipfsConnectedAt)
      ensures StampWithin(h[i].wifiConnectedAt, EndOf(h, i), h[i].ipfsConnectedAt)
    {
      assert EntryInOrder(h, i);
    }
  }

  /** A disconnect without a connection leaves an entry that began at time 0, for good. */
  lemma {:induction false} StrayDisconnectStays(es: seq<Event>)
    requires Timely(es) && !ClosesOpen(es)
    ensures exists i :: 0 <= i < |Run(es).history| && Run(es).history[i].ipfsConnectedAt == 0
  {
    var before, h := es[..|es| - 1], Run(es).history;
    if ClosesOpen(before) {
      AliveIffStamped(before);
      assert h[|h| - 1].ipfsConnectedAt == 0;
    } else {
      StrayDisconnectStays(before);
      var i :| 0 <= i < |Run(before).history| && Run(before).history[i].ipfsConnectedAt == 0;
      assert h[i] == Run(before).history[i];
    }
  }

  /** Finished connections are disjoint intervals in the order they happened exactly if no disconnect
      comes without a connection. */
  lemma {:induction false} ConnectionsAreDisjointIff(es: seq<Event>)
    requires Timely(es)
    ensures DisjointIntervals(Run(es).history) <==> ClosesOpen(es)
  {
    if ClosesOpen(es) {
      RunIsInOrder(es);
      OrderedIsDisjoint(Run(es).history);
    } else {
      StrayDisconnectStays(es);
    }
  }

  /** Then the BLE and Wifi stamps of a connection are absent or lie between the end of the connection
      before and its own connect. */
  lemma {:induction false} StampsAreInGaps(es: seq<Event>)
    requires Timely(es) && ClosesOpen(es)
    ensures StampsInGaps(Run(es).history)
  {
    RunIsInOrder(es);
    OrderedHasStampsInGaps(Run(es).history);
  }

  lemma {:induction false} StampsAreNotLate(es: seq<Event>)
    requires Timely(es)
    ensures 0 <= LastTime(es) && 0 <= Run(es).bleDiscoveredAt <= LastTime(es)
  {
    if es == [] {
    } else {
      StampsAreNotLate(es[..|es| - 1]);
    }
  }

  /** Every discovery delay is at least one second, even when connects do not alternate. */
  lemma {:induction false} DelaysArePositive(es: seq<Event>)
    requires Timely(es)
    ensures var p := Run(es);
            |p.discoveryDelays| <= Connects(es) && forall d :: d in p.discoveryDelays ==> d >= 1
  {
    if es == [] {
    } else {
      DelaysArePositive(es[..|es| - 1]);
      StampsAreNotLate(es[..|es| - 1]);
    }
  }

  // ---------- the record, told from the events ----------

  /** When the peer was last discovered since the last disconnect or failure, outside a connection. */
  function LastBle(es: seq<Event>): int {
    if es == [] then 0
    else
      var before, e := es[..|es| - 1], es[|es| - 1];
      if e.BleDiscovered? && !Open(before) then e.now
      else if e.ConnectionFailed? || e.Disconnected? then 0
      else LastBle(before)
  }

  datatype WifiData = WifiData(at: int, rssi: int, speed: int, frequency: int)

  /** The last Wifi link since then, with its data. */
  function LastWifi(es: seq<Event>): WifiData {
    if es == [] then WifiData(0, 0, 0, 0)
    else
      var before, e := es[..|es| - 1], es[|es| - 1];
      if e.WifiConnected? && !Open(before) then WifiData(e.now, e.rssi, e.speed, e.frequency)
      else if e.ConnectionFailed? || e.Disconnected? then WifiData(0, 0, 0, 0)
      else LastWifi(before)
  }

  /** The last connect that no disconnect has followed. */
  function LastConnect(es: seq<Event>): int {
    if es == [] then 0
    else
      var e := es[|es| - 1];
      if e.Connected? then e.now else if e.Disconnected? then 0 else LastConnect(es[..|es| - 1])
  }

  function Failures(es: seq<Event>): nat {
    if es == [] then 0 else Failures(es[..|es| - 1]) + if es[|es| - 1].ConnectionFailed? then 1 else 0
  }

  /** How long the last connection lasted, by the first of the two clock readings at its end. */
  function LastDuration(es: seq<Event>): int {
    if es == [] then 0
    else if es[|es| - 1].Disconnected? then es[|es| - 1].first - LastConnect(es[..|es| - 1])
    else LastDuration(es[..|es| - 1])
  }

  /** For every disconnect what had been noted until then. */
  function HistoryTold(es: seq<Event>): seq<ConnectionInfo> {
    if es == [] then []
    else
      var before, e := es[..|es| - 1], es[|es| - 1];
      if !e.Disconnected? then HistoryTold(before)
      else
        var w := LastWifi(before);
        HistoryTold(before) +
        [ConnectionInfo(LastBle(before), w.at, w.rssi, w.speed, w.frequency, LastConnect(before), e.now)]
  }

  /** For every connect after a discovery the time between them, of one second at least. */
  function DelaysTold(es: seq<Event>): seq<int> {
    if es == [] then []
    else
      var before, e := es[..|es| - 1], es[|es| - 1];
      if !e.Connected? || LastBle(before) == 0 then DelaysTold(before)
      else DelaysTold(before) + [if e.now - LastBle(before) == 0 then 1 else e.now - LastBle(before)]
  }

  predicate StampsTold(p: Peer, es: seq<Event>) {
    && p.connectionAlive == Open(es) && p.bleDiscoveredAt == LastBle(es) && p.ipfsConnectedAt == LastConnect(es)
    && WifiData(p.wifiConnectedAt, p.rssi, p.speed, p.frequency) == LastWifi(es)
  }

  lemma StepStamps(p: Peer, es: seq<Event>)
    requires es != [] && StampsTold(p, es[..|es| - 1])
    ensures StampsTold(Apply(p, es[|es| - 1]), es)
  {
  }

  lemma {:induction false} StampsAreTold(es: seq<Event>)
    ensures StampsTold(Run(es), es)
  {
    if es == [] {
    } else {
      StampsAreTold(es[..|es| - 1]);
      StepStamps(Run(es[..|es| - 1]), es);
    }
  }

  /** The whole record is what the events tell: which stamp each connection carries, with its Wifi data,
      how long it lasted, and every delay. */
  lemma {:induction false} RecordIsTold(es: seq<Event>)
    ensures var p := Run(es);
            && StampsTold(p, es)
            && p.history == HistoryTold(es) && p.discoveryDelays == DelaysTold(es)
            && p.successCount == Connects(es) && p.failureCount == Failures(es) && p.lastDuration == LastDuration(es)
  {
    StampsAreTold(es);
    if es == [] {
    } else {
      RecordIsTold(es[..|es| - 1]);
    }
  }

  /** One more event. */
  lemma Snoc(es: seq<Event>, e: Event)
    ensures Run(es + [e]) == Apply(Run(es), e)
    ensures Timely(es + [e]) <==> Timely(es) && TimelyNext(LastTime(es), e)
    ensures ClosesOpen(es + [e]) <==> ClosesOpen(es) && (e.Disconnected? ==> Open(es))
    ensures Open(es + [e]) <==> e.Connected? || (!e.Disconnected? && Open(es))
    ensures LastTime(es + [e]) == if e.ConnectionFailed? then LastTime(es) else e.now
  {
    assert (es + [e])[..|es|] == es;
  }

  /** A second disconnect records an interval that began at time 0. */
  lemma DoubleDisconnectBreaksIntervals()
    ensures var es := [] + [Connected(5)] + [Disconnected(6, 6)] + [Disconnected(7, 7)];
            Timely(es) && !DisjointIntervals(Run(es).history)
  {
    var one := [] + [Connected(5)];
    var two := one + [Disconnected(6, 6)];
    Snoc([], Connected(5));
    Snoc(one, Disconnected(6, 6));
    Snoc(two, Disconnected(7, 7));
    ConnectionsAreDisjointIff(two + [Disconnected(7, 7)]);
  }
}
