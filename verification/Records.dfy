/** Downloads and content records, told from the events of a run alone. */
module Records {
  import opened Keys
  import opened ContentMatrix
  import opened Replication
  import opened Downloads
  import opened GlobalFilter

  type Event = Replication.Event

  // ---------- where a download is ----------

  datatype Place = Unsent | Waiting | Taken | Running | Finished | Failed | Lost

  /** What one event does to a download that was sent before it. */
  function NextPlace(p: Place, e: Event, id: nat): Place {
    match e
    case Take(i, _) => if i == id then Taken else p
    case Launch(i, accepted) => if i != id then p else if accepted then Running else Failed
    case Done(i, ok, _) => if i != id then p else if ok then Finished else Failed
    case Restart => if p == Waiting || p == Taken || p == Running then Lost else p
    case Put(_, _) => p
    case Delete(_) => p
    case MarkStarted(_, _) => p
    case Reconnect(_) => p
    case Save => p
  }

  /** A download waits from the event that sent its metadata on. */
  ghost function PlaceIn(c: Config, es: seq<Event>, id: nat): Place
    requires Legal(c, es)
  {
    if es == [] then Unsent
    else
      var before := es[..|es| - 1];
      if id < |Run(c, before).sent| then NextPlace(PlaceIn(c, before, id), es[|es| - 1], id)
      else if id < |Run(c, es).sent| then Waiting
      else Unsent
  }

  ghost predicate IsAt(s: Node, id: nat, p: Place) {
    && (id in s.waiting <==> p == Waiting) && (id in s.taken <==> p == Taken) && (id in s.running <==> p == Running)
    && (id in s.finished <==> p == Finished) && (id in s.failed <==> p == Failed) && (id in s.lost <==> p == Lost)
    && (id < |s.sent| <==> p != Unsent)
  }

  lemma SendAllMoves(s: Node, ms: seq<Metatag>, id: nat, p: Place)
    requires IsAt(s, id, p)
    ensures IsAt(SendAll(s, ms), id, if p == Unsent && id < |s.sent| + |ms| then Waiting else p)
  {
  }

  lemma SameDownloadsStay(s: Node, t: Node, id: nat, p: Place)
    requires IsAt(s, id, p) && SameDownloads(s, t)
    ensures IsAt(t, id, p)
  {
  }

  lemma PutMoves(c: Config, s: Node, k: Key, v: Value, id: nat, p: Place)
    requires IsAt(s, id, p) && WellFormed(k)
    ensures var t := Step(c, s, Put(k, v));
            IsAt(t, id, if p == Unsent && id < |t.sent| then Waiting else p)
  {
    var s' := s.(store := s.store[k := v]);
    HookSendsAtMostOne(c, s', k, v);
    var t := PutHook(c, s', k, v);
    if SameDownloads(s', t) {
      SameDownloadsStay(s', t, id, p);
    } else {
      SendAllMoves(s', [ParseMeta(v).value], id, p);
    }
  }

  lemma DoneMoves(c: Config, s: Node, i: nat, ok: bool, now: int, id: nat, p: Place)
    requires IsAt(s, id, p) && Enabled(s, Done(i, ok, now))
    ensures IsAt(Step(c, s, Done(i, ok, now)), id, NextPlace(p, Done(i, ok, now), id))
  {
    var settled := Settle(s, i, ok);
    assert IsAt(settled, id, NextPlace(p, Done(i, ok, now), id));
    if ok {
      CallbackKeepsDownloads(c, settled, s.sent[i], now);
      SameDownloadsStay(settled, Callback(c, settled, s.sent[i], now), id, NextPlace(p, Done(i, ok, now), id));
    }
  }

  lemma TaskMoves(c: Config, s: Node, e: Event, id: nat, p: Place)
    requires IsAt(s, id, p) && Enabled(s, e) && (e.Take? || e.Launch? || e.Restart?)
    ensures IsAt(Step(c, s, e), id, NextPlace(p, e, id))
  {
  }

  lemma QuietMoves(c: Config, s: Node, e: Event, id: nat, p: Place)
    requires IsAt(s, id, p) && Enabled(s, e) && (e.Delete? || e.MarkStarted? || e.Save?)
    ensures IsAt(Step(c, s, e), id, p)
  {
  }

  ghost function PlaceAfter(c: Config, s: Node, e: Event, id: nat, p: Place): Place
    requires Enabled(s, e)
  {
    if id < |s.sent| then NextPlace(p, e, id) else if id < |Step(c, s, e).sent| then Waiting else Unsent
  }

  lemma StepMoves(c: Config, s: Node, e: Event, id: nat, p: Place)
    requires IsAt(s, id, p) && Enabled(s, e)
    ensures IsAt(Step(c, s, e), id, PlaceAfter(c, s, e, id, p))
  {
    match e
    case Put(k, v) => PutMoves(c, s, k, v, id, p);
    case Reconnect(order) =>
      OrderVisitsRecords(s, order);
      SendAllMoves(s, Resumed(s, order), id, p);
    case Done(i, ok, now) => DoneMoves(c, s, i, ok, now, id, p);
    case Delete(_) => QuietMoves(c, s, e, id, p);
    case Take(_, _) => TaskMoves(c, s, e, id, p);
    case Launch(_, _) => TaskMoves(c, s, e, id, p);
    case MarkStarted(_, _) => QuietMoves(c, s, e, id, p);
    case Save => QuietMoves(c, s, e, id, p);
    case Restart => TaskMoves(c, s, e, id, p);
  }

  /** Every download is where its own events put it: it waits once sent, is taken, launched or refused,
      ends well or badly, and a restart loses it if it is still open. */
  lemma {:induction false} DownloadsAreWhereTold(c: Config, es: seq<Event>, id: nat)
    requires Legal(c, es)
    ensures IsAt(Run(c, es), id, PlaceIn(c, es, id))
  {
    if es == [] {
    } else {
      var before := es[..|es| - 1];
      DownloadsAreWhereTold(c, before, id);
      StepMoves(c, Run(c, before), es[|es| - 1], id, PlaceIn(c, before, id));
    }
  }

  /** Told from the events: the task was accepted, and neither marked as started nor lost since. */
  predicate AwaitsMark(es: seq<Event>, id: nat) {
    es != [] &&
    var before, e := es[..|es| - 1], es[|es| - 1];
    if e.Launch? && e.id == id && e.accepted then true
    else if (e.MarkStarted? && e.id == id) || e.Restart? then false
    else AwaitsMark(before, id)
  }

  lemma PutKeepsUnmarked(c: Config, s: Node, k: Key, v: Value)
    requires WellFormed(k)
    ensures PutHook(c, s, k, v).unmarked == s.unmarked
  {
    var s' := if IsMemberKey(k) then MemberHook(c, s, k) else s;
    assert s'.unmarked == s.unmarked;
    if !IsMemberKey(k) && !IsGroupKey(k) && ParseMeta(v).Some? {
      var m := ParseMeta(v).value;
      AnnounceKeepsUnmarked(c, s', m);
      if IsIndexKey(k) {
        AnnounceKeepsUnmarked(c, GroupAdd(c, s', List(k)[1], {m.tag}), m);
      }
    }
  }

  lemma AnnounceKeepsUnmarked(c: Config, s: Node, m: Metatag)
    ensures Announce(c, s, m).unmarked == s.unmarked
  {
  }

  lemma StepMarks(c: Config, s: Node, e: Event, id: nat)
    requires Enabled(s, e)
    ensures id in Step(c, s, e).unmarked <==>
              if e.Launch? && e.id == id && e.accepted then true
              else if (e.MarkStarted? && e.id == id) || e.Restart? then false
              else id in s.unmarked
  {
    if e.Put? {
      PutKeepsUnmarked(c, s.(store := s.store[e.key := e.value]), e.key, e.value);
    }
  }

  /** A start is recorded once for each acceptance, at any time until a restart. */
  lemma {:induction false} MarkedOncePerLaunch(c: Config, es: seq<Event>, id: nat)
    requires Legal(c, es)
    ensures id in Run(c, es).unmarked <==> AwaitsMark(es, id)
  {
    if es == [] {
    } else {
      MarkedOncePerLaunch(c, es[..|es| - 1], id);
      StepMarks(c, Run(c, es[..|es| - 1]), es[|es| - 1], id);
    }
  }

  // ---------- what is recorded of a content ----------

  /** A content record as the events tell it. */
  datatype Note = Note(tag: string, size: int, avgSpeed: real, startedAt: int, finishedAt: int, providers: set<PeerId>)

  const BLANK := Note("", 0, 0.0, 0, 0, {})

  function Elapsed(startedAt: int, now: int): (seconds: int)
    ensures seconds != 0
  {
    if now == startedAt then 1 else now - startedAt
  }

  /** What one event notes of a content: the providers found, tag, size and time at the start of a
      download, time and speed at its end. */
  ghost function NextNote(s: Node, n: Note, e: Event, h: Hash): Note
    requires Enabled(s, e)
  {
    match e
    case Take(id, providers) =>
      if s.sent[id].hash == h then n.(providers := n.providers + (set p | p in providers)) else n
    case MarkStarted(id, now) =>
      if s.sent[id].hash == h then n.(tag := s.sent[id].tag, size := s.sent[id].size, startedAt := now) else n
    case Done(id, ok, now) =>
      if ok && s.sent[id].hash == h
      then n.(finishedAt := now,
           avgSpeed := n.size as real / 1048576.0 / Elapsed(n.startedAt, now) as real)
      else n
    case Put(_, _) => n
    case Delete(_) => n
    case Launch(_, _) => n
    case Reconnect(_) => n
    case Save => n
    case Restart => n
  }

  /** What memory knows of a content, and what the saved image does. */
  datatype Known = Known(memory: Note, image: Note)

  ghost function KnownBy(s: Node, k: Known, e: Event, h: Hash): Known
    requires Enabled(s, e)
  {
    if e.Save? then Known(k.memory, k.memory)
    else if e.Restart? then Known(k.image, k.image)
    else Known(NextNote(s, k.memory, e, h), k.image)
  }

  ghost function KnownIn(c: Config, es: seq<Event>, h: Hash): Known
    requires Legal(c, es)
  {
    if es == [] then Known(BLANK, BLANK)
    else KnownBy(Run(c, es[..|es| - 1]), KnownIn(c, es[..|es| - 1], h), es[|es| - 1], h)
  }

  ghost predicate Noted(contents: Contents, h: Hash, n: Note) {
    if h !in contents then n == BLANK
    else
      var r := contents[h];
      && Note(r.tag, r.size, r.avgSpeed, r.startedAt, r.finishedAt, n.providers) == n
      && forall p :: p in r.providedBy <==> p in n.providers
  }

  lemma {:induction false} AddProvidersNotes(contents: Contents, hash: Hash, providers: seq<PeerId>, h: Hash, n: Note)
    requires hash in contents && h in contents && Noted(contents, h, n)
    ensures Noted(AddProviders(contents, hash, providers), h,
                  if hash == h then n.(providers := n.providers + (set p | p in providers)) else n)
  {
    if providers == [] {
    } else {
      var k := |providers| - 1;
      assert providers == providers[..k] + [providers[k]];
      AddProvidersNotes(contents, hash, providers[..k], h, n);
    }
  }

  lemma TakeNotes(c: Config, s: Node, id: nat, providers: seq<PeerId>, h: Hash, n: Note)
    requires Enabled(s, Take(id, providers)) && Noted(s.contents, h, n)
    ensures Noted(Step(c, s, Take(id, providers)).contents, h, NextNote(s, n, Take(id, providers), h))
  {
    var hash := s.sent[id].hash;
    var contents := NewContent(s.contents, hash);
    assert Noted(contents, h, n);
    if h in contents {
      AddProvidersNotes(contents, hash, providers, h, n);
    }
  }

  lemma DoneNotes(c: Config, s: Node, id: nat, now: int, h: Hash, n: Note)
    requires Enabled(s, Done(id, true, now)) && Noted(s.contents, h, n)
    ensures var t := Step(c, s, Done(id, true, now));
            Noted(t.contents, h, NextNote(s, n, Done(id, true, now), h)) && t.contentsFile == s.contentsFile
  {
    var m := s.sent[id];
    var t := Callback(c, Settle(s, id, true), m, now);
    assert t.contents == ContentMatrix.Finished(s.contents, m.hash, now) && t.contentsFile == s.contentsFile;
  }

  lemma StepNotes(c: Config, s: Node, e: Event, h: Hash, k: Known)
    requires Enabled(s, e) && Noted(s.contents, h, k.memory) && Noted(s.contentsFile, h, k.image)
    ensures var t, next := Step(c, s, e), KnownBy(s, k, e, h);
            Noted(t.contents, h, next.memory) && Noted(t.contentsFile, h, next.image)
  {
    match e
    case Put(key, v) => PutEffect(c, s, key, v);
    case Take(id, providers) => TakeNotes(c, s, id, providers, h, k.memory);
    case Done(id, ok, now) =>
      if ok {
        DoneNotes(c, s, id, now, h, k.memory);
      }
    case MarkStarted(_, _) =>
    case Delete(_) =>
    case Launch(_, _) =>
    case Reconnect(_) =>
    case Save =>
    case Restart =>
  }

  /** Every content record is what the events tell, field by field: tag, size, times and speed of its
      download, and the providers found for it. A restart goes back to the last save. */
  lemma {:induction false} RecordsAreTold(c: Config, es: seq<Event>, h: Hash)
    requires Legal(c, es)
    ensures Noted(Run(c, es).contents, h, KnownIn(c, es, h).memory)
    ensures Noted(Run(c, es).contentsFile, h, KnownIn(c, es, h).image)
  {
    if es == [] {
    } else {
      var before := es[..|es| - 1];
      RecordsAreTold(c, before, h);
      StepNotes(c, Run(c, before), es[|es| - 1], h, KnownIn(c, before, h));
    }
  }
}
