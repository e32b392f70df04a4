/** The reader that reports progress while a file is being added. */
module Progress {
  const INCREMENT := 1024 * 256

  /** `atEof` records which test fired; the event itself carries the path and the bytes. */
  datatype ProgressEvent = ProgressEvent(name: string, bytes: nat, atEof: bool)

  /** One call of the wrapped reader: the number of bytes it returned and whether it met the end. */
  datatype ReadResult = ReadResult(n: nat, eof: bool)

  datatype Reader = Reader(bytes: nat, lastProgress: nat, events: seq<ProgressEvent>)

  /** One `Read`. */
  function Step(r: Reader, path: string, got: ReadResult): Reader {
    var bytes := r.bytes + got.n;
    if bytes - r.lastProgress >= INCREMENT || got.eof
    then Reader(bytes, bytes, r.events + [ProgressEvent(path, bytes, got.eof)])
    else r.(bytes := bytes)
  }

  function Run(path: string, calls: seq<ReadResult>): Reader {
    if calls == [] then Reader(0, 0, [])
    else Step(Run(path, calls[..|calls| - 1]), path, calls[|calls| - 1])
  }

  function Total(calls: seq<ReadResult>): nat {
    if calls == [] then 0 else Total(calls[..|calls| - 1]) + calls[|calls| - 1].n
  }

  function NonEof(events: seq<ProgressEvent>): nat {
    if events == [] then 0
    else NonEof(events[..|events| - 1]) + if events[|events| - 1].atEof then 0 else 1
  }

  class ProgressReader {
    const path: string
    var bytes: nat
    var lastProgress: nat
    var out: seq<ProgressEvent>
    ghost var calls: seq<ReadResult>

    constructor (path: string)
      ensures Valid() && this.path == path && calls == []
    {
      this.path, bytes, lastProgress, out, calls := path, 0, 0, [], [];
    }

    ghost predicate Valid()
      reads this
    {
      Reader(bytes, lastProgress, out) == Run(path, calls)
    }

    method Read(got: ReadResult) returns (n: nat, eof: bool)
      requires Valid()
      modifies this
      ensures Valid() && calls == old(calls) + [got] && n == got.n && eof == got.eof
    {
      n, eof := got.n, got.eof;
      calls := calls + [got];
      assert calls[..|calls| - 1] == old(calls);
      bytes := bytes + n;
      if bytes - lastProgress >= INCREMENT || eof {
        lastProgress := bytes;
        out := out + [ProgressEvent(path, bytes, eof)];
      }
    }
  }

  /** Less than one increment is unreported, event values never go down, and each event short of the
      end stands for a full increment. */
  ghost predicate Faithful(r: Reader) {
    && 0 <= r.bytes - r.lastProgress < INCREMENT
    && NonEof(r.events) * INCREMENT <= r.lastProgress
    && Ascending(r.events, r.lastProgress)
  }

  lemma NonEofSnoc(events: seq<ProgressEvent>, e: ProgressEvent)
    ensures NonEof(events + [e]) == NonEof(events) + if e.atEof then 0 else 1
  {
    assert (events + [e])[..|events|] == events;
  }

  lemma OneMoreIncrement(n: nat)
    ensures (n + 1) * INCREMENT == n * INCREMENT + INCREMENT
  {
  }

  /** Values that never go down and stay below `bound` go on with any value from `bound` on. */
  ghost predicate Ascending(events: seq<ProgressEvent>, bound: nat) {
    && (forall i, j :: 0 <= i < j < |events| ==> events[i].bytes <= events[j].bytes)
    && (forall i :: 0 <= i < |events| ==> events[i].bytes <= bound)
  }

  lemma AscendingSnoc(events: seq<ProgressEvent>, bound: nat, e: ProgressEvent)
    requires Ascending(events, bound) && bound <= e.bytes
    ensures Ascending(events + [e], e.bytes)
  {
  }

  lemma ReportIsFaithful(r: Reader, e: ProgressEvent)
    requires Faithful(r) && r.lastProgress <= e.bytes
    requires e.atEof || e.bytes - r.lastProgress >= INCREMENT
    ensures Faithful(Reader(e.bytes, e.bytes, r.events + [e]))
  {
    NonEofSnoc(r.events, e);
    OneMoreIncrement(NonEof(r.events));
    AscendingSnoc(r.events, r.lastProgress, e);
  }

  lemma SilentIsFaithful(r: Reader, bytes: nat)
    requires Faithful(r) && r.bytes <= bytes && bytes - r.lastProgress < INCREMENT
    ensures Faithful(r.(bytes := bytes))
  {
  }

  lemma StepIsFaithful(r: Reader, path: string, got: ReadResult)
    requires Faithful(r)
    ensures Faithful(Step(r, path, got))
  {
    var bytes := r.bytes + got.n;
    if bytes - r.lastProgress >= INCREMENT || got.eof {
      ReportIsFaithful(r, ProgressEvent(path, bytes, got.eof));
    } else {
      SilentIsFaithful(r, bytes);
    }
  }

  /** After any sequence of calls the reader is faithful. */
  lemma {:induction false} ProgressIsFaithful(path: string, calls: seq<ReadResult>)
    ensures Faithful(Run(path, calls))
    ensures var r := Run(path, calls);
            0 <= r.bytes - r.lastProgress < 262144 && NonEof(r.events) * 262144 <= r.bytes
  {
    if calls == [] {
    } else {
      var before := Run(path, calls[..|calls| - 1]);
      ProgressIsFaithful(path, calls[..|calls| - 1]);
      StepIsFaithful(before, path, calls[|calls| - 1]);
    }
  }

  /** The event tells of the bytes read by the first `n` calls, the last of which it names the end of. */
  predicate TellsOf(path: string, calls: seq<ReadResult>, n: nat, e: ProgressEvent) {
    0 < n <= |calls| && e == ProgressEvent(path, Total(calls[..n]), calls[n - 1].eof)
  }

  /** Every event names the path and tells of the bytes read up to some call. */
  lemma {:induction false} EventsAreTold(path: string, calls: seq<ReadResult>, e: ProgressEvent)
    requires e in Run(path, calls).events
    ensures exists n: nat :: TellsOf(path, calls, n, e)
  {
    var before := calls[..|calls| - 1];
    if e in Run(path, before).events {
      EventsAreTold(path, before, e);
      var n: nat :| TellsOf(path, before, n, e);
      assert before[..n] == calls[..n];
      assert TellsOf(path, calls, n, e);
    } else {
      EofEventIsExact(path, calls);
      assert calls[..|calls|] == calls;
      assert TellsOf(path, calls, |calls|, e);
    }
  }

  /** Every byte is counted, and an event at the end of the input carries the exact total. */
  lemma {:induction false} EofEventIsExact(path: string, calls: seq<ReadResult>)
    ensures Run(path, calls).bytes == Total(calls)
    ensures calls != [] && calls[|calls| - 1].eof ==>
      var events := Run(path, calls).events;
      events != [] && events[|events| - 1] == ProgressEvent(path, Total(calls), true)
  {
    if calls == [] {
    } else {
      EofEventIsExact(path, calls[..|calls| - 1]);
    }
  }
}
