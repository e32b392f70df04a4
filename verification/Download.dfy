/** The read loop of a download, which fetches every block of a file by reading it to the end. */
module Download {
  import opened Wrappers

  const BUFFER := 4096

  datatype ReadError = NoError | Eof | Failure

  /** What one call of the reader returns. */
  datatype ReadResult = ReadResult(n: nat, error: ReadError)

  /** A file of `size` bytes, and the first byte, if any, whose block cannot be fetched. */
  datatype Source = Source(size: nat, missing: Option<nat>)

  predicate ValidSource(s: Source) {
    s.missing.Some? ==> s.missing.value < s.size
  }

  function Total(results: seq<ReadResult>): nat {
    if results == [] then 0 else Total(results[..|results| - 1]) + results[|results| - 1].n
  }

  /** Where the loop leaves off: at an error, except an end of file that comes with bytes. */
  predicate Stops(r: ReadResult) {
    (r.n == 0 && r.error != NoError) || r.error == Failure
  }

  /** The call at position `at` keeps the reader's contract: it fills at most the buffer, passes no
      missing byte, and reports the end or a failure only where there is one. Empty reads without an
      error are allowed. */
  predicate Honest(s: Source, at: nat, r: ReadResult) {
    && r.n <= BUFFER && at + r.n <= (if s.missing.Some? then s.missing.value else s.size)
    && (r.error == Eof ==> at + r.n == s.size)
    && (r.error == Failure ==> s.missing == Some(at + r.n))
  }

  /** All results of a reader up to the first at which the loop leaves off. */
  ghost predicate ReaderOf(s: Source, results: seq<ReadResult>) {
    && results != [] && Stops(results[|results| - 1])
    && (forall i :: 0 <= i < |results| - 1 ==> !Stops(results[i]))
    && (forall i :: 0 <= i < |results| ==> Honest(s, Total(results[..i]), results[i]))
  }

  /** `Download` succeeds exactly if the root is found and no byte is missing, and then it has read the
      whole file. */
  method Fetch(found: bool, ghost s: Source, results: seq<ReadResult>) returns (ok: bool, nr: nat)
    requires ValidSource(s) && ReaderOf(s, results)
    ensures ok <==> found && s.missing.None?
    ensures ok ==> nr == s.size
  {
    nr := 0;
    if !found {
      return false, nr;
    }
    for i := 0 to |results|
      invariant nr == Total(results[..i])
      invariant forall j :: 0 <= j < i ==> !Stops(results[j])
    {
      var r := results[i];
      assert Honest(s, Total(results[..i]), r);
      assert results[..i + 1][..i] == results[..i];
      if r.n == 0 {
        if r.error == NoError {
          continue;
        }
        return r.error == Eof, nr;
      }
      nr := nr + r.n;
      if r.error != NoError && r.error != Eof {
        return false, nr;
      }
    }
    ok := false;
  }
}
