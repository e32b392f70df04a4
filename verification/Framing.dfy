/** How the command line client hands its arguments to the daemon over the socket. */
module Framing {
  import opened Text

  const ARG_SEPARATOR := "$^~@@*"

  datatype Received = Ignored | Command(args: seq<string>)

  /** The client writes its arguments as one message. */
  function Send(args: seq<string>): string {
    Join(args, ARG_SEPARATOR)
  }

  /** The daemon stops reading on an empty message and splits any other one. */
  function Receive(message: string): Received {
    if |message| == 0 then Ignored else Command(Split(message, ARG_SEPARATOR))
  }

  lemma SeparatorIsBorderless()
    ensures Borderless(ARG_SEPARATOR)
  {
    FirstCharUniqueIsBorderless(ARG_SEPARATOR);
  }

  lemma SendIsEmpty(args: seq<string>)
    ensures Send(args) == "" <==> args == [] || args == [""]
  {
    if |args| > 1 {
      assert |Send(args)| >= |ARG_SEPARATOR|;
    }
  }

  /** The daemon sees the client's argument list exactly when there is a list, it is not the single
      empty argument, and no argument contains the separator. Empty arguments inside a longer list
      and arguments that end in the beginning of the separator are no obstacle. */
  lemma DaemonSeesArgumentsIff(args: seq<string>)
    ensures Receive(Send(args)) == Command(args)
       <==> args != [] && args != [""] && NoneContains(args, ARG_SEPARATOR)
  {
    SeparatorIsBorderless();
    SendIsEmpty(args);
    SplitUndoesJoinIff(args, ARG_SEPARATOR);
  }

  /** Arguments shorter than the separator's six characters always arrive. */
  lemma ShortArgumentsArrive(args: seq<string>)
    requires args != [] && args != [""] && forall a :: a in args ==> |a| < 6
    ensures Receive(Send(args)) == Command(args)
  {
    DaemonSeesArgumentsIff(args);
  }

  /** On the wire the separator stands between two arguments, whatever they are. */
  lemma TwoArgumentsOnTheWire(a: string, b: string)
    ensures Send([a, b]) == a + "$^~@@*" + b && Send([a]) == a
  {
    assert Join([b], ARG_SEPARATOR) == b;
    assert [a, b][1..] == [b];
    assert Send([a, b]) == a + ARG_SEPARATOR + Join([b], ARG_SEPARATOR);
  }

  /** Two argument lists the daemon can see never share a message. */
  lemma MessagesAreUnambiguous(a: seq<string>, b: seq<string>)
    requires a != [] && b != [] && NoneContains(a, ARG_SEPARATOR) && NoneContains(b, ARG_SEPARATOR)
    requires Send(a) == Send(b)
    ensures a == b
  {
    SeparatorIsBorderless();
    SplitOfJoin(a, ARG_SEPARATOR);
    SplitOfJoin(b, ARG_SEPARATOR);
  }

  /** Whatever nonempty message arrives, sending the parsed list again gives the same message. */
  lemma ParsedCommandResends(message: string)
    requires message != ""
    ensures Receive(message).Command? && Send(Receive(message).args) == message
  {
    JoinOfSplit(message, ARG_SEPARATOR);
  }
}
