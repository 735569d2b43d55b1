/** The handler's bodies seen from both sides: the set of open bodies in the timeout protocol, and the
    wrappers that the monitor of the outbound round tripper checks at the end of the request. */
module HandlerBodies {
  import opened Runs
  import opened TimeoutWriter
  import opened TimeoutProtocol
  import opened ServerStack
  import B = BodyMonitor

  /** The number of responses that the operations ask for. */
  function Opens(ops: seq<Op>): nat {
    if ops == [] then 0 else Opens(ops[..|ops| - 1]) + (if ops[|ops| - 1].OpenBody? then 1 else 0)
  }

  /** Bodies are named by the number of their response. */
  predicate InOrder(ops: seq<Op>) {
    ops == [] ||
    (InOrder(ops[..|ops| - 1]) && (ops[|ops| - 1].OpenBody? ==> ops[|ops| - 1].id == Opens(ops[..|ops| - 1])))
  }

  function EventOf(op: Op): seq<B.Event> {
    match op
    case OpenBody(_) => [B.Trip(B.Content([], false))]
    case CloseBody(id) => [B.Close(id)]
    case _ => []
  }

  /** What the monitor gets to see: the round trips and the closes, without what goes to the buffer. */
  function EventsOf(ops: seq<Op>): seq<B.Event> {
    if ops == [] then [] else EventsOf(ops[..|ops| - 1]) + EventOf(ops[|ops| - 1])
  }

  lemma FlagsSnoc(events: seq<B.Event>, event: B.Event)
    ensures B.ClosedFlags(false, events + [event]) == B.FlagsAfter(false, B.ClosedFlags(false, events), event)
  {
    assert (events + [event])[..|events|] == events;
  }

  /** The open set names exactly the responses whose wrapper is not marked as closed. */
  ghost predicate SameOpen(open: set<nat>, flags: seq<bool>) {
    forall i: nat :: i in open <==> i < |flags| && !flags[i]
  }

  lemma SameAfterOpen(open: set<nat>, flags: seq<bool>, content: B.Content)
    requires SameOpen(open, flags)
    ensures SameOpen(open + {|flags|}, B.FlagsAfter(false, flags, B.Trip(content)))
  {
  }

  lemma SameAfterClose(open: set<nat>, flags: seq<bool>, id: nat)
    requires SameOpen(open, flags)
    ensures SameOpen(open - {id}, B.FlagsAfter(false, flags, B.Close(id)))
  {
  }

  lemma {:induction false} OpenSetIsFlags(ops: seq<Op>)
    requires InOrder(ops)
    ensures |B.ClosedFlags(false, EventsOf(ops))| == Opens(ops)
    ensures SameOpen(OpenAfter(ops), B.ClosedFlags(false, EventsOf(ops)))
  {
    if ops != [] {
      var before, op := ops[..|ops| - 1], ops[|ops| - 1];
      var flags := B.ClosedFlags(false, EventsOf(before));
      OpenSetIsFlags(before);
      match op
      case OpenBody(_) =>
        FlagsSnoc(EventsOf(before), B.Trip(B.Content([], false)));
        SameAfterOpen(OpenAfter(before), flags, B.Content([], false));
      case CloseBody(id) =>
        FlagsSnoc(EventsOf(before), B.Close(id));
        SameAfterClose(OpenAfter(before), flags, id);
      case _ => assert EventsOf(ops) == EventsOf(before);
    }
  }

  /** The monitor would find a response left open. */
  ghost predicate LeavesOpen(ops: seq<Op>) { exists k :: B.LeftOpen(EventsOf(ops), k) }

  /** The two sides agree: the open set is non-empty iff the monitor finds a response left open. */
  lemma MonitorAgrees(ops: seq<Op>)
    requires InOrder(ops)
    ensures OpenAfter(ops) != {} <==> LeavesOpen(ops)
  {
    var events := EventsOf(ops);
    OpenSetIsFlags(ops);
    B.FlagsTellLeftOpen(false, events);
    if i :| i in OpenAfter(ops) {
      var k := B.EveryNumberIsATrip(events, i, |events|);
      assert B.LeftOpen(events, k);
    }
    if k :| B.LeftOpen(events, k) {
      assert B.Number(events, k) in OpenAfter(ops);
    }
  }

  /** On a monitored server a reply is published only when the handler closed every response it got, and
      otherwise the panic that leaves the handler names exactly the open ones. */
  lemma PublishedOnlyWhenClosed(base: Header, json: Bytes, s: State)
    requires Reachable(StackConfig(base, json), s) && InOrder(s.ops)
    ensures s.open != {} <==> LeavesOpen(s.ops)
    ensures s.spc == Finished(OnDone) ==> !LeavesOpen(s.ops)
    ensures s.hpc.Exited? && LeavesOpen(s.ops) ==> s.thrown == Some(OpenBodies(s.open))
  {
    InvReachable(StackConfig(base, json), s);
    HistoryReachable(StackConfig(base, json), s);
    MonitorAgrees(s.ops);
  }
}
