/** multiStoppableServer.Start: one goroutine per sub-server, all sending on one channel of capacity 1
    from which Start receives once. Also the assembly of the list that autogenServer starts. */
module ServerStart {
  import opened Runs

  type Err = nat

  /** How a sub-server's own Start ended. Panic values are non-nil. */
  datatype Ending = Returned(err: Option<Err>) | Panicked(v: nat)

  /** What a goroutine sends: nil, or the error wrapped with the sub-server's number. */
  datatype Message = Nil | ReturnedError(number: nat, err: Err) | PanicError(number: nat, v: nat)

  function MessageOf(i: nat, e: Ending): Message {
    match e
    case Returned(None) => Nil
    case Returned(Some(err)) => ReturnedError(i + 1, err)
    case Panicked(v) => PanicError(i + 1, v)
  }

  datatype Pc = NotSpawned | Serving | Sending(e: Ending) | Sent(e: Ending)

  /** `spawned` counts the goroutines started so far; `log` is every completed send, in order. */
  datatype State = State(pcs: seq<Pc>, spawned: nat, chan: seq<(nat, Message)>, result: Option<Message>, log: seq<(nat, Message)>)

  datatype Label = Spawn | Terminate(i: nat, e: Ending) | Send(i: nat) | Receive

  function Init(n: nat): State { State(seq(n, _ => NotSpawned), 0, [], None, []) }

  function Step(s: State, l: Label): Option<State> {
    match l
    case Spawn =>
      if s.spawned < |s.pcs| then Some(s.(pcs := s.pcs[s.spawned := Serving], spawned := s.spawned + 1)) else None
    case Terminate(i, e) =>
      if i < |s.pcs| && s.pcs[i].Serving? then Some(s.(pcs := s.pcs[i := Sending(e)])) else None
    case Send(i) =>
      if i < |s.pcs| && s.pcs[i].Sending? && |s.chan| < 1 then
        var m := (i, MessageOf(i, s.pcs[i].e));
        Some(s.(pcs := s.pcs[i := Sent(s.pcs[i].e)], chan := s.chan + [m], log := s.log + [m]))
      else None
    case Receive =>
      if s.spawned == |s.pcs| && s.result.None? && s.chan != [] then
        Some(s.(result := Some(s.chan[0].1), chan := s.chan[1..]))
      else None
  }

  const Steps: (State, Label) -> Option<State> := (s, l) => Step(s, l)

  ghost predicate Reachable(n: nat, s: State) { exists ls :: Exec(Steps, Init(n), ls) == Some(s) }

  function CountWhere(pcs: seq<Pc>, p: Pc -> bool): nat {
    if pcs == [] then 0 else (if p(pcs[0]) then 1 else 0) + CountWhere(pcs[1..], p)
  }

  lemma {:induction false} CountUpdate(pcs: seq<Pc>, p: Pc -> bool, i: nat, x: Pc)
    requires i < |pcs|
    ensures CountWhere(pcs[i := x], p) == CountWhere(pcs, p) - (if p(pcs[i]) then 1 else 0) + (if p(x) then 1 else 0)
  {
    if i == 0 {
      assert pcs[0 := x][1..] == pcs[1..];
    } else {
      assert pcs[i := x][1..] == pcs[1..][i - 1 := x];
      CountUpdate(pcs[1..], p, i - 1, x);
    }
  }

  lemma {:induction false} CountSplit(pcs: seq<Pc>)
    ensures Terminated(pcs) == Parked(pcs) + Completed(pcs)
  {
    if pcs != [] { CountSplit(pcs[1..]); }
  }

  lemma {:induction false} CountNone(pcs: seq<Pc>, p: Pc -> bool)
    requires forall i :: 0 <= i < |pcs| ==> !p(pcs[i])
    ensures CountWhere(pcs, p) == 0
  {
    if pcs != [] {
      assert forall i :: 0 <= i < |pcs[1..]| ==> pcs[1..][i] == pcs[i + 1];
      CountNone(pcs[1..], p);
    }
  }

  lemma {:induction false} CountSome(pcs: seq<Pc>, p: Pc -> bool) returns (i: nat)
    requires CountWhere(pcs, p) > 0
    ensures i < |pcs| && p(pcs[i])
  {
    if p(pcs[0]) { return 0; }
    var j := CountSome(pcs[1..], p);
    return j + 1;
  }

  const IsSending: Pc -> bool := (pc: Pc) => pc.Sending?
  const IsSent: Pc -> bool := (pc: Pc) => pc.Sent?
  const HasEnded: Pc -> bool := (pc: Pc) => pc.Sending? || pc.Sent?

  function Parked(pcs: seq<Pc>): nat { CountWhere(pcs, IsSending) }
  function Completed(pcs: seq<Pc>): nat { CountWhere(pcs, IsSent) }
  function Terminated(pcs: seq<Pc>): nat { CountWhere(pcs, HasEnded) }

  predicate InLog(s: State, i: nat) { exists k :: 0 <= k < |s.log| && s.log[k].0 == i }

  /** Messages are conserved and delivered in order: one received, at most one waiting. */
  ghost predicate FlowInv(s: State) {
    var received := if s.result.Some? then 1 else 0;
    && |s.chan| <= 1
    && |s.log| == received + |s.chan|
    && (s.chan != [] ==> s.chan[0] == s.log[received])
    && (s.result.Some? ==> s.result.value == s.log[0].1)
    && |s.log| == Completed(s.pcs)
  }

  ghost predicate SpawnInv(n: nat, s: State) {
    && |s.pcs| == n && s.spawned <= n
    && (forall i :: 0 <= i < n ==> (s.pcs[i].NotSpawned? <==> s.spawned <= i))
    && (s.result.Some? ==> s.spawned == n)
  }

  /** The log holds one entry per sub-server that has sent, and none for any other. */
  ghost predicate LogInv(s: State) {
    && (forall k :: 0 <= k < |s.log| ==> Logged(s, k))
    && (forall j, k :: 0 <= j < k < |s.log| ==> s.log[j].0 != s.log[k].0)
    && (forall i :: 0 <= i < |s.pcs| && s.pcs[i].Sent? ==> InLog(s, i))
  }

  ghost predicate Logged(s: State, k: nat)
    requires k < |s.log|
  {
    var (i, m) := s.log[k];
    i < |s.pcs| && s.pcs[i].Sent? && m == MessageOf(i, s.pcs[i].e)
  }

  ghost predicate Inv(n: nat, s: State) { SpawnInv(n, s) && FlowInv(s) && LogInv(s) }

  lemma FlowStep(s: State, l: Label)
    requires FlowInv(s) && Step(s, l).Some?
    requires l.Spawn? ==> s.pcs[s.spawned].NotSpawned?
    ensures FlowInv(Step(s, l).value)
  {
    match l
    case Spawn => CountUpdate(s.pcs, IsSent, s.spawned, Serving);
    case Terminate(i, e) => CountUpdate(s.pcs, IsSent, i, Sending(e));
    case Send(i) => CountUpdate(s.pcs, IsSent, i, Sent(s.pcs[i].e));
    case Receive =>
  }

  lemma LogStep(s: State, l: Label)
    requires LogInv(s) && Step(s, l).Some?
    requires l.Spawn? ==> s.pcs[s.spawned].NotSpawned?
    ensures LogInv(Step(s, l).value)
  {
    var t := Step(s, l).value;
    assert |t.log| >= |s.log| && forall k :: 0 <= k < |s.log| ==> t.log[k] == s.log[k] && Logged(s, k);
    forall i | 0 <= i < |t.pcs| && t.pcs[i].Sent?
      ensures InLog(t, i)
    {
      if l == Send(i) {
        assert t.log[|s.log|].0 == i;
      } else {
        assert InLog(s, i);
        var k :| 0 <= k < |s.log| && s.log[k].0 == i;
        assert t.log[k].0 == i;
      }
    }
  }

  lemma InvStep(n: nat, s: State, l: Label)
    requires Inv(n, s) && Step(s, l).Some?
    ensures Inv(n, Step(s, l).value)
  {
    FlowStep(s, l);
    LogStep(s, l);
  }

  lemma InvReachable(n: nat, s: State)
    requires Reachable(n, s)
    ensures Inv(n, s)
  {
    var ls :| Exec(Steps, Init(n), ls) == Some(s);
    CountNone(Init(n).pcs, IsSent);
    forall s, l | Inv(n, s) && Steps(s, l).Some?
      ensures Inv(n, Steps(s, l).value)
    {
      InvStep(n, s, l);
    }
    InvariantOnRuns(Steps, s => Inv(n, s), Init(n), ls);
  }

  // What the labels of a run say about the sub-servers.

  /** The endings of sub-server `i`, in order. */
  function Endings(ls: seq<Label>, i: nat): seq<Ending> {
    if ls == [] then []
    else
      var l := ls[|ls| - 1];
      Endings(ls[..|ls| - 1], i) + (if l.Terminate? && l.i == i then [l.e] else [])
  }

  /** The sub-servers whose goroutines have sent, in order. */
  function Senders(ls: seq<Label>): seq<nat> {
    if ls == [] then []
    else
      var l := ls[|ls| - 1];
      Senders(ls[..|ls| - 1]) + (if l.Send? then [l.i] else [])
  }

  lemma LabelSnoc(ls: seq<Label>, l: Label, i: nat)
    ensures Endings(ls + [l], i) == Endings(ls, i) + (if l.Terminate? && l.i == i then [l.e] else [])
    ensures Senders(ls + [l]) == Senders(ls) + (if l.Send? then [l.i] else [])
  {
    assert (ls + [l])[..|ls|] == ls;
  }

  /** A goroutine holds the one ending of its sub-server, as soon as there is one. */
  ghost predicate EndingTold(pc: Pc, endings: seq<Ending>) {
    endings == if pc.NotSpawned? || pc.Serving? then [] else [pc.e]
  }

  ghost predicate EndingsTold(n: nat, s: State, ls: seq<Label>) {
    && |s.pcs| == n
    && (forall i: nat :: i < n ==> (s.spawned <= i <==> s.pcs[i].NotSpawned?))
    && (forall i: nat :: i < n ==> EndingTold(s.pcs[i], Endings(ls, i)))
    && (forall i: nat :: i >= n ==> Endings(ls, i) == [])
  }

  ghost predicate SendersTold(s: State, ls: seq<Label>) {
    |s.log| == |Senders(ls)| && forall k :: 0 <= k < |s.log| ==> s.log[k].0 == Senders(ls)[k]
  }

  lemma EndingsStep(n: nat, s: State, ls: seq<Label>, l: Label)
    requires EndingsTold(n, s, ls) && Step(s, l).Some?
    ensures EndingsTold(n, Step(s, l).value, ls + [l])
  {
    var t := Step(s, l).value;
    forall i: nat
      ensures i < n ==> EndingTold(t.pcs[i], Endings(ls + [l], i))
      ensures i >= n ==> Endings(ls + [l], i) == []
    {
      LabelSnoc(ls, l, i);
      if i < n { assert EndingTold(s.pcs[i], Endings(ls, i)); }
    }
  }

  lemma SendersStep(s: State, ls: seq<Label>, l: Label)
    requires SendersTold(s, ls) && Step(s, l).Some?
    ensures SendersTold(Step(s, l).value, ls + [l])
  {
    LabelSnoc(ls, l, 0);
  }

  lemma ToldByRun(n: nat, ls: seq<Label>, s: State)
    requires Exec(Steps, Init(n), ls) == Some(s)
    ensures EndingsTold(n, s, ls) && SendersTold(s, ls)
  {
    var told := (s, ls) => EndingsTold(n, s, ls) && SendersTold(s, ls);
    forall s, ls, l | told(s, ls) && Steps(s, l).Some?
      ensures told(Steps(s, l).value, ls + [l])
    {
      EndingsStep(n, s, ls, l);
      SendersStep(s, ls, l);
    }
    ToldOnRuns(Steps, told, Init(n), [], ls);
    assert [] + ls == ls;
  }

  /** Start returns how the sub-server ended that was the first to send: nil exactly when it returned nil, else
      its error or its panic, wrapped with its number. No sub-server ends twice or sends twice, and none
      sends before it has ended. */
  lemma ReturnsFirstSend(n: nat, ls: seq<Label>, s: State)
    requires Exec(Steps, Init(n), ls) == Some(s)
    ensures forall i: nat :: |Endings(ls, i)| <= 1
    ensures forall k :: 0 <= k < |Senders(ls)| ==> Senders(ls)[k] < n && Endings(ls, Senders(ls)[k]) != []
    ensures forall j, k :: 0 <= j < k < |Senders(ls)| ==> Senders(ls)[j] != Senders(ls)[k]
    ensures s.result.Some? ==>
              && Senders(ls) != []
              && var first := Senders(ls)[0];
                 match Endings(ls, first)[0]
                 case Returned(None) => s.result.value == Nil
                 case Returned(Some(err)) => s.result.value == ReturnedError(first + 1, err)
                 case Panicked(v) => s.result.value == PanicError(first + 1, v)
  {
    ToldByRun(n, ls, s);
    InvReachable(n, s) by { assert Reachable(n, s); }
    forall i: nat
      ensures |Endings(ls, i)| <= 1
    {
      if i < n { assert EndingTold(s.pcs[i], Endings(ls, i)); }
    }
    forall k | 0 <= k < |Senders(ls)|
      ensures var i := Senders(ls)[k]; i < n && s.pcs[i].Sent? && Endings(ls, i) == [s.pcs[i].e]
    {
      assert Logged(s, k);
      assert EndingTold(s.pcs[Senders(ls)[k]], Endings(ls, Senders(ls)[k]));
    }
    if s.result.Some? { assert Logged(s, 0); }
  }

  predicate Quiescent(s: State) { forall i: nat :: i < |s.pcs| ==> Step(s, Send(i)).None? }

  /** After Start has returned, once no send can complete, all but two of the terminated sub-servers'
      goroutines are parked in their send forever: one message was received, one fills the channel. */
  lemma ParkedAfterReturn(n: nat, s: State)
    requires Reachable(n, s) && s.result.Some? && Quiescent(s)
    ensures Parked(s.pcs) == if Terminated(s.pcs) <= 2 then 0 else Terminated(s.pcs) - 2
  {
    InvReachable(n, s);
    CountSplit(s.pcs);
    if Parked(s.pcs) > 0 {
      var i := CountSome(s.pcs, IsSending);
      assert Step(s, Send(i)).None?;
    }
  }

  lemma ReachableStep(n: nat, s: State, l: Label) returns (t: State)
    requires Reachable(n, s) && Step(s, l).Some?
    ensures Step(s, l) == Some(t) && Reachable(n, t)
  {
    t := Step(s, l).value;
    var ls :| Exec(Steps, Init(n), ls) == Some(s);
    assert Exec(Steps, t, [l][1..]) == Some(t);
    ExecConcat(Steps, Init(n), ls, [l]);
  }

  /** The first `m` goroutines are started and nothing else has happened. */
  lemma {:induction false} SpawnRun(n: nat, m: nat) returns (s: State)
    requires m <= n
    ensures Reachable(n, s) && s == Init(n).(pcs := s.pcs, spawned := m) && |s.pcs| == n
    ensures forall i :: 0 <= i < n ==> s.pcs[i] == if i < m then Serving else NotSpawned
  {
    if m == 0 {
      s := Init(n);
      assert Exec(Steps, s, []) == Some(s);
    } else {
      s := SpawnRun(n, m - 1);
      s := ReachableStep(n, s, Spawn);
    }
  }

  /** Then the first `k` sub-servers end. */
  lemma {:induction false} TerminateRun(n: nat, k: nat) returns (s: State)
    requires k <= n
    ensures Reachable(n, s) && s == Init(n).(pcs := s.pcs, spawned := n) && |s.pcs| == n
    ensures forall i :: 0 <= i < n ==> s.pcs[i] == if i < k then Sending(Returned(None)) else Serving
    ensures Terminated(s.pcs) == k
  {
    if k == 0 {
      s := SpawnRun(n, n);
      CountNone(s.pcs, HasEnded);
    } else {
      s := TerminateRun(n, k - 1);
      CountUpdate(s.pcs, HasEnded, k - 1, Sending(Returned(None)));
      s := ReachableStep(n, s, Terminate(k - 1, Returned(None)));
    }
  }

  lemma SendRun(n: nat, s: State, i: nat) returns (t: State)
    requires Reachable(n, s) && i < |s.pcs| && s.pcs[i].Sending? && s.chan == []
    ensures Reachable(n, t) && Terminated(t.pcs) == Terminated(s.pcs)
    ensures t == s.(pcs := s.pcs[i := Sent(s.pcs[i].e)], chan := t.chan, log := t.log) && |t.chan| == 1
  {
    CountUpdate(s.pcs, HasEnded, i, Sent(s.pcs[i].e));
    t := ReachableStep(n, s, Send(i));
  }

  /** Then Start returns and as many sends complete as can. */
  lemma ReturnRun(n: nat, k: nat) returns (s: State)
    requires 1 <= k <= n
    ensures Reachable(n, s) && s.result.Some? && Quiescent(s) && Terminated(s.pcs) == k
  {
    s := TerminateRun(n, k);
    s := SendRun(n, s, 0);
    s := ReachableStep(n, s, Receive);
    if k >= 2 { s := SendRun(n, s, 1); }
  }

  lemma {:induction false} CountAtMost(pcs: seq<Pc>, p: Pc -> bool)
    ensures CountWhere(pcs, p) <= |pcs|
  {
    if pcs != [] { CountAtMost(pcs[1..], p); }
  }

  /** Some run of `n` sub-servers ends with `p` goroutines parked. */
  ghost predicate CanPark(n: nat, p: nat) {
    exists s :: Reachable(n, s) && s.result.Some? && Quiescent(s) && Parked(s.pcs) == p
  }

  /** Exactly how many goroutines can be left parked: none, or any number up to all but two. So a leak needs
      three sub-servers, and with three or more it can happen. */
  lemma CanParkIff(n: nat, p: nat)
    ensures CanPark(n, p) <==> n >= 1 && (p == 0 || p + 2 <= n)
  {
    if n >= 1 && (p == 0 || p + 2 <= n) {
      var s := ReturnRun(n, if p == 0 then 1 else p + 2);
      ParkedAfterReturn(n, s);
    }
    if s :| Reachable(n, s) && s.result.Some? && Quiescent(s) && Parked(s.pcs) == p {
      ParkedAfterReturn(n, s);
      InvReachable(n, s);
      CountAtMost(s.pcs, HasEnded);
      CountAtMost(s.pcs, IsSent);
    }
  }

  /** A parked goroutine stays parked: nothing drains the channel a second time. */
  lemma ParkedForGood(n: nat, s: State, l: Label)
    requires Reachable(n, s) && s.result.Some? && |s.chan| == 1 && Step(s, l).Some?
    ensures l.Terminate? && Step(s, l).value.chan == s.chan && Step(s, l).value.result == s.result
  {
    InvReachable(n, s);
  }

  /** Start can return iff the list is not empty: with no sub-server nothing is ever sent. */
  lemma EmptyNeverReturns(s: State)
    requires Reachable(0, s)
    ensures s.result.None? && s.chan == [] && forall l :: Step(s, l).None?
  {
    InvReachable(0, s);
  }

  /** Whenever a sub-server has terminated, Start has returned or some step towards returning is enabled. A
      sub-server that is serving may end in any way. */
  lemma StartNotStuck(n: nat, s: State)
    requires Reachable(n, s)
    ensures Terminated(s.pcs) > 0 ==>
              s.result.Some? || exists l: Label :: (l.Spawn? || l.Send? || l.Receive?) && Step(s, l).Some?
    ensures forall i: nat, e :: i < |s.pcs| && s.pcs[i].Serving? ==> Step(s, Terminate(i, e)).Some?
  {
    InvReachable(n, s);
    CountSplit(s.pcs);
    if Terminated(s.pcs) > 0 && s.result.None? {
      if s.spawned < n {
        assert Step(s, Spawn).Some?;
      } else if s.chan != [] {
        assert Step(s, Receive).Some?;
      } else {
        var i := CountSome(s.pcs, IsSending);
        assert Step(s, Send(i)).Some?;
      }
    }
  }

  // The list that autogenServer.Start hands over.

  datatype Listener = RestAdmin | RestPublic | GrpcPublic

  /** What Start looks at. `library` and `health` say whether there is a library configuration and whether it
      asks for a health server; `healthOk`, `adminOk` and `publicOk` whether that server could be made and the
      listeners configured. */
  datatype Setup = Setup(
    rest: bool, library: bool, health: bool, healthOk: bool,
    adminConfig: bool, publicConfig: bool, adminOk: bool, publicOk: bool,
    grpc: bool, grpcConfig: bool, grpcHandlers: nat)

  datatype Assembly =
    | Started(servers: seq<Listener>, ready: bool) | HealthError | NilGrpcManager | ConfigError | PanicNoPublicServer

  predicate WantsHealth(c: Setup) { c.rest && c.library && c.health }
  predicate WantsAdmin(c: Setup) { c.rest && c.adminConfig }
  predicate WantsPublic(c: Setup) { c.rest && c.publicConfig }

  /** The health server is a gRPC handler too. */
  predicate WantsGrpc(c: Setup) { c.grpc && c.grpcConfig && (c.grpcHandlers > 0 || WantsHealth(c)) }

  /** The order in which listeners are numbered. */
  function Place(l: Listener): nat { match l case RestAdmin => 0 case RestPublic => 1 case GrpcPublic => 2 }

  /** A health server without a gRPC manager to hand it to is a nil dereference; with one it is enough for
      the gRPC listener to start, even when no handler was enabled. */
  method AssembleServers(c: Setup) returns (r: Assembly)
    ensures r.HealthError? <==> WantsHealth(c) && !c.healthOk
    ensures r.NilGrpcManager? <==> WantsHealth(c) && c.healthOk && !c.grpc
    ensures r.ConfigError? <==>
              && !r.HealthError? && !r.NilGrpcManager?
              && ((WantsAdmin(c) && !c.adminOk) || (WantsPublic(c) && !c.publicOk))
    ensures r.PanicNoPublicServer? <==>
              !r.HealthError? && !r.NilGrpcManager? && !r.ConfigError? && !WantsPublic(c) && !WantsGrpc(c)
    ensures r.Started? ==> r.servers != [] && (RestPublic in r.servers || GrpcPublic in r.servers)
    ensures r.Started? ==> (RestAdmin in r.servers <==> WantsAdmin(c)) && (RestPublic in r.servers <==> WantsPublic(c))
                           && (GrpcPublic in r.servers <==> WantsGrpc(c)) && (r.ready <==> WantsHealth(c))
    ensures r.Started? ==> forall i, j :: 0 <= i < j < |r.servers| ==> Place(r.servers[i]) < Place(r.servers[j])
  {
    var handlers, healthServer := c.grpcHandlers, false;
    if c.rest && c.library && c.health {
      if !c.healthOk { return HealthError; }
      if !c.grpc { return NilGrpcManager; }
      handlers, healthServer := handlers + 1, true;
    }
    var restIsRunning, grpcIsRunning := false, false;
    var servers := [];
    if c.rest && c.adminConfig {
      if !c.adminOk { return ConfigError; }
      servers := servers + [RestAdmin];
    }
    if c.rest && c.publicConfig {
      if !c.publicOk { return ConfigError; }
      servers := servers + [RestPublic];
      restIsRunning := true;
    }
    if c.grpc && c.grpcConfig && handlers > 0 {
      servers := servers + [GrpcPublic];
      grpcIsRunning := true;
    }
    if !restIsRunning && !grpcIsRunning { return PanicNoPublicServer; }
    return Started(servers, healthServer);
  }
}
