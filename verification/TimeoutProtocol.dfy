/** The two goroutines of timeoutHandler.ServeHTTP as a step function: the handler goroutine and the
    server goroutine share the buffer, its mutex, the done channel and the one-slot panic channel.
    The handler is free to choose any operation at each step; the operations it ran are kept in `ops`. */
module TimeoutProtocol {
  import opened Runs
  import opened TimeoutWriter

  /** `base` is the header map of the real writer on entry, `timeout` what the timeout handler does to
      that writer. With `monitored`, the handler sits behind CoreRequestContextMiddleware, whose deferred
      check turns a body left open into a panic. */
  datatype Config = Config(base: Header, timeout: seq<WireCall>, monitored: bool)

  datatype Holder = Free | ByHandler | ByServer

  datatype HandlerPc =
    | Idle
    | Calling(op: Op)                          // inside Write or WriteHeader, mutex held
    | Unlocking(thrown: Option<PanicValue>)    // the deferred unlock of that call
    | Leaving(thrown: Option<PanicValue>)      // returned or panicked, the middleware's defers still to run
    | Sending(p: PanicValue)
    | Closing
    | Exited

  datatype Branch = OnDone | OnDeadline

  datatype ServerPc =
    | Selecting
    | WantLock(b: Branch)
    | Holding(b: Branch)
    | Wrote(b: Branch)
    | Finished(b: Branch)
    | Repanicked(p: PanicValue)

  datatype State = State(
    buf: Buf, wire: Wire, lock: Holder, hpc: HandlerPc, spc: ServerPc,
    closes: nat, panicChan: seq<PanicValue>, ctxDone: bool,
    ops: seq<Op>, results: seq<WriteResult>, open: set<nat>, thrown: Option<PanicValue>)

  datatype Label =
    | HLocal(op: Op) | HLock(op: Op) | HBody | HUnlock | HPanic(v: nat) | HReturn | HDefer | HSend | HClose
    | Deadline | SPanic | SDone | SDeadline | SLock | SBody | SUnlock

  function Wire0(cfg: Config): Wire { Wire(cfg.base, None, [], []) }

  function Init(cfg: Config): State {
    State(EMPTY_BUF, Wire0(cfg), Free, Idle, Selecting, 0, [], false, [], [], {}, None)
  }

  /** The panic that leaves the handler after the middleware's deferred check: an open body replaces
      whatever the handler itself threw. */
  function AfterDefers(cfg: Config, open: set<nat>, thrown: Option<PanicValue>): Option<PanicValue> {
    if cfg.monitored && open != {} then Some(OpenBodies(open)) else thrown
  }

  function LocalStep(s: State, op: Op): State
    requires !Commits(op)
  {
    var t := s.(ops := s.ops + [op]);
    match op
    case SetHeader(k, vv) => t.(buf := s.buf.(h := s.buf.h[k := vv]))
    case DelHeader(k) => t.(buf := s.buf.(h := s.buf.h - {k}))
    case OpenBody(id) => t.(open := s.open + {id})
    case CloseBody(id) => t.(open := s.open - {id})
  }

  function BodyStep(s: State, op: Op): State
    requires Commits(op)
  {
    match op
    case WriteHeader(code) =>
      var (b, p) := BufWriteHeader(s.buf, code);
      s.(buf := b, hpc := Unlocking(p), ops := if p.None? then s.ops + [op] else s.ops)
    case Write(p) =>
      var (b, r) := BufWrite(s.buf, p);
      s.(buf := b, hpc := Unlocking(None), ops := s.ops + [op], results := s.results + [r])
  }

  function HandlerStep(cfg: Config, s: State, l: Label): Option<State> {
    match l
    case HLocal(op) => if s.hpc.Idle? && !Commits(op) then Some(LocalStep(s, op)) else None
    case HLock(op) =>
      if s.hpc.Idle? && Commits(op) && s.lock.Free? then Some(s.(hpc := Calling(op), lock := ByHandler)) else None
    case HBody => if s.hpc.Calling? && Commits(s.hpc.op) then Some(BodyStep(s, s.hpc.op)) else None
    case HUnlock =>
      if !s.hpc.Unlocking? then None
      else Some(s.(lock := Free, hpc := if s.hpc.thrown.Some? then Leaving(s.hpc.thrown) else Idle))
    case HPanic(v) => if s.hpc.Idle? then Some(s.(hpc := Leaving(Some(HandlerPanic(v))))) else None
    case HReturn => if s.hpc.Idle? then Some(s.(hpc := Leaving(None))) else None
    case HDefer =>
      if !s.hpc.Leaving? then None
      else
        var p := AfterDefers(cfg, s.open, s.hpc.thrown);
        Some(s.(thrown := p, hpc := if p.Some? then Sending(p.value) else Closing))
    case HSend =>
      if s.hpc.Sending? && |s.panicChan| < 1 then Some(s.(panicChan := s.panicChan + [s.hpc.p], hpc := Exited)) else None
    case HClose => if s.hpc.Closing? then Some(s.(closes := s.closes + 1, hpc := Exited)) else None
    case _ => None
  }

  function ServerStep(cfg: Config, s: State, l: Label): Option<State> {
    match l
    case Deadline => Some(s.(ctxDone := true))
    case SPanic =>
      if s.spc.Selecting? && s.panicChan != [] then
        Some(s.(spc := Repanicked(s.panicChan[0]), panicChan := s.panicChan[1..]))
      else None
    case SDone => if s.spc.Selecting? && s.closes > 0 then Some(s.(spc := WantLock(OnDone))) else None
    case SDeadline => if s.spc.Selecting? && s.ctxDone then Some(s.(spc := WantLock(OnDeadline))) else None
    case SLock => if s.spc.WantLock? && s.lock.Free? then Some(s.(spc := Holding(s.spc.b), lock := ByServer)) else None
    case SBody =>
      if !s.spc.Holding? then None
      else if s.spc.b.OnDone? then Some(s.(spc := Wrote(OnDone), wire := Publish(s.wire, s.buf)))
      else Some(s.(spc := Wrote(OnDeadline), wire := WireRun(s.wire, cfg.timeout), buf := s.buf.(timedOut := true)))
    case SUnlock => if s.spc.Wrote? then Some(s.(spc := Finished(s.spc.b), lock := Free)) else None
    case _ => None
  }

  predicate IsHandlerLabel(l: Label) {
    l.HLocal? || l.HLock? || l.HBody? || l.HUnlock? || l.HPanic? || l.HReturn? || l.HDefer? || l.HSend? || l.HClose?
  }

  function Step(cfg: Config, s: State, l: Label): Option<State> {
    if IsHandlerLabel(l) then HandlerStep(cfg, s, l) else ServerStep(cfg, s, l)
  }

  function Steps(cfg: Config): (State, Label) -> Option<State> { (s, l) => Step(cfg, s, l) }

  ghost predicate Reachable(cfg: Config, s: State) { exists ls :: Exec(Steps(cfg), Init(cfg), ls) == Some(s) }

  predicate Terminal(s: State) { s.spc.Finished? || s.spc.Repanicked? }

  /** The server goroutine has not yet reached the one statement that writes to the real writer. */
  predicate Unpublished(s: State) { s.spc.Selecting? || s.spc.WantLock? || s.spc.Holding? || s.spc.Repanicked? }

  predicate Via(s: State, b: Branch) {
    (s.spc.WantLock? || s.spc.Holding? || s.spc.Wrote? || s.spc.Finished?) && s.spc.b == b
  }

  predicate Published(s: State, b: Branch) { (s.spc.Wrote? || s.spc.Finished?) && s.spc.b == b }

  ghost predicate LockInv(s: State) {
    && (s.lock.ByHandler? <==> s.hpc.Calling? || s.hpc.Unlocking?)
    && (s.lock.ByServer? <==> s.spc.Holding? || s.spc.Wrote?)
    && (s.hpc.Calling? ==> Commits(s.hpc.op))
  }

  /** The handler goroutine signals at most once, and only by closing or by sending. */
  ghost predicate SignalInv(cfg: Config, s: State) {
    && s.closes + |s.panicChan| + (if s.spc.Repanicked? then 1 else 0) == (if s.hpc.Exited? then 1 else 0)
    && (Via(s, OnDone) ==> s.closes == 1)
    && (s.hpc.Closing? || s.closes == 1 ==> s.thrown.None? && (cfg.monitored ==> s.open == {}))
    && (s.hpc.Sending? ==> s.thrown == Some(s.hpc.p))
    && ((s.hpc.Sending? || s.hpc.Exited?) && cfg.monitored && s.open != {} ==> s.thrown == Some(OpenBodies(s.open)))
    && (s.panicChan != [] ==> s.thrown == Some(s.panicChan[0]))
    && (s.spc.Repanicked? ==> s.thrown == Some(s.spc.p))
  }

  ghost predicate ReplyInv(cfg: Config, s: State) {
    && (s.buf.timedOut <==> Published(s, OnDeadline))
    && (!s.buf.timedOut ==> Matches(s.buf, s.ops) && s.results == RefResults(s.ops))
    && (Unpublished(s) ==> s.wire == Wire0(cfg))
    && (Published(s, OnDone) ==> s.wire == Publish(Wire0(cfg), s.buf))
    && (Published(s, OnDeadline) ==> s.wire == WireRun(Wire0(cfg), cfg.timeout))
  }

  ghost predicate Inv(cfg: Config, s: State) { LockInv(s) && SignalInv(cfg, s) && ReplyInv(cfg, s) }

  lemma LockStep(cfg: Config, s: State, l: Label)
    requires LockInv(s) && Step(cfg, s, l).Some?
    ensures LockInv(Step(cfg, s, l).value)
  {
  }

  /** What a step of the one goroutine leaves alone for the other. */
  lemma Frames(cfg: Config, s: State, l: Label)
    requires Step(cfg, s, l).Some?
    ensures var t := Step(cfg, s, l).value;
            if IsHandlerLabel(l) then
              t.wire == s.wire && t.spc == s.spc && t.ctxDone == s.ctxDone && t.buf.timedOut == s.buf.timedOut
            else
              t.ops == s.ops && t.hpc == s.hpc && t.results == s.results && t.open == s.open && t.closes == s.closes
              && t.thrown == s.thrown && t.buf == s.buf.(timedOut := t.buf.timedOut)
  {
  }

  /** Apart from its operations the handler goroutine changes neither buffer nor history. */
  lemma QuietHandler(cfg: Config, s: State, l: Label)
    requires HandlerStep(cfg, s, l).Some? && !l.HLocal? && !l.HBody?
    ensures var t := HandlerStep(cfg, s, l).value;
            t.buf == s.buf && t.ops == s.ops && t.open == s.open && t.results == s.results
  {
  }

  lemma SignalStep(cfg: Config, s: State, l: Label)
    requires LockInv(s) && SignalInv(cfg, s) && Step(cfg, s, l).Some?
    ensures SignalInv(cfg, Step(cfg, s, l).value)
  {
    if IsHandlerLabel(l) { SignalHandler(cfg, s, l); } else { SignalServer(cfg, s, l); }
  }

  lemma SignalHandler(cfg: Config, s: State, l: Label)
    requires LockInv(s) && SignalInv(cfg, s) && HandlerStep(cfg, s, l).Some?
    ensures SignalInv(cfg, HandlerStep(cfg, s, l).value)
  {
    assert IsHandlerLabel(l) && Step(cfg, s, l) == HandlerStep(cfg, s, l);
    Frames(cfg, s, l);
  }

  lemma SignalServer(cfg: Config, s: State, l: Label)
    requires SignalInv(cfg, s) && ServerStep(cfg, s, l).Some?
    ensures SignalInv(cfg, ServerStep(cfg, s, l).value)
  {
    assert !IsHandlerLabel(l) && Step(cfg, s, l) == ServerStep(cfg, s, l);
    Frames(cfg, s, l);
  }

  lemma LocalReply(s: State, op: Op)
    requires Matches(s.buf, s.ops) && s.results == RefResults(s.ops) && !s.buf.timedOut && !Commits(op)
    ensures var t := LocalStep(s, op); Matches(t.buf, t.ops) && t.results == RefResults(t.ops)
  {
    MatchesSnoc(s.buf, s.ops, op, LocalStep(s, op).buf);
    assert (s.ops + [op])[..|s.ops|] == s.ops;
  }

  lemma BodyReply(s: State, op: Op)
    requires Matches(s.buf, s.ops) && s.results == RefResults(s.ops) && !s.buf.timedOut && Commits(op)
    ensures var t := BodyStep(s, op); Matches(t.buf, t.ops) && t.results == RefResults(t.ops)
  {
    assert (s.ops + [op])[..|s.ops|] == s.ops;
    if op.WriteHeader? ==> ValidCode(op.code) { MatchesSnoc(s.buf, s.ops, op, BodyStep(s, op).buf); }
  }

  lemma HandlerReply(cfg: Config, s: State, l: Label)
    requires HandlerStep(cfg, s, l).Some? && Matches(s.buf, s.ops) && s.results == RefResults(s.ops) && !s.buf.timedOut
    ensures var t := HandlerStep(cfg, s, l).value; Matches(t.buf, t.ops) && t.results == RefResults(t.ops)
  {
    if l.HLocal? {
      LocalReply(s, l.op);
    } else if l.HBody? {
      BodyReply(s, s.hpc.op);
    } else {
      QuietHandler(cfg, s, l);
    }
  }

  /** A handler step happens only before the handler has exited, so never after done was closed. */
  lemma ReplyAfterHandler(cfg: Config, s: State, l: Label)
    requires Inv(cfg, s) && HandlerStep(cfg, s, l).Some?
    ensures ReplyInv(cfg, HandlerStep(cfg, s, l).value)
  {
    assert IsHandlerLabel(l) && Step(cfg, s, l) == HandlerStep(cfg, s, l);
    Frames(cfg, s, l);
    assert !s.hpc.Exited? && !Published(s, OnDone);
    if !s.buf.timedOut { HandlerReply(cfg, s, l); }
  }

  lemma ReplyAfterServer(cfg: Config, s: State, l: Label)
    requires Inv(cfg, s) && ServerStep(cfg, s, l).Some?
    ensures ReplyInv(cfg, ServerStep(cfg, s, l).value)
  {
    var t := ServerStep(cfg, s, l).value;
    assert t.ops == s.ops && t.results == s.results && t.buf == s.buf.(timedOut := t.buf.timedOut);
    assert t.buf.timedOut == s.buf.timedOut ==> t.buf == s.buf;
  }

  lemma ReplyStep(cfg: Config, s: State, l: Label)
    requires Inv(cfg, s) && Step(cfg, s, l).Some?
    ensures ReplyInv(cfg, Step(cfg, s, l).value)
  {
    if IsHandlerLabel(l) { ReplyAfterHandler(cfg, s, l); } else { ReplyAfterServer(cfg, s, l); }
  }

  lemma InvPreserved(cfg: Config)
    ensures Preserved(Steps(cfg), s => Inv(cfg, s))
  {
    forall s, l | Inv(cfg, s) && Steps(cfg)(s, l).Some?
      ensures Inv(cfg, Steps(cfg)(s, l).value)
    {
      LockStep(cfg, s, l);
      SignalStep(cfg, s, l);
      ReplyStep(cfg, s, l);
    }
  }

  lemma InvReachable(cfg: Config, s: State)
    requires Reachable(cfg, s)
    ensures Inv(cfg, s)
  {
    var ls :| Exec(Steps(cfg), Init(cfg), ls) == Some(s);
    InvPreserved(cfg);
    InvariantOnRuns(Steps(cfg), s => Inv(cfg, s), Init(cfg), ls);
  }

  /** In every interleaving the request ends in exactly one of three ways: the reply the handler's
      operations ask for, the timeout handler's reply, or a re-panic with nothing written. Until then
      nothing is written at all. */
  lemma ExactlyOneOutcome(cfg: Config, s: State)
    requires Reachable(cfg, s)
    ensures Unpublished(s) ==> s.wire == Wire0(cfg)
    ensures s.spc == Finished(OnDone) ==> IsReply(s.wire, cfg.base, s.ops) && s.thrown.None? && s.results == RefResults(s.ops)
    ensures s.spc == Finished(OnDeadline) ==> s.wire == WireRun(Wire0(cfg), cfg.timeout)
    ensures s.spc.Repanicked? ==> s.thrown == Some(s.spc.p)
    ensures s.closes <= 1 && |s.panicChan| <= 1
    ensures s.hpc.Idle? || s.hpc.Leaving? || s.hpc.Exited? ==> !s.lock.ByHandler?
    ensures Terminal(s) ==> !s.lock.ByServer?
  {
    InvReachable(cfg, s);
    if s.spc == Finished(OnDone) { PublishIsReply(cfg.base, s.buf, s.ops); }
  }

  /** Only the server's one publishing step writes to the real writer, and the handler's send never blocks. */
  lemma HandlerNeverTouchesWire(cfg: Config, s: State, l: Label)
    requires Reachable(cfg, s)
    ensures Step(cfg, s, l).Some? && Step(cfg, s, l).value.wire != s.wire ==> l.SBody?
    ensures s.hpc.Sending? ==> Step(cfg, s, HSend).Some?
  {
    InvReachable(cfg, s);
  }

  /** What stays fixed from `s` on: a finished request keeps its outcome and its reply, and after the
      deadline branch every write is refused and leaves the buffered status and body alone. */
  ghost predicate Settled(s: State, t: State) {
    && (Terminal(s) ==> t.spc == s.spc && t.wire == s.wire)
    && (s.hpc.Exited? ==> t.hpc.Exited? && t.ops == s.ops && t.open == s.open && t.thrown == s.thrown)
    && (s.buf.timedOut ==>
          && t.buf == s.buf.(h := t.buf.h)
          && s.results <= t.results
          && forall i :: |s.results| <= i < |t.results| ==> t.results[i] == WriteResult(0, true))
  }

  lemma SettledOnRuns(cfg: Config, s: State, ls: seq<Label>, t: State)
    requires Reachable(cfg, s) && Exec(Steps(cfg), s, ls) == Some(t)
    ensures Settled(s, t)
  {
    InvReachable(cfg, s);
    InvPreserved(cfg);
    var inv, rel := s => Inv(cfg, s), (a, b) => Settled(a, b);
    forall a, l, u | inv(a) && Steps(cfg)(a, l).Some? && rel(Steps(cfg)(a, l).value, u)
      ensures rel(a, u)
    {
      SettledStep(cfg, a, l, u);
    }
    RelationOnRuns(Steps(cfg), inv, rel, s, ls);
  }

  /** After the deadline branch a step adds at most one refused write and changes only the header map. */
  lemma RefusedStep(cfg: Config, s: State, l: Label)
    requires Step(cfg, s, l).Some? && s.buf.timedOut
    ensures var t := Step(cfg, s, l).value;
            && t.buf == s.buf.(h := t.buf.h)
            && (t.results == s.results || t.results == s.results + [WriteResult(0, true)])
  {
  }

  lemma TerminalStep(cfg: Config, s: State, l: Label)
    requires Step(cfg, s, l).Some? && Terminal(s)
    ensures Step(cfg, s, l).value.spc == s.spc && Step(cfg, s, l).value.wire == s.wire
  {
    Frames(cfg, s, l);
  }

  lemma ExitedStep(cfg: Config, s: State, l: Label)
    requires Step(cfg, s, l).Some? && s.hpc.Exited?
    ensures var t := Step(cfg, s, l).value; t.hpc.Exited? && t.ops == s.ops && t.open == s.open && t.thrown == s.thrown
  {
    assert !IsHandlerLabel(l);
    Frames(cfg, s, l);
  }

  lemma SettledStep(cfg: Config, s: State, l: Label, u: State)
    requires Step(cfg, s, l).Some? && Settled(Step(cfg, s, l).value, u)
    ensures Settled(s, u)
  {
    var t := Step(cfg, s, l).value;
    if Terminal(s) { TerminalStep(cfg, s, l); }
    if s.hpc.Exited? { ExitedStep(cfg, s, l); }
    if s.buf.timedOut { RefusedStep(cfg, s, l); }
    SettledBack(s, t, u);
  }

  lemma SettledBack(s: State, t: State, u: State)
    requires Settled(t, u)
    requires Terminal(s) ==> t.spc == s.spc && t.wire == s.wire
    requires s.hpc.Exited? ==> t.hpc.Exited? && t.ops == s.ops && t.open == s.open && t.thrown == s.thrown
    requires s.buf.timedOut ==>
               t.buf == s.buf.(h := t.buf.h) && (t.results == s.results || t.results == s.results + [WriteResult(0, true)])
    ensures Settled(s, u)
  {
  }

  /** Timeout isolation over whole runs. */
  lemma TimeoutIsolation(cfg: Config, s: State, ls: seq<Label>, t: State)
    requires Reachable(cfg, s) && s.spc == Finished(OnDeadline)
    requires Exec(Steps(cfg), s, ls) == Some(t)
    ensures t.spc == Finished(OnDeadline) && t.wire == WireRun(Wire0(cfg), cfg.timeout)
    ensures s.results <= t.results
    ensures forall i :: |s.results| <= i < |t.results| ==> t.results[i] == WriteResult(0, true)
    ensures t.buf.code == s.buf.code && t.buf.wbuf == s.buf.wbuf && t.buf.wroteHeader == s.buf.wroteHeader
  {
    InvReachable(cfg, s);
    SettledOnRuns(cfg, s, ls, t);
  }

  lemma ServerMoves(cfg: Config, s: State) returns (l: Label)
    requires LockInv(s) && SignalInv(cfg, s) && !Terminal(s) && (s.hpc.Exited? || s.ctxDone)
    ensures l in [SPanic, SDone, SDeadline, SLock, SBody, SUnlock, HBody, HUnlock] && Step(cfg, s, l).Some?
  {
    match s.spc
    case Selecting => l := if s.panicChan != [] then SPanic else if s.closes > 0 then SDone else SDeadline;
    case WantLock(_) => l := if s.lock.Free? then SLock else if s.hpc.Calling? then HBody else HUnlock;
    case Holding(_) => l := SBody;
    case _ => l := SUnlock;
  }

  lemma HandlerMoves(cfg: Config, s: State) returns (l: Label)
    requires LockInv(s) && SignalInv(cfg, s) && !s.hpc.Exited?
    ensures l in [HReturn, HBody, HUnlock, HDefer, HSend, HClose] && Step(cfg, s, l).Some?
  {
    match s.hpc
    case Idle => l := HReturn;
    case Calling(_) => l := HBody;
    case Unlocking(_) => l := HUnlock;
    case Leaving(_) => l := HDefer;
    case Sending(_) => l := HSend;
    case _ => l := HClose;
  }

  /** No deadlock: unless the request is over, once the handler has left or the context is done the
      server goroutine can move, or the handler is inside a call whose next step is enabled. And the
      handler goroutine itself is held up only while the server goroutine holds the mutex. */
  lemma NeverStuck(cfg: Config, s: State)
    requires Reachable(cfg, s)
    ensures !Terminal(s) && (s.hpc.Exited? || s.ctxDone) ==>
              exists l :: l in [SPanic, SDone, SDeadline, SLock, SBody, SUnlock, HBody, HUnlock] && Step(cfg, s, l).Some?
    ensures !s.hpc.Exited? ==>
              exists l :: l in [HReturn, HBody, HUnlock, HDefer, HSend, HClose] && Step(cfg, s, l).Some?
    ensures !s.lock.ByServer? ==> !s.hpc.Idle? || forall op :: Commits(op) ==> Step(cfg, s, HLock(op)).Some?
  {
    InvReachable(cfg, s);
    if !Terminal(s) && (s.hpc.Exited? || s.ctxDone) { var l := ServerMoves(cfg, s); }
    if !s.hpc.Exited? { var l := HandlerMoves(cfg, s); }
  }

  /** The select has each of its branches open exactly when it should: the panic iff the handler left with
      one, the reply iff it left without, and in either case also the deadline iff the context has ended. */
  lemma SelectIff(cfg: Config, s: State)
    requires Reachable(cfg, s) && s.spc.Selecting?
    ensures Step(cfg, s, SPanic).Some? <==> s.hpc.Exited? && s.thrown.Some?
    ensures Step(cfg, s, SDone).Some? <==> s.hpc.Exited? && s.thrown.None?
    ensures Step(cfg, s, SDeadline).Some? <==> s.ctxDone
  {
    InvReachable(cfg, s);
  }

  /** Between two calls the handler may do anything: change its headers or bodies, return, or panic with any
      value; and the deadline may pass at any time. */
  lemma HandlerIsFree(cfg: Config, s: State)
    ensures s.hpc.Idle? ==>
              && Step(cfg, s, HReturn).Some? && (forall v :: Step(cfg, s, HPanic(v)).Some?)
              && (forall op :: !Commits(op) ==> Step(cfg, s, HLocal(op)).Some?)
    ensures Step(cfg, s, Deadline).Some?
  {
  }

  /** The bodies that a list of operations leaves open. */
  function OpenAfter(ops: seq<Op>): set<nat> {
    if ops == [] then {}
    else
      var before, op := OpenAfter(ops[..|ops| - 1]), ops[|ops| - 1];
      if op.OpenBody? then before + {op.id} else if op.CloseBody? then before - {op.id} else before
  }

  predicate CodesValid(ops: seq<Op>) { forall i :: 0 <= i < |ops| && ops[i].WriteHeader? ==> ValidCode(ops[i].code) }

  predicate Completes(cfg: Config, ops: seq<Op>) {
    && CodesValid(ops)
    && (cfg.monitored ==> OpenAfter(ops) == {})
  }

  ghost predicate HistoryInv(s: State) {
    s.open == OpenAfter(s.ops) && CodesValid(s.ops)
  }

  lemma HistorySnoc(ops: seq<Op>, op: Op)
    ensures OpenAfter(ops + [op]) ==
            if op.OpenBody? then OpenAfter(ops) + {op.id}
            else if op.CloseBody? then OpenAfter(ops) - {op.id} else OpenAfter(ops)
    ensures CodesValid(ops) && (op.WriteHeader? ==> ValidCode(op.code)) ==> CodesValid(ops + [op])
  {
    assert (ops + [op])[..|ops|] == ops;
  }

  lemma LocalHistory(s: State, op: Op)
    requires HistoryInv(s) && !Commits(op)
    ensures HistoryInv(LocalStep(s, op))
  {
    HistorySnoc(s.ops, op);
  }

  lemma BodyHistory(s: State, op: Op)
    requires HistoryInv(s) && Commits(op)
    ensures HistoryInv(BodyStep(s, op))
  {
    if op.Write? || ValidCode(op.code) {
      HistorySnoc(s.ops, op);
      assert BodyStep(s, op).ops == s.ops + [op];
    } else {
      assert BodyStep(s, op).ops == s.ops;
    }
  }

  lemma HistoryStep(cfg: Config, s: State, l: Label)
    requires HistoryInv(s) && Step(cfg, s, l).Some?
    ensures HistoryInv(Step(cfg, s, l).value)
  {
    if !IsHandlerLabel(l) {
      Frames(cfg, s, l);
    } else if l.HLocal? {
      LocalHistory(s, l.op);
    } else if l.HBody? {
      BodyHistory(s, s.hpc.op);
    } else {
      QuietHandler(cfg, s, l);
    }
  }

  lemma ReachableStep(cfg: Config, s: State, l: Label, t: State)
    requires Reachable(cfg, s) && Step(cfg, s, l) == Some(t)
    ensures Reachable(cfg, t)
  {
    var ls :| Exec(Steps(cfg), Init(cfg), ls) == Some(s);
    assert Exec(Steps(cfg), t, [l][1..]) == Some(t);
    ExecConcat(Steps(cfg), Init(cfg), ls, [l]);
  }

  /** The handler can run `ops` alone, one call at a time. */
  lemma {:induction false} SequentialRun(cfg: Config, ops: seq<Op>) returns (s: State)
    requires CodesValid(ops)
    ensures Reachable(cfg, s) && s.ops == ops && s.open == OpenAfter(ops)
    ensures s.hpc.Idle? && s.spc.Selecting? && s.lock.Free? && s.closes == 0 && s.panicChan == []
  {
    if ops == [] {
      assert Exec(Steps(cfg), Init(cfg), []) == Some(Init(cfg));
      return Init(cfg);
    }
    var op := ops[|ops| - 1];
    assert ops == ops[..|ops| - 1] + [op];
    var s0 := SequentialRun(cfg, ops[..|ops| - 1]);
    if Commits(op) {
      var s1 := s0.(hpc := Calling(op), lock := ByHandler);
      var s2 := BodyStep(s1, op);
      s := s2.(hpc := Idle, lock := Free);
      ReachableStep(cfg, s0, HLock(op), s1);
      ReachableStep(cfg, s1, HBody, s2);
      ReachableStep(cfg, s2, HUnlock, s);
    } else {
      s := LocalStep(s0, op);
      ReachableStep(cfg, s0, HLocal(op), s);
    }
  }

  /** ... then return, and be published. */
  lemma CompletingRun(cfg: Config, ops: seq<Op>) returns (s: State)
    requires Completes(cfg, ops)
    ensures Reachable(cfg, s) && s.spc == Finished(OnDone) && s.ops == ops
  {
    var s0 := SequentialRun(cfg, ops);
    var s1 := s0.(hpc := Leaving(None));
    var s2 := s1.(hpc := Closing, thrown := None);
    var s3 := s2.(hpc := Exited, closes := 1);
    ReachableStep(cfg, s0, HReturn, s1);
    ReachableStep(cfg, s1, HDefer, s2);
    ReachableStep(cfg, s2, HClose, s3);
    s := ServerPublishes(cfg, s3);
  }

  lemma ServerPublishes(cfg: Config, s0: State) returns (s: State)
    requires Reachable(cfg, s0) && s0.spc.Selecting? && s0.closes > 0 && s0.lock.Free?
    ensures Reachable(cfg, s) && s.spc == Finished(OnDone) && s.ops == s0.ops
  {
    var s1 := s0.(spc := WantLock(OnDone));
    var s2 := s1.(spc := Holding(OnDone), lock := ByServer);
    ReachableStep(cfg, s0, SDone, s1);
    ReachableStep(cfg, s1, SLock, s2);
    s := HolderPublishes(cfg, s2);
  }

  lemma HolderPublishes(cfg: Config, s0: State) returns (s: State)
    requires Reachable(cfg, s0) && s0.spc == Holding(OnDone)
    ensures Reachable(cfg, s) && s.spc == Finished(OnDone) && s.ops == s0.ops
  {
    var s1 := s0.(spc := Wrote(OnDone), wire := Publish(s0.wire, s0.buf));
    s := s1.(spc := Finished(OnDone), lock := Free);
    ReachableStep(cfg, s0, SBody, s1);
    ReachableStep(cfg, s1, SUnlock, s);
  }

  lemma HistoryReachable(cfg: Config, s: State)
    requires Reachable(cfg, s)
    ensures HistoryInv(s)
  {
    var ls :| Exec(Steps(cfg), Init(cfg), ls) == Some(s);
    forall s, l | HistoryInv(s) && Steps(cfg)(s, l).Some?
      ensures HistoryInv(Steps(cfg)(s, l).value)
    {
      HistoryStep(cfg, s, l);
    }
    InvariantOnRuns(Steps(cfg), s => HistoryInv(s), Init(cfg), ls);
  }

  /** Exactly the operation lists with valid status codes, and behind the monitor with no body left open,
      can be the history of a published reply. */
  lemma PublishableIff(cfg: Config, ops: seq<Op>)
    ensures Completes(cfg, ops) <==> exists s :: Reachable(cfg, s) && s.spc == Finished(OnDone) && s.ops == ops
  {
    if Completes(cfg, ops) {
      var s := CompletingRun(cfg, ops);
    }
    if s :| Reachable(cfg, s) && s.spc == Finished(OnDone) && s.ops == ops {
      InvReachable(cfg, s);
      HistoryReachable(cfg, s);
    }
  }
}
