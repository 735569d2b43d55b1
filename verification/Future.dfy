/** common/async.go: one worker, a channel of capacity 1, and any number of callers of Get and GetChan. */
module Future {
  import opened Runs

  /** What fn came to: its two results, or the error made from a recovered non-nil panic value. */
  datatype Result = Value(obj: nat, err: Option<nat>) | Recovered(v: nat)

  datatype Got = FromFn(r: Result) | ContextError

  /** `viaChan` callers used GetChan: their goroutine passes the result on through a channel of its own. */
  datatype Caller = Caller(viaChan: bool, pc: CallerPc)
  datatype CallerPc = Waiting | Received(got: Got) | Delivered(got: Got)

  datatype Worker = Running | Sending(r: Result) | Done(r: Result)

  datatype State = State(worker: Worker, chan: seq<Result>, ctxDone: bool, callers: seq<Caller>, winner: Option<nat>)

  datatype Label =
    | FnEnds(r: Result) | Send | CtxEnds | NewCaller(viaChan: bool)
    | TakeResult(c: nat) | TakeContext(c: nat) | PassOn(c: nat)

  const INIT := State(Running, [], false, [], None)

  function Step(s: State, l: Label): Option<State> {
    match l
    case FnEnds(r) => if s.worker.Running? then Some(s.(worker := Sending(r))) else None
    case Send =>
      if s.worker.Sending? && |s.chan| < 1 then Some(s.(worker := Done(s.worker.r), chan := s.chan + [s.worker.r])) else None
    case CtxEnds => Some(s.(ctxDone := true))
    case NewCaller(v) => Some(s.(callers := s.callers + [Caller(v, Waiting)]))
    case TakeResult(c) =>
      if c < |s.callers| && s.callers[c].pc.Waiting? && s.chan != [] then
        Some(s.(callers := s.callers[c := s.callers[c].(pc := Received(FromFn(s.chan[0])))],
                chan := s.chan[1..], winner := Some(c)))
      else None
    case TakeContext(c) =>
      if c < |s.callers| && s.callers[c].pc.Waiting? && s.ctxDone then
        Some(s.(callers := s.callers[c := s.callers[c].(pc := Received(ContextError))]))
      else None
    case PassOn(c) =>
      if c < |s.callers| && s.callers[c].viaChan && s.callers[c].pc.Received? then
        Some(s.(callers := s.callers[c := s.callers[c].(pc := Delivered(s.callers[c].pc.got))]))
      else None
  }

  const Steps: (State, Label) -> Option<State> := (s, l) => Step(s, l)

  ghost predicate Reachable(s: State) { exists ls :: Exec(Steps, INIT, ls) == Some(s) }

  predicate HasOutcome(c: Caller) { !c.pc.Waiting? && c.pc.got.FromFn? }

  ghost predicate Inv(s: State) {
    && (s.worker.Done? <==> |s.chan| == 1 || s.winner.Some?)
    && |s.chan| <= 1 && !(s.chan != [] && s.winner.Some?)
    && (s.chan != [] ==> s.chan[0] == s.worker.r)
    && (s.winner.Some? ==> s.winner.value < |s.callers|)
    && (forall c: nat :: c < |s.callers| ==> (HasOutcome(s.callers[c]) <==> s.winner == Some(c)))
    && (forall c: nat :: c < |s.callers| && HasOutcome(s.callers[c]) ==> s.callers[c].pc.got.r == s.worker.r)
    && (forall c: nat :: c < |s.callers| && !s.callers[c].pc.Waiting? && s.callers[c].pc.got.ContextError? ==> s.ctxDone)
  }

  lemma InvStep(s: State, l: Label)
    requires Inv(s) && Step(s, l).Some?
    ensures Inv(Step(s, l).value)
  {
  }

  lemma InvPreserved()
    ensures Preserved(Steps, s => Inv(s))
  {
    forall s, l | Inv(s) && Steps(s, l).Some?
      ensures Inv(Steps(s, l).value)
    {
      InvStep(s, l);
    }
  }

  lemma InvReachable(s: State)
    requires Reachable(s)
    ensures Inv(s)
  {
    var ls :| Exec(Steps, INIT, ls) == Some(s);
    InvPreserved();
    InvariantOnRuns(Steps, s => Inv(s), INIT, ls);
  }

  /** The worker's one send never blocks, even with no reader; at most one caller ever gets fn's outcome,
      and it is fn's outcome; whoever got the context's error did so after the context ended. */
  lemma AtMostOneReceives(s: State, i: nat, j: nat)
    requires Reachable(s) && i < |s.callers| && j < |s.callers| && !s.callers[i].pc.Waiting?
    ensures HasOutcome(s.callers[i]) ==> s.worker == Done(s.callers[i].pc.got.r)
    ensures HasOutcome(s.callers[i]) && HasOutcome(s.callers[j]) ==> i == j
    ensures !HasOutcome(s.callers[i]) ==> s.callers[i].pc.got.ContextError? && s.ctxDone
  {
    InvReachable(s);
  }

  lemma WorkerNeverBlocks(s: State)
    requires Reachable(s) && s.worker.Sending?
    ensures Step(s, Send).Some?
  {
    InvReachable(s);
  }

  /** Once the outcome is taken, everyone else stays out of luck. */
  ghost predicate Losers(s: State, t: State) {
    && |s.callers| <= |t.callers| && (s.ctxDone ==> t.ctxDone)
    && (s.winner.Some? ==> t.winner == s.winner)
    && (s.winner.Some? ==> forall c: nat :: c < |s.callers| && s.callers[c].pc.Waiting? ==>
          !HasOutcome(t.callers[c]) && (t.ctxDone || t.callers[c].pc.Waiting?))
  }

  lemma LosersStep(s: State, l: Label, u: State)
    requires Inv(s) && Step(s, l).Some? && Losers(Step(s, l).value, u) && Inv(u)
    ensures Losers(s, u)
  {
  }

  /** A caller that is still waiting when another one has taken the outcome never gets it: it blocks until
      the context ends, and then can only return the context's error. */
  lemma LosersWaitForContext(s: State, c: nat, ls: seq<Label>, t: State)
    requires Reachable(s) && s.winner.Some? && c < |s.callers| && s.callers[c].pc.Waiting?
    requires Exec(Steps, s, ls) == Some(t)
    ensures c < |t.callers| && !HasOutcome(t.callers[c])
    ensures t.ctxDone || t.callers[c].pc.Waiting?
    ensures t.callers[c].pc.Waiting? && t.ctxDone ==>
              && Step(t, TakeResult(c)).None?
              && Step(t, TakeContext(c)) == Some(t.(callers := t.callers[c := t.callers[c].(pc := Received(ContextError))]))
  {
    InvReachable(s);
    ReachableRun(s, ls, t);
    InvReachable(t);
    LosersOnRun(s, ls, t);
  }

  lemma ReachableRun(s: State, ls: seq<Label>, t: State)
    requires Reachable(s) && Exec(Steps, s, ls) == Some(t)
    ensures Reachable(t)
  {
    var before :| Exec(Steps, INIT, before) == Some(s);
    ExecConcat(Steps, INIT, before, ls);
  }

  lemma {:induction false} LosersOnRun(s: State, ls: seq<Label>, t: State)
    requires Inv(s) && Exec(Steps, s, ls) == Some(t) && Inv(t)
    ensures Losers(s, t)
    decreases |ls|
  {
    if ls != [] {
      InvPreserved();
      assert Inv(Steps(s, ls[0]).value);
      LosersOnRun(Step(s, ls[0]).value, ls[1..], t);
      LosersStep(s, ls[0], t);
    }
  }

  /** While nobody has taken the outcome and the worker has sent it, every waiting caller can take it. */
  lemma OutcomeIsNotLost(s: State, c: nat)
    requires Reachable(s) && s.worker.Done? && s.winner.None? && c < |s.callers| && s.callers[c].pc.Waiting?
    ensures Step(s, TakeResult(c)).Some? && Step(s, TakeResult(c)).value.callers[c].pc == Received(FromFn(s.worker.r))
  {
    InvReachable(s);
  }

  /** A waiting caller can move exactly when the context has ended, which it then reports, or the outcome is
      there and nobody has taken it, which it then gets. So before the context ends exactly one caller is
      served, and afterwards nobody waits for the function. */
  lemma CallerCanMoveIff(s: State, c: nat)
    requires Reachable(s) && c < |s.callers| && s.callers[c].pc.Waiting?
    ensures Step(s, TakeContext(c)).Some? <==> s.ctxDone
    ensures Step(s, TakeResult(c)).Some? <==> s.worker.Done? && s.winner.None?
    ensures s.ctxDone ==> Step(s, TakeContext(c)).value.callers[c].pc == Received(ContextError)
    ensures s.worker.Done? && s.winner.None? ==>
              Step(s, TakeResult(c)).value.callers[c].pc == Received(FromFn(s.worker.r))
  {
    InvReachable(s);
  }

  /** What the goroutine of GetChan has received it passes on unchanged, and it is never held up. */
  lemma ChanIsServed(s: State, c: nat)
    requires Reachable(s) && c < |s.callers| && s.callers[c].pc.Received?
    ensures Step(s, PassOn(c)).Some? <==> s.callers[c].viaChan
    ensures s.callers[c].viaChan ==>
              Step(s, PassOn(c)).value == s.(callers := s.callers[c := Caller(true, Delivered(s.callers[c].pc.got))])
  {
  }

  // What the labels of a run say.

  /** The outcomes of the function, in order. */
  function Endings(ls: seq<Label>): seq<Result> {
    if ls == [] then []
    else Endings(ls[..|ls| - 1]) + (if ls[|ls| - 1].FnEnds? then [ls[|ls| - 1].r] else [])
  }

  /** Who asked, in order, and whether by GetChan. */
  function Askers(ls: seq<Label>): seq<bool> {
    if ls == [] then []
    else Askers(ls[..|ls| - 1]) + (if ls[|ls| - 1].NewCaller? then [ls[|ls| - 1].viaChan] else [])
  }

  lemma LabelSnoc(ls: seq<Label>, l: Label)
    ensures Endings(ls + [l]) == Endings(ls) + (if l.FnEnds? then [l.r] else [])
    ensures Askers(ls + [l]) == Askers(ls) + (if l.NewCaller? then [l.viaChan] else [])
  {
    assert (ls + [l])[..|ls|] == ls;
  }

  lemma InSnoc(ls: seq<Label>, l: Label, k: Label)
    ensures k in ls + [l] <==> k in ls || k == l
  {
  }

  lemma CallerSnoc(ls: seq<Label>, l: Label, c: nat)
    ensures TakeResult(c) in ls + [l] <==> TakeResult(c) in ls || l == TakeResult(c)
    ensures TakeContext(c) in ls + [l] <==> TakeContext(c) in ls || l == TakeContext(c)
    ensures PassOn(c) in ls + [l] <==> PassOn(c) in ls || l == PassOn(c)
  {
    InSnoc(ls, l, TakeResult(c));
    InSnoc(ls, l, TakeContext(c));
    InSnoc(ls, l, PassOn(c));
  }

  ghost predicate CallerTold(caller: Caller, c: nat, ls: seq<Label>) {
    && (TakeResult(c) in ls <==> HasOutcome(caller))
    && (TakeContext(c) in ls <==> !caller.pc.Waiting? && !HasOutcome(caller))
    && (PassOn(c) in ls <==> caller.pc.Delivered?)
    && (caller.pc.Delivered? ==> caller.viaChan)
  }

  ghost predicate CallersTold(s: State, ls: seq<Label>) {
    && |s.callers| == |Askers(ls)|
    && (forall c: nat :: c < |s.callers| ==> s.callers[c].viaChan == Askers(ls)[c] && CallerTold(s.callers[c], c, ls))
    && (forall c: nat :: c >= |s.callers| ==> TakeResult(c) !in ls && TakeContext(c) !in ls && PassOn(c) !in ls)
  }

  ghost predicate WorkerTold(s: State, ls: seq<Label>) {
    && Endings(ls) == (if s.worker.Running? then [] else [s.worker.r])
    && (Send in ls <==> s.worker.Done?)
    && (s.ctxDone <==> CtxEnds in ls)
  }

  /** The label is about caller `c`. */
  predicate About(l: Label, c: nat) { l == TakeResult(c) || l == TakeContext(c) || l == PassOn(c) }

  lemma OwnStep(s: State, ls: seq<Label>, l: Label, c: nat)
    requires Step(s, l).Some? && About(l, c) && c < |s.callers| && CallerTold(s.callers[c], c, ls)
    ensures |Step(s, l).value.callers| == |s.callers| && Step(s, l).value.callers[c].viaChan == s.callers[c].viaChan
    ensures CallerTold(Step(s, l).value.callers[c], c, ls + [l])
  {
    CallerSnoc(ls, l, c);
  }

  lemma OtherStep(s: State, ls: seq<Label>, l: Label, c: nat)
    requires Step(s, l).Some? && !About(l, c) && c < |s.callers| && CallerTold(s.callers[c], c, ls)
    ensures c < |Step(s, l).value.callers| && Step(s, l).value.callers[c] == s.callers[c]
    ensures CallerTold(s.callers[c], c, ls + [l])
  {
    CallerSnoc(ls, l, c);
  }

  lemma NewStep(s: State, ls: seq<Label>, viaChan: bool)
    requires CallersTold(s, ls)
    ensures CallerTold(Caller(viaChan, Waiting), |s.callers|, ls + [NewCaller(viaChan)])
  {
    CallerSnoc(ls, NewCaller(viaChan), |s.callers|);
  }

  lemma CallersStep(s: State, ls: seq<Label>, l: Label)
    requires CallersTold(s, ls) && Step(s, l).Some?
    ensures CallersTold(Step(s, l).value, ls + [l])
  {
    var t := Step(s, l).value;
    LabelSnoc(ls, l);
    forall c: nat | c < |t.callers|
      ensures t.callers[c].viaChan == Askers(ls + [l])[c] && CallerTold(t.callers[c], c, ls + [l])
    {
      if c == |s.callers| {
        NewStep(s, ls, l.viaChan);
      } else if About(l, c) {
        OwnStep(s, ls, l, c);
      } else {
        OtherStep(s, ls, l, c);
      }
    }
    forall c: nat | c >= |t.callers|
      ensures TakeResult(c) !in ls + [l] && TakeContext(c) !in ls + [l] && PassOn(c) !in ls + [l]
    {
      CallerSnoc(ls, l, c);
    }
  }

  lemma WorkerStep(s: State, ls: seq<Label>, l: Label)
    requires WorkerTold(s, ls) && Step(s, l).Some?
    ensures WorkerTold(Step(s, l).value, ls + [l])
  {
    LabelSnoc(ls, l);
    InSnoc(ls, l, Send);
    InSnoc(ls, l, CtxEnds);
  }

  lemma ToldByRun(ls: seq<Label>, s: State)
    requires Exec(Steps, INIT, ls) == Some(s)
    ensures CallersTold(s, ls) && WorkerTold(s, ls)
  {
    var told := (s, ls) => CallersTold(s, ls) && WorkerTold(s, ls);
    forall s, ls, l | told(s, ls) && Steps(s, l).Some?
      ensures told(Steps(s, l).value, ls + [l])
    {
      CallersStep(s, ls, l);
      WorkerStep(s, ls, l);
    }
    ToldOnRuns(Steps, told, INIT, [], ls);
    assert [] + ls == ls;
  }

  /** Over every run: the function ends at most once; a caller that took the result holds what the function
      ended with, one that took the context's end holds its error, and it took one of them at most; a
      GetChan reader gets what its goroutine took. */
  lemma CallersGetWhatTheyTook(ls: seq<Label>, s: State, c: nat)
    requires Exec(Steps, INIT, ls) == Some(s)
    ensures |s.callers| == |Askers(ls)| && |Endings(ls)| <= 1
    ensures TakeResult(c) in ls || TakeContext(c) in ls ==> c < |s.callers| && !s.callers[c].pc.Waiting?
    ensures TakeResult(c) in ls ==> Endings(ls) != [] && s.callers[c].pc.got == FromFn(Endings(ls)[0])
    ensures TakeContext(c) in ls ==> CtxEnds in ls && s.callers[c].pc.got == ContextError
    ensures PassOn(c) in ls ==> c < |s.callers| && Askers(ls)[c] && s.callers[c].pc.Delivered?
    ensures c < |s.callers| && TakeResult(c) !in ls && TakeContext(c) !in ls ==> s.callers[c].pc.Waiting?
  {
    ToldByRun(ls, s);
    InvReachable(s) by { assert Reachable(s); }
    if c < |s.callers| { assert CallerTold(s.callers[c], c, ls); }
  }

  /** Nothing but the protocol itself holds anyone up: the function may end with anything while it runs, and
      at any time the context may end and a caller may come. */
  lemma AnythingMayHappen(s: State, r: Result, viaChan: bool)
    ensures Step(s, FnEnds(r)).Some? <==> s.worker.Running?
    ensures Step(s, CtxEnds) == Some(s.(ctxDone := true))
    ensures Step(s, NewCaller(viaChan)) == Some(s.(callers := s.callers + [Caller(viaChan, Waiting)]))
  {
  }

  lemma ReachableStep(s: State, l: Label) returns (t: State)
    requires Reachable(s) && Step(s, l).Some?
    ensures Step(s, l) == Some(t) && Reachable(t)
  {
    t := Step(s, l).value;
    var ls :| Exec(Steps, INIT, ls) == Some(s);
    assert Exec(Steps, t, [l][1..]) == Some(t);
    ExecConcat(Steps, INIT, ls, [l]);
  }

  lemma {:induction false} CallersRun(m: nat) returns (s: State)
    ensures Reachable(s) && s == INIT.(callers := s.callers) && |s.callers| == m
    ensures forall c :: 0 <= c < m ==> s.callers[c].pc.Waiting?
  {
    if m == 0 {
      s := INIT;
      assert Exec(Steps, s, []) == Some(s);
    } else {
      s := CallersRun(m - 1);
      s := ReachableStep(s, NewCaller(false));
    }
  }

  /** A caller that waits although the outcome is out and the context has not ended. */
  predicate Stranded(s: State, c: nat) {
    s.worker.Done? && !s.ctxDone && s.winner.Some? && c < |s.callers| && s.callers[c].pc.Waiting?
  }

  /** A caller can be stranded exactly when there is a second one: a lone caller always gets the outcome. */
  lemma StrandedIff(m: nat)
    ensures m >= 2 <==> exists s, c: nat :: Reachable(s) && |s.callers| == m && Stranded(s, c)
  {
    if m >= 2 {
      var s := CallersRun(m);
      s := ReachableStep(s, FnEnds(Recovered(0)));
      s := ReachableStep(s, Send);
      s := ReachableStep(s, TakeResult(0));
      assert Stranded(s, 1);
    }
    if s, c: nat :| Reachable(s) && |s.callers| == m && Stranded(s, c) {
      InvReachable(s);
      assert HasOutcome(s.callers[s.winner.value]);
    }
  }
}
