/** What the labels of a run of the timeout protocol say that the handler did, without looking at the states,
    and that the outcome is what they ask for. */
module TimeoutLabels {
  import opened Runs
  import opened TimeoutWriter
  import opened TimeoutProtocol

  /** The call that the handler took the mutex for last. */
  function LastCall(ls: seq<Label>): Option<Op> {
    if ls == [] then None
    else if ls[|ls| - 1].HLock? then Some(ls[|ls| - 1].op)
    else LastCall(ls[..|ls| - 1])
  }

  predicate Refused(op: Op) { op.WriteHeader? && !ValidCode(op.code) }

  /** The panic that the label at `i` raises: the handler's own, or that of WriteHeader with an invalid code. */
  function ThrownAt(ls: seq<Label>, i: nat): Option<PanicValue>
    requires i < |ls|
  {
    if ls[i].HPanic? then Some(HandlerPanic(ls[i].v))
    else
      var call := LastCall(ls[..i]);
      if ls[i].HBody? && call.Some? && Refused(call.value) then Some(InvalidCode(call.value.code)) else None
  }

  ghost predicate ThrowsAt(ls: seq<Label>, p: PanicValue) { exists i: nat :: i < |ls| && ThrownAt(ls, i) == Some(p) }

  ghost predicate Throws(ls: seq<Label>) { exists p :: ThrowsAt(ls, p) }

  /** The operations that took effect, in order. */
  function OpsOf(ls: seq<Label>): seq<Op> {
    if ls == [] then []
    else
      var before, l := ls[..|ls| - 1], ls[|ls| - 1];
      var call := LastCall(before);
      if l.HLocal? then OpsOf(before) + [l.op]
      else if l.HBody? && call.Some? && !Refused(call.value) then OpsOf(before) + [call.value]
      else OpsOf(before)
  }

  lemma LabelSnoc(ls: seq<Label>, l: Label)
    ensures LastCall(ls + [l]) == if l.HLock? then Some(l.op) else LastCall(ls)
    ensures var call := LastCall(ls);
            OpsOf(ls + [l]) == OpsOf(ls) + (if l.HLocal? then [l.op]
                                            else if l.HBody? && call.Some? && !Refused(call.value) then [call.value]
                                            else [])
    ensures ThrownAt(ls + [l], |ls|) ==
            if l.HPanic? then Some(HandlerPanic(l.v))
            else if l.HBody? && LastCall(ls).Some? && Refused(LastCall(ls).value) then Some(InvalidCode(LastCall(ls).value.code))
            else None
    ensures forall k :: k in ls + [l] <==> k in ls || k == l
  {
    assert (ls + [l])[..|ls|] == ls;
  }

  lemma ThrowsSnoc(ls: seq<Label>, l: Label, p: PanicValue)
    ensures ThrowsAt(ls + [l], p) <==> ThrowsAt(ls, p) || ThrownAt(ls + [l], |ls|) == Some(p)
  {
    var all := ls + [l];
    assert forall i: nat :: i < |ls| ==> all[..i] == ls[..i] && all[i] == ls[i];
    assert forall i: nat :: i < |ls| ==> ThrownAt(all, i) == ThrownAt(ls, i);
    if ThrowsAt(ls, p) {
      var i: nat :| i < |ls| && ThrownAt(ls, i) == Some(p);
      assert ThrownAt(all, i) == Some(p);
    }
  }

  /** `thrown` is the one panic in the labels, if there is one. */
  ghost predicate IsThrown(ls: seq<Label>, thrown: Option<PanicValue>) {
    forall p :: ThrowsAt(ls, p) <==> thrown == Some(p)
  }

  lemma IsThrownSnoc(ls: seq<Label>, l: Label, thrown: Option<PanicValue>)
    requires IsThrown(ls, thrown)
    ensures ThrownAt(ls + [l], |ls|).None? ==> IsThrown(ls + [l], thrown)
    ensures thrown.None? ==> IsThrown(ls + [l], ThrownAt(ls + [l], |ls|))
  {
    forall p
      ensures ThrowsAt(ls + [l], p) <==> ThrowsAt(ls, p) || ThrownAt(ls + [l], |ls|) == Some(p)
    {
      ThrowsSnoc(ls, l, p);
    }
  }

  predicate Gone(pc: HandlerPc) { pc.Sending? || pc.Closing? || pc.Exited? }

  /** What leaves the handler behind the middleware: a body left open goes before what was thrown. */
  ghost predicate LeavesWith(cfg: Config, ls: seq<Label>, p: Option<PanicValue>) {
    if cfg.monitored && OpenAfter(OpsOf(ls)) != {} then p == Some(OpenBodies(OpenAfter(OpsOf(ls)))) else IsThrown(ls, p)
  }

  ghost predicate CallsTold(s: State, ls: seq<Label>) {
    s.ops == OpsOf(ls) && (s.hpc.Calling? ==> LastCall(ls) == Some(s.hpc.op))
  }

  ghost predicate PanicTold(cfg: Config, s: State, ls: seq<Label>) {
    if s.hpc.Idle? || s.hpc.Calling? then IsThrown(ls, None)
    else if s.hpc.Unlocking? || s.hpc.Leaving? then IsThrown(ls, s.hpc.thrown)
    else LeavesWith(cfg, ls, s.thrown)
  }

  ghost predicate DeadlineTold(s: State, ls: seq<Label>) {
    (s.ctxDone <==> Deadline in ls) && (Via(s, OnDeadline) ==> s.ctxDone)
  }

  ghost predicate ReturnTold(s: State, ls: seq<Label>) {
    && (HReturn in ls ==> IsThrown(ls, None) && (s.hpc.Leaving? || Gone(s.hpc)))
    && (s.hpc == Leaving(None) || Gone(s.hpc) ==> HReturn in ls || !IsThrown(ls, None))
  }

  ghost predicate Told(cfg: Config, s: State, ls: seq<Label>) {
    HistoryInv(s) && CallsTold(s, ls) && PanicTold(cfg, s, ls) && DeadlineTold(s, ls) && ReturnTold(s, ls)
  }

  lemma CallsStep(cfg: Config, s: State, ls: seq<Label>, l: Label)
    requires CallsTold(s, ls) && Step(cfg, s, l).Some?
    ensures CallsTold(Step(cfg, s, l).value, ls + [l])
  {
    LabelSnoc(ls, l);
    if !IsHandlerLabel(l) {
      Frames(cfg, s, l);
    } else if !l.HLocal? && !l.HBody? {
      QuietHandler(cfg, s, l);
    }
  }

  /** Only two kinds of label raise a panic, both from a handler that has raised none. */
  lemma QuietLabel(cfg: Config, s: State, ls: seq<Label>, l: Label)
    requires CallsTold(s, ls) && Step(cfg, s, l).Some? && !l.HPanic? && !(l.HBody? && Refused(s.hpc.op))
    ensures ThrownAt(ls + [l], |ls|).None?
  {
    LabelSnoc(ls, l);
  }

  lemma RaisingStep(cfg: Config, s: State, ls: seq<Label>, l: Label)
    requires CallsTold(s, ls) && PanicTold(cfg, s, ls) && Step(cfg, s, l).Some?
    requires l.HPanic? || (l.HBody? && Refused(s.hpc.op))
    ensures PanicTold(cfg, Step(cfg, s, l).value, ls + [l])
  {
    LabelSnoc(ls, l);
    IsThrownSnoc(ls, l, None);
  }

  lemma QuietStep(cfg: Config, s: State, ls: seq<Label>, l: Label)
    requires HistoryInv(s) && CallsTold(s, ls) && PanicTold(cfg, s, ls) && Step(cfg, s, l).Some?
    requires !l.HPanic? && !(l.HBody? && Refused(s.hpc.op)) && !Gone(s.hpc)
    ensures PanicTold(cfg, Step(cfg, s, l).value, ls + [l])
  {
    QuietLabel(cfg, s, ls, l);
    LabelSnoc(ls, l);
    IsThrownSnoc(ls, l, if s.hpc.Unlocking? || s.hpc.Leaving? then s.hpc.thrown else None);
  }

  lemma GoneStep(cfg: Config, s: State, ls: seq<Label>, l: Label)
    requires CallsTold(s, ls) && PanicTold(cfg, s, ls) && Step(cfg, s, l).Some? && Gone(s.hpc)
    ensures PanicTold(cfg, Step(cfg, s, l).value, ls + [l]) && Gone(Step(cfg, s, l).value.hpc)
  {
    QuietLabel(cfg, s, ls, l);
    LabelSnoc(ls, l);
    assert Step(cfg, s, l).value.thrown == s.thrown && OpsOf(ls + [l]) == OpsOf(ls);
    if IsThrown(ls, s.thrown) { IsThrownSnoc(ls, l, s.thrown); }
  }

  lemma PanicStep(cfg: Config, s: State, ls: seq<Label>, l: Label)
    requires HistoryInv(s) && CallsTold(s, ls) && PanicTold(cfg, s, ls) && Step(cfg, s, l).Some?
    ensures PanicTold(cfg, Step(cfg, s, l).value, ls + [l])
  {
    if Gone(s.hpc) {
      GoneStep(cfg, s, ls, l);
    } else if l.HPanic? || (l.HBody? && Refused(s.hpc.op)) {
      RaisingStep(cfg, s, ls, l);
    } else {
      QuietStep(cfg, s, ls, l);
    }
  }

  lemma CalmSnoc(ls: seq<Label>, l: Label)
    ensures IsThrown(ls + [l], None) <==> IsThrown(ls, None) && ThrownAt(ls + [l], |ls|).None?
  {
    forall p
      ensures ThrowsAt(ls + [l], p) <==> ThrowsAt(ls, p) || ThrownAt(ls + [l], |ls|) == Some(p)
    {
      ThrowsSnoc(ls, l, p);
    }
    if ThrownAt(ls + [l], |ls|).Some? { assert ThrowsAt(ls + [l], ThrownAt(ls + [l], |ls|).value); }
  }

  lemma DeadlineStep(cfg: Config, s: State, ls: seq<Label>, l: Label)
    requires DeadlineTold(s, ls) && Step(cfg, s, l).Some?
    ensures DeadlineTold(Step(cfg, s, l).value, ls + [l])
  {
    if IsHandlerLabel(l) { Frames(cfg, s, l); }
  }

  lemma HandlerReturns(cfg: Config, s: State, ls: seq<Label>, l: Label)
    requires CallsTold(s, ls) && PanicTold(cfg, s, ls) && ReturnTold(s, ls) && HandlerStep(cfg, s, l).Some?
    ensures ReturnTold(HandlerStep(cfg, s, l).value, ls + [l])
  {
    assert IsHandlerLabel(l) && Step(cfg, s, l) == HandlerStep(cfg, s, l);
    LabelSnoc(ls, l);
    CalmSnoc(ls, l);
    if !l.HPanic? && !(l.HBody? && Refused(s.hpc.op)) { QuietLabel(cfg, s, ls, l); }
  }

  lemma ServerReturns(cfg: Config, s: State, ls: seq<Label>, l: Label)
    requires CallsTold(s, ls) && ReturnTold(s, ls) && ServerStep(cfg, s, l).Some?
    ensures ReturnTold(ServerStep(cfg, s, l).value, ls + [l])
  {
    assert !IsHandlerLabel(l) && Step(cfg, s, l) == ServerStep(cfg, s, l);
    Frames(cfg, s, l);
    LabelSnoc(ls, l);
    CalmSnoc(ls, l);
    QuietLabel(cfg, s, ls, l);
  }

  lemma ToldStep(cfg: Config, s: State, ls: seq<Label>, l: Label)
    requires Told(cfg, s, ls) && Step(cfg, s, l).Some?
    ensures Told(cfg, Step(cfg, s, l).value, ls + [l])
  {
    HistoryStep(cfg, s, l);
    CallsStep(cfg, s, ls, l);
    PanicStep(cfg, s, ls, l);
    DeadlineStep(cfg, s, ls, l);
    if IsHandlerLabel(l) { HandlerReturns(cfg, s, ls, l); } else { ServerReturns(cfg, s, ls, l); }
  }

  lemma ToldByRun(cfg: Config, ls: seq<Label>, s: State)
    requires Exec(Steps(cfg), Init(cfg), ls) == Some(s)
    ensures Told(cfg, s, ls)
  {
    var told := (s, ls) => Told(cfg, s, ls);
    forall s, ls, l | told(s, ls) && Steps(cfg)(s, l).Some?
      ensures told(Steps(cfg)(s, l).value, ls + [l])
    {
      ToldStep(cfg, s, ls, l);
    }
    ToldOnRuns(Steps(cfg), told, Init(cfg), [], ls);
    assert [] + ls == ls;
  }

  /** The outcome is the one that the labels of the run ask for. A handler that panics, by itself or by an
      invalid status code, is never published: its panic, or behind the monitor the list of bodies left open,
      is what leaves it and what the server goroutine passes on. A published reply is the one that the
      operations in the labels ask for, from a handler that returned. The timeout reply needs a deadline. */
  lemma OutcomeFollowsLabels(cfg: Config, ls: seq<Label>, s: State)
    requires Exec(Steps(cfg), Init(cfg), ls) == Some(s)
    ensures s.ops == OpsOf(ls) && s.open == OpenAfter(OpsOf(ls))
    ensures s.hpc.Exited? ==> LeavesWith(cfg, ls, s.thrown)
    ensures s.hpc.Exited? ==> (s.thrown.None? <==> !Throws(ls) && !(cfg.monitored && s.open != {}))
    ensures Throws(ls) ==> s.spc != Finished(OnDone)
    ensures s.spc == Finished(OnDone) ==> HReturn in ls && LeavesWith(cfg, ls, None) && IsReply(s.wire, cfg.base, OpsOf(ls))
    ensures s.spc.Repanicked? ==> LeavesWith(cfg, ls, Some(s.spc.p))
    ensures s.spc == Finished(OnDeadline) ==> Deadline in ls
  {
    ToldByRun(cfg, ls, s);
    assert Reachable(cfg, s);
    InvReachable(cfg, s);
    ExactlyOneOutcome(cfg, s);
    if s.hpc.Exited? && s.thrown.Some? && IsThrown(ls, s.thrown) { assert ThrowsAt(ls, s.thrown.value); }
  }

  /** In particular for each panicking label of a run. */
  lemma PanicIsPassedOn(cfg: Config, ls: seq<Label>, s: State, i: nat)
    requires Exec(Steps(cfg), Init(cfg), ls) == Some(s) && i < |ls| && ThrownAt(ls, i).Some?
    ensures s.spc != Finished(OnDone)
    ensures s.hpc.Exited? ==> s.thrown == if cfg.monitored && s.open != {} then Some(OpenBodies(s.open)) else ThrownAt(ls, i)
  {
    OutcomeFollowsLabels(cfg, ls, s);
    assert ThrowsAt(ls, ThrownAt(ls, i).value);
  }
}
