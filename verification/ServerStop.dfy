/** multiStoppableServer.Stop and GracefulStop, which differ only in the sub-server call they make: one
    goroutine per sub-server, a WaitGroup, and an error channel with room for every sub-server. */
module ServerStop {
  import opened Runs

  type Err = nat

  datatype Pc =
    | NotSpawned
    | Stopping                        // inside the sub-server's own Stop
    | Failed(err: Err)                // about to send its error
    | Leaving(sent: Option<Err>)      // the deferred wg.Done still to run
    | Finished(sent: Option<Err>)

  datatype Main = Spawning | Waiting | Draining | Returned(result: Option<seq<Err>>)

  datatype State = State(pcs: seq<Pc>, spawned: nat, wg: nat, queue: seq<Err>, errs: seq<Err>, main: Main)

  datatype Label = Spawn | EndLoop | StopReturns(i: nat, err: Option<Err>) | Send(i: nat) | WgDone(i: nat) | Wait | Drain | Return

  function Init(n: nat): State { State(seq(n, _ => NotSpawned), 0, 0, [], [], Spawning) }

  function Step(s: State, l: Label): Option<State> {
    match l
    case Spawn =>
      if s.main.Spawning? && s.spawned < |s.pcs| then
        Some(s.(pcs := s.pcs[s.spawned := Stopping], spawned := s.spawned + 1, wg := s.wg + 1))
      else None
    case EndLoop => if s.main.Spawning? && s.spawned >= |s.pcs| then Some(s.(main := Waiting)) else None
    case StopReturns(i, err) =>
      if i < |s.pcs| && s.pcs[i].Stopping? then
        Some(s.(pcs := s.pcs[i := if err.Some? then Failed(err.value) else Leaving(None)]))
      else None
    case Send(i) =>
      if i < |s.pcs| && s.pcs[i].Failed? && |s.queue| < |s.pcs| then
        Some(s.(pcs := s.pcs[i := Leaving(Some(s.pcs[i].err))], queue := s.queue + [s.pcs[i].err]))
      else None
    case WgDone(i) =>
      if i < |s.pcs| && s.pcs[i].Leaving? && s.wg > 0 then
        Some(s.(pcs := s.pcs[i := Finished(s.pcs[i].sent)], wg := s.wg - 1))
      else None
    case Wait => if s.main.Waiting? && s.wg == 0 then Some(s.(main := Draining)) else None
    case Drain =>
      if s.main.Draining? && s.queue != [] then Some(s.(errs := s.errs + [s.queue[0]], queue := s.queue[1..])) else None
    case Return =>
      if s.main.Draining? && s.queue == [] then
        Some(s.(main := Returned(if |s.errs| > 0 then Some(s.errs) else None)))
      else None
  }

  const Steps: (State, Label) -> Option<State> := (s, l) => Step(s, l)

  ghost predicate Reachable(n: nat, s: State) { exists ls :: Exec(Steps, Init(n), ls) == Some(s) }

  /** The error that a goroutine has sent. */
  const SentBy: Pc -> Option<Err> := (pc: Pc) => if pc.Leaving? || pc.Finished? then pc.sent else None

  /** The error that a goroutine has sent or is about to send. */
  const HeldBy: Pc -> Option<Err> := (pc: Pc) => if pc.Failed? then Some(pc.err) else SentBy(pc)

  function One(e: Option<Err>): multiset<Err> { if e.Some? then multiset{e.value} else multiset{} }

  function Errs(pcs: seq<Pc>, of: Pc -> Option<Err>): multiset<Err> {
    if pcs == [] then multiset{} else One(of(pcs[0])) + Errs(pcs[1..], of)
  }

  function SentErrs(pcs: seq<Pc>): multiset<Err> { Errs(pcs, SentBy) }

  predicate InGroup(pc: Pc) { pc.Stopping? || pc.Failed? || pc.Leaving? }

  function Group(pcs: seq<Pc>): nat {
    if pcs == [] then 0 else (if InGroup(pcs[0]) then 1 else 0) + Group(pcs[1..])
  }

  function Work(pc: Pc): nat {
    match pc case NotSpawned => 5 case Stopping => 4 case Failed(_) => 3 case Leaving(_) => 1 case Finished(_) => 0
  }

  function TotalWork(pcs: seq<Pc>): nat { if pcs == [] then 0 else Work(pcs[0]) + TotalWork(pcs[1..]) }

  function Rank(s: State): nat {
    TotalWork(s.pcs) + |s.queue| +
    (match s.main case Spawning => 3 case Waiting => 2 case Draining => 1 case Returned(_) => 0)
  }

  lemma {:induction false} UpdateOne(pcs: seq<Pc>, i: nat, pc: Pc)
    requires i < |pcs|
    ensures Group(pcs[i := pc]) + (if InGroup(pcs[i]) then 1 else 0) == Group(pcs) + (if InGroup(pc) then 1 else 0)
    ensures TotalWork(pcs[i := pc]) + Work(pcs[i]) == TotalWork(pcs) + Work(pc)
  {
    if i == 0 {
      assert pcs[0 := pc][1..] == pcs[1..];
    } else {
      assert pcs[i := pc][1..] == pcs[1..][i - 1 := pc];
      UpdateOne(pcs[1..], i - 1, pc);
    }
  }

  lemma SumAssoc(a: multiset<Err>, b: multiset<Err>, c: multiset<Err>)
    ensures a + (b + c) == (a + b) + c
  {
  }

  /** A goroutine that had no error yet adds the one it has now. */
  lemma {:induction false} UpdateErrs(pcs: seq<Pc>, of: Pc -> Option<Err>, i: nat, pc: Pc)
    requires i < |pcs| && (of(pcs[i]).None? || of(pcs[i]) == of(pc))
    ensures Errs(pcs[i := pc], of) == if of(pcs[i]) == of(pc) then Errs(pcs, of) else Errs(pcs, of) + One(of(pc))
  {
    var pcs' := pcs[i := pc];
    if i == 0 {
      assert pcs'[1..] == pcs[1..];
      assert Errs(pcs', of) == One(of(pc)) + Errs(pcs[1..], of);
    } else {
      assert pcs'[1..] == pcs[1..][i - 1 := pc] && pcs'[0] == pcs[0];
      UpdateErrs(pcs[1..], of, i - 1, pc);
      SumAssoc(One(of(pcs[0])), Errs(pcs[1..], of), One(of(pc)));
      assert Errs(pcs', of) == One(of(pcs[0])) + Errs(pcs'[1..], of);
    }
  }

  lemma {:induction false} NoErrs(pcs: seq<Pc>, of: Pc -> Option<Err>)
    ensures Errs(pcs, of) == multiset{} <==> forall i :: 0 <= i < |pcs| ==> of(pcs[i]).None?
  {
    if pcs != [] {
      NoErrs(pcs[1..], of);
      assert |Errs(pcs, of)| == |One(of(pcs[0]))| + |Errs(pcs[1..], of)|;
      assert forall i :: 0 < i < |pcs| ==> pcs[i] == pcs[1..][i - 1];
      assert forall i :: 0 <= i < |pcs[1..]| ==> pcs[1..][i] == pcs[i + 1];
    }
  }

  lemma {:induction false} SameErrs(pcs: seq<Pc>)
    requires forall i :: 0 <= i < |pcs| ==> !pcs[i].Failed?
    ensures Errs(pcs, HeldBy) == SentErrs(pcs)
  {
    if pcs != [] {
      assert forall i :: 0 <= i < |pcs[1..]| ==> pcs[1..][i] == pcs[i + 1];
      SameErrs(pcs[1..]);
    }
  }

  lemma {:induction false} Fresh(n: nat)
    ensures var pcs := seq(n, _ => NotSpawned); Group(pcs) == 0 && TotalWork(pcs) == 5 * n
  {
    var pcs := seq(n, _ => NotSpawned);
    if n > 0 {
      assert pcs[1..] == seq(n - 1, _ => NotSpawned);
      Fresh(n - 1);
    }
  }

  lemma FreshErrs(n: nat)
    ensures var pcs := seq(n, _ => NotSpawned); SentErrs(pcs) == multiset{} && Errs(pcs, HeldBy) == multiset{}
  {
    var pcs := seq(n, _ => NotSpawned);
    NoErrs(pcs, SentBy);
    NoErrs(pcs, HeldBy);
  }

  /** The channel has room for whoever has yet to send. */
  lemma {:induction false} Room(pcs: seq<Pc>)
    ensures |SentErrs(pcs)| <= |pcs|
    ensures (exists i :: 0 <= i < |pcs| && SentBy(pcs[i]).None?) ==> |SentErrs(pcs)| < |pcs|
  {
    if pcs != [] {
      Room(pcs[1..]);
      if i :| 0 <= i < |pcs| && SentBy(pcs[i]).None? && i > 0 { assert pcs[1..][i - 1] == pcs[i]; }
    }
  }

  lemma {:induction false} GroupMember(pcs: seq<Pc>, i: nat)
    requires i < |pcs| && InGroup(pcs[i])
    ensures Group(pcs) > 0
  {
    if i > 0 { GroupMember(pcs[1..], i - 1); }
  }

  ghost predicate CountInv(s: State) {
    s.wg == Group(s.pcs) && Conserved(s)
  }

  ghost predicate PhaseInv(n: nat, s: State) {
    && |s.pcs| == n && s.spawned <= n
    && (forall i :: 0 <= i < n ==> (s.pcs[i].NotSpawned? <==> s.spawned <= i))
    && (!s.main.Spawning? ==> s.spawned == n)
    && (s.main.Spawning? || s.main.Waiting? ==> s.errs == [])
    && (s.main.Draining? || s.main.Returned? ==> forall i :: 0 <= i < n ==> s.pcs[i].Finished?)
    && (s.main.Returned? ==> s.queue == [] && s.main.result == if |s.errs| > 0 then Some(s.errs) else None)
  }

  ghost predicate Inv(n: nat, s: State) { PhaseInv(n, s) && CountInv(s) }

  /** The sub-server whose goroutine a label moves. */
  function Mover(s: State, l: Label): Option<nat> {
    match l
    case Spawn => Some(s.spawned)
    case StopReturns(i, _) => Some(i)
    case Send(i) => Some(i)
    case WgDone(i) => Some(i)
    case _ => None
  }

  lemma GroupStep(n: nat, s: State, l: Label)
    requires PhaseInv(n, s) && s.wg == Group(s.pcs) && Step(s, l).Some?
    ensures Step(s, l).value.wg == Group(Step(s, l).value.pcs)
  {
    var t := Step(s, l).value;
    if Mover(s, l).Some? {
      var i := Mover(s, l).value;
      UpdateOne(s.pcs, i, t.pcs[i]);
    }
  }

  ghost predicate Conserved(s: State) { multiset(s.errs) + multiset(s.queue) == SentErrs(s.pcs) }

  lemma SendConserves(s: State, i: nat)
    requires Conserved(s) && Step(s, Send(i)).Some?
    ensures Conserved(Step(s, Send(i)).value)
  {
    var t := Step(s, Send(i)).value;
    UpdateErrs(s.pcs, SentBy, i, t.pcs[i]);
    SumAssoc(multiset(s.errs), multiset(s.queue), multiset{s.pcs[i].err});
    assert multiset(t.queue) == multiset(s.queue) + multiset{s.pcs[i].err};
  }

  lemma DrainConserves(s: State)
    requires Conserved(s) && Step(s, Drain).Some?
    ensures Conserved(Step(s, Drain).value)
  {
    var t := Step(s, Drain).value;
    assert s.queue == [s.queue[0]] + t.queue;
    SumAssoc(multiset(s.errs), multiset{s.queue[0]}, multiset(t.queue));
  }

  lemma SilentConserves(s: State, i: nat, t: State)
    requires Conserved(s) && i < |s.pcs| == |t.pcs| && t.pcs == s.pcs[i := t.pcs[i]]
    requires SentBy(t.pcs[i]) == SentBy(s.pcs[i]) && t.errs == s.errs && t.queue == s.queue
    ensures Conserved(t)
  {
    UpdateErrs(s.pcs, SentBy, i, t.pcs[i]);
  }

  lemma CountStep(n: nat, s: State, l: Label)
    requires Inv(n, s) && Step(s, l).Some?
    ensures CountInv(Step(s, l).value)
  {
    var t := Step(s, l).value;
    GroupStep(n, s, l);
    if l.Send? {
      SendConserves(s, l.i);
    } else if l.Drain? {
      DrainConserves(s);
    } else if Mover(s, l).Some? {
      SilentConserves(s, Mover(s, l).value, t);
    } else {
      assert t.pcs == s.pcs && t.errs == s.errs && t.queue == s.queue;
    }
  }

  lemma RankStep(n: nat, s: State, l: Label)
    requires PhaseInv(n, s) && Step(s, l).Some?
    ensures Rank(Step(s, l).value) < Rank(s)
  {
    var t := Step(s, l).value;
    if Mover(s, l).Some? {
      var i := Mover(s, l).value;
      UpdateOne(s.pcs, i, t.pcs[i]);
    }
  }

  lemma AllFinished(n: nat, s: State)
    requires Inv(n, s) && s.main.Waiting? && s.wg == 0
    ensures forall i :: 0 <= i < n ==> s.pcs[i].Finished?
  {
    forall i | 0 <= i < n
      ensures s.pcs[i].Finished?
    {
      if InGroup(s.pcs[i]) { GroupMember(s.pcs, i); }
    }
  }

  lemma SpawnPhase(n: nat, s: State)
    requires PhaseInv(n, s) && Step(s, Spawn).Some?
    ensures PhaseInv(n, Step(s, Spawn).value)
  {
  }

  /** A goroutine that moves on its own is spawned and not finished, so nothing is collected yet. */
  lemma MoverPhase(n: nat, s: State, l: Label)
    requires PhaseInv(n, s) && Step(s, l).Some? && (l.StopReturns? || l.Send? || l.WgDone?)
    ensures PhaseInv(n, Step(s, l).value)
  {
    var t := Step(s, l).value;
    assert !s.pcs[l.i].Finished? && !s.pcs[l.i].NotSpawned? && t.pcs == s.pcs[l.i := t.pcs[l.i]];
  }

  lemma MainPhase(n: nat, s: State, l: Label)
    requires Inv(n, s) && Step(s, l).Some? && (l.EndLoop? || l.Wait? || l.Drain? || l.Return?)
    ensures PhaseInv(n, Step(s, l).value)
  {
    if l.Wait? { AllFinished(n, s); }
  }

  lemma PhaseStep(n: nat, s: State, l: Label)
    requires Inv(n, s) && Step(s, l).Some?
    ensures PhaseInv(n, Step(s, l).value)
  {
    if l.Spawn? {
      SpawnPhase(n, s);
    } else if Mover(s, l).Some? {
      MoverPhase(n, s, l);
    } else {
      MainPhase(n, s, l);
    }
  }

  lemma InvReachable(n: nat, s: State)
    requires Reachable(n, s)
    ensures Inv(n, s)
  {
    var ls :| Exec(Steps, Init(n), ls) == Some(s);
    Fresh(n);
    FreshErrs(n);
    InvPreserved(n);
    InvariantOnRuns(Steps, s => Inv(n, s), Init(n), ls);
  }

  lemma InvPreserved(n: nat)
    ensures Preserved(Steps, s => Inv(n, s))
  {
    forall s, l | Inv(n, s) && Steps(s, l).Some?
      ensures Inv(n, Steps(s, l).value)
    {
      CountStep(n, s, l);
      PhaseStep(n, s, l);
    }
  }

  /** Under every schedule no send blocks. */
  lemma SendNeverBlocks(n: nat, s: State, i: nat)
    requires Reachable(n, s) && i < |s.pcs| && s.pcs[i].Failed?
    ensures Step(s, Send(i)).Some?
  {
    InvReachable(n, s);
    Room(s.pcs);
    assert SentBy(s.pcs[i]).None?;
    assert |multiset(s.errs) + multiset(s.queue)| == |s.errs| + |s.queue|;
  }

  /** Whatever the schedule, Stop is never stuck before it has returned, and a sub-server that is stopping may
      answer anything ... */
  lemma NeverStuck(n: nat, s: State)
    requires Reachable(n, s) && !s.main.Returned?
    ensures exists l :: Step(s, l).Some?
    ensures forall i: nat, err :: i < |s.pcs| && s.pcs[i].Stopping? ==> Step(s, StopReturns(i, err)).Some?
  {
    InvReachable(n, s);
    var l;
    match s.main {
    case Spawning => l := if s.spawned < n then Spawn else EndLoop;
    case Draining => l := if s.queue != [] then Drain else Return;
    case Waiting =>
      if i: nat :| i < n && InGroup(s.pcs[i]) {
        GroupMember(s.pcs, i);
        if s.pcs[i].Failed? { SendNeverBlocks(n, s, i); }
        l := if s.pcs[i].Stopping? then StopReturns(i, None) else if s.pcs[i].Failed? then Send(i) else WgDone(i);
      } else {
        GroupEmpty(s.pcs);
        l := Wait;
      }
    }
    assert Step(s, l).Some?;
  }

  lemma {:induction false} GroupEmpty(pcs: seq<Pc>)
    requires forall i: nat :: i < |pcs| ==> !InGroup(pcs[i])
    ensures Group(pcs) == 0
  {
    if pcs != [] {
      assert forall i: nat :: i < |pcs[1..]| ==> pcs[1..][i] == pcs[i + 1];
      GroupEmpty(pcs[1..]);
    }
  }

  /** ... and every schedule is finite, so it does return. */
  lemma {:induction false} RunsAreFinite(n: nat, s: State, ls: seq<Label>)
    requires Inv(n, s) && Exec(Steps, s, ls).Some?
    ensures |ls| <= Rank(s)
    decreases |ls|
  {
    if ls != [] {
      CountStep(n, s, ls[0]);
      PhaseStep(n, s, ls[0]);
      RankStep(n, s, ls[0]);
      RunsAreFinite(n, Step(s, ls[0]).value, ls[1..]);
    }
  }

  lemma StopTakesAtMost(n: nat, ls: seq<Label>)
    requires Exec(Steps, Init(n), ls).Some?
    ensures |ls| <= 5 * n + 3
  {
    Fresh(n);
    FreshErrs(n);
    RunsAreFinite(n, Init(n), ls);
  }

  // What the labels of a run say that the sub-servers answered.

  /** The answers of sub-server `i`, in order. */
  function Answers(ls: seq<Label>, i: nat): seq<Option<Err>> {
    if ls == [] then []
    else
      var l := ls[|ls| - 1];
      Answers(ls[..|ls| - 1], i) + (if l.StopReturns? && l.i == i then [l.err] else [])
  }

  /** All the errors among the answers. */
  function ErrorsIn(ls: seq<Label>): multiset<Err> {
    if ls == [] then multiset{}
    else
      var l := ls[|ls| - 1];
      ErrorsIn(ls[..|ls| - 1]) + (if l.StopReturns? then One(l.err) else multiset{})
  }

  lemma LabelSnoc(ls: seq<Label>, l: Label, i: nat)
    ensures Answers(ls + [l], i) == Answers(ls, i) + (if l.StopReturns? && l.i == i then [l.err] else [])
    ensures ErrorsIn(ls + [l]) == ErrorsIn(ls) + (if l.StopReturns? then One(l.err) else multiset{})
  {
    assert (ls + [l])[..|ls|] == ls;
  }

  /** Each goroutine holds the one answer of its sub-server, as soon as there is one. */
  ghost predicate AnswerTold(pc: Pc, answers: seq<Option<Err>>) {
    answers == if pc.NotSpawned? || pc.Stopping? then [] else [HeldBy(pc)]
  }

  ghost predicate Spawned(s: State) {
    forall i: nat :: i < |s.pcs| ==> (s.pcs[i].NotSpawned? <==> s.spawned <= i)
  }

  ghost predicate AnswersTold(n: nat, s: State, ls: seq<Label>) {
    && |s.pcs| == n && Spawned(s)
    && (forall i: nat :: i < n ==> AnswerTold(s.pcs[i], Answers(ls, i)))
    && (forall i: nat :: i >= n ==> Answers(ls, i) == [])
  }

  ghost predicate ErrorsTold(s: State, ls: seq<Label>) { Spawned(s) && ErrorsIn(ls) == Errs(s.pcs, HeldBy) }

  lemma SpawnedStep(s: State, l: Label)
    requires Spawned(s) && Step(s, l).Some?
    ensures Spawned(Step(s, l).value)
  {
  }

  /** The answer is kept while the goroutine sends and leaves, ... */
  lemma KeptAnswer(s: State, l: Label, i: nat, answers: seq<Option<Err>>)
    requires Spawned(s) && Step(s, l).Some? && i < |s.pcs| && AnswerTold(s.pcs[i], answers)
    requires !(l.StopReturns? && l.i == i)
    ensures |Step(s, l).value.pcs| == |s.pcs| && AnswerTold(Step(s, l).value.pcs[i], answers)
  {
  }

  /** ... and taken when the sub-server gives it. */
  lemma GivenAnswer(s: State, i: nat, err: Option<Err>, answers: seq<Option<Err>>)
    requires Step(s, StopReturns(i, err)).Some? && i < |s.pcs| && AnswerTold(s.pcs[i], answers)
    ensures var t := Step(s, StopReturns(i, err)).value; |t.pcs| == |s.pcs| && AnswerTold(t.pcs[i], answers + [err])
  {
  }

  lemma AnswerStep(s: State, ls: seq<Label>, l: Label, i: nat)
    requires Spawned(s) && Step(s, l).Some? && i < |s.pcs| && AnswerTold(s.pcs[i], Answers(ls, i))
    ensures |Step(s, l).value.pcs| == |s.pcs| && AnswerTold(Step(s, l).value.pcs[i], Answers(ls + [l], i))
  {
    LabelSnoc(ls, l, i);
    if l.StopReturns? && l.i == i {
      GivenAnswer(s, i, l.err, Answers(ls, i));
    } else {
      assert Answers(ls, i) + [] == Answers(ls, i);
      KeptAnswer(s, l, i, Answers(ls, i));
    }
  }

  lemma AnswersStep(n: nat, s: State, ls: seq<Label>, l: Label)
    requires AnswersTold(n, s, ls) && Step(s, l).Some?
    ensures AnswersTold(n, Step(s, l).value, ls + [l])
  {
    var t := Step(s, l).value;
    SpawnedStep(s, l);
    assert |t.pcs| == n;
    forall i: nat | i < n
      ensures AnswerTold(t.pcs[i], Answers(ls + [l], i))
    {
      AnswerStep(s, ls, l, i);
    }
    forall i: nat | i >= n
      ensures Answers(ls + [l], i) == []
    {
      LabelSnoc(ls, l, i);
    }
  }

  /** A goroutine comes to hold an error only when its sub-server returns it. */
  lemma HeldStep(s: State, l: Label, i: nat)
    requires Spawned(s) && Step(s, l).Some? && Mover(s, l) == Some(i)
    ensures var t := Step(s, l).value;
            && i < |s.pcs| && t.pcs == s.pcs[i := t.pcs[i]]
            && (if l.StopReturns? then HeldBy(s.pcs[i]).None? && HeldBy(t.pcs[i]) == l.err
                else HeldBy(t.pcs[i]) == HeldBy(s.pcs[i]))
  {
  }

  lemma NoError(a: multiset<Err>)
    ensures a + One(None) == a
  {
  }

  lemma ErrorsStep(s: State, ls: seq<Label>, l: Label)
    requires ErrorsTold(s, ls) && Step(s, l).Some?
    ensures ErrorsTold(Step(s, l).value, ls + [l])
  {
    var t := Step(s, l).value;
    SpawnedStep(s, l);
    LabelSnoc(ls, l, 0);
    NoError(ErrorsIn(ls));
    if Mover(s, l).Some? {
      var i := Mover(s, l).value;
      HeldStep(s, l, i);
      UpdateErrs(s.pcs, HeldBy, i, t.pcs[i]);
    } else {
      assert t.pcs == s.pcs;
    }
  }

  lemma AnswersByRun(n: nat, ls: seq<Label>, s: State)
    requires Exec(Steps, Init(n), ls) == Some(s)
    ensures AnswersTold(n, s, ls)
  {
    var told := (s, ls) => AnswersTold(n, s, ls);
    forall s, ls, l | told(s, ls) && Steps(s, l).Some?
      ensures told(Steps(s, l).value, ls + [l])
    {
      AnswersStep(n, s, ls, l);
    }
    ToldOnRuns(Steps, told, Init(n), [], ls);
    assert [] + ls == ls;
  }

  lemma ErrorsByRun(n: nat, ls: seq<Label>, s: State)
    requires Exec(Steps, Init(n), ls) == Some(s)
    ensures ErrorsTold(s, ls)
  {
    FreshErrs(n);
    var told := (s, ls) => ErrorsTold(s, ls);
    forall s, ls, l | told(s, ls) && Steps(s, l).Some?
      ensures told(Steps(s, l).value, ls + [l])
    {
      ErrorsStep(s, ls, l);
    }
    ToldOnRuns(Steps, told, Init(n), [], ls);
    assert [] + ls == ls;
  }

  /** What Stop has collected when it returns is what its goroutines held. */
  lemma CollectsTheErrors(n: nat, s: State)
    requires Reachable(n, s) && s.main.Returned?
    ensures |s.pcs| == n && forall i :: 0 <= i < n ==> s.pcs[i].Finished?
    ensures s.main.result.None? <==> Errs(s.pcs, HeldBy) == multiset{}
    ensures s.main.result.Some? ==> s.main.result.value != [] && multiset(s.main.result.value) == Errs(s.pcs, HeldBy)
  {
    InvReachable(n, s);
    SameErrs(s.pcs);
    assert multiset(s.errs) == SentErrs(s.pcs);
    assert s.errs != [] ==> s.errs[0] in multiset(s.errs);
  }

  predicate AnsweredOnce(ls: seq<Label>, i: nat) { |Answers(ls, i)| == 1 }

  predicate AnsweredNil(ls: seq<Label>, i: nat) { Answers(ls, i) == [None] }

  predicate NeverAsked(ls: seq<Label>, i: nat) { Answers(ls, i) == [] }

  lemma FinalAnswer(n: nat, ls: seq<Label>, s: State, i: nat)
    requires AnswersTold(n, s, ls)
    ensures i < n && s.pcs[i].Finished? ==> AnsweredOnce(ls, i) && (AnsweredNil(ls, i) <==> HeldBy(s.pcs[i]).None?)
    ensures i >= n ==> NeverAsked(ls, i)
  {
    if i < n && s.pcs[i].Finished? {
      assert AnswerTold(s.pcs[i], Answers(ls, i));
      assert Answers(ls, i) == [HeldBy(s.pcs[i])];
    }
  }

  /** When Stop has returned, the Stop call of every sub-server has returned exactly once; the result is nil
      iff all of them returned nil, and otherwise lists exactly their errors, each as often as it was returned. */
  lemma ReportsExactlyTheErrors(n: nat, ls: seq<Label>, s: State)
    requires Exec(Steps, Init(n), ls) == Some(s) && s.main.Returned?
    ensures forall i: nat :: if i < n then AnsweredOnce(ls, i) else NeverAsked(ls, i)
    ensures s.main.result.None? <==> forall i: nat :: i < n ==> AnsweredNil(ls, i)
    ensures s.main.result.Some? ==> s.main.result.value != [] && multiset(s.main.result.value) == ErrorsIn(ls)
  {
    AnswersByRun(n, ls, s);
    ErrorsByRun(n, ls, s);
    CollectsTheErrors(n, s) by { assert Reachable(n, s); }
    NoErrs(s.pcs, HeldBy);
    forall i: nat
      ensures if i < n then AnsweredOnce(ls, i) && (AnsweredNil(ls, i) <==> HeldBy(s.pcs[i]).None?) else NeverAsked(ls, i)
    {
      FinalAnswer(n, ls, s, i);
    }
  }
}
