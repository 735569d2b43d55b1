/** The mutex of autogenServer around its multiServer field, and the one look at that field that Start takes
    without it. The field is a Go interface value, two words that are written one after the other. */
module AutogenServer {
  import opened Runs

  /** The address of a multiStoppableServer; every installation makes a new one. */
  type ServerList = nat

  datatype Op = Install(list: ServerList) | Stop(graceful: bool)

  datatype Pc =
    | Idle
    | Locked(op: Op)
    | HalfInstalled(list: ServerList)
    | Installed(at: nat)
    | Running(graceful: bool, saw: Option<ServerList>)    // inside the sub-server's Stop, or with nothing to stop
    | AfterInstall(at: nat)                               // the mutex is given back, the field not yet looked at
    | Serving(at: nat, last: nat, runs: ServerList)       // Start has read the field and runs what it saw

  /** `made` are the lists made so far, `installed` those whose address was written to the field, in order. */
  datatype State = State(
    pcs: seq<Pc>, lock: Option<nat>, typeWord: bool, dataWord: ServerList,
    made: set<ServerList>, installed: seq<ServerList>)

  datatype Label =
    | Acquire(c: nat, op: Op) | WriteType(c: nat) | WriteData(c: nat) | Look(c: nat) | Release(c: nat)
    | ReadUnlocked(c: nat) | Return(c: nat)

  function Init(n: nat): State { State(seq(n, _ => Idle), None, false, 0, {}, []) }

  function Goto(s: State, c: nat, pc: Pc): State
    requires c < |s.pcs|
  {
    s.(pcs := s.pcs[c := pc])
  }

  function Step(s: State, l: Label): Option<State> {
    if l.c >= |s.pcs| then None
    else
      var c, pc := l.c, s.pcs[l.c];
      match l
      case Acquire(_, op) =>
        if pc.Idle? && s.lock.None? && (op.Install? ==> op.list !in s.made) then
          Some(Goto(s, c, Locked(op)).(lock := Some(c), made := if op.Install? then s.made + {op.list} else s.made))
        else None
      case WriteType(_) =>
        if pc.Locked? && pc.op.Install? then Some(Goto(s, c, HalfInstalled(pc.op.list)).(typeWord := true)) else None
      case WriteData(_) =>
        if pc.HalfInstalled? then
          Some(Goto(s, c, Installed(|s.installed|)).(dataWord := pc.list, installed := s.installed + [pc.list]))
        else None
      case Look(_) =>
        if pc.Locked? && pc.op.Stop? then
          Some(Goto(s, c, Running(pc.op.graceful, if s.typeWord then Some(s.dataWord) else None)))
        else None
      case Release(_) =>
        if pc.Installed? then Some(Goto(s, c, AfterInstall(pc.at)).(lock := None))
        else if pc.Running? then Some(Goto(s, c, Idle).(lock := None))
        else None
      case ReadUnlocked(_) =>
        if pc.AfterInstall? && s.typeWord then Some(Goto(s, c, Serving(pc.at, |s.installed|, s.dataWord))) else None
      case Return(_) => if pc.Serving? then Some(Goto(s, c, Idle)) else None
  }

  const Steps: (State, Label) -> Option<State> := (s, l) => Step(s, l)

  ghost predicate Reachable(n: nat, s: State) { exists ls :: Exec(Steps, Init(n), ls) == Some(s) }

  function Current(installed: seq<ServerList>): Option<ServerList> {
    if installed == [] then None else Some(installed[|installed| - 1])
  }

  predicate Inside(pc: Pc) { pc.Locked? || pc.HalfInstalled? || pc.Installed? || pc.Running? }

  ghost predicate LockInv(n: nat, s: State) {
    && |s.pcs| == n
    && (forall c: nat :: c < n ==> (s.lock == Some(c) <==> Inside(s.pcs[c])))
    && (s.lock.Some? ==> s.lock.value < n)
  }

  /** The list that the holder of the mutex is about to install. */
  predicate Pending(pc: Pc, list: ServerList) { pc == Locked(Install(list)) || pc == HalfInstalled(list) }

  ghost predicate FieldInv(s: State) {
    && (s.installed != [] ==> s.typeWord && Some(s.dataWord) == Current(s.installed))
    && (s.installed == [] && s.typeWord ==> exists c: nat :: c < |s.pcs| && s.pcs[c].HalfInstalled?)
    && (forall i :: 0 <= i < |s.installed| ==> s.installed[i] in s.made)
    && (forall i, j :: 0 <= i < j < |s.installed| ==> s.installed[i] != s.installed[j])
  }

  /** What a caller knows about the field from where it is. */
  ghost predicate CallerInv(s: State, pc: Pc) {
    && (pc.Installed? || pc.AfterInstall? || pc.Serving? ==> pc.at < |s.installed|)
    && (pc.HalfInstalled? ==> s.typeWord)
    && (forall list :: Pending(pc, list) ==> list in s.made && list !in s.installed)
    && (pc.Running? ==> pc.saw == Current(s.installed))
    && (pc.Serving? ==> pc.at < pc.last <= |s.installed| && pc.runs == s.installed[pc.last - 1])
  }

  ghost predicate Inv(n: nat, s: State) {
    && LockInv(n, s) && FieldInv(s)
    && (forall c: nat :: c < |s.pcs| ==> CallerInv(s, s.pcs[c]))
  }

  lemma LockStep(n: nat, s: State, l: Label)
    requires LockInv(n, s) && Step(s, l).Some?
    ensures LockInv(n, Step(s, l).value)
  {
  }

  lemma FieldStep(n: nat, s: State, l: Label)
    requires Inv(n, s) && Step(s, l).Some?
    ensures FieldInv(Step(s, l).value)
  {
    var t := Step(s, l).value;
    assert CallerInv(s, s.pcs[l.c]);
    if l.WriteData? {
      assert Pending(s.pcs[l.c], s.pcs[l.c].list);
    } else if l.WriteType? {
      assert t.pcs[l.c].HalfInstalled?;
    }
  }

  lemma MovingCaller(n: nat, s: State, l: Label)
    requires Inv(n, s) && Step(s, l).Some?
    ensures CallerInv(Step(s, l).value, Step(s, l).value.pcs[l.c])
  {
    assert CallerInv(s, s.pcs[l.c]);
    if l.Look? { assert forall d: nat :: d < n && d != l.c ==> !Inside(s.pcs[d]); }
  }

  lemma OtherCaller(n: nat, s: State, l: Label, c: nat)
    requires Inv(n, s) && Step(s, l).Some? && c < n && c != l.c
    ensures CallerInv(Step(s, l).value, Step(s, l).value.pcs[c])
  {
    var t := Step(s, l).value;
    assert CallerInv(s, s.pcs[c]) && t.pcs[c] == s.pcs[c];
    if l.WriteData? { assert !Inside(s.pcs[c]); }
  }

  lemma InvStep(n: nat, s: State, l: Label)
    requires Inv(n, s) && Step(s, l).Some?
    ensures Inv(n, Step(s, l).value)
  {
    var t := Step(s, l).value;
    LockStep(n, s, l);
    FieldStep(n, s, l);
    forall c: nat | c < n
      ensures CallerInv(t, t.pcs[c])
    {
      if c == l.c { MovingCaller(n, s, l); } else { OtherCaller(n, s, l, c); }
    }
  }

  lemma InvReachable(n: nat, s: State)
    requires Reachable(n, s)
    ensures Inv(n, s)
  {
    var ls :| Exec(Steps, Init(n), ls) == Some(s);
    forall s, l | Inv(n, s) && Steps(s, l).Some?
      ensures Inv(n, Steps(s, l).value)
    {
      InvStep(n, s, l);
    }
    InvariantOnRuns(Steps, s => Inv(n, s), Init(n), ls);
  }

  // What the labels of a run say that the callers want.

  /** The operation for which caller `c` took the mutex last. */
  function LastOp(ls: seq<Label>, c: nat): Option<Op> {
    if ls == [] then None
    else if ls[|ls| - 1].Acquire? && ls[|ls| - 1].c == c then Some(ls[|ls| - 1].op)
    else LastOp(ls[..|ls| - 1], c)
  }

  /** The lists that installers wrote to the field, in order. */
  function Written(ls: seq<Label>): seq<ServerList> {
    if ls == [] then []
    else
      var before, l := ls[..|ls| - 1], ls[|ls| - 1];
      var op := LastOp(before, l.c);
      if l.WriteData? && op.Some? && op.value.Install? then Written(before) + [op.value.list] else Written(before)
  }

  lemma LabelSnoc(ls: seq<Label>, l: Label, c: nat)
    ensures LastOp(ls + [l], c) == if l.Acquire? && l.c == c then Some(l.op) else LastOp(ls, c)
    ensures var op := LastOp(ls, l.c);
            Written(ls + [l]) ==
              if l.WriteData? && op.Some? && op.value.Install? then Written(ls) + [op.value.list] else Written(ls)
  {
    assert (ls + [l])[..|ls|] == ls;
  }

  /** Each caller is at what it came for, with the list it made or the kind of stop it was asked for. */
  ghost predicate CallerTold(s: State, pc: Pc, op: Option<Op>) {
    match pc
    case Idle => true
    case Locked(o) => op == Some(o)
    case HalfInstalled(list) => op == Some(Install(list))
    case Running(graceful, _) => op == Some(Stop(graceful))
    case _ => pc.at < |s.installed| && op == Some(Install(s.installed[pc.at]))
  }

  ghost predicate Told(s: State, ls: seq<Label>) {
    && s.installed == Written(ls)
    && (forall c: nat :: c < |s.pcs| ==> CallerTold(s, s.pcs[c], LastOp(ls, c)))
  }

  lemma ToldStep(s: State, ls: seq<Label>, l: Label)
    requires Told(s, ls) && Step(s, l).Some?
    ensures Told(Step(s, l).value, ls + [l])
  {
    var t := Step(s, l).value;
    assert CallerTold(s, s.pcs[l.c], LastOp(ls, l.c));
    LabelSnoc(ls, l, l.c);
    forall c: nat | c < |t.pcs|
      ensures CallerTold(t, t.pcs[c], LastOp(ls + [l], c))
    {
      LabelSnoc(ls, l, c);
      assert CallerTold(s, s.pcs[c], LastOp(ls, c));
    }
  }

  lemma ToldByRun(n: nat, ls: seq<Label>, s: State)
    requires Exec(Steps, Init(n), ls) == Some(s)
    ensures Told(s, ls)
  {
    var told := (s, ls) => Told(s, ls);
    forall s, ls, l | told(s, ls) && Steps(s, l).Some?
      ensures told(Steps(s, l).value, ls + [l])
    {
      ToldStep(s, ls, l);
    }
    ToldOnRuns(Steps, told, Init(n), [], ls);
    assert [] + ls == ls;
  }

  /** Under every schedule of any number of installers and stoppers no two stops overlap, no stop overlaps
      an installation, and a stop acts on the list installed last, or on none if none was; and it is the
      graceful stop exactly when its caller asked for that one. */
  lemma StopsAreExclusive(n: nat, ls: seq<Label>, s: State, i: nat, j: nat)
    requires Exec(Steps, Init(n), ls) == Some(s) && i < |s.pcs| && j < |s.pcs| && s.pcs[i].Running?
    ensures i != j ==> !Inside(s.pcs[j])
    ensures s.pcs[i].saw == Current(Written(ls))
    ensures LastOp(ls, i) == Some(Stop(s.pcs[i].graceful))
  {
    InvReachable(n, s) by { assert Reachable(n, s); }
    ToldByRun(n, ls, s);
    assert CallerInv(s, s.pcs[i]) && CallerTold(s, s.pcs[i], LastOp(ls, i));
  }

  /** The look that Start takes without the mutex never finds nil and never a torn value, since its own
      installation has written both words; and it finds the list that this Start made exactly when no other
      installation has reached the field since. */
  lemma UnlockedReadIff(n: nat, ls: seq<Label>, s: State, c: nat)
    requires Exec(Steps, Init(n), ls) == Some(s) && c < |s.pcs| && s.pcs[c].AfterInstall?
    ensures Step(s, ReadUnlocked(c)).Some?
    ensures var pc := Step(s, ReadUnlocked(c)).value.pcs[c];
            && pc.Serving? && Some(pc.runs) == Current(Written(ls))
            && (LastOp(ls, c) == Some(Install(pc.runs)) <==> |Written(ls)| == pc.at + 1)
  {
    InvReachable(n, s) by { assert Reachable(n, s); }
    ToldByRun(n, ls, s);
    ReadIff(n, s, c, LastOp(ls, c));
  }

  lemma ReadIff(n: nat, s: State, c: nat, op: Option<Op>)
    requires Inv(n, s) && c < |s.pcs| && s.pcs[c].AfterInstall? && CallerTold(s, s.pcs[c], op)
    ensures Step(s, ReadUnlocked(c)).Some?
    ensures var pc := Step(s, ReadUnlocked(c)).value.pcs[c];
            && pc.Serving? && Some(pc.runs) == Current(s.installed)
            && (op == Some(Install(pc.runs)) <==> |s.installed| == pc.at + 1)
  {
    assert CallerInv(s, s.pcs[c]);
  }

  /** The one thing that a caller inside a call does next. */
  function Next(pc: Pc, c: nat): Label
    requires !pc.Idle?
  {
    match pc
    case Locked(op) => if op.Install? then WriteType(c) else Look(c)
    case HalfInstalled(_) => WriteData(c)
    case Installed(_) => Release(c)
    case Running(_, _) => Release(c)
    case AfterInstall(_) => ReadUnlocked(c)
    case Serving(_, _, _) => Return(c)
  }

  /** Nobody is held up but at the mutex: every other step is possible when its turn comes, with or without a
      list in the field, and the mutex is to be had exactly when no caller is inside. */
  lemma HeldUpOnlyByTheMutex(n: nat, s: State, c: nat, op: Op)
    requires Reachable(n, s) && c < |s.pcs|
    ensures !s.pcs[c].Idle? ==> Step(s, Next(s.pcs[c], c)).Some?
    ensures (op.Install? ==> op.list !in s.made) ==>
              (Step(s, Acquire(c, op)).Some? <==> s.pcs[c].Idle? && forall d: nat :: d < |s.pcs| ==> !Inside(s.pcs[d]))
  {
    InvReachable(n, s);
    assert CallerInv(s, s.pcs[c]);
    if s.lock.Some? { assert Inside(s.pcs[s.lock.value]); }
  }

  /** A Start that runs a list other than the one it installed. */
  predicate RunsAnother(s: State, c: nat) {
    c < |s.pcs| && s.pcs[c].Serving? && s.pcs[c].at < |s.installed| && s.pcs[c].runs != s.installed[s.pcs[c].at]
  }

  lemma ReachableStep(n: nat, s: State, l: Label) returns (t: State)
    requires Reachable(n, s) && Step(s, l).Some?
    ensures Step(s, l) == Some(t) && Reachable(n, t)
  {
    t := Step(s, l).value;
    var ls :| Exec(Steps, Init(n), ls) == Some(s);
    assert Exec(Steps, t, [l][1..]) == Some(t);
    ExecConcat(Steps, Init(n), ls, [l]);
  }

  lemma InstallRun(n: nat, s: State, c: nat, list: ServerList) returns (t: State)
    requires Reachable(n, s) && c < |s.pcs| && s.pcs[c].Idle? && s.lock.None? && list !in s.made
    ensures Reachable(n, t) && t.installed == s.installed + [list] && t.made == s.made + {list} && t.lock.None?
    ensures t.pcs == s.pcs[c := AfterInstall(|s.installed|)]
  {
    t := ReachableStep(n, s, Acquire(c, Install(list)));
    t := ReachableStep(n, t, WriteType(c));
    t := ReachableStep(n, t, WriteData(c));
    t := ReachableStep(n, t, Release(c));
  }

  lemma InitReachable(n: nat)
    ensures Reachable(n, Init(n))
  {
    assert Exec(Steps, Init(n), []) == Some(Init(n));
  }

  /** While one goroutine has the server to itself, what it installed is what is in the field. */
  predicate OwnList(s: State) {
    && |s.pcs| <= 1
    && forall c: nat :: c < |s.pcs| ==>
         && (s.pcs[c].Installed? || s.pcs[c].AfterInstall? ==> |s.installed| == s.pcs[c].at + 1)
         && (s.pcs[c].Serving? ==> s.pcs[c].last == s.pcs[c].at + 1)
  }

  lemma OwnListStep(s: State, l: Label)
    requires OwnList(s) && Step(s, l).Some?
    ensures OwnList(Step(s, l).value)
  {
  }

  lemma OwnListReachable(n: nat, s: State)
    requires n <= 1 && Reachable(n, s)
    ensures OwnList(s)
  {
    var ls :| Exec(Steps, Init(n), ls) == Some(s);
    forall s, l | OwnList(s) && Steps(s, l).Some?
      ensures OwnList(Steps(s, l).value)
    {
      OwnListStep(s, l);
    }
    InvariantOnRuns(Steps, s => OwnList(s), Init(n), ls);
  }

  /** Two installations, and only then the first caller's look. */
  lemma TwoInstalls(n: nat) returns (s: State)
    requires n >= 2
    ensures Reachable(n, s) && |s.pcs| == n && s.pcs[0] == AfterInstall(0) && s.installed == [7, 8]
  {
    InitReachable(n);
    s := InstallRun(n, Init(n), 0, 7);
    s := InstallRun(n, s, 1, 8);
  }

  lemma LateLook(n: nat) returns (s: State)
    requires n >= 2
    ensures Reachable(n, s) && RunsAnother(s, 0)
  {
    var s0 := TwoInstalls(n);
    InvReachable(n, s0);
    assert s0.typeWord && s0.dataWord == 8;
    s := ReachableStep(n, s0, ReadUnlocked(0));
  }

  /** Some schedule makes a Start run the list of another one exactly when two goroutines use the server. */
  lemma RunsAnotherIff(n: nat)
    ensures n >= 2 <==> exists s, c: nat :: Reachable(n, s) && RunsAnother(s, c)
  {
    if n >= 2 { var s := LateLook(n); }
    if s, c: nat :| Reachable(n, s) && RunsAnother(s, c) {
      InvReachable(n, s);
      assert CallerInv(s, s.pcs[c]);
      if n <= 1 { OwnListReachable(n, s); }
    }
  }

  /** An unlocked look would find a non-nil server that nobody has installed. */
  predicate Torn(s: State) { s.typeWord && Current(s.installed) != Some(s.dataWord) }

  /** For Stop the mutex is what does it: the field is torn exactly while the very first installation is
      between its two writes, and then its owner holds the mutex. */
  lemma TornIff(n: nat, s: State)
    requires Reachable(n, s)
    ensures Torn(s) <==> s.installed == [] && s.lock.Some? && s.lock.value < |s.pcs| && s.pcs[s.lock.value].HalfInstalled?
  {
    InvReachable(n, s);
    if s.lock.Some? { assert CallerInv(s, s.pcs[s.lock.value]); }
    if s.installed == [] && s.typeWord {
      var c: nat :| c < |s.pcs| && s.pcs[c].HalfInstalled?;
      assert Inside(s.pcs[c]);
    }
  }

  /** Such a state is reached as soon as there is anyone to install. */
  lemma TornWithoutLock(n: nat)
    ensures n >= 1 <==> exists s :: Reachable(n, s) && Torn(s)
  {
    if n >= 1 {
      InitReachable(n);
      var s := ReachableStep(n, Init(n), Acquire(0, Install(7)));
      s := ReachableStep(n, s, WriteType(0));
    }
    if s :| Reachable(n, s) && Torn(s) {
      TornIff(n, s);
      InvReachable(n, s);
    }
  }
}
