/** Validation and evaluation of authorization expressions, against an independent boolean meaning. */
module ExprEval {
  import opened Runs
  import opened ExprSyntax

  datatype Error =
    | ParseFailed
    | NotTakesOne
    | UndefinedOp(name: string)
    | HasScopeTakesOneString
    | UndefinedAtom(name: string)
    | ScopeError(code: nat)

  /** `Crash` is a Go panic: an index out of range, a nil pointer, or the explicit invariant panic. */
  datatype Outcome<+T> = Ok(value: T) | Fail(err: Error) | Crash

  /** EvaluationContext.JWTHasScope. */
  datatype Answer = Holds(b: bool) | Errs(code: nat)
  type Query = string -> Answer

  function Validate(e: Expr): Outcome<()>
    decreases e, 2
  {
    match (e.op, e.atom)
    case (Some(o), None) => ValidateOp(o)
    case (None, Some(a)) => ValidateAtom(a)
    case _ => Crash
  }

  function ValidateOp(o: OpExpr): Outcome<()>
    decreases o, 1
  {
    if o.name == "not" && |o.args| != 1 then Fail(NotTakesOne)
    else if o.name != "not" && o.name != "all" && o.name != "any" then Fail(UndefinedOp(o.name))
    else ValidateArgs(o.args)
  }

  function ValidateArgs(args: seq<Expr>): Outcome<()>
    decreases args, 0
  {
    if args == [] then Ok(()) else if !Validate(args[0]).Ok? then Validate(args[0]) else ValidateArgs(args[1..])
  }

  function ValidateAtom(a: Atom): Outcome<()> {
    if a.name != "jwtHasScope" then Fail(UndefinedAtom(a.name))
    else if |a.args| != 1 || a.args[0].str.None? then Fail(HasScopeTakesOneString)
    else Ok(())
  }

  function CompileExpression(ts: seq<Token>): Outcome<Expr> {
    match Parse(ts)
    case None => Fail(ParseFailed)
    case Some(e) =>
      match Validate(e)
      case Ok(_) => Ok(e)
      case Fail(err) => Fail(err)
      case Crash => Crash
  }

  function Eval(e: Expr, q: Query): Outcome<bool>
    decreases e, 2
  {
    if e.op.Some? then EvalOp(e.op.value, q)
    else if e.atom.Some? then EvalAtom(e.atom.value, q)
    else Crash
  }

  /** All the arguments are evaluated before the operator is looked at. */
  function EvalOp(o: OpExpr, q: Query): Outcome<bool>
    decreases o, 1
  {
    match EvalArgs(o.args, q)
    case Ok(values) => Combine(o.name, values)
    case Fail(err) => Fail(err)
    case Crash => Crash
  }

  function EvalArgs(args: seq<Expr>, q: Query): Outcome<seq<bool>>
    decreases args, 0
  {
    if args == [] then Ok([])
    else
      match Eval(args[0], q)
      case Fail(err) => Fail(err)
      case Crash => Crash
      case Ok(v) =>
        match EvalArgs(args[1..], q)
        case Ok(values) => Ok([v] + values)
        case Fail(err) => Fail(err)
        case Crash => Crash
  }

  function Combine(name: string, values: seq<bool>): Outcome<bool> {
    if name == "not" then if values == [] then Crash else Ok(!values[0])
    else if name == "any" then Ok(true in values)
    else if name == "all" then Ok(false !in values)
    else Fail(UndefinedOp(name))
  }

  function EvalAtom(a: Atom, q: Query): Outcome<bool> {
    if a.name != "jwtHasScope" then Fail(UndefinedAtom(a.name))
    else if a.args == [] || a.args[0].str.None? then Crash
    else match q(a.args[0].str.value)
      case Holds(b) => Ok(b)
      case Errs(code) => Fail(ScopeError(code))
  }

  // The program's own form: a slice of values filled in a loop, then scanned.

  method Evaluate(e: Expr, q: Query) returns (r: Outcome<bool>)
    ensures r == Eval(e, q)
    decreases e, 2
  {
    if e.op.Some? {
      r := EvaluateOp(e.op.value, q);
    } else if e.atom.None? {
      r := Crash;
    } else {
      r := EvalAtom(e.atom.value, q);
    }
  }

  method EvaluateOp(o: OpExpr, q: Query) returns (r: Outcome<bool>)
    ensures r == EvalOp(o, q)
    decreases o, 1
  {
    var values := new bool[|o.args|];
    assert o.args[0..] == o.args && values[..0] == [];
    ContinueNone(EvalArgs(o.args, q));
    for i := 0 to |o.args|
      invariant EvalArgs(o.args, q) == Continue(values[..i], EvalArgs(o.args[i..], q))
    {
      assert o.args[i..][1..] == o.args[i + 1..];
      var v := Evaluate(o.args[i], q);
      match v
      case Fail(err) => return Fail(err);
      case Crash => return Crash;
      case Ok(b) =>
        values[i] := b;
        ContinueSnoc(values[..i], b, EvalArgs(o.args[i + 1..], q));
        assert values[..i + 1] == values[..i] + [b];
    }
    assert o.args[|o.args|..] == [] && values[..|o.args|] + [] == values[..];
    if o.name == "not" {
      if values.Length == 0 { return Crash; }
      return Ok(!values[0]);
    } else if o.name == "any" {
      for i := 0 to values.Length
        invariant true !in values[..i]
      {
        if values[i] { return Ok(true); }
      }
      return Ok(false);
    } else if o.name == "all" {
      for i := 0 to values.Length
        invariant false !in values[..i]
      {
        if !values[i] { return Ok(false); }
      }
      return Ok(true);
    }
    return Fail(UndefinedOp(o.name));
  }

  ghost function Continue(done: seq<bool>, others: Outcome<seq<bool>>): Outcome<seq<bool>> {
    if others.Ok? then Ok(done + others.value) else others
  }

  lemma ContinueNone(others: Outcome<seq<bool>>)
    ensures Continue([], others) == others
  {
    if others.Ok? { assert [] + others.value == others.value; }
  }

  lemma ContinueSnoc(done: seq<bool>, b: bool, others: Outcome<seq<bool>>)
    ensures Continue(done + [b], others) == Continue(done, if others.Ok? then Ok([b] + others.value) else others)
  {
    if others.Ok? { assert (done + [b]) + others.value == done + ([b] + others.value); }
  }

  // Meaning.

  /** What an expression must be to have a meaning. */
  predicate Sound(e: Expr) {
    match (e.op, e.atom)
    case (Some(o), None) =>
      && o.name in {"not", "any", "all"} && (o.name == "not" ==> |o.args| == 1)
      && forall i :: 0 <= i < |o.args| ==> Sound(o.args[i])
    case (None, Some(a)) => a.name == "jwtHasScope" && |a.args| == 1 && a.args[0].str.Some?
    case _ => false
  }

  predicate Denote(e: Expr, holds: string -> bool)
    requires Sound(e)
  {
    if e.atom.Some? then holds(e.atom.value.args[0].str.value)
    else
      var o := e.op.value;
      if o.name == "not" then !Denote(o.args[0], holds)
      else if o.name == "any" then exists i :: 0 <= i < |o.args| && Denote(o.args[i], holds)
      else forall i :: 0 <= i < |o.args| ==> Denote(o.args[i], holds)
  }

  /** The scopes an expression asks about, from left to right. */
  function Queries(e: Expr): seq<string>
    requires Sound(e)
    decreases e, 1
  {
    if e.atom.Some? then [e.atom.value.args[0].str.value] else QueriesAll(e.op.value.args)
  }

  function QueriesAll(args: seq<Expr>): seq<string>
    requires forall i :: 0 <= i < |args| ==> Sound(args[i])
    decreases args, 0
  {
    if args == [] then [] else Queries(args[0]) + QueriesAll(args[1..])
  }

  /** The error of the leftmost query that errs. */
  function FirstError(qs: seq<string>, q: Query): Option<nat> {
    if qs == [] then None else if q(qs[0]).Errs? then Some(q(qs[0]).code) else FirstError(qs[1..], q)
  }

  function HoldsUnder(q: Query): string -> bool { s => q(s) == Holds(true) }

  lemma {:induction false} FirstErrorConcat(a: seq<string>, b: seq<string>, q: Query)
    ensures FirstError(a + b, q) == if FirstError(a, q).Some? then FirstError(a, q) else FirstError(b, q)
  {
    if a == [] {
      assert a + b == b;
    } else {
      assert (a + b)[1..] == a[1..] + b;
      FirstErrorConcat(a[1..], b, q);
    }
  }

  /** Validate accepts exactly the expressions that have a meaning. */
  lemma {:induction false} ValidIffSound(e: Expr)
    ensures Validate(e).Ok? <==> Sound(e)
    decreases e, 2
  {
    if e.op.Some? && e.atom.None? { ValidArgsIffSound(e.op.value.args); }
  }

  lemma {:induction false} ValidArgsIffSound(args: seq<Expr>)
    ensures ValidateArgs(args).Ok? <==> forall i :: 0 <= i < |args| ==> Sound(args[i])
    decreases args, 0
  {
    if args != [] {
      ValidIffSound(args[0]);
      ValidArgsIffSound(args[1..]);
      assert forall i :: 0 < i < |args| ==> args[i] == args[1..][i - 1];
      assert forall i :: 0 <= i < |args[1..]| ==> args[1..][i] == args[i + 1];
    }
  }

  /** An expression that Validate accepts evaluates without a crash: to the error of the leftmost scope
      query that errs, with no query skipped, and else to its boolean meaning. */
  lemma {:induction false} EvalMeaning(e: Expr, q: Query)
    requires Sound(e)
    ensures Eval(e, q) == match FirstError(Queries(e), q)
                          case Some(code) => Fail(ScopeError(code))
                          case None => Ok(Denote(e, HoldsUnder(q)))
    decreases e, 2
  {
    if e.atom.Some? {
      var s := e.atom.value.args[0].str.value;
      assert FirstError([s][1..], q).None?;
    } else {
      EvalArgsMeaning(e.op.value.args, q);
      if FirstError(Queries(e), q).None? { CombineMeaning(e, EvalArgs(e.op.value.args, q).value, HoldsUnder(q)); }
    }
  }

  lemma {:induction false} EvalArgsMeaning(args: seq<Expr>, q: Query)
    requires forall i :: 0 <= i < |args| ==> Sound(args[i])
    ensures match FirstError(QueriesAll(args), q)
            case Some(code) => EvalArgs(args, q) == Fail(ScopeError(code))
            case None => EvalArgs(args, q).Ok? && MeansEach(args, EvalArgs(args, q).value, HoldsUnder(q))
    decreases args, 0
  {
    if args != [] {
      EvalMeaning(args[0], q);
      EvalArgsMeaning(args[1..], q);
      FirstErrorConcat(Queries(args[0]), QueriesAll(args[1..]), q);
    }
  }

  ghost predicate MeansEach(args: seq<Expr>, values: seq<bool>, holds: string -> bool)
    requires forall i :: 0 <= i < |args| ==> Sound(args[i])
  {
    |values| == |args| && forall i :: 0 <= i < |args| ==> values[i] == Denote(args[i], holds)
  }

  lemma CombineMeaning(e: Expr, values: seq<bool>, holds: string -> bool)
    requires Sound(e) && e.op.Some? && MeansEach(e.op.value.args, values, holds)
    ensures Combine(e.op.value.name, values) == Ok(Denote(e, holds))
  {
    var args := e.op.value.args;
    if e.op.value.name == "any" && true in values {
      var i :| 0 <= i < |values| && values[i] == true;
      assert Denote(args[i], holds);
    } else if e.op.value.name == "all" && false in values {
      var i :| 0 <= i < |values| && values[i] == false;
      assert !Denote(args[i], holds);
    }
  }

  /** Everything CompileExpression accepts is well formed and has a meaning; it never panics. */
  lemma CompiledIsSound(ts: seq<Token>)
    ensures CompileExpression(ts) != Crash
    ensures CompileExpression(ts).Ok? <==> Parse(ts).Some? && Sound(Parse(ts).value)
    ensures CompileExpression(ts).Ok? ==> Parse(ts) == Some(CompileExpression(ts).value)
  {
    ParseWellFormed(ts);
    if Parse(ts).Some? {
      ValidIffSound(Parse(ts).value);
      NoInvariantPanic(Parse(ts).value);
    }
  }

  lemma {:induction false} NoInvariantPanic(e: Expr)
    requires WellFormed(e)
    ensures Validate(e) != Crash
    decreases e, 2
  {
    if e.op.Some? { NoInvariantPanicArgs(e.op.value.args); }
  }

  lemma {:induction false} NoInvariantPanicArgs(args: seq<Expr>)
    requires forall i :: 0 <= i < |args| ==> WellFormed(args[i])
    ensures ValidateArgs(args) != Crash
    decreases args, 0
  {
    if args != [] {
      NoInvariantPanic(args[0]);
      NoInvariantPanicArgs(args[1..]);
    }
  }

  // What is wrong with any expression, sound or not, part by part.

  datatype Trouble = Fine | Fails(err: Error) | Panics

  /** The first trouble in a list, if there is one. */
  function First(ts: seq<Trouble>): Trouble {
    if ts == [] then Fine else if ts[0].Fine? then First(ts[1..]) else ts[0]
  }

  lemma {:induction false} FirstConcat(a: seq<Trouble>, b: seq<Trouble>)
    ensures First(a + b) == if First(a).Fine? then First(b) else First(a)
  {
    if a == [] {
      assert a + b == b;
    } else {
      assert (a + b)[1..] == a[1..] + b;
      FirstConcat(a[1..], b);
    }
  }

  lemma FirstOfOne(t: Trouble)
    ensures First([t]) == t
  {
    assert [t][1..] == [];
  }

  ghost predicate EndsAs<T(!new)>(o: Outcome<T>, t: Trouble) {
    match t
    case Fine => o.Ok?
    case Fails(err) => o.Fail? && o.err == err
    case Panics => o.Crash?
  }

  /** What validation finds at the root of an expression. */
  function OwnProblem(e: Expr): Trouble {
    match (e.op, e.atom)
    case (Some(o), None) =>
      if o.name !in {"not", "any", "all"} then Fails(UndefinedOp(o.name))
      else if o.name == "not" && |o.args| != 1 then Fails(NotTakesOne)
      else Fine
    case (None, Some(a)) =>
      if a.name != "jwtHasScope" then Fails(UndefinedAtom(a.name))
      else if |a.args| == 1 && a.args[0].str.Some? then Fine
      else Fails(HasScopeTakesOneString)
    case _ => Panics
  }

  /** The problems of all the parts in reading order: an operator before its arguments. */
  function Problems(e: Expr): seq<Trouble>
    decreases e, 2
  {
    [OwnProblem(e)] + (if e.op.Some? then ProblemsAll(e.op.value.args) else [])
  }

  function ProblemsAll(args: seq<Expr>): seq<Trouble>
    decreases args, 0
  {
    if args == [] then [] else Problems(args[0]) + ProblemsAll(args[1..])
  }

  /** Validation reports the first problem in reading order, and accepts iff there is none. */
  lemma {:induction false} ValidateBlamesFirst(e: Expr)
    ensures EndsAs(Validate(e), First(Problems(e)))
    decreases e, 2
  {
    FirstOfOne(OwnProblem(e));
    FirstConcat([OwnProblem(e)], if e.op.Some? then ProblemsAll(e.op.value.args) else []);
    if e.op.Some? { ValidateArgsBlameFirst(e.op.value.args); }
  }

  lemma {:induction false} ValidateArgsBlameFirst(args: seq<Expr>)
    ensures EndsAs(ValidateArgs(args), First(ProblemsAll(args)))
    decreases args, 0
  {
    if args != [] {
      ValidateBlamesFirst(args[0]);
      ValidateArgsBlameFirst(args[1..]);
      FirstConcat(Problems(args[0]), ProblemsAll(args[1..]));
    }
  }

  /** What evaluation meets at an operator, once it has the values of the arguments. */
  function OpTrouble(o: OpExpr): Trouble {
    if o.name !in {"not", "any", "all"} then Fails(UndefinedOp(o.name))
    else if o.name == "not" && o.args == [] then Panics
    else Fine
  }

  function AtomTrouble(a: Atom, q: Query): Trouble {
    if a.name != "jwtHasScope" then Fails(UndefinedAtom(a.name))
    else if a.args == [] || a.args[0].str.None? then Panics
    else match q(a.args[0].str.value)
      case Holds(_) => Fine
      case Errs(code) => Fails(ScopeError(code))
  }

  /** The troubles of all the parts that evaluation visits, in its order: an operator after its arguments. */
  function Troubles(e: Expr, q: Query): seq<Trouble>
    decreases e, 2
  {
    if e.op.Some? then TroublesAll(e.op.value.args, q) + [OpTrouble(e.op.value)]
    else if e.atom.Some? then [AtomTrouble(e.atom.value, q)]
    else [Panics]
  }

  function TroublesAll(args: seq<Expr>, q: Query): seq<Trouble>
    decreases args, 0
  {
    if args == [] then [] else Troubles(args[0], q) + TroublesAll(args[1..], q)
  }

  /** Any expression, validated or not, evaluates to the first trouble on the way: to a value iff there is
      none, to that error, or to a panic. */
  lemma {:induction false} EvalMeetsFirst(e: Expr, q: Query)
    ensures EndsAs(Eval(e, q), First(Troubles(e, q)))
    decreases e, 2
  {
    if e.op.Some? {
      var o := e.op.value;
      EvalArgsMeetFirst(o.args, q);
      FirstOfOne(OpTrouble(o));
      FirstConcat(TroublesAll(o.args, q), [OpTrouble(o)]);
    } else {
      FirstOfOne(if e.atom.Some? then AtomTrouble(e.atom.value, q) else Panics);
    }
  }

  lemma {:induction false} EvalArgsMeetFirst(args: seq<Expr>, q: Query)
    ensures EndsAs(EvalArgs(args, q), First(TroublesAll(args, q)))
    ensures EvalArgs(args, q).Ok? ==> |EvalArgs(args, q).value| == |args|
    decreases args, 0
  {
    if args != [] {
      EvalMeetsFirst(args[0], q);
      EvalArgsMeetFirst(args[1..], q);
      FirstConcat(Troubles(args[0], q), TroublesAll(args[1..], q));
    }
  }

  const AllHold: Query := _ => Holds(true)

  lemma CombineByLength(name: string, u: seq<bool>, v: seq<bool>)
    requires |u| == |v|
    ensures Combine(name, u).Ok? == Combine(name, v).Ok? && Combine(name, u).Crash? == Combine(name, v).Crash?
  {
    assert u == [] <==> v == [];
  }

  /** Answering every query leaves values and panics as they are. */
  lemma {:induction false} PanicsWithoutErrors(e: Expr, q: Query)
    ensures Eval(e, q).Ok? ==> Eval(e, AllHold).Ok?
    ensures Eval(e, q).Crash? ==> Eval(e, AllHold).Crash?
    decreases e, 2
  {
    if e.op.Some? {
      var u, v := EvalArgs(e.op.value.args, q), EvalArgs(e.op.value.args, AllHold);
      assert Eval(e, q) == EvalOp(e.op.value, q) && Eval(e, AllHold) == EvalOp(e.op.value, AllHold);
      PanicsWithoutErrorsArgs(e.op.value.args, q);
      EvalArgsMeetFirst(e.op.value.args, q);
      EvalArgsMeetFirst(e.op.value.args, AllHold);
      if u.Ok? { CombineByLength(e.op.value.name, u.value, v.value); }
    }
  }

  lemma {:induction false} PanicsWithoutErrorsArgs(args: seq<Expr>, q: Query)
    ensures EvalArgs(args, q).Ok? ==> EvalArgs(args, AllHold).Ok?
    ensures EvalArgs(args, q).Crash? ==> EvalArgs(args, AllHold).Crash?
    decreases args, 0
  {
    if args != [] {
      PanicsWithoutErrors(args[0], q);
      PanicsWithoutErrorsArgs(args[1..], q);
    }
  }

  /** Exactly when an unvalidated expression can crash its evaluation: some node without operator and atom,
      some "not" without argument or some atom without a leading string comes, in evaluation order, before
      every undefined name. Sound expressions never do. */
  lemma UnvalidatedCrashIff(e: Expr)
    ensures (exists q :: Eval(e, q).Crash?) <==> First(Troubles(e, AllHold)).Panics?
    ensures Sound(e) ==> !First(Troubles(e, AllHold)).Panics?
  {
    EvalMeetsFirst(e, AllHold);
    if q :| Eval(e, q).Crash? { PanicsWithoutErrors(e, q); }
    if Sound(e) { EvalMeaning(e, AllHold); }
  }

  predicate NotFree(e: Expr)
    requires Sound(e)
  {
    e.op.Some? ==> e.op.value.name != "not" && forall i :: 0 <= i < |e.op.value.args| ==> NotFree(e.op.value.args[i])
  }

  /** Without "not", more scopes never take a permission away. */
  lemma {:induction false} Monotone(e: Expr, h: string -> bool, g: string -> bool)
    requires Sound(e) && NotFree(e)
    requires forall s :: h(s) ==> g(s)
    ensures Denote(e, h) ==> Denote(e, g)
  {
    if e.op.Some? {
      forall i | 0 <= i < |e.op.value.args|
        ensures Denote(e.op.value.args[i], h) ==> Denote(e.op.value.args[i], g)
      {
        Monotone(e.op.value.args[i], h, g);
      }
    }
  }
}
