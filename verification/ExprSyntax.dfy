/** The authorization expression language of authexpr/expr.go at token level: the trees the program
    works on, the grammar of the struct tags, a recursive-descent parser and the printer. */
module ExprSyntax {
  import opened Runs

  datatype Token = Ident(name: string) | Str(s: string) | LParen | RParen | Comma

  // The program's own trees. Pointers that may be nil are options.

  datatype Expr = Expr(op: Option<OpExpr>, atom: Option<Atom>)
  datatype OpExpr = OpExpr(name: string, args: seq<Expr>)
  datatype Atom = Atom(name: string, args: seq<Literal>)
  datatype Literal = Literal(str: Option<string>)

  /** Exactly one alternative set, an operator has an argument, a literal has its string. */
  predicate WellFormed(e: Expr) {
    match (e.op, e.atom)
    case (Some(o), None) => |o.args| > 0 && forall i :: 0 <= i < |o.args| ==> WellFormed(o.args[i])
    case (None, Some(a)) => forall i :: 0 <= i < |a.args| ==> a.args[i].str.Some?
    case _ => false
  }

  // The grammar: a concrete tree also says which argument lists end in the optional comma.

  datatype Tree =
    | OpTree(name: string, args: seq<Tree>, trailing: bool)
    | AtomTree(name: string, lits: seq<string>, trailing: bool)

  predicate ValidTree(t: Tree) {
    t.OpTree? ==> |t.args| > 0 && forall i :: 0 <= i < |t.args| ==> ValidTree(t.args[i])
  }

  function Closing(trailing: bool): seq<Token> { if trailing then [Comma, RParen] else [RParen] }

  function Print(t: Tree): seq<Token>
    decreases t, 1
  {
    match t
    case OpTree(name, args, trailing) => [Ident(name), LParen] + PrintArgs(args) + Closing(trailing)
    case AtomTree(name, lits, trailing) => [Ident(name), LParen] + PrintLits(lits) + Closing(trailing)
  }

  function PrintArgs(args: seq<Tree>): seq<Token>
    decreases args, 0
  {
    if args == [] then [] else if |args| == 1 then Print(args[0]) else Print(args[0]) + [Comma] + PrintArgs(args[1..])
  }

  function PrintLits(lits: seq<string>): seq<Token> {
    if lits == [] then [] else if |lits| == 1 then [Str(lits[0])] else [Str(lits[0]), Comma] + PrintLits(lits[1..])
  }

  /** The program's tree behind a concrete tree. */
  function Strip(t: Tree): Expr
    decreases t, 1
  {
    match t
    case OpTree(name, args, _) => Expr(Some(OpExpr(name, StripAll(args))), None)
    case AtomTree(name, lits, _) => Expr(None, Some(Atom(name, Literals(lits))))
  }

  function StripAll(args: seq<Tree>): (es: seq<Expr>)
    ensures |es| == |args| && forall i :: 0 <= i < |args| ==> es[i] == Strip(args[i])
    decreases args, 0
  {
    if args == [] then [] else [Strip(args[0])] + StripAll(args[1..])
  }

  function Literals(lits: seq<string>): (ls: seq<Literal>)
    ensures |ls| == |lits| && forall i :: 0 <= i < |lits| ==> ls[i] == Literal(Some(lits[i]))
  {
    if lits == [] then [] else [Literal(Some(lits[0]))] + Literals(lits[1..])
  }

  // The parser. The token after "(" decides between an operator and an atom.

  datatype Parsed<T> = NoParse | Parsed(value: T, trailing: bool, rest: seq<Token>)

  function ParseExpr(ts: seq<Token>): (r: Parsed<Tree>)
    ensures r.Parsed? ==> |r.rest| < |ts|
    decreases |ts|, 1
  {
    if |ts| < 3 || !ts[0].Ident? || ts[1] != LParen then NoParse
    else if ts[2].Ident? then
      match ParseArgs(ts[2..])
      case NoParse => NoParse
      case Parsed(args, trailing, rest) => Parsed(OpTree(ts[0].name, args, trailing), trailing, rest)
    else
      match ParseLits(ts[2..])
      case NoParse => NoParse
      case Parsed(lits, trailing, rest) => Parsed(AtomTree(ts[0].name, lits, trailing), trailing, rest)
  }

  /** One or more expressions, the closing parenthesis included. */
  function ParseArgs(ts: seq<Token>): (r: Parsed<seq<Tree>>)
    ensures r.Parsed? ==> |r.rest| < |ts|
    decreases |ts|, 2
  {
    match ParseExpr(ts)
    case NoParse => NoParse
    case Parsed(t, _, rest) =>
      if rest == [] then NoParse
      else if rest[0] == RParen then Parsed([t], false, rest[1..])
      else if rest[0] != Comma || |rest| < 2 then NoParse
      else if rest[1] == RParen then Parsed([t], true, rest[2..])
      else
        match ParseArgs(rest[1..])
        case NoParse => NoParse
        case Parsed(args, trailing, last) => Parsed([t] + args, trailing, last)
  }

  function ParseLits(ts: seq<Token>): (r: Parsed<seq<string>>)
    ensures r.Parsed? ==> |r.rest| < |ts|
  {
    if ts == [] then NoParse
    else if ts[0] == RParen then Parsed([], false, ts[1..])
    else if ts[0] == Comma then if |ts| > 1 && ts[1] == RParen then Parsed([], true, ts[2..]) else NoParse
    else ParseLits1(ts)
  }

  /** One or more literals, the closing parenthesis included. */
  function ParseLits1(ts: seq<Token>): (r: Parsed<seq<string>>)
    ensures r.Parsed? ==> |r.rest| < |ts|
  {
    if |ts| < 2 || !ts[0].Str? then NoParse
    else if ts[1] == RParen then Parsed([ts[0].s], false, ts[2..])
    else if ts[1] != Comma || |ts| < 3 then NoParse
    else if ts[2] == RParen then Parsed([ts[0].s], true, ts[3..])
    else
      match ParseLits1(ts[2..])
      case NoParse => NoParse
      case Parsed(lits, trailing, last) => Parsed([ts[0].s] + lits, trailing, last)
  }

  /** exprParser.ParseString: one expression and nothing after it. */
  function Parse(ts: seq<Token>): (r: Option<Expr>) {
    match ParseExpr(ts)
    case Parsed(t, _, rest) => if rest == [] then Some(Strip(t)) else None
    case NoParse => None
  }

  lemma Regroup(a: seq<Token>, b: seq<Token>, c: seq<Token>, d: seq<Token>, rest: seq<Token>)
    ensures (a + b + c) + d + rest == a + (b + (c + d + rest))
  {
  }

  lemma Regroup3(a: seq<Token>, b: seq<Token>, rest: seq<Token>)
    ensures a + b + rest == a + (b + rest)
  {
  }

  /** The steps that ParseArgs takes once the first expression is off. */
  lemma ArgsTail(rest: seq<Token>)
    ensures rest != [] && rest[0] == RParen ==> rest == Closing(false) + rest[1..]
    ensures |rest| > 1 && rest[0] == Comma && rest[1] == RParen ==> rest == Closing(true) + rest[2..]
    ensures rest != [] && rest[0] == Comma ==> rest == [Comma] + rest[1..]
  {
  }

  // Soundness: what is parsed is what the grammar produces.

  lemma {:induction false} ParseExprSound(ts: seq<Token>)
    ensures var r := ParseExpr(ts); r.Parsed? ==> ValidTree(r.value) && ts == Print(r.value) + r.rest
    decreases |ts|, 1
  {
    var r := ParseExpr(ts);
    if r.Parsed? {
      if ts[2].Ident? {
        ParseArgsSound(ts[2..]);
        var a := ParseArgs(ts[2..]);
        HeadBack(ts, PrintArgs(a.value), Closing(a.trailing), a.rest);
      } else {
        ParseLitsSound(ts[2..]);
        var a := ParseLits(ts[2..]);
        HeadBack(ts, PrintLits(a.value), Closing(a.trailing), a.rest);
      }
    }
  }

  lemma HeadBack(ts: seq<Token>, inner: seq<Token>, closing: seq<Token>, rest: seq<Token>)
    requires |ts| > 2 && ts[2..] == inner + closing + rest
    ensures ts == ([ts[0], ts[1]] + inner + closing) + rest
  {
    assert ts == [ts[0], ts[1]] + ts[2..];
  }

  lemma {:induction false} ParseArgsSound(ts: seq<Token>)
    ensures var r := ParseArgs(ts); r.Parsed? ==>
              && |r.value| > 0 && (forall i :: 0 <= i < |r.value| ==> ValidTree(r.value[i]))
              && ts == PrintArgs(r.value) + Closing(r.trailing) + r.rest
    decreases |ts|, 2
  {
    var r := ParseArgs(ts);
    if r.Parsed? {
      ParseExprSound(ts);
      var p := ParseExpr(ts);
      ArgsTail(p.rest);
      if p.rest[0] == RParen || p.rest[1] == RParen {
        Regroup3(Print(p.value), Closing(r.trailing), r.rest);
      } else {
        ParseArgsSound(p.rest[1..]);
        var q := ParseArgs(p.rest[1..]);
        assert r.value == [p.value] + q.value && r.value[1..] == q.value;
        Regroup(Print(p.value), [Comma], PrintArgs(q.value), Closing(r.trailing), r.rest);
      }
    }
  }

  lemma {:induction false} ParseLits1Sound(ts: seq<Token>)
    ensures var r := ParseLits1(ts); r.Parsed? ==>
              |r.value| > 0 && ts == PrintLits(r.value) + Closing(r.trailing) + r.rest
  {
    var r := ParseLits1(ts);
    if r.Parsed? {
      assert ts == [ts[0]] + ts[1..];
      ArgsTail(ts[1..]);
      if ts[1] == RParen || ts[2] == RParen {
        assert ts[1..][1..] == ts[2..];
        assert ts[1] != RParen ==> ts[1..][2..] == ts[3..];
        Regroup3([ts[0]], Closing(r.trailing), r.rest);
      } else {
        ParseLits1Sound(ts[2..]);
        var q := ParseLits1(ts[2..]);
        assert r.value == [ts[0].s] + q.value && r.value[1..] == q.value;
        assert ts[1..][1..] == ts[2..];
        assert [ts[0], Comma] == [ts[0]] + [Comma];
        Regroup([ts[0]], [Comma], PrintLits(q.value), Closing(r.trailing), r.rest);
      }
    }
  }

  lemma ParseLitsSound(ts: seq<Token>)
    ensures var r := ParseLits(ts); r.Parsed? ==> ts == PrintLits(r.value) + Closing(r.trailing) + r.rest
  {
    var r := ParseLits(ts);
    if r.Parsed? {
      if ts[0] == RParen {
        assert ts == [RParen] + r.rest;
      } else if ts[0] == Comma {
        assert ts == [Comma, RParen] + r.rest;
      } else {
        ParseLits1Sound(ts);
      }
    }
  }

  // Completeness: everything the grammar produces is parsed, and as the tree it was produced from.

  lemma {:induction false} ParseExprComplete(t: Tree, rest: seq<Token>)
    requires ValidTree(t)
    ensures ParseExpr(Print(t) + rest) == Parsed(t, t.trailing, rest)
    ensures |Print(t)| >= 3 && Print(t)[0].Ident?
    decreases t, 1
  {
    var ts := Print(t) + rest;
    match t
    case OpTree(name, args, trailing) =>
      ParseArgsComplete(args, trailing, rest);
      HeadFirst(name, PrintArgs(args), Closing(trailing), rest);
    case AtomTree(name, lits, trailing) =>
      ParseLitsComplete(lits, trailing, rest);
      HeadFirst(name, PrintLits(lits), Closing(trailing), rest);
  }

  /** ParseArgs after its first expression: a closing parenthesis, or a comma and more. */
  lemma LastArgument(ts: seq<Token>, t: Tree, trailing: bool, rest: seq<Token>)
    requires ParseExpr(ts) == Parsed(t, t.trailing, Closing(trailing) + rest)
    ensures ParseArgs(ts) == Parsed([t], trailing, rest)
  {
    ClosingFirst(trailing, rest);
  }

  lemma MoreArguments(ts: seq<Token>, t: Tree, more: seq<Token>, args: seq<Tree>, trailing: bool, rest: seq<Token>)
    requires ParseExpr(ts) == Parsed(t, t.trailing, [Comma] + more)
    requires more != [] && more[0] != RParen && ParseArgs(more) == Parsed(args, trailing, rest)
    ensures ParseArgs(ts) == Parsed([t] + args, trailing, rest)
  {
    CommaFirst(more);
  }

  lemma {:induction false} ParseArgsComplete(args: seq<Tree>, trailing: bool, rest: seq<Token>)
    requires |args| > 0 && forall i :: 0 <= i < |args| ==> ValidTree(args[i])
    ensures ParseArgs(PrintArgs(args) + Closing(trailing) + rest) == Parsed(args, trailing, rest)
    ensures |PrintArgs(args)| > 0 && PrintArgs(args)[0].Ident?
    decreases args, 0
  {
    var ts := PrintArgs(args) + Closing(trailing) + rest;
    if |args| == 1 {
      ParseExprComplete(args[0], Closing(trailing) + rest);
      Regroup3(Print(args[0]), Closing(trailing), rest);
      LastArgument(ts, args[0], trailing, rest);
      assert args == [args[0]];
    } else {
      var more := PrintArgs(args[1..]) + Closing(trailing) + rest;
      ParseArgsComplete(args[1..], trailing, rest);
      ParseExprComplete(args[0], [Comma] + more);
      Regroup(Print(args[0]), [Comma], PrintArgs(args[1..]), Closing(trailing), rest);
      assert more[0] == PrintArgs(args[1..])[0];
      MoreArguments(ts, args[0], more, args[1..], trailing, rest);
      assert args == [args[0]] + args[1..];
    }
  }

  lemma HeadFirst(name: string, inner: seq<Token>, closing: seq<Token>, rest: seq<Token>)
    requires closing != []
    ensures var ts := [Ident(name), LParen] + inner + closing + rest;
            |ts| > 2 && ts[0] == Ident(name) && ts[1] == LParen && ts[2..] == inner + closing + rest
            && ts[2] == (inner + closing + rest)[0]
  {
  }

  lemma ClosingFirst(trailing: bool, rest: seq<Token>)
    ensures var ts := Closing(trailing) + rest;
            |ts| == |rest| + |Closing(trailing)| && ts[0] == (if trailing then Comma else RParen)
            && ts[|Closing(trailing)|..] == rest && (trailing ==> ts[1] == RParen)
  {
  }

  lemma CommaFirst(more: seq<Token>)
    ensures var ts := [Comma] + more; |ts| == |more| + 1 && ts[0] == Comma && ts[1..] == more && (more != [] ==> ts[1] == more[0])
  {
  }

  lemma {:induction false} ParseLits1Complete(lits: seq<string>, trailing: bool, rest: seq<Token>)
    requires |lits| > 0
    ensures ParseLits1(PrintLits(lits) + Closing(trailing) + rest) == Parsed(lits, trailing, rest)
  {
    var ts := PrintLits(lits) + Closing(trailing) + rest;
    if |lits| == 1 {
      assert lits == [lits[0]];
      if trailing {
        assert ts == [Str(lits[0]), Comma, RParen] + rest;
        assert ts[3..] == rest;
      } else {
        assert ts == [Str(lits[0]), RParen] + rest;
        assert ts[2..] == rest;
      }
    } else {
      var more := PrintLits(lits[1..]) + Closing(trailing) + rest;
      ParseLits1Complete(lits[1..], trailing, rest);
      assert ts == [Str(lits[0]), Comma] + more;
      assert ts[2..] == more;
      assert lits == [lits[0]] + lits[1..];
    }
  }

  lemma ParseLitsComplete(lits: seq<string>, trailing: bool, rest: seq<Token>)
    ensures var ts := PrintLits(lits) + Closing(trailing) + rest;
            ParseLits(ts) == Parsed(lits, trailing, rest) && ts != [] && !ts[0].Ident?
  {
    var ts := PrintLits(lits) + Closing(trailing) + rest;
    if lits == [] {
      assert ts == Closing(trailing) + rest;
      assert trailing ==> ts[2..] == rest;
      assert !trailing ==> ts[1..] == rest;
    } else {
      ParseLits1Complete(lits, trailing, rest);
    }
  }

  // What follows for the language.

  /** A token list is in the language iff some concrete tree prints to it, and then only one does:
      the grammar is unambiguous, down to every optional comma. */
  lemma Unambiguous(ts: seq<Token>, t: Tree)
    requires ValidTree(t)
    ensures Print(t) == ts <==> ParseExpr(ts) == Parsed(t, t.trailing, [])
    ensures Print(t) == ts ==> Parse(ts) == Some(Strip(t))
    ensures forall u :: ValidTree(u) && Print(u) == Print(t) ==> u == t
  {
    ParseExprSound(ts);
    assert Print(t) + [] == Print(t);
    ParseExprComplete(t, []);
    forall u | ValidTree(u) && Print(u) == Print(t)
      ensures u == t
    {
      ParseExprComplete(u, []);
      assert Print(u) + [] == Print(u);
    }
  }

  /** Optional commas never change the parsed tree: concrete trees that differ only in them parse alike. */
  lemma TrailingCommasDoNotMatter(t: Tree, u: Tree)
    requires ValidTree(t) && ValidTree(u) && Strip(t) == Strip(u)
    ensures Parse(Print(t)) == Parse(Print(u)) == Some(Strip(t))
  {
    Unambiguous(Print(t), t);
    Unambiguous(Print(u), u);
  }

  // The printer of the program.

  function Join(parts: seq<seq<Token>>): seq<Token> {
    if parts == [] then [] else if |parts| == 1 then parts[0] else parts[0] + [Comma] + Join(parts[1..])
  }

  /** Repr as tokens; `None` where the program panics, on an expression that is not exactly one of the two
      alternatives and on a literal without its string. */
  function Repr(e: Expr): (r: Option<seq<Token>>)
    decreases e, 1
  {
    match (e.op, e.atom)
    case (Some(o), None) => Call(o.name, ReprArgs(o.args))
    case (None, Some(a)) => Call(a.name, ReprLits(a.args))
    case _ => None
  }

  function Call(name: string, parts: Option<seq<seq<Token>>>): (r: Option<seq<Token>>) {
    if parts.None? then None else Some([Ident(name), LParen] + Join(parts.value) + [RParen])
  }

  function ReprArgs(args: seq<Expr>): (r: Option<seq<seq<Token>>>)
    decreases args, 0
  {
    if args == [] then Some([])
    else
      var first, others := Repr(args[0]), ReprArgs(args[1..]);
      if first.None? || others.None? then None else Some([first.value] + others.value)
  }

  function ReprLits(lits: seq<Literal>): (r: Option<seq<seq<Token>>>) {
    if lits == [] then Some([])
    else
      var others := ReprLits(lits[1..]);
      if lits[0].str.None? || others.None? then None else Some([[Str(lits[0].str.value)]] + others.value)
  }

  method ReprExpr(e: Expr) returns (r: Option<seq<Token>>)
    ensures r == Repr(e)
    decreases e, 1
  {
    if e.op.Some? && e.atom.None? {
      r := ReprOp(e.op.value);
    } else if e.op.None? && e.atom.Some? {
      r := ReprAtom(e.atom.value);
    } else {
      r := None;
    }
  }

  method ReprOp(o: OpExpr) returns (r: Option<seq<Token>>)
    ensures r == Call(o.name, ReprArgs(o.args))
    decreases o, 0
  {
    var reprArgs: seq<seq<Token>> := [];
    assert o.args[0..] == o.args;
    PrefixedNone(ReprArgs(o.args));
    for i := 0 to |o.args|
      invariant |reprArgs| == i
      invariant ReprArgs(o.args) == Prefixed(reprArgs, ReprArgs(o.args[i..]))
    {
      assert o.args[i..][1..] == o.args[i + 1..];
      var x := ReprExpr(o.args[i]);
      if x.None? { return None; }
      PrefixedSnoc(reprArgs, x.value, ReprArgs(o.args[i + 1..]));
      reprArgs := reprArgs + [x.value];
    }
    assert o.args[|o.args|..] == [];
    assert reprArgs + [] == reprArgs;
    return Some([Ident(o.name), LParen] + Join(reprArgs) + [RParen]);
  }

  method ReprAtom(a: Atom) returns (r: Option<seq<Token>>)
    ensures r == Call(a.name, ReprLits(a.args))
  {
    var reprArgs: seq<seq<Token>> := [];
    assert a.args[0..] == a.args;
    PrefixedNone(ReprLits(a.args));
    for i := 0 to |a.args|
      invariant |reprArgs| == i
      invariant ReprLits(a.args) == Prefixed(reprArgs, ReprLits(a.args[i..]))
    {
      assert a.args[i..][1..] == a.args[i + 1..];
      if a.args[i].str.None? { return None; }
      PrefixedSnoc(reprArgs, [Str(a.args[i].str.value)], ReprLits(a.args[i + 1..]));
      reprArgs := reprArgs + [[Str(a.args[i].str.value)]];
    }
    assert a.args[|a.args|..] == [];
    assert reprArgs + [] == reprArgs;
    return Some([Ident(a.name), LParen] + Join(reprArgs) + [RParen]);
  }

  ghost function Prefixed(done: seq<seq<Token>>, others: Option<seq<seq<Token>>>): Option<seq<seq<Token>>> {
    if others.None? then None else Some(done + others.value)
  }

  lemma PrefixedSnoc(done: seq<seq<Token>>, x: seq<Token>, others: Option<seq<seq<Token>>>)
    ensures Prefixed(done + [x], others) == Prefixed(done, if others.None? then None else Some([x] + others.value))
  {
    if others.Some? { assert (done + [x]) + others.value == done + ([x] + others.value); }
  }

  lemma PrefixedNone(others: Option<seq<seq<Token>>>)
    ensures Prefixed([], others) == others
  {
    if others.Some? { assert [] + others.value == others.value; }
  }

  /** A well-formed expression as the concrete tree without optional commas. */
  function Lift(e: Expr): (t: Tree)
    requires WellFormed(e)
    ensures ValidTree(t) && Strip(t) == e
    decreases e, 1
  {
    match (e.op, e.atom)
    case (Some(o), None) => OpTree(o.name, LiftAll(o.args), false)
    case (None, Some(a)) =>
      var t := AtomTree(a.name, LiftLits(a.args), false);
      assert Strip(t).atom.value.args == a.args;
      t
  }

  function LiftAll(args: seq<Expr>): (ts: seq<Tree>)
    requires forall i :: 0 <= i < |args| ==> WellFormed(args[i])
    ensures |ts| == |args| && forall i :: 0 <= i < |args| ==> ts[i] == Lift(args[i])
    ensures forall i :: 0 <= i < |ts| ==> ValidTree(ts[i])
    ensures StripAll(ts) == args
    decreases args, 0
  {
    if args == [] then [] else
      var ts := [Lift(args[0])] + LiftAll(args[1..]);
      assert ts[1..] == LiftAll(args[1..]);
      ts
  }

  function LiftLits(lits: seq<Literal>): (ss: seq<string>)
    requires forall i :: 0 <= i < |lits| ==> lits[i].str.Some?
    ensures |ss| == |lits| && forall i :: 0 <= i < |lits| ==> lits[i] == Literal(Some(ss[i]))
  {
    if lits == [] then [] else [lits[0].str.value] + LiftLits(lits[1..])
  }

  lemma {:induction false} ReprIsPrint(e: Expr)
    requires WellFormed(e)
    ensures Repr(e) == Some(Print(Lift(e)))
    decreases e, 1
  {
    if e.op.Some? {
      ReprArgsIsPrint(e.op.value.args);
    } else {
      ReprLitsIsPrint(e.atom.value.args);
    }
  }

  lemma {:induction false} ReprArgsIsPrint(args: seq<Expr>)
    requires forall i :: 0 <= i < |args| ==> WellFormed(args[i])
    ensures ReprArgs(args).Some? && |ReprArgs(args).value| == |args|
    ensures Join(ReprArgs(args).value) == PrintArgs(LiftAll(args))
    decreases args, 0
  {
    if args != [] {
      ReprIsPrint(args[0]);
      ReprArgsIsPrint(args[1..]);
      assert ReprArgs(args).value[1..] == ReprArgs(args[1..]).value;
      assert LiftAll(args)[1..] == LiftAll(args[1..]);
    }
  }

  lemma {:induction false} ReprLitsIsPrint(lits: seq<Literal>)
    requires forall i :: 0 <= i < |lits| ==> lits[i].str.Some?
    ensures ReprLits(lits).Some? && |ReprLits(lits).value| == |lits|
    ensures Join(ReprLits(lits).value) == PrintLits(LiftLits(lits))
  {
    if lits != [] {
      ReprLitsIsPrint(lits[1..]);
      assert ReprLits(lits).value[1..] == ReprLits(lits[1..]).value;
      assert LiftLits(lits)[1..] == LiftLits(lits[1..]);
    }
  }

  lemma {:induction false} StripWellFormed(t: Tree)
    requires ValidTree(t)
    ensures WellFormed(Strip(t))
  {
    if t.OpTree? {
      forall i | 0 <= i < |t.args|
        ensures WellFormed(StripAll(t.args)[i])
      {
        StripWellFormed(t.args[i]);
      }
    }
  }

  lemma ParseWellFormed(ts: seq<Token>)
    ensures Parse(ts).Some? ==> WellFormed(Parse(ts).value)
  {
    ParseExprSound(ts);
    if Parse(ts).Some? { StripWellFormed(ParseExpr(ts).value); }
  }

  /** Parsing what Repr printed gives back the expression exactly when it is well formed. */
  lemma RoundTrip(e: Expr)
    ensures WellFormed(e) <==> Repr(e).Some? && Parse(Repr(e).value) == Some(e)
  {
    if WellFormed(e) {
      ReprIsPrint(e);
      Unambiguous(Print(Lift(e)), Lift(e));
    }
    if Repr(e).Some? { ParseWellFormed(Repr(e).value); }
  }

  /** Repr of a parse is a fixed point of parse-then-print, however many optional commas the input had. */
  lemma ReprIsCanonical(ts: seq<Token>)
    requires Parse(ts).Some?
    ensures Repr(Parse(ts).value).Some?
    ensures Parse(Repr(Parse(ts).value).value) == Parse(ts)
  {
    ParseWellFormed(ts);
    RoundTrip(Parse(ts).value);
  }
}
