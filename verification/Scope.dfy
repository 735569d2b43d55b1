/** MakeStandardJWTHasScope: the space-separated scope claim of section 4.2 of RFC 8693, whose syntax is
    section 3.3 of RFC 6749. */
module Scope {
  import opened Runs
  import opened ExprSyntax
  import opened ExprEval

  datatype Json = JsonString(s: string) | OtherJson(n: nat)
  type Claims = map<string, Json>

  function IndexSpace(s: string): (k: nat)
    ensures k <= |s| && (k < |s| ==> s[k] == ' ') && forall i :: 0 <= i < k ==> s[i] != ' '
  {
    if s == "" || s[0] == ' ' then 0 else 1 + IndexSpace(s[1..])
  }

  /** strings.Split(s, " "). */
  function Split(s: string): seq<string>
    decreases |s|
  {
    var k := IndexSpace(s);
    if k == |s| then [s] else [s[..k]] + Split(s[k + 1..])
  }

  function HasScope(claims: Claims): Query {
    q => if "scope" in claims && claims["scope"].JsonString? then Holds(q in Split(claims["scope"].s)) else Holds(false)
  }

  /** The scan over the split list. */
  method ScanScopes(scopeString: string, query: string) returns (found: bool)
    ensures found <==> SpaceFree(query) && exists i :: StandsAt(scopeString, query, i)
  {
    SplitFindsWords(scopeString, query);
    var scopes := Split(scopeString);
    for i := 0 to |scopes|
      invariant query !in scopes[..i]
    {
      if scopes[i] == query { return true; }
    }
    return false;
  }

  predicate SpaceFree(q: string) { ' ' !in q }

  /** `q` occurs in `s` at `i`, bounded on each side by a space or the end of the string. */
  predicate StandsAt(s: string, q: string, i: int) {
    && 0 <= i && i + |q| <= |s| && s[i..i + |q|] == q
    && (i == 0 || s[i - 1] == ' ')
    && (i + |q| == |s| || s[i + |q|] == ' ')
  }

  lemma FirstWordStands(s: string)
    ensures var k := IndexSpace(s); SpaceFree(s[..k]) && StandsAt(s, s[..k], 0)
  {
    var k := IndexSpace(s);
    assert s[0..0 + k] == s[..k];
  }

  /** What stands in the part after a space stands in the whole. */
  lemma LaterWordStands(s: string, q: string, k: nat, j: int)
    requires k < |s| && s[k] == ' '
    ensures StandsAt(s[k + 1..], q, j) ==> StandsAt(s, q, j + k + 1)
    ensures j >= 0 && StandsAt(s, q, j + k + 1) ==> StandsAt(s[k + 1..], q, j)
  {
    var tail := s[k + 1..];
    if 0 <= j && j + |q| <= |tail| {
      assert s[j + k + 1..j + k + 1 + |q|] == tail[j..j + |q|];
      assert j > 0 ==> tail[j - 1] == s[j + k];
    }
  }

  /** The words of a split: the one before the first space, and those of what follows it. */
  lemma SplitMember(s: string, q: string)
    ensures var k := IndexSpace(s); q in Split(s) <==> q == s[..k] || (k < |s| && q in Split(s[k + 1..]))
  {
    var k := IndexSpace(s);
    if k == |s| { assert s[..k] == s; }
  }

  lemma {:induction false} SplitWordsStand(s: string, q: string)
    requires q in Split(s)
    ensures SpaceFree(q) && exists i :: StandsAt(s, q, i)
    decreases |s|
  {
    var k := IndexSpace(s);
    SplitMember(s, q);
    if q == s[..k] {
      FirstWordStands(s);
    } else {
      SplitWordsStand(s[k + 1..], q);
      var j :| StandsAt(s[k + 1..], q, j);
      LaterWordStands(s, q, k, j);
    }
  }

  lemma {:induction false} StandingWordsSplit(s: string, q: string, i: int)
    requires SpaceFree(q) && StandsAt(s, q, i)
    ensures q in Split(s)
    decreases |s|
  {
    var k := IndexSpace(s);
    if i == 0 {
      assert forall j :: 0 <= j < |q| ==> s[j] == q[j];
      assert s[..k] == q;
    } else {
      LaterWordStands(s, q, k, i - k - 1);
      StandingWordsSplit(s[k + 1..], q, i - k - 1);
    }
    SplitMember(s, q);
  }

  /** Splitting and scanning finds exactly the space-free words that stand in the claim between spaces or
      the ends of the string. A query with a space in it is never found. */
  lemma SplitFindsWords(s: string, q: string)
    ensures q in Split(s) <==> SpaceFree(q) && exists i :: StandsAt(s, q, i)
  {
    if q in Split(s) { SplitWordsStand(s, q); }
    if SpaceFree(q) {
      if i :| StandsAt(s, q, i) { StandingWordsSplit(s, q, i); }
    }
  }

  /** The scopes a set of claims grants. */
  ghost predicate Grants(claims: Claims, q: string) {
    && "scope" in claims && claims["scope"].JsonString?
    && SpaceFree(q) && exists i :: StandsAt(claims["scope"].s, q, i)
  }

  ghost function Granted(claims: Claims): string -> bool { q => Grants(claims, q) }

  lemma {:induction false} HasScopeNeverErrs(claims: Claims, qs: seq<string>)
    ensures FirstError(qs, HasScope(claims)).None?
  {
    if qs != [] { HasScopeNeverErrs(claims, qs[1..]); }
  }

  lemma {:induction false} DenoteExtensional(e: Expr, h: string -> bool, g: string -> bool)
    requires Sound(e) && forall s :: h(s) == g(s)
    ensures Denote(e, h) == Denote(e, g)
  {
    if e.op.Some? {
      forall i | 0 <= i < |e.op.value.args|
        ensures Denote(e.op.value.args[i], h) == Denote(e.op.value.args[i], g)
      {
        DenoteExtensional(e.op.value.args[i], h, g);
      }
    }
  }

  /** Evaluating a compiled rule on claims never errs and says whether the rule's meaning holds of the
      scopes that the claims grant. */
  lemma RuleMeaning(e: Expr, claims: Claims)
    requires Sound(e)
    ensures Eval(e, HasScope(claims)) == Ok(Denote(e, Granted(claims)))
  {
    EvalMeaning(e, HasScope(claims));
    HasScopeNeverErrs(claims, Queries(e));
    forall q
      ensures HoldsUnder(HasScope(claims))(q) == Granted(claims)(q)
    {
      if "scope" in claims && claims["scope"].JsonString? { SplitFindsWords(claims["scope"].s, q); }
    }
    DenoteExtensional(e, HoldsUnder(HasScope(claims)), Granted(claims));
  }

  /** A rule without "not" that holds of some claims holds of all claims that grant at least their scopes. */
  lemma MoreScopesKeepAccess(e: Expr, claims: Claims, more: Claims)
    requires Sound(e) && NotFree(e) && forall q :: Grants(claims, q) ==> Grants(more, q)
    requires Eval(e, HasScope(claims)) == Ok(true)
    ensures Eval(e, HasScope(more)) == Ok(true)
  {
    RuleMeaning(e, claims);
    RuleMeaning(e, more);
    Monotone(e, Granted(claims), Granted(more));
  }
}
