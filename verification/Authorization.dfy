/** From a raw token to access: AuthFromConfig, StdAuthenticator.Authenticate and the rule that authorize
    applies, with token parsing, claim times and signature checks left to the environment. */
module Authorization {
  import opened Runs
  import opened ExprSyntax
  import opened ExprEval
  import opened Scope
  import opened JwksCache

  datatype IssuerConfig = IssuerConfig(name: string, jwksUrl: string, cacheTTL: int, cacheRefresh: int)

  /** A RemoteJWKSIssuer, named by the configuration it was made from. */
  datatype Verifier = Remote(cfg: IssuerConfig)

  datatype InsecureClaims = InsecureClaims(issuer: string, times: nat)

  /** What the model does not look into. `check` is the signature check of one key on one token, `verify` is
      one call of that verifier's Verify at this moment. */
  datatype World = World(
    urlParses: string -> bool,
    parseSigned: string -> Option<Jwt>,
    insecureClaims: Jwt -> Option<InsecureClaims>,
    timely: InsecureClaims -> bool,
    check: (Key, Jwt) -> Option<Claims>,
    verify: (Verifier, Jwt) -> Result)

  datatype ConfigProblem = NilConfig | Nameless(i: nat) | NotUnique(i: nat) | BadVerifier(i: nat)

  datatype Built = Authenticator(verifiers: map<string, Verifier>) | Refused(why: ConfigProblem)

  predicate Usable(w: World, ic: IssuerConfig) { ic.jwksUrl != "" && w.urlParses(ic.jwksUrl) && ic.cacheTTL != 0 }

  predicate SeenBefore(issuers: seq<IssuerConfig>, i: nat)
    requires i < |issuers|
  {
    exists j :: 0 <= j < i && issuers[j].name == issuers[i].name
  }

  predicate GoodAt(w: World, issuers: seq<IssuerConfig>, i: nat)
    requires i < |issuers|
  {
    issuers[i].name != "" && !SeenBefore(issuers, i) && Usable(w, issuers[i])
  }

  /** Each issuer name has exactly the verifier made from its own configuration, and nothing else has one. */
  ghost predicate Serves(verifiers: map<string, Verifier>, issuers: seq<IssuerConfig>) {
    && (forall name :: name in verifiers <==> exists i :: 0 <= i < |issuers| && issuers[i].name == name)
    && (forall i :: 0 <= i < |issuers| ==> issuers[i].name in verifiers && verifiers[issuers[i].name] == Remote(issuers[i]))
    && "" !in verifiers
  }

  method VerifierFromIssuerConfig(w: World, ic: IssuerConfig) returns (v: Option<Verifier>)
    ensures v == if Usable(w, ic) then Some(Remote(ic)) else None
  {
    if ic.jwksUrl != "" {
      if !w.urlParses(ic.jwksUrl) { return None; }
      if ic.cacheTTL == 0 { return None; }
      return Some(Remote(ic));
    }
    return None;
  }

  method AuthFromConfig(w: World, c: Option<seq<IssuerConfig>>) returns (r: Built)
    ensures r.Authenticator? <==> c.Some? && forall i :: 0 <= i < |c.value| ==> GoodAt(w, c.value, i)
    ensures r.Authenticator? ==> Serves(r.verifiers, c.value)
    ensures r == Refused(NilConfig) <==> c.None?
    ensures r.Refused? && !r.why.NilConfig? ==>
              && c.Some? && r.why.i < |c.value| && (forall j :: 0 <= j < r.why.i ==> GoodAt(w, c.value, j))
              && (match r.why
                  case Nameless(i) => c.value[i].name == ""
                  case NotUnique(i) => c.value[i].name != "" && SeenBefore(c.value, i)
                  case BadVerifier(i) => c.value[i].name != "" && !SeenBefore(c.value, i) && !Usable(w, c.value[i])
                  case NilConfig => false)
  {
    if c.None? { return Refused(NilConfig); }
    var issuers := c.value;
    var verifiers: map<string, Verifier> := map[];
    for i := 0 to |issuers|
      invariant forall j :: 0 <= j < i ==> GoodAt(w, issuers, j)
      invariant forall name :: name in verifiers <==> exists j :: 0 <= j < i && issuers[j].name == name
      invariant forall j :: 0 <= j < i ==> verifiers[issuers[j].name] == Remote(issuers[j])
      invariant "" !in verifiers
    {
      var ic := issuers[i];
      ghost var good := GoodAt(w, issuers, i);
      if ic.name == "" { return Refused(Nameless(i)); }
      if ic.name in verifiers { return Refused(NotUnique(i)); }
      var v := VerifierFromIssuerConfig(w, ic);
      if v.None? { return Refused(BadVerifier(i)); }
      verifiers := verifiers[ic.name := v.value];
    }
    return Authenticator(verifiers);
  }

  datatype AuthError = InvalidJWT | Unknown | UntrustedSource | FromVerifier(result: Result)

  datatype Authentication = Authenticated(claims: Claims) | Rejected(err: AuthError)

  function Authenticate(w: World, verifiers: map<string, Verifier>, raw: string): Authentication {
    match w.parseSigned(raw)
    case None => Rejected(InvalidJWT)
    case Some(token) =>
      match w.insecureClaims(token)
      case None => Rejected(Unknown)
      case Some(insecure) =>
        if !w.timely(insecure) then Rejected(InvalidJWT)
        else if insecure.issuer !in verifiers then Rejected(UntrustedSource)
        else match w.verify(verifiers[insecure.issuer], token)
          case Accepted(claims) => Authenticated(claims)
          case other => Rejected(FromVerifier(other))
  }

  type Rule = Claims -> Outcome<bool>

  /** MakeDefaultJWTClaimsBasedAuthorizationRule, once the expression has compiled. */
  function DefaultRule(root: Expr): Rule { claims => Eval(root, HasScope(claims)) }

  datatype Context = Context(claims: Option<Claims>, others: nat)

  datatype Denial = NotAuthenticated(err: AuthError) | RuleError(why: Error) | RulePanic | ClaimsValidationFailed

  function Authorize(w: World, verifiers: map<string, Verifier>, rule: Rule, ctx: Context, raw: string)
    : (Context, Option<Denial>)
  {
    match Authenticate(w, verifiers, raw)
    case Rejected(err) => (ctx, Some(NotAuthenticated(err)))
    case Authenticated(claims) =>
      match rule(claims)
      case Fail(err) => (ctx, Some(RuleError(err)))
      case Crash => (ctx, Some(RulePanic))
      case Ok(authorised) =>
        if !authorised then (ctx, Some(ClaimsValidationFailed)) else (ctx.(claims := Some(claims)), None)
  }

  /** The token is what it has to be for `claims` to be the claims its own issuer vouches for. */
  ghost predicate VouchedFor(w: World, issuers: seq<IssuerConfig>, raw: string, claims: Claims) {
    exists token, insecure, i ::
      && w.parseSigned(raw) == Some(token)
      && w.insecureClaims(token) == Some(insecure) && w.timely(insecure)
      && 0 <= i < |issuers| && issuers[i].name == insecure.issuer
      && w.verify(Remote(issuers[i]), token) == Accepted(claims)
  }

  /** The token parses and is in time, and no configured issuer bears the name in it. */
  ghost predicate NamesNoIssuer(w: World, issuers: seq<IssuerConfig>, raw: string) {
    exists token, insecure ::
      && w.parseSigned(raw) == Some(token) && w.insecureClaims(token) == Some(insecure) && w.timely(insecure)
      && forall i :: 0 <= i < |issuers| ==> issuers[i].name != insecure.issuer
  }

  /** The one reason for which a token is rejected, in the order in which it is looked at. */
  ghost predicate RejectedFor(w: World, issuers: seq<IssuerConfig>, raw: string, err: AuthError) {
    match w.parseSigned(raw)
    case None => err == InvalidJWT
    case Some(token) =>
      match w.insecureClaims(token)
      case None => err == Unknown
      case Some(insecure) =>
        if !w.timely(insecure) then err == InvalidJWT
        else if NamesNoIssuer(w, issuers, raw) then err == UntrustedSource
        else
          && err.FromVerifier? && !err.result.Accepted?
          && exists i :: 0 <= i < |issuers| && issuers[i].name == insecure.issuer
                         && w.verify(Remote(issuers[i]), token) == err.result
  }

  lemma RejectedIff(w: World, issuers: seq<IssuerConfig>, verifiers: map<string, Verifier>, raw: string)
    requires Serves(verifiers, issuers) && Authenticate(w, verifiers, raw).Rejected?
    ensures RejectedFor(w, issuers, raw, Authenticate(w, verifiers, raw).err)
  {
    UntrustedIff(w, issuers, verifiers, raw);
    if Authenticate(w, verifiers, raw).err.FromVerifier? {
      var token := w.parseSigned(raw).value;
      var insecure := w.insecureClaims(token).value;
      var i :| 0 <= i < |issuers| && issuers[i].name == insecure.issuer;
      assert verifiers[insecure.issuer] == Remote(issuers[i]);
    }
  }

  lemma UntrustedIff(w: World, issuers: seq<IssuerConfig>, verifiers: map<string, Verifier>, raw: string)
    requires Serves(verifiers, issuers)
    ensures Authenticate(w, verifiers, raw) == Rejected(UntrustedSource) <==> NamesNoIssuer(w, issuers, raw)
  {
    if Authenticate(w, verifiers, raw) == Rejected(UntrustedSource) {
      var token := w.parseSigned(raw).value;
      var insecure := w.insecureClaims(token).value;
      assert insecure.issuer !in verifiers;
    }
  }

  lemma AuthenticatedIff(w: World, issuers: seq<IssuerConfig>, verifiers: map<string, Verifier>, raw: string, claims: Claims)
    requires Serves(verifiers, issuers)
    ensures Authenticate(w, verifiers, raw) == Authenticated(claims) <==> VouchedFor(w, issuers, raw, claims)
  {
    if Authenticate(w, verifiers, raw) == Authenticated(claims) {
      var token := w.parseSigned(raw).value;
      var insecure := w.insecureClaims(token).value;
      var i :| 0 <= i < |issuers| && issuers[i].name == insecure.issuer;
      assert w.verify(Remote(issuers[i]), token) == Accepted(claims);
    }
  }

  /** Whatever the rule, it has the last word and nothing but its yes opens: access is granted iff the token is
      vouched for with claims of which the rule says true; an error or a panic of the rule is passed on, and
      then, as with every denial, the context is the one that went in. */
  lemma RuleDecides(w: World, issuers: seq<IssuerConfig>, verifiers: map<string, Verifier>, rule: Rule, ctx: Context, raw: string)
    requires Serves(verifiers, issuers)
    ensures var (after, denial) := Authorize(w, verifiers, rule, ctx, raw);
            && (denial.None? <==> exists claims :: VouchedFor(w, issuers, raw, claims) && rule(claims) == Ok(true))
            && (denial.None? ==>
                  && after.claims.Some? && after == ctx.(claims := after.claims)
                  && VouchedFor(w, issuers, raw, after.claims.value) && rule(after.claims.value) == Ok(true))
            && (denial.Some? ==> after == ctx)
            && (denial == Some(ClaimsValidationFailed) <==>
                  exists claims :: VouchedFor(w, issuers, raw, claims) && rule(claims) == Ok(false))
            && (denial == Some(RulePanic) <==> exists claims :: VouchedFor(w, issuers, raw, claims) && rule(claims) == Crash)
            && (forall err :: denial == Some(RuleError(err)) <==>
                  exists claims :: VouchedFor(w, issuers, raw, claims) && rule(claims) == Fail(err))
            && (denial.Some? && denial.value.NotAuthenticated? ==> RejectedFor(w, issuers, raw, denial.value.err))
  {
    var a := Authenticate(w, verifiers, raw);
    if a.Authenticated? {
      AuthenticatedIff(w, issuers, verifiers, raw, a.claims);
    } else {
      RejectedIff(w, issuers, verifiers, raw);
    }
    forall claims | VouchedFor(w, issuers, raw, claims)
      ensures a == Authenticated(claims)
    {
      AuthenticatedIff(w, issuers, verifiers, raw, claims);
    }
  }

  /** End to end: access is granted iff the token is vouched for by the issuer it names and the rule's
      meaning holds of the scopes in the claims so obtained. The context that comes back carries exactly
      those claims; without access it is the one that went in. The denial says what was wrong: a source
      without a configured issuer, claims that do not satisfy the rule, or a token that nobody vouches for. */
  lemma GrantedIff(w: World, issuers: seq<IssuerConfig>, verifiers: map<string, Verifier>, ts: seq<Token>,
                   ctx: Context, raw: string)
    requires Serves(verifiers, issuers) && CompileExpression(ts).Ok?
    ensures Parse(ts).Some? && Sound(Parse(ts).value)
    ensures var (after, denial) := Authorize(w, verifiers, DefaultRule(CompileExpression(ts).value), ctx, raw);
            && (denial.None? <==>
                  exists claims :: VouchedFor(w, issuers, raw, claims) && Denote(Parse(ts).value, Granted(claims)))
            && (denial.None? ==>
                  && after.claims.Some? && after == ctx.(claims := after.claims)
                  && VouchedFor(w, issuers, raw, after.claims.value)
                  && Denote(Parse(ts).value, Granted(after.claims.value)))
            && (denial.Some? ==> after == ctx && !denial.value.RuleError? && !denial.value.RulePanic?)
            && (denial == Some(NotAuthenticated(UntrustedSource)) <==> NamesNoIssuer(w, issuers, raw))
            && (denial.Some? && denial.value.NotAuthenticated? ==> RejectedFor(w, issuers, raw, denial.value.err))
            && (denial == Some(ClaimsValidationFailed) <==>
                  exists claims :: VouchedFor(w, issuers, raw, claims) && !Denote(Parse(ts).value, Granted(claims)))
  {
    CompiledIsSound(ts);
    UntrustedIff(w, issuers, verifiers, raw);
    var root := Parse(ts).value;
    var a := Authenticate(w, verifiers, raw);
    if a.Rejected? { RejectedIff(w, issuers, verifiers, raw); }
    if a.Authenticated? {
      AuthenticatedIff(w, issuers, verifiers, raw, a.claims);
      RuleMeaning(root, a.claims);
    }
    forall claims | VouchedFor(w, issuers, raw, claims)
      ensures a == Authenticated(claims)
    {
      AuthenticatedIff(w, issuers, verifiers, raw, claims);
    }
  }

  /** The signature was made by the first matching key of a set that the issuer served during this very
      call, or no longer ago than the ttl plus the longest response-to-Put delay of the run. */
  ghost predicate SignedByFreshKey(cfg: Config, s: State, v: Verdict) {
    && |v.jwt.kids| == 1 && v.result.Accepted? && !v.source.NoKeys?
    && (exists k :: 0 <= k < |v.source.jwks.keys| && IsFirst(v.source.jwks.keys, v.jwt.kids[0], k)
                    && cfg.check(v.source.jwks.keys[k], v.jwt) == Some(v.result.claims))
    && (v.source.FromFetch? ==> v.source.since <= v.source.jwks.at <= v.at)
    && (v.source.FromCache? ==> v.at - cfg.ttl - s.delay <= v.source.jwks.at <= v.at)
  }

  function CacheConfig(w: World, ic: IssuerConfig): Config { Config(ic.cacheTTL, w.check) }

  /** In state `s` of the run of that issuer's key cache, verdict number `k` is the answer to this very call
      of Verify on `token`, made at time `now`. */
  ghost predicate Answers(w: World, ic: IssuerConfig, token: Jwt, s: State, now: int, k: nat) {
    && Reachable(CacheConfig(w, ic), s) && k < |s.verdicts|
    && s.verdicts[k].jwt == token && s.verdicts[k].at == now && s.verdicts[k].result == w.verify(Remote(ic), token)
  }

  /** Whichever configured issuer the token names, its key cache is in state `st` and has answered the call. */
  ghost predicate CallAnswered(
    w: World, issuers: seq<IssuerConfig>, raw: string, st: IssuerConfig -> State, now: int, k: nat)
  {
    forall i, token, insecure ::
      (&& 0 <= i < |issuers| && w.parseSigned(raw) == Some(token)
       && w.insecureClaims(token) == Some(insecure) && issuers[i].name == insecure.issuer) ==>
      Answers(w, issuers[i], token, st(issuers[i]), now, k)
  }

  /** The claims are those that the key cache of the issuer named in the token accepted in this call, with a
      key that passed this world's signature check and is fresh at this moment. */
  ghost predicate FreshlyVouchedFor(
    w: World, issuers: seq<IssuerConfig>, raw: string, st: IssuerConfig -> State, now: int, k: nat, claims: Claims)
  {
    exists i, token, insecure ::
      && 0 <= i < |issuers| && w.parseSigned(raw) == Some(token)
      && w.insecureClaims(token) == Some(insecure) && w.timely(insecure) && issuers[i].name == insecure.issuer
      && Answers(w, issuers[i], token, st(issuers[i]), now, k)
      && st(issuers[i]).verdicts[k].result == Accepted(claims)
      && SignedByFreshKey(CacheConfig(w, issuers[i]), st(issuers[i]), st(issuers[i]).verdicts[k])
  }

  lemma VouchedFreshly(
    w: World, issuers: seq<IssuerConfig>, raw: string, st: IssuerConfig -> State, now: int, k: nat, claims: Claims)
    requires VouchedFor(w, issuers, raw, claims) && CallAnswered(w, issuers, raw, st, now, k)
    requires forall i :: 0 <= i < |issuers| ==> issuers[i].cacheTTL < MAX_DURATION
    ensures FreshlyVouchedFor(w, issuers, raw, st, now, k, claims)
  {
    var token, insecure, i :|
      && w.parseSigned(raw) == Some(token) && w.insecureClaims(token) == Some(insecure) && w.timely(insecure)
      && 0 <= i < |issuers| && issuers[i].name == insecure.issuer
      && w.verify(Remote(issuers[i]), token) == Accepted(claims);
    var ic, s := issuers[i], st(issuers[i]);
    assert Answers(w, ic, token, s, now, k);
    AcceptedKeysAreFresh(CacheConfig(w, ic), s, s.verdicts[k]);
    assert SignedByFreshKey(CacheConfig(w, ic), s, s.verdicts[k]);
  }

  /** The whole pipeline, for one signature check, one reached state of each issuer's key cache, one moment
      and one verdict: access rests on that verdict of the issuer named in the token, and so on a signature
      by a fresh key of that issuer. */
  lemma GrantedOnFreshKeys(w: World, issuers: seq<IssuerConfig>, verifiers: map<string, Verifier>, ts: seq<Token>,
                           ctx: Context, raw: string, st: IssuerConfig -> State, now: int, k: nat)
    requires Serves(verifiers, issuers) && CompileExpression(ts).Ok?
    requires CallAnswered(w, issuers, raw, st, now, k)
    requires forall i :: 0 <= i < |issuers| ==> issuers[i].cacheTTL < MAX_DURATION
    ensures var (after, denial) := Authorize(w, verifiers, DefaultRule(CompileExpression(ts).value), ctx, raw);
            denial.None? ==> after.claims.Some? && FreshlyVouchedFor(w, issuers, raw, st, now, k, after.claims.value)
  {
    GrantedIff(w, issuers, verifiers, ts, ctx, raw);
    var (after, denial) := Authorize(w, verifiers, DefaultRule(CompileExpression(ts).value), ctx, raw);
    if denial.None? { VouchedFreshly(w, issuers, raw, st, now, k, after.claims.value); }
  }
}
