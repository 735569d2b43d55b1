/** The key-set cache of jwtauth/remote.go, shared by any number of goroutines that verify tokens or
    refresh in the background. Times are nanoseconds since the zero time.Time. */
module JwksCache {
  import opened Runs
  import opened Scope

  const MAX_DURATION := 0x7FFF_FFFF_FFFF_FFFF
  const MIN_DURATION := -0x8000_0000_0000_0000
  const ZERO_TIME := 0

  /** time.Since saturates instead of wrapping. */
  function Since(now: int, t: int): int {
    if now - t > MAX_DURATION then MAX_DURATION else if now - t < MIN_DURATION then MIN_DURATION else now - t
  }

  datatype Key = Key(kid: string, material: nat)
  datatype Jwt = Jwt(id: nat, kids: seq<string>)

  /** A key set together with the time at which the issuer served it. */
  datatype Served = Served(keys: seq<Key>, at: int)

  function KeysFor(keys: seq<Key>, kid: string): seq<Key> {
    if keys == [] then [] else (if keys[0].kid == kid then [keys[0]] else []) + KeysFor(keys[1..], kid)
  }

  /** All the keys of that id and no others, each as often as it is listed. */
  lemma {:induction false} KeysForIff(keys: seq<Key>, kid: string, k: Key)
    ensures multiset(KeysFor(keys, kid))[k] == if k.kid == kid then multiset(keys)[k] else 0
  {
    if keys != [] {
      KeysForIff(keys[1..], kid, k);
      assert keys == [keys[0]] + keys[1..];
    }
  }

  datatype Cache = Cache(jwks: Option<Served>, setTime: int)

  datatype Lookup = Expired | NilDereference | Found(jwks: Served)

  function GetKeySet(c: Cache, ttl: int, now: int): Lookup {
    if ttl < Since(now, c.setTime) then Expired else if c.jwks.None? then NilDereference else Found(c.jwks.value)
  }

  class KeyCache {
    const ttl: int
    var jwks: Option<Served>
    var setTime: int

    ghost function View(): (c: Cache) reads this { Cache(jwks, setTime) }

    constructor (ttl: int)
      ensures View() == Cache(None, ZERO_TIME) && this.ttl == ttl
    {
      this.ttl, jwks, setTime := ttl, None, ZERO_TIME;
    }

    method GetKey(kid: string, now: int) returns (r: Lookup, keys: seq<Key>)
      ensures r == GetKeySet(View(), ttl, now)
      ensures r.Found? ==> keys == KeysFor(r.jwks.keys, kid)
      ensures r.Found? ==> forall k :: multiset(keys)[k] == if k.kid == kid then multiset(r.jwks.keys)[k] else 0
      ensures ttl < MAX_DURATION && r.Found? ==> now - ttl <= setTime
    {
      keys := [];
      if ttl < Since(now, setTime) { return Expired, []; }
      if jwks.None? { return NilDereference, []; }
      forall k { KeysForIff(jwks.value.keys, kid, k); }
      return Found(jwks.value), KeysFor(jwks.value.keys, kid);
    }

    method Put(fetched: Served, now: int)
      modifies this
      ensures View() == Cache(Some(fetched), now)
    {
      jwks := Some(fetched);
      setTime := now;
    }
  }

  /** `check` is the signature check of one key on one token, with the claims it yields. */
  datatype Config = Config(ttl: int, check: (Key, Jwt) -> Option<Claims>)

  datatype Job = Background | Verify(jwt: Jwt)

  datatype Pc =
    | Idle
    | Fetching(job: Job, since: int)
    | Fetched(job: Job, since: int, jwks: Served)
    | Crashed

  datatype Source = NoKeys | FromCache(jwks: Served, putAt: int) | FromFetch(jwks: Served, since: int)

  datatype Result = Accepted(claims: Claims) | BadHeaders | RefreshFailed | NoMatchingKey | BadSignature

  /** One finished call of Verify. */
  datatype Verdict = Verdict(jwt: Jwt, at: int, source: Source, result: Result)

  /** From the response of the issuer to the Put of the set in it. */
  datatype Window = Window(served: int, put: int)

  /** `puts` are the windows of the Puts so far, in the order of the Puts, and `delay` is the longest of them. */
  datatype State = State(
    now: int, cache: Cache, pcs: seq<Pc>, verdicts: seq<Verdict>, delay: nat, puts: seq<Window>)

  datatype Label =
    | Tick(d: nat)
    | BeginVerify(t: nat, jwt: Jwt)
    | BeginRefresh(t: nat)
    | Respond(t: nat, keys: seq<Key>)
    | FetchFails(t: nat)
    | PutSet(t: nat)

  function Init(n: nat, start: int): State { State(start, Cache(None, ZERO_TIME), seq(n, _ => Idle), [], 0, []) }

  function Judge(cfg: Config, jwt: Jwt, jwks: Served): Result
    requires |jwt.kids| == 1
  {
    var keys := KeysFor(jwks.keys, jwt.kids[0]);
    if keys == [] then NoMatchingKey
    else match cfg.check(keys[0], jwt)
      case Some(claims) => Accepted(claims)
      case None => BadSignature
  }

  function Conclude(s: State, jwt: Jwt, source: Source, result: Result): State {
    s.(verdicts := s.verdicts + [Verdict(jwt, s.now, source, result)])
  }

  function Goto(s: State, t: nat, pc: Pc): State
    requires t < |s.pcs|
  {
    s.(pcs := s.pcs[t := pc])
  }

  function VerifyStep(cfg: Config, s: State, t: nat, jwt: Jwt): State
    requires t < |s.pcs|
  {
    if |jwt.kids| != 1 then Conclude(s, jwt, NoKeys, BadHeaders)
    else match GetKeySet(s.cache, cfg.ttl, s.now)
      case Expired => Goto(s, t, Fetching(Verify(jwt), s.now))
      case NilDereference => Goto(s, t, Crashed)
      case Found(jwks) => Conclude(s, jwt, FromCache(jwks, s.cache.setTime), Judge(cfg, jwt, jwks))
  }

  function PutStep(cfg: Config, s: State, t: nat): State
    requires t < |s.pcs| && s.pcs[t].Fetched? && (s.pcs[t].job.Verify? ==> |s.pcs[t].job.jwt.kids| == 1)
  {
    var pc := s.pcs[t];
    var put := Goto(s, t, Idle).(
      cache := Cache(Some(pc.jwks), s.now),
      puts := s.puts + [Window(pc.jwks.at, s.now)],
      delay := if s.now - pc.jwks.at > s.delay then s.now - pc.jwks.at else s.delay);
    match pc.job
    case Background => put
    case Verify(jwt) => Conclude(put, jwt, FromFetch(pc.jwks, pc.since), Judge(cfg, jwt, pc.jwks))
  }

  function Step(cfg: Config, s: State, l: Label): Option<State> {
    if l.Tick? then Some(s.(now := s.now + l.d))
    else if l.t >= |s.pcs| then None
    else
      var t, pc := l.t, s.pcs[l.t];
      match l
      case BeginVerify(_, jwt) => if pc.Idle? then Some(VerifyStep(cfg, s, t, jwt)) else None
      case BeginRefresh(_) => if pc.Idle? then Some(Goto(s, t, Fetching(Background, s.now))) else None
      case Respond(_, keys) =>
        if pc.Fetching? then Some(Goto(s, t, Fetched(pc.job, pc.since, Served(keys, s.now)))) else None
      case FetchFails(_) =>
        if !pc.Fetching? && !pc.Fetched? then None
        else
          var idle := Goto(s, t, Idle);
          Some(if pc.job.Verify? then Conclude(idle, pc.job.jwt, NoKeys, RefreshFailed) else idle)
      case PutSet(_) =>
        if pc.Fetched? && (pc.job.Verify? ==> |pc.job.jwt.kids| == 1) then Some(PutStep(cfg, s, t)) else None
  }

  function Steps(cfg: Config): (State, Label) -> Option<State> { (s, l) => Step(cfg, s, l) }

  /** The clock of any real run is past the first 292 years after the zero time. */
  ghost predicate Reachable(cfg: Config, s: State) {
    exists n, start, ls :: start >= ZERO_TIME + MAX_DURATION && Exec(Steps(cfg), Init(n, start), ls) == Some(s)
  }

  ghost predicate CacheInv(s: State) {
    && s.now >= ZERO_TIME + MAX_DURATION
    && s.cache.setTime <= s.now
    && (s.cache.jwks.None? ==> s.cache.setTime == ZERO_TIME)
    && (s.cache.jwks.Some? ==> s.cache.setTime - s.delay <= s.cache.jwks.value.at <= s.cache.setTime)
  }

  ghost predicate ThreadInv(cfg: Config, s: State, pc: Pc) {
    match pc
    case Fetching(job, since) => since <= s.now && (job.Verify? ==> |job.jwt.kids| == 1)
    case Fetched(job, since, jwks) => since <= jwks.at <= s.now && (job.Verify? ==> |job.jwt.kids| == 1)
    case Crashed => cfg.ttl >= MAX_DURATION
    case _ => true
  }

  /** Where a verdict's keys came from, and how older they can be. */
  ghost predicate Traced(cfg: Config, v: Verdict, delay: nat) {
    match v.source
    case NoKeys => if |v.jwt.kids| == 1 then v.result.RefreshFailed? else v.result.BadHeaders?
    case FromFetch(jwks, since) =>
      && |v.jwt.kids| == 1 && v.result == Judge(cfg, v.jwt, jwks)
      && since <= jwks.at <= v.at
    case FromCache(jwks, putAt) =>
      && |v.jwt.kids| == 1 && v.result == Judge(cfg, v.jwt, jwks)
      && putAt - delay <= jwks.at <= putAt <= v.at
      && (cfg.ttl < MAX_DURATION ==> v.at - cfg.ttl <= putAt)
  }

  ghost predicate Inv(cfg: Config, s: State) {
    && CacheInv(s)
    && (forall i :: 0 <= i < |s.pcs| ==> ThreadInv(cfg, s, s.pcs[i]))
    && (forall i :: 0 <= i < |s.verdicts| ==> Traced(cfg, s.verdicts[i], s.delay))
  }

  lemma InvStep(cfg: Config, s: State, l: Label)
    requires Inv(cfg, s) && Step(cfg, s, l).Some?
    ensures Inv(cfg, Step(cfg, s, l).value)
  {
    var s' := Step(cfg, s, l).value;
    assert s.delay <= s'.delay && s.now <= s'.now;
    assert CacheInv(s');
    forall i | 0 <= i < |s'.pcs|
      ensures ThreadInv(cfg, s', s'.pcs[i])
    {
      assert ThreadInv(cfg, s, s.pcs[i]);
    }
    forall i | 0 <= i < |s'.verdicts|
      ensures Traced(cfg, s'.verdicts[i], s'.delay)
    {
      if i < |s.verdicts| { assert s'.verdicts[i] == s.verdicts[i] && Traced(cfg, s.verdicts[i], s.delay); }
    }
  }

  lemma InvPreserved(cfg: Config)
    ensures Preserved(Steps(cfg), s => Inv(cfg, s))
  {
    forall s, l | Inv(cfg, s) && Steps(cfg)(s, l).Some?
      ensures Inv(cfg, Steps(cfg)(s, l).value)
    {
      InvStep(cfg, s, l);
    }
  }

  lemma InvReachable(cfg: Config, s: State)
    requires Reachable(cfg, s)
    ensures Inv(cfg, s)
  {
    var n, start, ls :| start >= ZERO_TIME + MAX_DURATION && Exec(Steps(cfg), Init(n, start), ls) == Some(s);
    InvPreserved(cfg);
    InvariantOnRuns(Steps(cfg), s => Inv(cfg, s), Init(n, start), ls);
  }

  lemma FirstInTail(keys: seq<Key>, kid: string, i: nat)
    requires keys != [] && keys[0].kid != kid && i < |keys| - 1 && IsFirst(keys[1..], kid, i)
    ensures IsFirst(keys, kid, i + 1) && keys[1..][i] == keys[i + 1]
  {
    forall j | 0 <= j < i + 1
      ensures keys[j].kid != kid
    {
      if j > 0 { assert keys[1..][j - 1].kid != kid; }
    }
  }

  lemma {:induction false} KeysForFirst(keys: seq<Key>, kid: string)
    ensures KeysFor(keys, kid) != [] ==>
              exists i :: 0 <= i < |keys| && IsFirst(keys, kid, i) && KeysFor(keys, kid)[0] == keys[i]
    ensures KeysFor(keys, kid) == [] ==> forall i :: 0 <= i < |keys| ==> keys[i].kid != kid
  {
    if keys != [] {
      if keys[0].kid == kid {
        assert IsFirst(keys, kid, 0);
      } else {
        var tail := keys[1..];
        KeysForFirst(tail, kid);
        assert KeysFor(keys, kid) == KeysFor(tail, kid);
        if KeysFor(tail, kid) != [] {
          var i :| 0 <= i < |tail| && IsFirst(tail, kid, i) && KeysFor(tail, kid)[0] == tail[i];
          FirstInTail(keys, kid, i);
        } else {
          assert forall i :: 0 < i < |keys| ==> keys[i] == tail[i - 1];
        }
      }
    }
  }

  predicate IsFirst(keys: seq<Key>, kid: string, i: nat)
    requires i < |keys|
  {
    keys[i].kid == kid && forall j :: 0 <= j < i ==> keys[j].kid != kid
  }

  /** In every run, an accepted token was checked with the first key of that id in a set that was either
      fetched during the same call, or Put at most ttl before the lookup and so served no longer ago than
      ttl plus the longest response-to-Put delay, in whatever order concurrent refreshes Put their sets. */
  lemma AcceptedKeysAreFresh(cfg: Config, s: State, v: Verdict)
    requires Reachable(cfg, s) && v in s.verdicts && v.result.Accepted? && cfg.ttl < MAX_DURATION
    ensures |v.jwt.kids| == 1 && !v.source.NoKeys?
    ensures exists i :: 0 <= i < |v.source.jwks.keys| && IsFirst(v.source.jwks.keys, v.jwt.kids[0], i)
                        && cfg.check(v.source.jwks.keys[i], v.jwt) == Some(v.result.claims)
    ensures v.source.FromFetch? ==> v.source.since <= v.source.jwks.at <= v.at
    ensures v.source.FromCache? ==> v.at - cfg.ttl <= v.source.putAt <= v.at
                                    && v.at - cfg.ttl - s.delay <= v.source.jwks.at <= v.at
  {
    InvReachable(cfg, s);
    assert Traced(cfg, v, s.delay);
    KeysForFirst(v.source.jwks.keys, v.jwt.kids[0]);
  }

  /** The nil set of a cache that was never filled is dereferenced in some run exactly when the ttl is the
      largest duration: every smaller ttl has expired against the saturated age of the zero time. A failed
      first refresh leaves the initial state as it is. */
  lemma NilSetCrashIff(cfg: Config)
    ensures cfg.ttl >= MAX_DURATION <==> exists s :: Reachable(cfg, s) && Crashed in s.pcs
  {
    if cfg.ttl >= MAX_DURATION {
      var s0, jwt := Init(1, MAX_DURATION), Jwt(0, ["k"]);
      var s1 := s0.(pcs := [Crashed]);
      assert s0.pcs[0 := Crashed] == s1.pcs && s0.pcs[0] == Idle;
      assert Step(cfg, s0, BeginVerify(0, jwt)) == Some(s1);
      assert Exec(Steps(cfg), s1, [BeginVerify(0, jwt)][1..]) == Some(s1);
      assert Exec(Steps(cfg), s0, [BeginVerify(0, jwt)]) == Some(s1);
      assert Crashed in s1.pcs by { assert s1.pcs[0] == Crashed; }
      assert Reachable(cfg, s1);
    }
    if s :| Reachable(cfg, s) && Crashed in s.pcs {
      InvReachable(cfg, s);
      var i :| 0 <= i < |s.pcs| && s.pcs[i] == Crashed;
      assert ThreadInv(cfg, s, s.pcs[i]);
    }
  }

  /** A lookup is answered from the cache exactly when a set was Put and no more than ttl has passed since. */
  lemma HitIff(cfg: Config, s: State)
    requires Reachable(cfg, s) && cfg.ttl < MAX_DURATION
    ensures GetKeySet(s.cache, cfg.ttl, s.now).Found? <==> s.cache.jwks.Some? && s.now <= s.cache.setTime + cfg.ttl
    ensures !GetKeySet(s.cache, cfg.ttl, s.now).NilDereference?
  {
    InvReachable(cfg, s);
  }

  /** A refresh that succeeds, in the background or for a token, stores the very set it fetched, stamped with
      the present; and nothing else changes the cache. */
  lemma OnlyPutChangesCache(cfg: Config, s: State, l: Label)
    requires Reachable(cfg, s) && Step(cfg, s, l).Some?
    ensures l.PutSet? ==> s.pcs[l.t].Fetched? && s.cache.setTime <= s.now
    ensures Step(cfg, s, l).value.cache == if l.PutSet? then Cache(Some(s.pcs[l.t].jwks), s.now) else s.cache
  {
    InvReachable(cfg, s);
  }

  lemma {:induction false} CacheKept(cfg: Config, s: State, ls: seq<Label>, t: State)
    requires Exec(Steps(cfg), s, ls) == Some(t) && forall i :: 0 <= i < |ls| ==> !ls[i].PutSet?
    ensures t.cache == s.cache && s.now <= t.now
    decreases |ls|
  {
    if ls != [] {
      assert forall i :: 0 <= i < |ls[1..]| ==> ls[1..][i] == ls[i + 1];
      CacheKept(cfg, Step(cfg, s, ls[0]).value, ls[1..], t);
    }
  }

  /** After a Put, until the next one and for as long as the ttl, every token with one key id that any idle
      goroutine is asked to verify is judged at once, by the set that was Put. */
  lemma PutServesVerify(cfg: Config, s: State, t: nat, ls: seq<Label>, u: State, c: nat, jwt: Jwt)
    requires Reachable(cfg, s) && cfg.ttl < MAX_DURATION && Step(cfg, s, PutSet(t)).Some?
    requires Exec(Steps(cfg), Step(cfg, s, PutSet(t)).value, ls) == Some(u)
    requires forall i :: 0 <= i < |ls| ==> !ls[i].PutSet?
    requires u.now <= s.now + cfg.ttl && c < |u.pcs| && u.pcs[c].Idle? && |jwt.kids| == 1
    ensures s.pcs[t].Fetched?
    ensures Step(cfg, u, BeginVerify(c, jwt)) ==
            Some(u.(verdicts := u.verdicts
                    + [Verdict(jwt, u.now, FromCache(s.pcs[t].jwks, s.now), Judge(cfg, jwt, s.pcs[t].jwks))]))
  {
    InvReachable(cfg, s);
    OnlyPutChangesCache(cfg, s, PutSet(t));
    CacheKept(cfg, Step(cfg, s, PutSet(t)).value, ls, u);
  }

  /** What the keys of a set say about a token with one key id. */
  ghost predicate Judged(cfg: Config, jwt: Jwt, jwks: Served, result: Result)
    requires |jwt.kids| == 1
  {
    match result
    case Accepted(claims) =>
      exists i :: 0 <= i < |jwks.keys| && IsFirst(jwks.keys, jwt.kids[0], i) && cfg.check(jwks.keys[i], jwt) == Some(claims)
    case BadSignature =>
      exists i :: 0 <= i < |jwks.keys| && IsFirst(jwks.keys, jwt.kids[0], i) && cfg.check(jwks.keys[i], jwt).None?
    case NoMatchingKey => forall i :: 0 <= i < |jwks.keys| ==> jwks.keys[i].kid != jwt.kids[0]
    case _ => false
  }

  lemma JudgeMeans(cfg: Config, jwt: Jwt, jwks: Served)
    requires |jwt.kids| == 1
    ensures Judged(cfg, jwt, jwks, Judge(cfg, jwt, jwks))
  {
    KeysForFirst(jwks.keys, jwt.kids[0]);
  }

  lemma JudgedOnce(cfg: Config, jwt: Jwt, jwks: Served, a: Result, b: Result)
    requires |jwt.kids| == 1 && Judged(cfg, jwt, jwks, a) && Judged(cfg, jwt, jwks, b)
    ensures a == b
  {
    if (a.Accepted? || a.BadSignature?) && (b.Accepted? || b.BadSignature?) {
      var i :| 0 <= i < |jwks.keys| && IsFirst(jwks.keys, jwt.kids[0], i)
               && cfg.check(jwks.keys[i], jwt) == (if a.Accepted? then Some(a.claims) else None);
      var j :| 0 <= j < |jwks.keys| && IsFirst(jwks.keys, jwt.kids[0], j)
               && cfg.check(jwks.keys[j], jwt) == (if b.Accepted? then Some(b.claims) else None);
      assert i == j;
    }
  }

  /** A verdict is what its keys say, in both directions: accepted with these claims iff the first key of that
      id yields them, refused for its signature iff that key does not, for want of a key iff there is none,
      for its headers iff there is not exactly one key id, and for the refresh in the remaining case. */
  lemma VerdictIff(cfg: Config, s: State, v: Verdict)
    requires Reachable(cfg, s) && v in s.verdicts
    ensures v.result.BadHeaders? <==> |v.jwt.kids| != 1
    ensures v.result.BadHeaders? || v.result.RefreshFailed? <==> v.source.NoKeys?
    ensures |v.jwt.kids| == 1 && !v.source.NoKeys? ==> forall r :: Judged(cfg, v.jwt, v.source.jwks, r) <==> v.result == r
  {
    InvReachable(cfg, s);
    assert Traced(cfg, v, s.delay);
    if |v.jwt.kids| == 1 && !v.source.NoKeys? {
      JudgeMeans(cfg, v.jwt, v.source.jwks);
      forall r | Judged(cfg, v.jwt, v.source.jwks, r)
        ensures v.result == r
      {
        JudgedOnce(cfg, v.jwt, v.source.jwks, v.result, r);
      }
    }
  }

  /** Nobody is held up: an idle goroutine may verify or refresh, an answer may be anything and may come or
      fail while it is waited for, and a set that has come can be Put. */
  lemma NobodyWaits(cfg: Config, s: State, t: nat, jwt: Jwt, keys: seq<Key>)
    requires Reachable(cfg, s) && t < |s.pcs|
    ensures s.pcs[t].Idle? ==> Step(cfg, s, BeginVerify(t, jwt)).Some? && Step(cfg, s, BeginRefresh(t)).Some?
    ensures s.pcs[t].Fetching? ==> Step(cfg, s, Respond(t, keys)).Some? && Step(cfg, s, FetchFails(t)).Some?
    ensures s.pcs[t].Fetched? ==> Step(cfg, s, PutSet(t)).Some? && Step(cfg, s, FetchFails(t)).Some?
  {
    InvReachable(cfg, s);
    assert ThreadInv(cfg, s, s.pcs[t]);
  }

  ghost predicate Later(s: State, t: State) {
    s.now <= t.now && s.cache.setTime <= t.cache.setTime && (s.cache.jwks.Some? ==> t.cache.jwks.Some?) && s.delay <= t.delay
  }

  lemma LaterStep(cfg: Config, s: State, l: Label)
    requires CacheInv(s) && Step(cfg, s, l).Some?
    ensures Later(s, Step(cfg, s, l).value)
  {
  }

  /** Over a run the stamp of the cache never goes back. Its contents may: a slow refresh can overwrite a
      newer set with an older one, but by no more than the longest response-to-Put delay. */
  lemma StampsNeverGoBack(cfg: Config, s: State, ls: seq<Label>, t: State)
    requires Reachable(cfg, s) && Exec(Steps(cfg), s, ls) == Some(t)
    ensures s.cache.setTime <= t.cache.setTime
    ensures s.cache.jwks.Some? ==> t.cache.jwks.Some? && t.cache.jwks.value.at >= s.cache.jwks.value.at - t.delay
  {
    InvReachable(cfg, s);
    InvPreserved(cfg);
    var inv, rel := s => Inv(cfg, s), (a, b) => Later(a, b);
    forall a, l, u | inv(a) && Steps(cfg)(a, l).Some? && rel(Steps(cfg)(a, l).value, u)
      ensures rel(a, u)
    {
      LaterStep(cfg, a, l);
    }
    RelationOnRuns(Steps(cfg), inv, rel, s, ls);
    InvariantOnRuns(Steps(cfg), inv, s, ls);
  }

  // When does the cache go back to an older set?

  predicate OlderReplacesNewer(s: State, t: State) {
    s.cache.jwks.Some? && t.cache.jwks.Some? && t.cache.jwks.value.at < s.cache.jwks.value.at
  }

  /** Some step of the run replaces a newer set by an older one. */
  ghost predicate GoesBack(cfg: Config, s: State, ls: seq<Label>)
    decreases |ls|
  {
    && ls != [] && Step(cfg, s, ls[0]).Some?
    && (OlderReplacesNewer(s, Step(cfg, s, ls[0]).value) || GoesBack(cfg, Step(cfg, s, ls[0]).value, ls[1..]))
  }

  /** The set of the later Put was served before that of the earlier one. */
  predicate Contains(later: Window, earlier: Window) {
    later.served < earlier.served && earlier.put <= later.put
  }

  ghost predicate SomeContains(puts: seq<Window>) {
    exists i, j :: 0 <= i < j < |puts| && Contains(puts[j], puts[i])
  }

  /** The history of Puts: the last one made the cache, and they happened one after the other. */
  ghost predicate PutsInv(s: State) {
    && (s.cache.jwks.Some? <==> s.puts != [])
    && (s.puts != [] ==> s.puts[|s.puts| - 1] == Window(s.cache.jwks.value.at, s.cache.setTime))
    && (forall i :: 0 <= i < |s.puts| ==> s.puts[i].put <= s.now)
    && (forall i, j :: 0 <= i < j < |s.puts| ==> s.puts[i].put <= s.puts[j].put)
  }

  /** What a step does to the history: nothing, or one more Put. */
  ghost predicate Puts(s: State, t: State) {
    && s.now <= t.now
    && ((t.puts == s.puts && t.cache == s.cache) ||
        (t.cache.jwks.Some? && t.cache.setTime == t.now && t.puts == s.puts + [Window(t.cache.jwks.value.at, t.now)]))
  }

  lemma StepPuts(cfg: Config, s: State, l: Label)
    requires Step(cfg, s, l).Some?
    ensures Puts(s, Step(cfg, s, l).value)
  {
  }

  lemma PutsStep(s: State, t: State)
    requires PutsInv(s) && Puts(s, t)
    ensures PutsInv(t) && s.puts <= t.puts
  {
  }

  /** As long as no window contains an earlier one, the last Put is of the set served last. */
  lemma {:induction false} LastServedLast(puts: seq<Window>, i: nat)
    requires !SomeContains(puts) && i < |puts|
    requires forall i, j :: 0 <= i < j < |puts| ==> puts[i].put <= puts[j].put
    ensures puts[i].served <= puts[|puts| - 1].served
  {
    if i < |puts| - 1 { assert !Contains(puts[|puts| - 1], puts[i]); }
  }

  /** A step that Puts goes back iff its window contains an earlier one, when none did before. */
  lemma PutGoesBackIff(s: State, t: State)
    requires PutsInv(s) && PutsInv(t) && !SomeContains(s.puts)
    requires Puts(s, t) && t.puts != s.puts
    ensures OlderReplacesNewer(s, t) <==> SomeContains(t.puts)
  {
    var n := |s.puts|;
    assert forall i :: 0 <= i < n ==> t.puts[i] == s.puts[i];
    if OlderReplacesNewer(s, t) {
      assert Contains(t.puts[n], t.puts[n - 1]);
    }
    if i, j :| 0 <= i < j < |t.puts| && Contains(t.puts[j], t.puts[i]) {
      assert j == n;
      LastServedLast(s.puts, i);
    }
  }

  lemma {:induction false} ContainsStays(cfg: Config, s: State, ls: seq<Label>, t: State)
    requires PutsInv(s) && SomeContains(s.puts) && Exec(Steps(cfg), s, ls) == Some(t)
    ensures SomeContains(t.puts)
    decreases |ls|
  {
    if ls != [] {
      var s' := Step(cfg, s, ls[0]).value;
      StepPuts(cfg, s, ls[0]);
      PutsStep(s, s');
      var i, j :| 0 <= i < j < |s.puts| && Contains(s.puts[j], s.puts[i]);
      assert s'.puts[i] == s.puts[i] && s'.puts[j] == s.puts[j];
      ContainsStays(cfg, s', ls[1..], t);
    }
  }

  lemma {:induction false} GoesBackIffContains(cfg: Config, s: State, ls: seq<Label>, t: State)
    requires PutsInv(s) && !SomeContains(s.puts) && Exec(Steps(cfg), s, ls) == Some(t)
    ensures GoesBack(cfg, s, ls) <==> SomeContains(t.puts)
    decreases |ls|
  {
    if ls != [] {
      var s' := Step(cfg, s, ls[0]).value;
      StepPuts(cfg, s, ls[0]);
      PutsStep(s, s');
      if s'.puts != s.puts { PutGoesBackIff(s, s'); }
      if SomeContains(s'.puts) {
        ContainsStays(cfg, s', ls[1..], t);
      } else {
        GoesBackIffContains(cfg, s', ls[1..], t);
      }
    }
  }

  /** Exactly when a run goes back: the time between response and Put of some refresh contains that of a
      refresh that Put before it. */
  lemma RunGoesBackIff(cfg: Config, n: nat, start: int, ls: seq<Label>, t: State)
    requires Exec(Steps(cfg), Init(n, start), ls) == Some(t)
    ensures GoesBack(cfg, Init(n, start), ls) <==> SomeContains(t.puts)
  {
    GoesBackIffContains(cfg, Init(n, start), ls, t);
  }

  /** With one goroutine nothing is fetched before the last Put. */
  ghost predicate Alone(s: State) {
    |s.pcs| <= 1 && forall i :: 0 <= i < |s.pcs| && s.pcs[i].Fetched? && s.cache.jwks.Some? ==>
      s.cache.jwks.value.at <= s.pcs[i].jwks.at
  }

  lemma AloneStep(cfg: Config, s: State, l: Label)
    requires CacheInv(s) && Alone(s) && Step(cfg, s, l).Some?
    ensures Alone(Step(cfg, s, l).value) && !OlderReplacesNewer(s, Step(cfg, s, l).value)
  {
  }

  lemma {:induction false} AloneNeverGoesBack(cfg: Config, s: State, ls: seq<Label>)
    requires Inv(cfg, s) && Alone(s)
    ensures !GoesBack(cfg, s, ls)
    decreases |ls|
  {
    if ls != [] && Step(cfg, s, ls[0]).Some? {
      InvStep(cfg, s, ls[0]);
      AloneStep(cfg, s, ls[0]);
      AloneNeverGoesBack(cfg, Step(cfg, s, ls[0]).value, ls[1..]);
    }
  }

  ghost predicate Reaches(cfg: Config, s: State, t: State) { exists ls :: Exec(Steps(cfg), s, ls) == Some(t) }

  lemma ReachesStep(cfg: Config, s: State, t: State, l: Label) returns (u: State)
    requires Reaches(cfg, s, t) && Step(cfg, t, l).Some?
    ensures Step(cfg, t, l) == Some(u) && Reaches(cfg, s, u)
  {
    u := Step(cfg, t, l).value;
    var ls :| Exec(Steps(cfg), s, ls) == Some(t);
    assert Exec(Steps(cfg), u, [l][1..]) == Some(u);
    ExecConcat(Steps(cfg), s, ls, [l]);
  }

  /** Two refreshes under way at once: the issuer answered the first one a tick before the second. */
  lemma TwoAnswers(cfg: Config, n: nat, start: int) returns (s: State)
    requires n >= 2
    ensures Reaches(cfg, Init(n, start), s) && |s.pcs| == n && s.puts == []
    ensures s.pcs[0].Fetched? && s.pcs[1].Fetched? && s.pcs[0].job.Background? && s.pcs[1].job.Background?
    ensures s.pcs[0].jwks.at < s.pcs[1].jwks.at
  {
    s := Init(n, start);
    assert Exec(Steps(cfg), s, []) == Some(s);
    s := ReachesStep(cfg, Init(n, start), s, BeginRefresh(0));
    s := ReachesStep(cfg, Init(n, start), s, BeginRefresh(1));
    s := ReachesStep(cfg, Init(n, start), s, Respond(0, []));
    s := ReachesStep(cfg, Init(n, start), s, Tick(1));
    s := ReachesStep(cfg, Init(n, start), s, Respond(1, []));
  }

  /** The one answered first may Put last. */
  lemma TwoPuts(cfg: Config, n: nat, start: int) returns (s: State)
    requires n >= 2
    ensures Reaches(cfg, Init(n, start), s) && SomeContains(s.puts)
  {
    var s0 := TwoAnswers(cfg, n, start);
    var s1 := ReachesStep(cfg, Init(n, start), s0, PutSet(1));
    assert s1.pcs[0] == s0.pcs[0] && s1.puts == [Window(s0.pcs[1].jwks.at, s0.now)];
    s := ReachesStep(cfg, Init(n, start), s1, PutSet(0));
    assert Contains(s.puts[1], s.puts[0]);
  }

  /** An older set can replace a newer one exactly when two goroutines or more share the cache, whatever the
      ttl and the keys. */
  lemma OlderSetCanReplaceNewerIff(cfg: Config, n: nat, start: int)
    requires start >= ZERO_TIME + MAX_DURATION
    ensures n >= 2 <==>
            exists ls :: Exec(Steps(cfg), Init(n, start), ls).Some? && GoesBack(cfg, Init(n, start), ls)
  {
    var init := Init(n, start);
    if n >= 2 {
      var s := TwoPuts(cfg, n, start);
      var ls :| Exec(Steps(cfg), init, ls) == Some(s);
      RunGoesBackIff(cfg, n, start, ls, s);
    } else {
      forall ls
        ensures !GoesBack(cfg, init, ls)
      {
        AloneNeverGoesBack(cfg, init, ls);
      }
    }
  }
}
