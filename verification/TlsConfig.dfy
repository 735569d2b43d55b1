/** config/tls.go: validation, which normalises two fields in place, and the builder that relies on it.
    File reads and certificate decoding belong to the environment. */
module TlsConfig {
  import opened Runs
  import opened Picks

  /** strings.ToLower on ASCII letters. */
  function Lower(s: string): string {
    if s == "" then "" else [if 'A' <= s[0] <= 'Z' then s[0] + 32 as char else s[0]] + Lower(s[1..])
  }

  lemma {:induction false} LowerTwice(s: string)
    ensures Lower(Lower(s)) == Lower(s)
  {
    if s != "" { LowerTwice(s[1..]); }
  }

  const DIRMODE := "directory"
  const FILEMODE := "file"
  const SYSMODE := "system"
  const PEM := "pem"
  const PKCS12 := "pkcs12"
  const CIPHER_COUNT := 26

  // Names that are looked up in a table as they stand: an entry of the table, or none.

  datatype Version = V10 | V11 | V12 | V13 | OtherVersion(s: string)

  /** A place in the table of cipher suites. */
  type SuiteIndex = i: nat | i < CIPHER_COUNT

  datatype Cipher = Suite(index: SuiteIndex) | OtherCipher(s: string)
  datatype Auth =
    | NoClientCert | RequestClientCert | RequireAnyClientCert | VerifyIfGiven | RequireAndVerify | OtherAuth(s: string)

  /** The entry that the lower-cased name hits. */
  datatype Renegotiation = RenegotiateNever | RenegotiateOnceAsClient | RenegotiateFreelyAsClient | OtherRenegotiation(s: string)

  predicate KnownCipher(c: Cipher) { c.Suite? }

  function VersionNumber(v: Version): nat
    requires !v.OtherVersion?
  {
    match v case V10 => 0x0301 case V11 => 0x0302 case V12 => 0x0303 case V13 => 0x0304
  }

  /** The versions from the oldest to the newest. */
  const VERSIONS := [V10, V11, V12, V13]

  ghost predicate Newer(a: Version, b: Version) {
    exists i, j :: 0 <= j < i < |VERSIONS| && VERSIONS[i] == a && VERSIONS[j] == b
  }

  /** The numbers on the wire are consecutive from 0x0301 and follow the order of the versions. */
  lemma NumbersFollowVersions(a: Version, b: Version)
    requires !a.OtherVersion? && !b.OtherVersion?
    ensures VersionNumber(a) > VersionNumber(b) <==> Newer(a, b)
    ensures forall i :: 0 <= i < |VERSIONS| ==> VersionNumber(VERSIONS[i]) == 0x0301 + i
  {
    var i := VersionNumber(a) - 0x0301;
    var j := VersionNumber(b) - 0x0301;
    assert VERSIONS[i] == a && VERSIONS[j] == b;
  }

  datatype CertKeyPair = CertKeyPair(certPath: Option<string>, keyPath: Option<string>)
  datatype Pkcs12Store = Pkcs12Store(path: Option<string>, password: Option<string>)
  datatype Identity = Identity(pair: Option<CertKeyPair>, store: Option<Pkcs12Store>)
  datatype Pool = Pool(mode: Option<string>, encoding: Option<string>, path: Option<string>, password: Option<string>)

  /** A TLSConfig as a value; nil pointers are `None`. */
  datatype Tls = Tls(
    min: Option<Version>, max: Option<Version>, clientAuth: Option<Auth>, ciphers: seq<Cipher>,
    identities: seq<Option<Identity>>, pool: Option<Pool>, insecure: bool, selfSigned: bool, renegotiation: Option<Renegotiation>)

  const EMPTY := Tls(None, None, None, [], [], None, false, false, None)

  datatype Problem =
    | ConfigMissing | ClientAuthMissing | ClientAuthUnknown | MinMissing | MinUnknown | MaxMissing | MaxUnknown
    | CiphersInvalid | RenegotiationMissing | RenegotiationUnknown | IdentitiesMissing | IdentityMissing | IdentityChoice
    | KeyPathMissing | CertPathMissing | StorePathMissing | StorePasswordMissing
    | PoolMissing | ModeMissing | PathMissing | EncodingMissing | PasswordMissing | EncodingUnknown

  function IdentityProblem(b: Identity): Option<Problem> {
    if b.store.Some? == b.pair.Some? then Some(IdentityChoice)
    else if b.pair.Some? && b.pair.value.keyPath.None? then Some(KeyPathMissing)
    else if b.pair.Some? && b.pair.value.certPath.None? then Some(CertPathMissing)
    else if b.store.Some? && b.store.value.path.None? then Some(StorePathMissing)
    else if b.store.Some? && b.store.value.password.None? then Some(StorePasswordMissing)
    else None
  }

  function IdentitiesProblem(ids: seq<Option<Identity>>): Option<Problem> {
    if ids == [] then None
    else if ids[0].None? then Some(IdentityMissing)
    else if IdentityProblem(ids[0].value).Some? then IdentityProblem(ids[0].value)
    else IdentitiesProblem(ids[1..])
  }

  /** The outcome of TrustedCertPoolConfig.validate and the fields it leaves behind, also when it fails. */
  function ValidatePool(p: Pool): (Option<Problem>, Pool) {
    if p.mode.None? then (Some(ModeMissing), p)
    else
      var p1 := p.(mode := Some(Lower(p.mode.value)));
      if p1.mode.value == SYSMODE then (None, p1)
      else if p.path.None? then (Some(PathMissing), p1)
      else if p.encoding.None? then (Some(EncodingMissing), p1)
      else
        var p2 := p1.(encoding := Some(Lower(p.encoding.value)));
        if p2.encoding.value == PKCS12 && p.password.None? then (Some(PasswordMissing), p2)
        else if p2.encoding.value != PEM && p2.encoding.value != PKCS12 then (Some(EncodingUnknown), p2)
        else (None, p2)
  }

  /** What Validate finds before it reaches the pool. */
  function EarlyProblem(t: Tls): Option<Problem> {
    if t == EMPTY then Some(ConfigMissing)
    else if t.clientAuth.None? then Some(ClientAuthMissing)
    else if t.clientAuth.value.OtherAuth? then Some(ClientAuthUnknown)
    else if t.min.None? then Some(MinMissing)
    else if t.min.value.OtherVersion? then Some(MinUnknown)
    else if t.max.None? then Some(MaxMissing)
    else if t.max.value.OtherVersion? then Some(MaxUnknown)
    else if exists i :: 0 <= i < |t.ciphers| && !KnownCipher(t.ciphers[i]) then Some(CiphersInvalid)
    else if t.renegotiation.None? then Some(RenegotiationMissing)
    else if t.renegotiation.value.OtherRenegotiation? then Some(RenegotiationUnknown)
    else if t.identities == [] then Some(IdentitiesMissing)
    else if IdentitiesProblem(t.identities).Some? then IdentitiesProblem(t.identities)
    else if t.pool.None? then Some(PoolMissing)
    else None
  }

  function ValidateView(t: Tls): (Option<Problem>, Tls) {
    if EarlyProblem(t).Some? then (EarlyProblem(t), t)
    else var (problem, p) := ValidatePool(t.pool.value); (problem, t.(pool := Some(p)))
  }

  // The objects: validation overwrites Mode and Encoding of the pool configuration it is given.

  class TrustedCertPoolConfig {
    var mode: Option<string>
    var encoding: Option<string>
    const path: Option<string>
    const password: Option<string>

    ghost function View(): (p: Pool) reads this { Pool(mode, encoding, path, password) }

    constructor (p: Pool)
      ensures View() == p
    {
      mode, encoding, path, password := p.mode, p.encoding, p.path, p.password;
    }

    method Validate() returns (problem: Option<Problem>)
      modifies this
      ensures (problem, View()) == ValidatePool(old(View()))
    {
      if mode.None? { return Some(ModeMissing); }
      mode := Some(Lower(mode.value));
      if mode.value != SYSMODE {
        if path.None? { return Some(PathMissing); }
        if encoding.Some? {
          encoding := Some(Lower(encoding.value));
          if encoding.value == PKCS12 {
            if password.None? { return Some(PasswordMissing); }
          }
        } else {
          return Some(EncodingMissing);
        }
        if encoding.value != PEM && encoding.value != PKCS12 { return Some(EncodingUnknown); }
      }
      return None;
    }
  }

  class TLSConfig {
    const plain: Tls                              // every field but the pool
    const pool: TrustedCertPoolConfig?

    ghost function View(): (t: Tls)
      reads pool
    {
      plain.(pool := if pool == null then None else Some(pool.View()))
    }

    constructor (plain: Tls, pool: TrustedCertPoolConfig?)
      ensures this.plain == plain && this.pool == pool
    {
      this.plain, this.pool := plain, pool;
    }

    /** A nil configuration is accepted. */
    static method Validate(cfg: TLSConfig?) returns (problem: Option<Problem>)
      modifies if cfg == null then null else cfg.pool
      ensures cfg == null ==> problem.None?
      ensures cfg != null ==> (problem, cfg.View()) == ValidateView(old(cfg.View()))
    {
      if cfg == null { return None; }
      var t, pool := cfg.plain, cfg.pool;
      if pool == null && t.(pool := None) == EMPTY { return Some(ConfigMissing); }
      if t.clientAuth.None? { return Some(ClientAuthMissing); }
      if t.clientAuth.value.OtherAuth? { return Some(ClientAuthUnknown); }
      if t.min.None? { return Some(MinMissing); }
      if t.min.value.OtherVersion? { return Some(MinUnknown); }
      if t.max.None? { return Some(MaxMissing); }
      if t.max.value.OtherVersion? { return Some(MaxUnknown); }
      var failed: seq<Cipher> := [];
      for i := 0 to |t.ciphers|
        invariant failed == [] <==> forall j :: 0 <= j < i ==> KnownCipher(t.ciphers[j])
      {
        if !KnownCipher(t.ciphers[i]) { failed := failed + [t.ciphers[i]]; }
      }
      if |failed| > 0 { return Some(CiphersInvalid); }
      if t.renegotiation.None? { return Some(RenegotiationMissing); }
      if t.renegotiation.value.OtherRenegotiation? { return Some(RenegotiationUnknown); }
      if t.identities == [] { return Some(IdentitiesMissing); }
      assert t.identities[0..] == t.identities;
      for i := 0 to |t.identities|
        invariant IdentitiesProblem(t.identities) == IdentitiesProblem(t.identities[i..])
      {
        assert t.identities[i..][1..] == t.identities[i + 1..];
        if t.identities[i].None? { return Some(IdentityMissing); }
        var p := IdentityProblem(t.identities[i].value);
        if p.Some? { return p; }
      }
      if pool == null { return Some(PoolMissing); }
      problem := pool.Validate();
    }
  }

  // What Validate accepts, without the order in which it looks.

  predicate IdentityAcceptable(b: Identity) {
    || (b.store.None? && b.pair.Some? && b.pair.value.keyPath.Some? && b.pair.value.certPath.Some?)
    || (b.pair.None? && b.store.Some? && b.store.value.path.Some? && b.store.value.password.Some?)
  }

  predicate PoolAcceptable(p: Pool) {
    p.mode.Some? &&
    (Lower(p.mode.value) == SYSMODE ||
       (p.path.Some? && p.encoding.Some? &&
          (Lower(p.encoding.value) == PEM || (Lower(p.encoding.value) == PKCS12 && p.password.Some?))))
  }

  predicate Acceptable(t: Tls) {
    && t.clientAuth.Some? && !t.clientAuth.value.OtherAuth?
    && t.min.Some? && !t.min.value.OtherVersion? && t.max.Some? && !t.max.value.OtherVersion?
    && (forall i :: 0 <= i < |t.ciphers| ==> KnownCipher(t.ciphers[i]))
    && t.renegotiation.Some? && !t.renegotiation.value.OtherRenegotiation?
    && t.identities != [] && IdentitiesAcceptable(t.identities)
    && t.pool.Some? && PoolAcceptable(t.pool.value)
  }

  predicate IdentitiesAcceptable(ids: seq<Option<Identity>>) {
    forall i :: 0 <= i < |ids| ==> ids[i].Some? && IdentityAcceptable(ids[i].value)
  }

  lemma {:induction false} IdentitiesAccepted(ids: seq<Option<Identity>>)
    ensures IdentitiesProblem(ids).None? <==> IdentitiesAcceptable(ids)
  {
    if ids != [] {
      IdentitiesAccepted(ids[1..]);
      assert forall i :: 0 < i < |ids| ==> ids[i] == ids[1..][i - 1];
      assert forall i :: 0 <= i < |ids[1..]| ==> ids[1..][i] == ids[i + 1];
    }
  }

  /** Validate accepts exactly the acceptable configurations; of those it changes only the letter case of
      the pool's mode, and of its encoding where the mode needs one. */
  lemma ValidateAccepts(t: Tls)
    ensures ValidateView(t).0.None? <==> Acceptable(t)
    ensures ValidateView(t).0.None? ==>
              exists p: Pool :: ValidateView(t).1 == t.(pool := Some(p)) && LowerCased(t.pool.value, p)
  {
    IdentitiesAccepted(t.identities);
    if EarlyProblem(t).None? { assert ValidateView(t).1 == t.(pool := Some(ValidatePool(t.pool.value).1)); }
  }

  predicate LowerCased(p: Pool, q: Pool) {
    && p.mode.Some? && q.mode == Some(Lower(p.mode.value)) && q.path == p.path && q.password == p.password
    && q.encoding == if p.encoding.Some? && q.mode.value != SYSMODE then Some(Lower(p.encoding.value)) else p.encoding
  }

  lemma PoolIdempotent(p: Pool)
    ensures ValidatePool(ValidatePool(p).1) == ValidatePool(p)
  {
    if p.mode.Some? { LowerTwice(p.mode.value); }
    if p.encoding.Some? { LowerTwice(p.encoding.value); }
  }

  lemma EarlyIgnoresPool(t: Tls, p: Pool)
    requires EarlyProblem(t).None?
    ensures EarlyProblem(t.(pool := Some(p))).None?
  {
  }

  /** Validating again changes nothing and finds the same. */
  lemma ValidateIdempotent(t: Tls)
    ensures ValidateView(ValidateView(t).1) == ValidateView(t)
  {
    if EarlyProblem(t).None? {
      PoolIdempotent(t.pool.value);
      EarlyIgnoresPool(t, ValidatePool(t.pool.value).1);
    }
  }

  // What Validate reports, problem by problem.

  /** What is wrong with one identity; a pair's key is looked at before its certificate, a store's path before
      its password. */
  predicate IdentityWrong(id: Option<Identity>, problem: Problem) {
    if id.None? then problem == IdentityMissing
    else
      var pair, store := id.value.pair, id.value.store;
      match problem
      case IdentityChoice => pair.Some? <==> store.Some?
      case KeyPathMissing => store.None? && pair.Some? && pair.value.keyPath.None?
      case CertPathMissing => store.None? && pair.Some? && pair.value.keyPath.Some? && pair.value.certPath.None?
      case StorePathMissing => pair.None? && store.Some? && store.value.path.None?
      case StorePasswordMissing => pair.None? && store.Some? && store.value.path.Some? && store.value.password.None?
      case _ => false
  }

  /** What is wrong with the pool, in the letters as they are after lower-casing. */
  predicate PoolWrong(p: Pool, problem: Problem) {
    if p.mode.None? then problem == ModeMissing
    else
      && Lower(p.mode.value) != SYSMODE
      && match problem
         case PathMissing => p.path.None?
         case EncodingMissing => p.path.Some? && p.encoding.None?
         case PasswordMissing => p.path.Some? && p.encoding.Some? && Lower(p.encoding.value) == PKCS12 && p.password.None?
         case EncodingUnknown => p.path.Some? && p.encoding.Some? && Lower(p.encoding.value) !in [PEM, PKCS12]
         case _ => false
  }

  /** The problem is there: that setting, the first bad identity, or the pool is wrong in that way. */
  ghost predicate Wrong(t: Tls, problem: Problem) {
    match problem
    case ConfigMissing => t == EMPTY
    case ClientAuthMissing => t.clientAuth.None?
    case ClientAuthUnknown => t.clientAuth.Some? && t.clientAuth.value.OtherAuth?
    case MinMissing => t.min.None?
    case MinUnknown => t.min.Some? && t.min.value.OtherVersion?
    case MaxMissing => t.max.None?
    case MaxUnknown => t.max.Some? && t.max.value.OtherVersion?
    case CiphersInvalid => exists i :: 0 <= i < |t.ciphers| && !KnownCipher(t.ciphers[i])
    case RenegotiationMissing => t.renegotiation.None?
    case RenegotiationUnknown => t.renegotiation.Some? && t.renegotiation.value.OtherRenegotiation?
    case IdentitiesMissing => t.identities == []
    case PoolMissing => t.pool.None?
    case _ => FirstBadIdentity(t.identities, problem) || (t.pool.Some? && PoolWrong(t.pool.value, problem))
  }

  ghost predicate FirstBadIdentity(ids: seq<Option<Identity>>, problem: Problem) {
    exists i :: 0 <= i < |ids| && IdentityWrong(ids[i], problem) && IdentitiesAcceptable(ids[..i])
  }

  /** The order in which Validate looks. */
  function Place(problem: Problem): nat {
    match problem
    case ConfigMissing => 0
    case ClientAuthMissing => 1 case ClientAuthUnknown => 1
    case MinMissing => 2 case MinUnknown => 2
    case MaxMissing => 3 case MaxUnknown => 3
    case CiphersInvalid => 4
    case RenegotiationMissing => 5 case RenegotiationUnknown => 5
    case IdentitiesMissing => 6
    case PoolMissing => 8
    case _ => if problem in [ModeMissing, PathMissing, EncodingMissing, PasswordMissing, EncodingUnknown] then 9 else 7
  }

  lemma {:induction false} IdentitiesReportFirst(ids: seq<Option<Identity>>)
    requires IdentitiesProblem(ids).Some?
    ensures FirstBadIdentity(ids, IdentitiesProblem(ids).value) && Place(IdentitiesProblem(ids).value) == 7
  {
    var problem := IdentitiesProblem(ids).value;
    if ids[0].None? || IdentityProblem(ids[0].value).Some? {
      assert IdentityWrong(ids[0], problem) && IdentitiesAcceptable(ids[..0]);
    } else {
      IdentitiesReportFirst(ids[1..]);
      var i :| 0 <= i < |ids[1..]| && IdentityWrong(ids[1..][i], problem) && IdentitiesAcceptable(ids[1..][..i]);
      var part := ids[..i + 1];
      forall j | 0 <= j < |part|
        ensures part[j].Some? && IdentityAcceptable(part[j].value)
      {
        if j > 0 { assert part[j] == ids[1..][..i][j - 1]; }
      }
      assert IdentityWrong(ids[i + 1], problem);
    }
  }

  lemma AcceptableIsNotWrong(ids: seq<Option<Identity>>, problem: Problem)
    requires IdentitiesAcceptable(ids)
    ensures !FirstBadIdentity(ids, problem)
  {
  }

  /** What Validate reports before it reaches the pool is there, and nothing that comes earlier is. */
  lemma EarlyReports(t: Tls)
    requires EarlyProblem(t).Some?
    ensures Wrong(t, EarlyProblem(t).value)
  {
    if IdentitiesProblem(t.identities).Some? { IdentitiesReportFirst(t.identities); }
  }

  lemma EarlyReportsFirst(t: Tls, q: Problem)
    requires EarlyProblem(t).Some? && Place(q) < Place(EarlyProblem(t).value)
    ensures !Wrong(t, q)
  {
    IdentitiesAccepted(t.identities);
    if IdentitiesProblem(t.identities).None? {
      AcceptableIsNotWrong(t.identities, q);
    } else {
      IdentitiesReportFirst(t.identities);
      SettingIsNotWrong(t, q);
    }
  }

  /** Settings that come before the identities are in order once the identities are looked at. */
  lemma SettingIsNotWrong(t: Tls, q: Problem)
    requires IdentitiesProblem(t.identities).Some? && Place(IdentitiesProblem(t.identities).value) == 7
    requires EarlyProblem(t).Some? && Place(q) < Place(EarlyProblem(t).value)
    ensures !Wrong(t, q)
  {
  }

  lemma PoolReportsFirst(t: Tls, q: Problem)
    requires EarlyProblem(t).None? && ValidatePool(t.pool.value).0.Some?
    ensures Wrong(t, ValidatePool(t.pool.value).0.value)
    ensures Place(q) < Place(ValidatePool(t.pool.value).0.value) ==> !Wrong(t, q)
  {
    IdentitiesAccepted(t.identities);
    AcceptableIsNotWrong(t.identities, q);
  }

  /** Validate reports a problem that is there, of the first kind in its order; and also when it fails it
      leaves everything alone but the letter case of the pool's mode, and of its encoding where it got that far. */
  lemma ReportsFirstProblem(t: Tls, q: Problem)
    requires ValidateView(t).0.Some?
    ensures Wrong(t, ValidateView(t).0.value)
    ensures Place(q) < Place(ValidateView(t).0.value) ==> !Wrong(t, q)
    ensures Place(ValidateView(t).0.value) < 9 || ValidateView(t).0.value.ModeMissing? ==> ValidateView(t).1 == t
    ensures Place(ValidateView(t).0.value) == 9 && !ValidateView(t).0.value.ModeMissing? ==>
              && t.pool.Some? && t.pool.value.mode.Some?
              && var p := t.pool.value;
                 ValidateView(t).1 == t.(pool := Some(p.(
                   mode := Some(Lower(p.mode.value)),
                   encoding := if p.path.Some? && p.encoding.Some? then Some(Lower(p.encoding.value)) else p.encoding)))
  {
    if EarlyProblem(t).Some? {
      EarlyReports(t);
      if Place(q) < Place(EarlyProblem(t).value) { EarlyReportsFirst(t, q); }
      if IdentitiesProblem(t.identities).Some? { IdentitiesReportFirst(t.identities); }
    } else {
      PoolReportsFirst(t, q);
    }
  }

  // The builder.

  type Cert = nat

  /** A tls.Certificate: the leaf and the certificates that vouch for it. */
  type Chain = seq<Cert>

  datatype Entry = Entry(name: string, isDir: bool)

  datatype Env = Env(
    readDir: string -> Option<seq<Entry>>,
    join: (string, string) -> string,
    decode64: string -> Option<string>,
    loadPem: string -> Option<seq<Cert>>,                    // read a file and append the certificates in it
    loadPkcs12: (string, string) -> Option<seq<Cert>>,       // read a file and decode it with a password
    loadKeyPair: (string, string) -> Option<Chain>,
    systemPool: Option<seq<Cert>>)

  datatype Why = EnvFailure | BadVersions | TooManyCiphers | UnknownName | BadEncoding | BadMode

  datatype Outcome<+T> = Crash | Failed(why: Why) | Ok(value: T)

  function Names(entries: seq<Entry>, path: string, env: Env): seq<string> {
    if entries == [] then []
    else
      var last := entries[|entries| - 1];
      Names(entries[..|entries| - 1], path, env) + (if last.isDir then [] else [env.join(path, last.name)])
  }

  /** `files` are the entries that are not directories, each once and in their order, under the path. */
  ghost predicate ListsFiles(env: Env, path: string, entries: seq<Entry>, files: seq<string>) {
    exists idx: seq<nat> :: PicksFiles(env, path, entries, files, idx)
  }

  ghost predicate PicksFiles(env: Env, path: string, entries: seq<Entry>, files: seq<string>, idx: seq<nat>) {
    && Increasing(idx) && |idx| == |files|
    && (forall i: nat :: i in idx <==> i < |entries| && !entries[i].isDir)
    && (forall k :: 0 <= k < |idx| ==> idx[k] < |entries| && files[k] == env.join(path, entries[idx[k]].name))
  }

  lemma PicksOneMore(env: Env, path: string, entries: seq<Entry>, e: Entry, files: seq<string>, idx: seq<nat>)
    requires PicksFiles(env, path, entries, files, idx)
    ensures e.isDir ==> PicksFiles(env, path, entries + [e], files, idx)
    ensures !e.isDir ==> PicksFiles(env, path, entries + [e], files + [env.join(path, e.name)], idx + [|entries|])
  {
    SnocPicks(idx, |entries|);
  }

  lemma {:induction false} NamesPick(env: Env, path: string, entries: seq<Entry>) returns (idx: seq<nat>)
    ensures PicksFiles(env, path, entries, Names(entries, path, env), idx)
  {
    if entries == [] {
      idx := [];
    } else {
      var n := |entries| - 1;
      var before := entries[..n];
      idx := NamesPick(env, path, before);
      PicksOneMore(env, path, before, entries[n], Names(before, path, env), idx);
      assert entries == before + [entries[n]];
      if entries[n].isDir {
        assert Names(entries, path, env) == Names(before, path, env);
      } else {
        idx := idx + [n];
      }
    }
  }

  lemma NamesListFiles(env: Env, path: string, entries: seq<Entry>)
    ensures ListsFiles(env, path, entries, Names(entries, path, env))
  {
    var idx := NamesPick(env, path, entries);
  }

  function FindCerts(env: Env, p: Pool): Outcome<seq<string>> {
    if p.mode.None? then Crash
    else if Lower(p.mode.value) == DIRMODE then
      if p.path.None? then Crash
      else match env.readDir(p.path.value)
        case None => Failed(EnvFailure)
        case Some(entries) => Ok(Names(entries, p.path.value, env))
    else if Lower(p.mode.value) == FILEMODE then if p.path.None? then Crash else Ok([p.path.value])
    else Failed(BadMode)
  }

  /** findCertsFromPath: the loop over a directory. */
  method ListDirectory(env: Env, path: string, entries: seq<Entry>) returns (files: seq<string>)
    ensures files == Names(entries, path, env) && ListsFiles(env, path, entries, files)
  {
    files := [];
    for i := 0 to |entries|
      invariant files == Names(entries[..i], path, env)
    {
      assert entries[..i + 1][..i] == entries[..i];
      if entries[i].isDir { continue; }
      files := files + [env.join(path, entries[i].name)];
    }
    assert entries[..|entries|] == entries;
    NamesListFiles(env, path, entries);
  }

  /** The certificates of the files that load, in order. */
  function Gather(files: seq<string>, load: string -> Option<seq<Cert>>): seq<Cert> {
    if files == [] then []
    else
      var last := load(files[|files| - 1]);
      Gather(files[..|files| - 1], load) + (if last.Some? then last.value else [])
  }

  /** A pool fails to build iff there are files and none of them loads. */
  method BuildFrom(files: seq<string>, load: string -> Option<seq<Cert>>) returns (r: Outcome<seq<Cert>>)
    ensures r == Assemble(files, load)
  {
    var pool: seq<Cert>, failedCerts: seq<string>, addedCerts := [], [], false;
    for i := 0 to |files|
      invariant pool == Gather(files[..i], load)
      invariant addedCerts <==> exists j :: 0 <= j < i && load(files[j]).Some?
      invariant failedCerts == [] <==> forall j :: 0 <= j < i ==> load(files[j]).Some?
    {
      assert files[..i + 1][..i] == files[..i];
      var certs := load(files[i]);
      if certs.None? {
        failedCerts := failedCerts + [files[i]];
      } else {
        pool := pool + certs.value;
        addedCerts := true;
      }
    }
    assert files[..|files|] == files;
    if failedCerts != [] && !addedCerts { return Failed(EnvFailure); }
    return Ok(pool);
  }

  function Assemble(files: seq<string>, load: string -> Option<seq<Cert>>): Outcome<seq<Cert>> {
    if files != [] && forall i :: 0 <= i < |files| ==> load(files[i]).None? then Failed(EnvFailure)
    else Ok(Gather(files, load))
  }

  function WithPassword(env: Env, pass: string): string -> Option<seq<Cert>> { file => env.loadPkcs12(file, pass) }

  function BuildPool(env: Env, p: Pool): Outcome<seq<Cert>> {
    if p.encoding.None? then Crash
    else if Lower(p.encoding.value) == PEM then
      match FindCerts(env, p)
      case Ok(files) => Assemble(files, env.loadPem)
      case Failed(why) => Failed(why)
      case Crash => Crash
    else if Lower(p.encoding.value) == PKCS12 then
      if p.password.None? then Crash
      else match env.decode64(p.password.value)
        case None => Failed(EnvFailure)
        case Some(pass) =>
          match FindCerts(env, p)
          case Ok(files) => Assemble(files, WithPassword(env, pass))
          case Failed(why) => Failed(why)
          case Crash => Crash
    else Failed(BadEncoding)
  }

  function SystemPool(env: Env): Outcome<seq<Cert>> {
    if env.systemPool.None? then Failed(EnvFailure) else Ok(env.systemPool.value)
  }

  function GetTrustedCAs(env: Env, pool: Option<Pool>): Outcome<seq<Cert>> {
    if pool.None? then SystemPool(env)
    else if pool.value.mode.None? then Crash
    else if pool.value.mode.value != SYSMODE then BuildPool(env, pool.value)
    else SystemPool(env)
  }

  function TLSVersions(t: Tls): Outcome<(nat, nat)> {
    if t.min.Some? && t.min.value.OtherVersion? then Failed(UnknownName)
    else if t.max.Some? && t.max.value.OtherVersion? then Failed(UnknownName)
    else
      var min := if t.min.Some? then VersionNumber(t.min.value) else 0;
      var max := if t.max.Some? then VersionNumber(t.max.value) else 0;
      if min > max then Failed(BadVersions) else Ok((min, max))
  }

  /** Unset versions stay zero, the library's default. So a newest version may be set alone, and an oldest one
      may not: it exceeds the unset newest. */
  lemma VersionsIff(t: Tls)
    requires (t.min.Some? ==> !t.min.value.OtherVersion?) && (t.max.Some? ==> !t.max.value.OtherVersion?)
    ensures TLSVersions(t) == Failed(BadVersions) <==> t.min.Some? && (t.max.None? || Newer(t.min.value, t.max.value))
    ensures TLSVersions(t).Ok? <==> TLSVersions(t) != Failed(BadVersions)
    ensures TLSVersions(t).Ok? ==>
              && (if t.min.Some? then TLSVersions(t).value.0 == VersionNumber(t.min.value) else TLSVersions(t).value.0 == 0)
              && (if t.max.Some? then TLSVersions(t).value.1 == VersionNumber(t.max.value) else TLSVersions(t).value.1 == 0)
  {
    if t.min.Some? && t.max.Some? { NumbersFollowVersions(t.min.value, t.max.value); }
  }

  method TLSCiphers(t: Tls) returns (r: Outcome<seq<nat>>)
    ensures r == CipherIndices(t.ciphers)
  {
    if |t.ciphers| > CIPHER_COUNT { return Failed(TooManyCiphers); }
    var ciphers := new nat[|t.ciphers|];
    for i := 0 to |t.ciphers|
      invariant forall j :: 0 <= j < i ==> KnownCipher(t.ciphers[j]) && ciphers[j] == t.ciphers[j].index
    {
      if !KnownCipher(t.ciphers[i]) { return Failed(UnknownName); }
      ciphers[i] := t.ciphers[i].index;
    }
    assert ciphers[..] == CipherIndices(t.ciphers).value;
    return Ok(ciphers[..]);
  }

  function CipherIndices(cs: seq<Cipher>): Outcome<seq<nat>> {
    if |cs| > CIPHER_COUNT then Failed(TooManyCiphers)
    else if exists i :: 0 <= i < |cs| && !KnownCipher(cs[i]) then Failed(UnknownName)
    else Ok(seq(|cs|, i requires 0 <= i < |cs| => if KnownCipher(cs[i]) then cs[i].index else 0))
  }

  /** The one chain that an identity stands for; none if it names neither a pair nor a store. */
  function LoadIdentity(env: Env, b: Identity): Outcome<Option<Chain>> {
    if b.pair.Some? then
      if b.pair.value.certPath.None? || b.pair.value.keyPath.None? then Crash
      else match env.loadKeyPair(b.pair.value.certPath.value, b.pair.value.keyPath.value)
        case None => Failed(EnvFailure)
        case Some(chain) => Ok(Some(chain))
    else if b.store.Some? then
      if b.store.value.password.None? then Crash
      else match env.decode64(b.store.value.password.value)
        case None => Failed(EnvFailure)
        case Some(pass) =>
          if b.store.value.path.None? then Crash
          else match env.loadPkcs12(b.store.value.path.value, pass)
            case None => Failed(EnvFailure)
            case Some(chain) => Ok(Some(chain))
    else Ok(None)
  }

  function OneChain(c: Option<Chain>): seq<Chain> { if c.Some? then [c.value] else [] }

  function IdentityCertificates(env: Env, ids: seq<Option<Identity>>): Outcome<seq<Chain>> {
    if ids == [] then Ok([])
    else
      var first := if ids[0].None? then Ok(None) else LoadIdentity(env, ids[0].value);
      if !first.Ok? then Rethrow(first)
      else
        var others := IdentityCertificates(env, ids[1..]);
        if others.Ok? then Ok(OneChain(first.value) + others.value) else others
  }

  method OurIdentityCertificates(env: Env, ids: seq<Option<Identity>>) returns (r: Outcome<seq<Chain>>)
    ensures r == IdentityCertificates(env, ids)
  {
    var cs: seq<Chain> := [];
    assert ids[0..] == ids;
    PrefixedNone(IdentityCertificates(env, ids));
    for i := 0 to |ids|
      invariant IdentityCertificates(env, ids) == Prefixed(cs, IdentityCertificates(env, ids[i..]))
    {
      assert ids[i..][1..] == ids[i + 1..];
      if ids[i].Some? {
        var c := LoadIdentity(env, ids[i].value);
        if !c.Ok? { return Rethrow(c); }
        PrefixedMore(cs, OneChain(c.value), IdentityCertificates(env, ids[i + 1..]));
        cs := cs + OneChain(c.value);
      } else {
        PrefixedMore(cs, [], IdentityCertificates(env, ids[i + 1..]));
        assert cs + [] == cs;
      }
    }
    assert ids[|ids|..] == [] && cs + [] == cs;
    return Ok(cs);
  }

  ghost function Prefixed(done: seq<Chain>, others: Outcome<seq<Chain>>): Outcome<seq<Chain>> {
    if others.Ok? then Ok(done + others.value) else others
  }

  lemma PrefixedNone(others: Outcome<seq<Chain>>)
    ensures Prefixed([], others) == others
  {
    if others.Ok? { assert [] + others.value == others.value; }
  }

  lemma PrefixedMore(done: seq<Chain>, c: seq<Chain>, others: Outcome<seq<Chain>>)
    ensures Prefixed(done + c, others) == Prefixed(done, if others.Ok? then Ok(c + others.value) else others)
  {
    if others.Ok? { assert (done + c) + others.value == done + (c + others.value); }
  }

  datatype Settings = Settings(
    min: nat, max: nat, ciphers: seq<nat>, certificates: seq<Chain>, trusted: seq<Cert>,
    clientAuth: Auth, renegotiation: Renegotiation, insecure: bool)

  const INSECURE := Settings(0, 0, [], [], [], NoClientCert, RenegotiateNever, true)

  function MakeSelfSigned(env: Env, t: Tls): Outcome<Settings> {
    match TLSVersions(t)
    case Failed(why) => Failed(why)
    case Crash => Crash
    case Ok(v) =>
      match IdentityCertificates(env, t.identities)
      case Failed(why) => Failed(why)
      case Crash => Crash
      case Ok(certs) => Ok(Settings(v.0, v.1, [], certs, [], NoClientCert, RenegotiateNever, false))
  }

  function MakeDefault(env: Env, t: Tls): Outcome<Settings> {
    var trusted, versions, ciphers := GetTrustedCAs(env, t.pool), TLSVersions(t), CipherIndices(t.ciphers);
    if !trusted.Ok? then Rethrow(trusted)
    else if !versions.Ok? then Rethrow(versions)
    else if !ciphers.Ok? then Rethrow(ciphers)
    else if t.clientAuth.None? then Crash
    else if t.clientAuth.value.OtherAuth? then Failed(UnknownName)
    else
      var certs := IdentityCertificates(env, t.identities);
      if !certs.Ok? then Rethrow(certs)
      else if t.renegotiation.None? then Crash
      else if t.renegotiation.value.OtherRenegotiation? then Failed(UnknownName)
      else Ok(Settings(versions.value.0, versions.value.1, ciphers.value, certs.value, trusted.value,
                       t.clientAuth.value, t.renegotiation.value, false))
  }

  function Rethrow<T, U>(o: Outcome<T>): Outcome<U>
    requires !o.Ok?
  {
    if o.Crash? then Crash else Failed(o.why)
  }

  function MakeTLSConfig(env: Env, t: Tls): Outcome<Settings> {
    if t.insecure then Ok(INSECURE) else if t.selfSigned then MakeSelfSigned(env, t) else MakeDefault(env, t)
  }

  // What validation buys.

  /** The environment holds `chain` where the identity says that it is. */
  ghost predicate Holds(env: Env, b: Identity, chain: Chain) {
    if b.pair.Some? then
      && b.pair.value.certPath.Some? && b.pair.value.keyPath.Some?
      && env.loadKeyPair(b.pair.value.certPath.value, b.pair.value.keyPath.value) == Some(chain)
    else
      && b.store.Some? && b.store.value.password.Some? && b.store.value.path.Some?
      && env.decode64(b.store.value.password.value).Some?
      && env.loadPkcs12(b.store.value.path.value, env.decode64(b.store.value.password.value).value) == Some(chain)
  }

  ghost predicate IdentityLoads(env: Env, b: Identity) { exists chain :: Holds(env, b, chain) }

  ghost predicate IdentitiesLoad(env: Env, ids: seq<Option<Identity>>) {
    forall i :: 0 <= i < |ids| && ids[i].Some? ==> IdentityLoads(env, ids[i].value)
  }

  /** One chain per identity, in the same order, each the one that the environment holds for it. */
  ghost predicate Presents(env: Env, ids: seq<Option<Identity>>, chains: seq<Chain>) {
    |chains| == |ids| && forall i :: 0 <= i < |ids| ==> ids[i].Some? && Holds(env, ids[i].value, chains[i])
  }

  ghost predicate SomeFileLoads(files: seq<string>, load: string -> Option<seq<Cert>>) {
    files == [] || exists i :: 0 <= i < |files| && load(files[i]).Some?
  }

  /** The files that the path stands for can be listed. */
  ghost predicate PathReads(env: Env, p: Pool) {
    p.path.Some? && (p.mode == Some(DIRMODE) ==> env.readDir(p.path.value).Some?)
  }

  ghost function FilesOf(env: Env, p: Pool): seq<string>
    requires PathReads(env, p)
  {
    if p.mode == Some(DIRMODE) then Names(env.readDir(p.path.value).value, p.path.value, env) else [p.path.value]
  }

  /** The path names no file at all, or one that loads; in a directory every entry but directories counts. */
  ghost predicate PathLoads(env: Env, p: Pool, load: string -> Option<seq<Cert>>)
    requires PathReads(env, p)
  {
    if p.mode != Some(DIRMODE) then load(p.path.value).Some?
    else EntryLoads(env, p.path.value, env.readDir(p.path.value).value, load)
  }

  ghost predicate EntryLoads(env: Env, path: string, entries: seq<Entry>, load: string -> Option<seq<Cert>>) {
    || (forall i :: 0 <= i < |entries| ==> entries[i].isDir)
    || exists i :: 0 <= i < |entries| && !entries[i].isDir && load(env.join(path, entries[i].name)).Some?
  }

  lemma FileMeansEntry(env: Env, path: string, entries: seq<Entry>, files: seq<string>, idx: seq<nat>,
                       load: string -> Option<seq<Cert>>)
    requires PicksFiles(env, path, entries, files, idx) && SomeFileLoads(files, load)
    ensures EntryLoads(env, path, entries, load)
  {
    if files == [] {
      assert forall i: nat :: i < |entries| ==> i !in idx;
    } else {
      var i :| 0 <= i < |files| && load(files[i]).Some?;
      assert idx[i] in idx;
      assert !entries[idx[i]].isDir;
    }
  }

  lemma EntryMeansFile(env: Env, path: string, entries: seq<Entry>, files: seq<string>, idx: seq<nat>,
                       load: string -> Option<seq<Cert>>)
    requires PicksFiles(env, path, entries, files, idx) && EntryLoads(env, path, entries, load)
    ensures SomeFileLoads(files, load)
  {
    assert |idx| == 0 || idx[0] in idx;
    if i :| 0 <= i < |entries| && !entries[i].isDir && load(env.join(path, entries[i].name)).Some? {
      assert i in idx;
      var k :| 0 <= k < |idx| && idx[k] == i;
      assert load(files[k]).Some?;
    }
  }

  lemma PathLoadsIff(env: Env, p: Pool, load: string -> Option<seq<Cert>>)
    requires PathReads(env, p)
    ensures SomeFileLoads(FilesOf(env, p), load) <==> PathLoads(env, p, load)
  {
    var files := FilesOf(env, p);
    if p.mode == Some(DIRMODE) {
      var path, entries := p.path.value, env.readDir(p.path.value).value;
      NamesListFiles(env, path, entries);
      var idx: seq<nat> :| PicksFiles(env, path, entries, files, idx);
      if SomeFileLoads(files, load) { FileMeansEntry(env, path, entries, files, idx, load); }
      if EntryLoads(env, path, entries, load) { EntryMeansFile(env, path, entries, files, idx, load); }
    } else {
      assert files[0] == p.path.value;
    }
  }

  ghost predicate PoolLoads(env: Env, p: Pool) {
    if p.mode == Some(SYSMODE) then env.systemPool.Some?
    else if p.encoding == Some(PKCS12) then
      && p.password.Some? && env.decode64(p.password.value).Some? && PathReads(env, p)
      && PathLoads(env, p, WithPassword(env, env.decode64(p.password.value).value))
    else
      PathReads(env, p) && PathLoads(env, p, env.loadPem)
  }

  predicate ModeKnown(p: Pool) { p.mode.Some? && p.mode.value in [DIRMODE, FILEMODE, SYSMODE] }

  ghost predicate Validated(t: Tls) { exists u :: ValidateView(u) == (None, t) }

  /** A pool as validation leaves it. */
  predicate PoolReady(p: Pool) {
    && p.mode.Some? && Lower(p.mode.value) == p.mode.value
    && (p.mode.value != SYSMODE ==>
          && p.path.Some? && p.encoding.Some? && Lower(p.encoding.value) == p.encoding.value
          && (p.encoding.value == PEM || p.encoding.value == PKCS12)
          && (p.encoding.value == PKCS12 ==> p.password.Some?))
  }

  lemma PoolReadyAfter(p: Pool)
    requires ValidatePool(p).0.None?
    ensures PoolReady(ValidatePool(p).1)
  {
    LowerTwice(p.mode.value);
    if p.encoding.Some? { LowerTwice(p.encoding.value); }
  }

  lemma ValidatedPoolReady(t: Tls)
    requires Validated(t)
    ensures EarlyProblem(t).None? && PoolReady(t.pool.value)
  {
    var u :| ValidateView(u) == (None, t);
    PoolReadyAfter(u.pool.value);
    EarlyIgnoresPool(u, ValidatePool(u.pool.value).1);
  }

  lemma ReadyFiles(env: Env, p: Pool)
    requires PoolReady(p) && p.mode.value != SYSMODE
    ensures FindCerts(env, p) == if !ModeKnown(p) then Failed(BadMode)
                                 else if PathReads(env, p) then Ok(FilesOf(env, p))
                                 else Failed(EnvFailure)
  {
  }

  lemma AssembleIff(files: seq<string>, load: string -> Option<seq<Cert>>)
    ensures Assemble(files, load) == if SomeFileLoads(files, load) then Ok(Gather(files, load)) else Failed(EnvFailure)
  {
  }

  lemma ReadyPem(env: Env, p: Pool)
    requires PoolReady(p) && p.mode.value != SYSMODE && p.encoding.value == PEM
    ensures BuildPool(env, p) == if !ModeKnown(p) then Failed(BadMode)
                                 else if PoolLoads(env, p) then Ok(Gather(FilesOf(env, p), env.loadPem))
                                 else Failed(EnvFailure)
  {
    ReadyFiles(env, p);
    if PathReads(env, p) {
      AssembleIff(FilesOf(env, p), env.loadPem);
      PathLoadsIff(env, p, env.loadPem);
    }
  }

  lemma ReadyPkcs12(env: Env, p: Pool)
    requires PoolReady(p) && p.mode.value != SYSMODE && p.encoding.value == PKCS12
    ensures BuildPool(env, p) ==
              var pass := env.decode64(p.password.value);
              if pass.None? then Failed(EnvFailure)
              else if !ModeKnown(p) then Failed(BadMode)
              else if PoolLoads(env, p) then Ok(Gather(FilesOf(env, p), WithPassword(env, pass.value)))
              else Failed(EnvFailure)
  {
    ReadyFiles(env, p);
    var pass := env.decode64(p.password.value);
    if PathReads(env, p) && pass.Some? {
      AssembleIff(FilesOf(env, p), WithPassword(env, pass.value));
      PathLoadsIff(env, p, WithPassword(env, pass.value));
    }
  }

  /** Building a validated pool: it fails for an unknown mode or for want of files, and only then. */
  lemma ReadyPool(env: Env, p: Pool)
    requires PoolReady(p)
    ensures var r := GetTrustedCAs(env, Some(p));
            && !r.Crash?
            && (r.Ok? <==> ModeKnown(p) && PoolLoads(env, p))
            && (r.Failed? ==> (r.why.BadMode? && !ModeKnown(p)) || (r.why.EnvFailure? && !PoolLoads(env, p)))
  {
    if p.mode.value != SYSMODE {
      if p.encoding.value == PEM { ReadyPem(env, p); } else { ReadyPkcs12(env, p); }
    }
  }

  lemma ReadyIdentity(env: Env, b: Identity)
    requires IdentityProblem(b).None?
    ensures LoadIdentity(env, b).Ok? <==> IdentityLoads(env, b)
    ensures LoadIdentity(env, b).Ok? ==> LoadIdentity(env, b).value.Some? && Holds(env, b, LoadIdentity(env, b).value.value)
    ensures !LoadIdentity(env, b).Ok? ==> LoadIdentity(env, b) == Failed(EnvFailure)
  {
    if LoadIdentity(env, b).Ok? { assert Holds(env, b, LoadIdentity(env, b).value.value); }
  }

  lemma {:induction false} ReadyIdentities(env: Env, ids: seq<Option<Identity>>)
    requires IdentitiesProblem(ids).None?
    ensures IdentityCertificates(env, ids).Ok? <==> IdentitiesLoad(env, ids)
    ensures IdentityCertificates(env, ids).Ok? ==> Presents(env, ids, IdentityCertificates(env, ids).value)
    ensures !IdentityCertificates(env, ids).Ok? ==> IdentityCertificates(env, ids) == Failed(EnvFailure)
  {
    if ids != [] {
      ReadyIdentity(env, ids[0].value);
      ReadyIdentities(env, ids[1..]);
      assert forall i :: 0 < i < |ids| ==> ids[i] == ids[1..][i - 1];
      assert forall i :: 0 <= i < |ids[1..]| ==> ids[1..][i] == ids[i + 1];
    }
  }

  /** The settings that are wrong whatever the environment holds. */
  ghost predicate WrongSettings(t: Tls)
    requires EarlyProblem(t).None?
  {
    || Newer(t.min.value, t.max.value)
    || |t.ciphers| > CIPHER_COUNT
    || !ModeKnown(t.pool.value)
  }

  ghost predicate EnvironmentFails(env: Env, t: Tls)
    requires EarlyProblem(t).None?
  {
    !PoolLoads(env, t.pool.value) || !IdentitiesLoad(env, t.identities)
  }

  /** The settings a validated configuration has looked up. */
  lemma ReadySettings(t: Tls)
    requires EarlyProblem(t).None?
    ensures TLSVersions(t) == var min, max := VersionNumber(t.min.value), VersionNumber(t.max.value);
                              if Newer(t.min.value, t.max.value) then Failed(BadVersions) else Ok((min, max))
    ensures !CipherIndices(t.ciphers).Crash? && (CipherIndices(t.ciphers).Ok? <==> |t.ciphers| <= CIPHER_COUNT)
    ensures CipherIndices(t.ciphers).Failed? ==> CipherIndices(t.ciphers).why.TooManyCiphers?
  {
    NumbersFollowVersions(t.min.value, t.max.value);
  }

  /** What a failure of the default path says is so, and everything that is looked at before is in order: the
      pool, then the versions, the ciphers and the identities. */
  ghost predicate RightReason(env: Env, t: Tls, why: Why)
    requires EarlyProblem(t).None?
  {
    var poolOk := ModeKnown(t.pool.value) && PoolLoads(env, t.pool.value);
    match why
    case BadMode => !ModeKnown(t.pool.value)
    case BadVersions => poolOk && Newer(t.min.value, t.max.value)
    case TooManyCiphers => poolOk && !Newer(t.min.value, t.max.value) && |t.ciphers| > CIPHER_COUNT
    case EnvFailure =>
      || !PoolLoads(env, t.pool.value)
      || (poolOk && !Newer(t.min.value, t.max.value) && |t.ciphers| <= CIPHER_COUNT && !IdentitiesLoad(env, t.identities))
    case _ => false
  }

  lemma DefaultAfterValidate(env: Env, t: Tls)
    requires EarlyProblem(t).None? && PoolReady(t.pool.value)
    ensures !MakeDefault(env, t).Crash?
    ensures MakeDefault(env, t).Failed? <==> WrongSettings(t) || EnvironmentFails(env, t)
    ensures MakeDefault(env, t).Failed? ==> RightReason(env, t, MakeDefault(env, t).why)
  {
    ReadyIdentities(env, t.identities);
    ReadyPool(env, t.pool.value);
    ReadySettings(t);
    var trusted, certs := GetTrustedCAs(env, t.pool), IdentityCertificates(env, t.identities);
    if !trusted.Ok? {
      assert MakeDefault(env, t) == Failed(trusted.why);
    } else if !certs.Ok? && !Newer(t.min.value, t.max.value) && |t.ciphers| <= CIPHER_COUNT {
      assert MakeDefault(env, t) == Failed(EnvFailure);
    }
  }

  lemma SelfSignedAfterValidate(env: Env, t: Tls)
    requires EarlyProblem(t).None?
    ensures !MakeSelfSigned(env, t).Crash?
    ensures MakeSelfSigned(env, t).Ok? <==>
              !Newer(t.min.value, t.max.value) && IdentitiesLoad(env, t.identities)
  {
    ReadyIdentities(env, t.identities);
    ReadySettings(t);
  }

  /** After Validate has succeeded MakeTLSConfig never dereferences nil. Its default path fails exactly when
      min exceeds max, more ciphers are listed than there are, or the mode is none of the three, or when
      the environment withholds what the configuration names; each failure says which. */
  lemma MakeAfterValidate(env: Env, t: Tls)
    requires Validated(t)
    ensures EarlyProblem(t).None? && !MakeTLSConfig(env, t).Crash?
    ensures t.insecure ==> MakeTLSConfig(env, t).Ok?
    ensures !t.insecure && t.selfSigned ==>
              (MakeTLSConfig(env, t).Ok? <==>
                 !Newer(t.min.value, t.max.value) && IdentitiesLoad(env, t.identities))
    ensures !t.insecure && !t.selfSigned ==>
              && (MakeTLSConfig(env, t).Failed? <==> WrongSettings(t) || EnvironmentFails(env, t))
              && (MakeTLSConfig(env, t).Failed? ==> RightReason(env, t, MakeTLSConfig(env, t).why))
  {
    ValidatedPoolReady(t);
    if t.selfSigned { SelfSignedAfterValidate(env, t); } else { DefaultAfterValidate(env, t); }
  }

  /** `files` are what the path stands for: the file itself, or the files listed in the directory. */
  ghost predicate PathFiles(env: Env, p: Pool, files: seq<string>) {
    && PathReads(env, p)
    && if p.mode == Some(DIRMODE) then ListsFiles(env, p.path.value, env.readDir(p.path.value).value, files)
       else files == [p.path.value]
  }

  /** `certs` are the certificates of the files one after the other, where a file that does not load has none. */
  ghost predicate LoadedFrom(files: seq<string>, load: string -> Option<seq<Cert>>, certs: seq<Cert>) {
    exists pieces: seq<seq<Cert>> :: Pieces(files, load, pieces) && certs == Concat(pieces)
  }

  ghost predicate Pieces(files: seq<string>, load: string -> Option<seq<Cert>>, pieces: seq<seq<Cert>>) {
    |pieces| == |files| && forall i :: 0 <= i < |files| ==> pieces[i] == if load(files[i]).Some? then load(files[i]).value else []
  }

  lemma {:induction false} GatherPieces(files: seq<string>, load: string -> Option<seq<Cert>>) returns (pieces: seq<seq<Cert>>)
    ensures Pieces(files, load, pieces) && Gather(files, load) == Concat(pieces)
  {
    if files == [] {
      pieces := [];
    } else {
      var n := |files| - 1;
      var before := GatherPieces(files[..n], load);
      pieces := before + [if load(files[n]).Some? then load(files[n]).value else []];
      assert pieces[..n] == before;
      assert forall i :: 0 <= i < n ==> files[..n][i] == files[i];
    }
  }

  ghost predicate TrustedFiles(env: Env, p: Pool, load: string -> Option<seq<Cert>>, certs: seq<Cert>) {
    exists files :: PathFiles(env, p, files) && LoadedFrom(files, load, certs)
  }

  /** The certificates of the system, or of the files that the pool names. */
  ghost predicate IsTrusted(env: Env, p: Pool, certs: seq<Cert>) {
    if p.mode == Some(SYSMODE) then env.systemPool == Some(certs)
    else if p.encoding == Some(PKCS12) then
      && p.password.Some? && env.decode64(p.password.value).Some?
      && TrustedFiles(env, p, WithPassword(env, env.decode64(p.password.value).value), certs)
    else
      TrustedFiles(env, p, env.loadPem, certs)
  }

  lemma GatheredIsTrusted(env: Env, p: Pool, load: string -> Option<seq<Cert>>)
    requires PathReads(env, p)
    ensures TrustedFiles(env, p, load, Gather(FilesOf(env, p), load))
  {
    if p.mode == Some(DIRMODE) { NamesListFiles(env, p.path.value, env.readDir(p.path.value).value); }
    var pieces := GatherPieces(FilesOf(env, p), load);
    assert PathFiles(env, p, FilesOf(env, p));
  }

  lemma TrustedPool(env: Env, p: Pool)
    requires PoolReady(p) && GetTrustedCAs(env, Some(p)).Ok?
    ensures IsTrusted(env, p, GetTrustedCAs(env, Some(p)).value)
  {
    if p.mode.value != SYSMODE {
      if p.encoding.value == PEM {
        ReadyPem(env, p);
        GatheredIsTrusted(env, p, env.loadPem);
      } else {
        ReadyPkcs12(env, p);
        GatheredIsTrusted(env, p, WithPassword(env, env.decode64(p.password.value).value));
      }
    }
  }

  /** Ciphers, trusted pool and policies as tls.Config has them when they are not set. */
  predicate HasNoPolicies(v: Settings) {
    v.ciphers == [] && v.trusted == [] && v.clientAuth.NoClientCert? && v.renegotiation.RenegotiateNever?
  }

  /** What only the default path carries over. */
  ghost predicate CarriesPolicies(env: Env, t: Tls, v: Settings) {
    && |v.ciphers| == |t.ciphers| <= CIPHER_COUNT
    && (forall i :: 0 <= i < |v.ciphers| ==> v.ciphers[i] < CIPHER_COUNT && t.ciphers[i] == Suite(v.ciphers[i]))
    && Some(v.clientAuth) == t.clientAuth && Some(v.renegotiation) == t.renegotiation
    && t.pool.Some? && IsTrusted(env, t.pool.value, v.trusted)
  }

  lemma DefaultCarries(env: Env, t: Tls)
    requires Validated(t) && MakeDefault(env, t).Ok?
    ensures CarriesPolicies(env, t, MakeDefault(env, t).value)
  {
    ValidatedPoolReady(t);
    TrustedPool(env, t.pool.value);
  }

  /** What a successful build carries over from a validated configuration: on both paths the versions and, in
      order, one certificate chain per identity; on the default path the ciphers, the two policies and the
      trusted pool as well, none of which a self-signed build looks at. An insecure build carries nothing
      but the flag. */
  lemma SettingsCarryConfig(env: Env, t: Tls)
    requires Validated(t) && MakeTLSConfig(env, t).Ok?
    ensures EarlyProblem(t).None?
    ensures var v := MakeTLSConfig(env, t).value;
            && v.insecure == t.insecure
            && (t.insecure ==> v.min == v.max == 0 && v.certificates == [])
            && (!t.insecure ==> v.min == VersionNumber(t.min.value) <= v.max == VersionNumber(t.max.value))
            && (!t.insecure ==> Presents(env, t.identities, v.certificates))
            && (if t.insecure || t.selfSigned then HasNoPolicies(v) else CarriesPolicies(env, t, v))
  {
    ValidatedPoolReady(t);
    ReadySettings(t);
    ReadyIdentities(env, t.identities);
    if !t.insecure && !t.selfSigned { DefaultCarries(env, t); }
  }

  /** A mode that only lower-casing turns into the system mode. */
  predicate HiddenSystemMode(p: Pool) { p.mode.Some? && p.mode.value != SYSMODE && Lower(p.mode.value) == SYSMODE }

  lemma SameFiles(env: Env, p: Pool, q: Pool)
    requires LowerCased(p, q)
    ensures FindCerts(env, q) == FindCerts(env, p)
  {
    LowerTwice(p.mode.value);
  }

  lemma SameBuild(env: Env, p: Pool, q: Pool)
    requires LowerCased(p, q) && p.encoding.Some? && q.encoding == Some(Lower(p.encoding.value))
    ensures BuildPool(env, q) == BuildPool(env, p)
  {
    SameFiles(env, p, q);
    LowerTwice(p.encoding.value);
  }

  lemma SamePool(env: Env, p: Pool, q: Pool)
    requires PoolAcceptable(p) && LowerCased(p, q) && !HiddenSystemMode(p)
    ensures GetTrustedCAs(env, Some(q)) == GetTrustedCAs(env, Some(p))
  {
    if p.mode.value == SYSMODE {
      LowerOf(SYSMODE, SYSMODE);
    } else {
      SameBuild(env, p, q);
    }
  }

  /** A pool that Validate would accept but has not seen. */
  lemma UnnormalisedPool(env: Env, p: Pool)
    requires PoolAcceptable(p)
    ensures GetTrustedCAs(env, Some(p)).Crash? <==>
              HiddenSystemMode(p) && (p.encoding.None? || (Lower(p.encoding.value) == PKCS12 && p.password.None?))
  {
  }

  lemma SameResult(env: Env, t: Tls)
    requires Acceptable(t) && !HiddenSystemMode(t.pool.value)
    ensures MakeDefault(env, ValidateView(t).1) == MakeDefault(env, t)
  {
    ValidateAccepts(t);
    var q: Pool :| ValidateView(t).1 == t.(pool := Some(q)) && LowerCased(t.pool.value, q);
    SamePool(env, t.pool.value, q);
  }

  /** The builder does depend on the lower-casing, and exactly here: a configuration that Validate would
      accept, built before it has been through Validate, crashes the default path iff its mode is the system
      mode in other letters and the encoding that the builder then looks at is missing, or asks for a missing
      password. With any other mode the lower-casing makes no difference to the result. */
  lemma NormalisationMatters(env: Env, t: Tls)
    requires Acceptable(t) && !t.insecure && !t.selfSigned
    ensures var p := t.pool.value;
            MakeTLSConfig(env, t).Crash? <==>
              HiddenSystemMode(p) && (p.encoding.None? || (Lower(p.encoding.value) == PKCS12 && p.password.None?))
    ensures !HiddenSystemMode(t.pool.value) ==> MakeTLSConfig(env, ValidateView(t).1) == MakeTLSConfig(env, t)
  {
    var p := t.pool.value;
    IdentitiesAccepted(t.identities);
    ReadyIdentities(env, t.identities);
    ReadySettings(t);
    UnnormalisedPool(env, p);
    if !HiddenSystemMode(p) { SameResult(env, t); }
  }

  /** Such configurations exist. */
  lemma HiddenSystemModeCrashes(env: Env, id: Identity)
    requires IdentityAcceptable(id)
    ensures exists t :: Acceptable(t) && MakeTLSConfig(env, t).Crash?
  {
    var pool := Pool(Some("SYSTEM"), None, None, None);
    var t := Tls(Some(V12), Some(V13), Some(NoClientCert), [], [Some(id)], Some(pool), false, false, Some(RenegotiateNever));
    LowerOf("SYSTEM", SYSMODE);
    assert Acceptable(t);
    NormalisationMatters(env, t);
  }

  lemma {:induction false} LowerOf(s: string, r: string)
    requires |s| == |r|
    requires forall i :: 0 <= i < |s| ==> r[i] == if 'A' <= s[i] <= 'Z' then s[i] + 32 as char else s[i]
    ensures Lower(s) == r
  {
    if s != "" { LowerOf(s[1..], r[1..]); }
  }
}
