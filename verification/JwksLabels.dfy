/** What the labels of a run of the key-set cache say, read off the labels alone: what the clock shows, what
    each goroutine set out to do and was answered, what is in the cache and which verdicts were due. The
    states of the run say the same. */
module JwksLabels {
  import opened Runs
  import opened Scope
  import opened JwksCache

  function Clock(start: int, ls: seq<Label>): int {
    if ls == [] then start
    else Clock(start, ls[..|ls| - 1]) + (if ls[|ls| - 1].Tick? then ls[|ls| - 1].d else 0)
  }

  datatype Begun = Begun(job: Job, since: int)

  /** What goroutine `t` set out to do last, and when. */
  function LastBegun(start: int, ls: seq<Label>, t: nat): Option<Begun> {
    if ls == [] then None
    else
      var before, l := ls[..|ls| - 1], ls[|ls| - 1];
      if l.BeginVerify? && l.t == t then Some(Begun(Verify(l.jwt), Clock(start, before)))
      else if l.BeginRefresh? && l.t == t then Some(Begun(Background, Clock(start, before)))
      else LastBegun(start, before, t)
  }

  /** The last set that the issuer served to goroutine `t`, and when. */
  function LastAnswer(start: int, ls: seq<Label>, t: nat): Option<Served> {
    if ls == [] then None
    else
      var before, l := ls[..|ls| - 1], ls[|ls| - 1];
      if l.Respond? && l.t == t then Some(Served(l.keys, Clock(start, before))) else LastAnswer(start, before, t)
  }

  /** The windows from response to Put, in the order of the Puts. */
  function Windows(start: int, ls: seq<Label>): seq<Window> {
    if ls == [] then []
    else
      var before, l := ls[..|ls| - 1], ls[|ls| - 1];
      if l.PutSet? && LastAnswer(start, before, l.t).Some? then
        Windows(start, before) + [Window(LastAnswer(start, before, l.t).value.at, Clock(start, before))]
      else Windows(start, before)
  }

  /** The cache as the last Put left it. */
  function CacheAfter(start: int, ls: seq<Label>): Cache {
    if ls == [] then Cache(None, ZERO_TIME)
    else
      var before, l := ls[..|ls| - 1], ls[|ls| - 1];
      if l.PutSet? && LastAnswer(start, before, l.t).Some? then
        Cache(LastAnswer(start, before, l.t), Clock(start, before))
      else CacheAfter(start, before)
  }

  /** A set is there and no older than the ttl, which the largest duration never is. */
  predicate Hit(cfg: Config, c: Cache, now: int) { c.jwks.Some? && (now <= c.setTime + cfg.ttl || cfg.ttl >= MAX_DURATION) }

  function DueTo(cfg: Config, jwt: Jwt, now: int, source: Source): seq<Verdict> {
    if |jwt.kids| != 1 || source.NoKeys? then [] else [Verdict(jwt, now, source, Judge(cfg, jwt, source.jwks))]
  }

  /** The verdict that is due at label `l`, after the labels `before`. */
  function Due(cfg: Config, start: int, before: seq<Label>, l: Label): seq<Verdict> {
    var now := Clock(start, before);
    match l
    case BeginVerify(_, jwt) =>
      var c := CacheAfter(start, before);
      if |jwt.kids| != 1 then [Verdict(jwt, now, NoKeys, BadHeaders)]
      else if Hit(cfg, c, now) then DueTo(cfg, jwt, now, FromCache(c.jwks.value, c.setTime))
      else []
    case PutSet(t) =>
      var begun, answer := LastBegun(start, before, t), LastAnswer(start, before, t);
      if begun.Some? && begun.value.job.Verify? && answer.Some? then
        DueTo(cfg, begun.value.job.jwt, now, FromFetch(answer.value, begun.value.since))
      else []
    case FetchFails(t) =>
      var begun := LastBegun(start, before, t);
      if begun.Some? && begun.value.job.Verify? then [Verdict(begun.value.job.jwt, now, NoKeys, RefreshFailed)] else []
    case _ => []
  }

  function Verdicts(cfg: Config, start: int, ls: seq<Label>): seq<Verdict> {
    if ls == [] then []
    else Verdicts(cfg, start, ls[..|ls| - 1]) + Due(cfg, start, ls[..|ls| - 1], ls[|ls| - 1])
  }

  lemma LabelSnoc(cfg: Config, start: int, ls: seq<Label>, l: Label)
    ensures Clock(start, ls + [l]) == Clock(start, ls) + (if l.Tick? then l.d else 0)
    ensures Verdicts(cfg, start, ls + [l]) == Verdicts(cfg, start, ls) + Due(cfg, start, ls, l)
    ensures l.PutSet? && LastAnswer(start, ls, l.t).Some? ==>
              CacheAfter(start, ls + [l]) == Cache(LastAnswer(start, ls, l.t), Clock(start, ls))
    ensures l.PutSet? && LastAnswer(start, ls, l.t).Some? ==>
              Windows(start, ls + [l]) == Windows(start, ls) + [Window(LastAnswer(start, ls, l.t).value.at, Clock(start, ls))]
    ensures !l.PutSet? ==> CacheAfter(start, ls + [l]) == CacheAfter(start, ls) && Windows(start, ls + [l]) == Windows(start, ls)
  {
    assert (ls + [l])[..|ls|] == ls;
  }

  lemma ThreadSnoc(start: int, ls: seq<Label>, l: Label, t: nat)
    ensures LastBegun(start, ls + [l], t) ==
            if l.BeginVerify? && l.t == t then Some(Begun(Verify(l.jwt), Clock(start, ls)))
            else if l.BeginRefresh? && l.t == t then Some(Begun(Background, Clock(start, ls)))
            else LastBegun(start, ls, t)
    ensures LastAnswer(start, ls + [l], t) ==
            if l.Respond? && l.t == t then Some(Served(l.keys, Clock(start, ls))) else LastAnswer(start, ls, t)
  {
    assert (ls + [l])[..|ls|] == ls;
  }

  ghost predicate ThreadTold(start: int, ls: seq<Label>, t: nat, pc: Pc) {
    && (pc.Fetching? || pc.Fetched? ==> LastBegun(start, ls, t) == Some(Begun(pc.job, pc.since)))
    && (pc.Fetched? ==> LastAnswer(start, ls, t) == Some(pc.jwks))
  }

  ghost predicate IsLongest(delay: nat, puts: seq<Window>) {
    && (forall i :: 0 <= i < |puts| ==> puts[i].put - puts[i].served <= delay)
    && (delay == 0 || exists i :: 0 <= i < |puts| && puts[i].put - puts[i].served == delay)
  }

  ghost predicate ThreadsTold(start: int, s: State, ls: seq<Label>) {
    forall t: nat :: t < |s.pcs| ==> ThreadTold(start, ls, t, s.pcs[t])
  }

  ghost predicate Told(cfg: Config, start: int, s: State, ls: seq<Label>) {
    && Inv(cfg, s) && ThreadsTold(start, s, ls)
    && s.now == Clock(start, ls)
    && s.cache == CacheAfter(start, ls)
    && s.puts == Windows(start, ls) && IsLongest(s.delay, s.puts)
    && s.verdicts == Verdicts(cfg, start, ls)
  }

  lemma OwnStep(cfg: Config, start: int, s: State, ls: seq<Label>, l: Label)
    requires s.now == Clock(start, ls) && !l.Tick? && Step(cfg, s, l).Some?
    requires ThreadTold(start, ls, l.t, s.pcs[l.t])
    ensures ThreadTold(start, ls + [l], l.t, Step(cfg, s, l).value.pcs[l.t])
  {
    ThreadSnoc(start, ls, l, l.t);
  }

  /** A step leaves every other goroutine where it is, and its labels as they are. */
  lemma OtherStep(cfg: Config, start: int, s: State, ls: seq<Label>, l: Label, t: nat)
    requires Step(cfg, s, l).Some? && t < |s.pcs| && (l.Tick? || l.t != t)
    requires ThreadTold(start, ls, t, s.pcs[t])
    ensures ThreadTold(start, ls + [l], t, s.pcs[t]) && Step(cfg, s, l).value.pcs[t] == s.pcs[t]
  {
    ThreadSnoc(start, ls, l, t);
  }

  lemma ThreadsStep(cfg: Config, start: int, s: State, ls: seq<Label>, l: Label)
    requires ThreadsTold(start, s, ls) && s.now == Clock(start, ls) && Step(cfg, s, l).Some?
    ensures ThreadsTold(start, Step(cfg, s, l).value, ls + [l])
  {
    var u := Step(cfg, s, l).value;
    assert |u.pcs| == |s.pcs|;
    forall t: nat | t < |u.pcs|
      ensures ThreadTold(start, ls + [l], t, u.pcs[t])
    {
      if !l.Tick? && l.t == t { OwnStep(cfg, start, s, ls, l); } else { OtherStep(cfg, start, s, ls, l, t); }
    }
  }

  lemma CacheStep(cfg: Config, start: int, s: State, ls: seq<Label>, l: Label)
    requires Told(cfg, start, s, ls) && Step(cfg, s, l).Some?
    ensures var u := Step(cfg, s, l).value; u.now == Clock(start, ls + [l]) && u.cache == CacheAfter(start, ls + [l])
  {
    LabelSnoc(cfg, start, ls, l);
    if l.PutSet? { assert ThreadTold(start, ls, l.t, s.pcs[l.t]); }
  }

  lemma WindowsStep(cfg: Config, start: int, s: State, ls: seq<Label>, l: Label)
    requires Told(cfg, start, s, ls) && Step(cfg, s, l).Some?
    ensures var u := Step(cfg, s, l).value; u.puts == Windows(start, ls + [l]) && IsLongest(u.delay, u.puts)
  {
    var u := Step(cfg, s, l).value;
    LabelSnoc(cfg, start, ls, l);
    if l.PutSet? {
      assert ThreadTold(start, ls, l.t, s.pcs[l.t]);
      LongestSnoc(s.delay, s.puts, u.puts[|s.puts|]);
    }
  }

  lemma LongestSnoc(delay: nat, puts: seq<Window>, w: Window)
    requires IsLongest(delay, puts)
    ensures IsLongest(if w.put - w.served > delay then w.put - w.served else delay, puts + [w])
  {
    var all := puts + [w];
    assert all[|puts|] == w && forall i :: 0 <= i < |puts| ==> all[i] == puts[i];
    if i :| 0 <= i < |puts| && puts[i].put - puts[i].served == delay { assert all[i].put - all[i].served == delay; }
  }

  lemma VerdictsStep(cfg: Config, start: int, s: State, ls: seq<Label>, l: Label)
    requires Told(cfg, start, s, ls) && Step(cfg, s, l).Some?
    ensures Step(cfg, s, l).value.verdicts == s.verdicts + Due(cfg, start, ls, l)
  {
    if !l.Tick? {
      assert ThreadTold(start, ls, l.t, s.pcs[l.t]) && ThreadInv(cfg, s, s.pcs[l.t]);
    }
  }

  lemma ToldStep(cfg: Config, start: int, s: State, ls: seq<Label>, l: Label)
    requires Told(cfg, start, s, ls) && Step(cfg, s, l).Some?
    ensures Told(cfg, start, Step(cfg, s, l).value, ls + [l])
  {
    InvStep(cfg, s, l);
    ThreadsStep(cfg, start, s, ls, l);
    CacheStep(cfg, start, s, ls, l);
    WindowsStep(cfg, start, s, ls, l);
    VerdictsStep(cfg, start, s, ls, l);
    LabelSnoc(cfg, start, ls, l);
  }

  /** Every run is its labels: the clock, the contents and stamp of the cache, the windows and the longest of
      them, and the whole list of verdicts, each with its token, time, source and result, are what the labels
      say. In particular every token begun is judged at most once, by the set in the cache when that is fresh
      and else by the set that the issuer then served to that goroutine. */
  lemma RunIsItsLabels(cfg: Config, n: nat, start: int, ls: seq<Label>, s: State)
    requires start >= ZERO_TIME + MAX_DURATION && Exec(Steps(cfg), Init(n, start), ls) == Some(s)
    ensures s.now == Clock(start, ls) && s.cache == CacheAfter(start, ls)
    ensures s.puts == Windows(start, ls) && IsLongest(s.delay, s.puts)
    ensures s.verdicts == Verdicts(cfg, start, ls)
  {
    var told := (s, ls) => Told(cfg, start, s, ls);
    forall s, ls, l | told(s, ls) && Steps(cfg)(s, l).Some?
      ensures told(Steps(cfg)(s, l).value, ls + [l])
    {
      ToldStep(cfg, start, s, ls, l);
    }
    ToldOnRuns(Steps(cfg), told, Init(n, start), [], ls);
    assert [] + ls == ls;
  }
}
