/** The middleware stack of core/middleware.go around a handler: Recoverer outside, then the timeout
    handler, then the request-context middleware with its deferred check for open bodies. */
module ServerStack {
  import opened Runs
  import opened TimeoutWriter
  import opened TimeoutProtocol
  import opened TimeoutLabels

  datatype Middleware = Recoverer | Timeout | Traceability | CoreRequestContext | Metrics

  /** middlewareCollection: the first entry of a list is the outermost wrapper. */
  class MiddlewareCollection {
    var admin: seq<Middleware>
    var public: seq<Middleware>

    method AddToBoth(h: seq<Middleware>)
      modifies this
      ensures admin == old(admin) + h && public == old(public) + h
    {
      admin := admin + h;
      public := public + h;
    }

    constructor Prepare(metrics: bool)
      ensures admin == Stack(false, metrics) && public == Stack(true, metrics)
    {
      admin, public := [], [];
      new;
      AddToBoth([Recoverer]);
      AddToBoth([Timeout]);
      public := public + [Traceability];
      AddToBoth([CoreRequestContext]);
      if metrics { AddToBoth([Metrics]); }
    }
  }

  /** The middlewares of a server, outermost first. */
  function Stack(isPublic: bool, metrics: bool): seq<Middleware> {
    [Recoverer, Timeout] + (if isPublic then [Traceability] else []) + [CoreRequestContext] + (if metrics then [Metrics] else [])
  }

  predicate Wraps(ms: seq<Middleware>, outer: Middleware, inner: Middleware) {
    exists i, j :: 0 <= i < j < |ms| && ms[i] == outer && ms[j] == inner
  }

  /** On both servers a panic anywhere below is recovered, the deadline covers all but Recoverer, and the
      check for open bodies runs inside the deadline. */
  lemma StackOrder(isPublic: bool, metrics: bool)
    ensures var ms := Stack(isPublic, metrics);
            && ms[0] == Recoverer && ms[1] == Timeout
            && Wraps(ms, Timeout, CoreRequestContext)
            && (Traceability in ms <==> isPublic) && (Metrics in ms <==> metrics)
            && (isPublic ==> Wraps(ms, Traceability, CoreRequestContext))
            && (metrics ==> Wraps(ms, CoreRequestContext, Metrics))
  {
    var ms := Stack(isPublic, metrics);
    var c := if isPublic then 3 else 2;
    assert ms[c] == CoreRequestContext;
    WrapsAt(ms, 1, c);
    if isPublic { WrapsAt(ms, 2, 3); }
    if metrics { WrapsAt(ms, c, c + 1); }
  }

  lemma WrapsAt(ms: seq<Middleware>, i: nat, j: nat)
    requires i < j < |ms|
    ensures Wraps(ms, ms[i], ms[j])
  {
  }

  /** What http.Error writes when Recoverer has caught a panic. */
  function RecoveredCalls(text: Bytes): seq<WireCall> {
    [PutHeader("Content-Type", ["text/plain; charset=utf-8"]), PutHeader("X-Content-Type-Options", ["nosniff"]),
     PutCode(STATUS_INTERNAL_SERVER_ERROR), PutBody(text)]
  }

  /** What timeoutHandler writes through HandleError and HTTPError.WriteError. */
  function TimeoutCalls(json: Bytes): seq<WireCall> {
    [PutHeader("Content-Type", ["application/json;charset=UTF-8"]), PutCode(STATUS_INTERNAL_SERVER_ERROR), PutBody(json)]
  }

  function StackConfig(base: Header, json: Bytes): Config { Config(base, TimeoutCalls(json), true) }

  /** One status 500 and the given bytes, with the given headers on top of those that were there before, all
      of it in place before the status line. */
  predicate IsInternalError(w: Wire, base: Header, headers: Header, body: Bytes) {
    w.codes == [STATUS_INTERNAL_SERVER_ERROR] && w.body == body && w.sent == Some(w.header) && w.header == base + headers
  }

  const PLAIN_TEXT: Header :=
    map["Content-Type" := ["text/plain; charset=utf-8"], "X-Content-Type-Options" := ["nosniff"]]

  const JSON: Header := map["Content-Type" := ["application/json;charset=UTF-8"]]

  /** A writer that nothing has been written to. */
  predicate Untouched(w: Wire) { w.sent.None? && w.codes == [] && w.body == [] }

  lemma RecoveredReply(w: Wire, text: Bytes)
    ensures var r := WireRun(w, RecoveredCalls(text));
            && r.codes == w.codes + [STATUS_INTERNAL_SERVER_ERROR] && r.body == w.body + text
            && (w.sent.Some? ==> r.sent == w.sent)
            && (Untouched(w) ==> IsInternalError(r, w.header, PLAIN_TEXT, text))
  {
    var cs := RecoveredCalls(text);
    var w1 := WireStep(w, cs[0]);
    var w2 := WireStep(w1, cs[1]);
    var w3 := WireStep(w2, cs[2]);
    assert cs[1..][1..][1..] == [cs[3]] && cs[1..][1..] == [cs[2], cs[3]];
    assert WireRun(w3, [cs[3]]) == WireStep(w3, cs[3]);
    assert WireRun(w2, cs[1..][1..]) == WireRun(w3, [cs[3]]);
    assert WireRun(w1, cs[1..]) == WireRun(w2, cs[1..][1..]);
  }

  lemma TimedOutReply(base: Header, json: Bytes)
    ensures IsInternalError(WireRun(Wire(base, None, [], []), TimeoutCalls(json)), base, JSON, json)
  {
    var cs, w := TimeoutCalls(json), Wire(base, None, [], []);
    var w1 := WireStep(w, cs[0]);
    var w2 := WireStep(w1, cs[1]);
    assert cs[1..][1..] == [cs[2]];
    assert WireRun(w2, [cs[2]]) == WireStep(w2, cs[2]);
    assert WireRun(w1, cs[1..]) == WireRun(w2, [cs[2]]);
  }

  /** What Recoverer owes the client: without a panic the reply stays as it is; a panic before anything was
      written is answered by one complete 500; one that comes later cannot change the status already out. */
  ghost predicate Recovered(before: Wire, thrown: Option<PanicValue>, text: Bytes, after: Wire) {
    if thrown.None? then after == before
    else
      && (Untouched(before) ==> IsInternalError(after, before.header, PLAIN_TEXT, text))
      && after.codes == before.codes + [STATUS_INTERNAL_SERVER_ERROR] && after.body == before.body + text
      && (before.sent.Some? ==> after.sent == before.sent)
  }

  /** Recoverer's deferred function, on the panic value that reached it. */
  method Recover(w: ResponseWriter, thrown: Option<PanicValue>, text: Bytes)
    modifies w
    ensures Recovered(old(w.View()), thrown, text, w.View())
  {
    if thrown.Some? {
      RecoveredReply(w.View(), text);
      Replay(w, RecoveredCalls(text));
    }
  }

  /** The panic that the server goroutine passes on to Recoverer. */
  function Passed(s: State): Option<PanicValue> { if s.spc.Repanicked? then Some(s.spc.p) else None }

  /** Whatever the handler does and however the goroutines interleave, the client of the whole stack, who
      gets what Recover leaves on the writer, gets one status: the handler's own, the timeout 500 or the
      recovered 500. */
  lemma OneStatusForEveryRun(base: Header, json: Bytes, text: Bytes, s: State, client: Wire)
    requires Reachable(StackConfig(base, json), s) && Terminal(s)
    requires Recovered(s.wire, Passed(s), text, client)
    ensures match s.spc
            case Finished(OnDone) => IsReply(client, base, s.ops)
            case Finished(OnDeadline) => IsInternalError(client, base, JSON, json)
            case Repanicked(_) => IsInternalError(client, base, PLAIN_TEXT, text)
            case _ => false
    ensures |client.codes| == 1
  {
    ExactlyOneOutcome(StackConfig(base, json), s);
    TimedOutReply(base, json);
  }

  /** A run in which the handler panicked, by itself or by an invalid status code, ends in a 500, whatever the
      handler wrote before and whoever is scheduled when. */
  lemma PanicEndsIn500(base: Header, json: Bytes, text: Bytes, ls: seq<Label>, s: State, client: Wire)
    requires Exec(Steps(StackConfig(base, json)), Init(StackConfig(base, json)), ls) == Some(s) && Terminal(s)
    requires Throws(ls) && Recovered(s.wire, Passed(s), text, client)
    ensures client.codes == [STATUS_INTERNAL_SERVER_ERROR] && client.body in [json, text]
  {
    OutcomeFollowsLabels(StackConfig(base, json), ls, s);
    OneStatusForEveryRun(base, json, text, s, client);
  }

  /** A handler that leaves with a monitored body open never gets its buffered reply published: the
      request ends in a 500, in that state and in every later one. */
  lemma OpenBodyNeverPublished(
    base: Header, json: Bytes, text: Bytes, s: State, ls: seq<Label>, t: State, client: Wire)
    requires Reachable(StackConfig(base, json), s) && s.hpc.Exited? && s.open != {}
    requires Exec(Steps(StackConfig(base, json)), s, ls) == Some(t)
    ensures t.spc != Finished(OnDone) && (t.spc.Repanicked? ==> t.spc.p == OpenBodies(s.open))
    ensures Terminal(t) && Recovered(t.wire, Passed(t), text, client) ==> client.codes == [STATUS_INTERNAL_SERVER_ERROR]
  {
    var cfg := StackConfig(base, json);
    SettledOnRuns(cfg, s, ls, t);
    var before :| Exec(Steps(cfg), Init(cfg), before) == Some(s);
    ExecConcat(Steps(cfg), Init(cfg), before, ls);
    assert Reachable(cfg, t);
    InvReachable(cfg, t);
    if Terminal(t) && Recovered(t.wire, Passed(t), text, client) {
      OneStatusForEveryRun(base, json, text, t, client);
    }
  }
}
