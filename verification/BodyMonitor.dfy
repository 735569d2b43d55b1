/** The outbound round tripper of common/internal with its payload logger and its monitor of unclosed
    response bodies: three pieces of code that wrap, drain, close and replace the same body. */
module BodyMonitor {
  import opened Runs
  import opened Picks

  type Bytes = seq<bv8>

  /** What a reader that reads to the end gets: the bytes, and whether they end in a read error. */
  datatype Content = Content(bytes: Bytes, fails: bool)

  /** An io.ReadCloser at the bottom of a chain; with `nop` it is io.NopCloser over a buffer. */
  class Stream {
    var unread: Bytes
    var closed: bool
    const fails: bool
    const nop: bool

    constructor (bytes: Bytes, fails: bool, nop: bool)
      ensures Rest() == Content(bytes, fails) && this.nop == nop && !closed
    {
      unread, closed, this.fails, this.nop := bytes, false, fails, nop;
    }

    ghost function Rest(): (c: Content) reads this { Content(unread, fails) }

    /** io.ReadAll: the bytes up to the end or to the error. */
    method ReadAll() returns (b: Bytes, err: bool)
      modifies this
      ensures Content(b, err) == old(Rest()) && unread == [] && closed == old(closed)
    {
      b, err := unread, fails;
      unread := [];
    }

    method Close()
      modifies this
      ensures closed == (old(closed) || !nop) && Rest() == old(Rest())
    {
      if !nop { closed := true; }
    }
  }

  /** The part of readCloserClosedWrapper that changes. */
  class Wrapper {
    const url: nat
    var closed: bool

    constructor (url: nat)
      ensures !closed && this.url == url
    {
      this.url, closed := url, false;
    }
  }

  /** A response body: a stream, wrapped any number of times. */
  datatype Body = Plain(stream: Stream) | Wrapped(w: Wrapper, inner: Body)

  function Bottom(b: Body): Stream { if b.Plain? then b.stream else Bottom(b.inner) }

  function Wrappers(b: Body): set<Wrapper> { if b.Plain? then {} else {b.w} + Wrappers(b.inner) }

  ghost function ContentOf(b: Body): Content
    reads Bottom(b)
  {
    Bottom(b).Rest()
  }

  method CloseBody(b: Body)
    modifies Bottom(b), Wrappers(b)
    ensures Bottom(b).closed == (old(Bottom(b).closed) || !Bottom(b).nop) && ContentOf(b) == old(ContentOf(b))
    ensures forall w :: w in Wrappers(b) ==> w.closed
  {
    match b
    case Plain(s) => s.Close();
    case Wrapped(w, inner) =>
      w.closed := true;
      CloseBody(inner);
  }

  class Request {
    const isGet: bool
    const url: nat
    var body: Option<Stream>

    constructor (isGet: bool, url: nat, body: Option<Stream>)
      ensures this.isGet == isGet && this.url == url && this.body == body
    {
      this.isGet, this.url, this.body := isGet, url, body;
    }
  }

  class Response {
    const url: nat
    var body: Body

    constructor (url: nat, body: Body)
      ensures this.url == url && this.body == body
    {
      this.url, this.body := url, body;
    }
  }

  class Monitor {
    var openResponses: seq<Wrapper>

    constructor ()
      ensures openResponses == []
    {
      openResponses := [];
    }

    method AddResponse(rsp: Response)
      modifies this, rsp
      ensures rsp.body.Wrapped? && fresh(rsp.body.w) && rsp.body.inner == old(rsp.body)
      ensures !rsp.body.w.closed && rsp.body.w.url == rsp.url
      ensures openResponses == old(openResponses) + [rsp.body.w]
    {
      var wrapper := new Wrapper(rsp.url);
      rsp.body := Wrapped(wrapper, rsp.body);
      openResponses := openResponses + [wrapper];
    }

    method GetResponsesWithOpenBodies() returns (open: seq<Wrapper>)
      ensures open == OpenOnes(openResponses)
      ensures exists idx :: PicksOpen(openResponses, open, idx)
    {
      open := [];
      for i := 0 to |openResponses|
        invariant open == OpenOnes(openResponses[..i])
      {
        assert openResponses[..i + 1][..i] == openResponses[..i];
        if !openResponses[i].closed { open := open + [openResponses[i]]; }
      }
      assert openResponses[..|openResponses|] == openResponses;
      ghost var idx := OpenOnesPick(openResponses);
    }

    /** CheckForUnclosedResponses: the urls that the panic names, or no panic. */
    method Check() returns (panics: Option<seq<nat>>)
      ensures panics.Some? <==> exists w :: w in openResponses && !w.closed
      ensures panics.Some? ==> exists idx :: NamesOpen(openResponses, panics.value, idx)
    {
      var open := GetResponsesWithOpenBodies();
      var errors: seq<nat> := [];
      for i := 0 to |open|
        invariant |errors| == i && forall j :: 0 <= j < i ==> errors[j] == open[j].url
      {
        errors := errors + [open[i].url];
      }
      OpenOnesAreOpen(openResponses);
      if |errors| > 0 {
        assert open[0] in OpenOnes(openResponses);
        ghost var idx :| PicksOpen(openResponses, open, idx);
        assert NamesOpen(openResponses, errors, idx);
        return Some(errors);
      }
      return None;
    }
  }

  ghost function OpenOnes(ws: seq<Wrapper>): seq<Wrapper>
    reads ws
  {
    if ws == [] then []
    else OpenOnes(ws[..|ws| - 1]) + (if ws[|ws| - 1].closed then [] else [ws[|ws| - 1]])
  }

  /** `idx` are the positions of the open wrappers, each once and in order. */
  ghost predicate OpenAt(ws: seq<Wrapper>, idx: seq<nat>)
    reads ws
  {
    Increasing(idx) && forall i: nat :: i in idx <==> i < |ws| && !ws[i].closed
  }

  ghost predicate PicksOpen(ws: seq<Wrapper>, open: seq<Wrapper>, idx: seq<nat>)
    reads ws
  {
    OpenAt(ws, idx) && |open| == |idx| && forall k :: 0 <= k < |idx| ==> idx[k] < |ws| && open[k] == ws[idx[k]]
  }

  ghost predicate NamesOpen(ws: seq<Wrapper>, urls: seq<nat>, idx: seq<nat>)
    reads ws
  {
    OpenAt(ws, idx) && |urls| == |idx| && forall k :: 0 <= k < |idx| ==> idx[k] < |ws| && urls[k] == ws[idx[k]].url
  }

  lemma {:induction false} OpenOnesPick(ws: seq<Wrapper>) returns (idx: seq<nat>)
    ensures PicksOpen(ws, OpenOnes(ws), idx)
  {
    if ws == [] {
      idx := [];
    } else {
      var n := |ws| - 1;
      idx := OpenOnesPick(ws[..n]);
      OpenOneMore(ws[..n], ws[n], OpenOnes(ws[..n]), idx);
      assert ws == ws[..n] + [ws[n]];
      if ws[n].closed {
        assert OpenOnes(ws) == OpenOnes(ws[..n]);
      } else {
        idx := idx + [n];
      }
    }
  }

  lemma OpenOneMore(ws: seq<Wrapper>, w: Wrapper, open: seq<Wrapper>, idx: seq<nat>)
    requires PicksOpen(ws, open, idx)
    ensures w.closed ==> PicksOpen(ws + [w], open, idx)
    ensures !w.closed ==> PicksOpen(ws + [w], open + [w], idx + [|ws|])
  {
    SnocPicks(idx, |ws|);
  }

  lemma {:induction false} OpenOnesAreOpen(ws: seq<Wrapper>)
    ensures forall w :: w in OpenOnes(ws) <==> w in ws && !w.closed
  {
    if ws != [] {
      OpenOnesAreOpen(ws[..|ws| - 1]);
      assert ws == ws[..|ws| - 1] + [ws[|ws| - 1]];
    }
  }

  /** requestLogger when payloads are logged, nopLogger when they are not. */
  class RequestLogger {
    const on: bool
    var req: Bytes
    var resp: Bytes
    var flushed: bool

    constructor (logPayload: bool, request: Request)
      modifies request, (if request.body.Some? then {request.body.value} else {})
      ensures on == logPayload && !flushed && resp == []
      ensures Drains(logPayload, request) ==>
                && old(request.body).Some? && request.body.Some? && fresh(request.body.value)
                && req == old(request.body.value.Rest()).bytes
                && request.body.value.Rest() == Content(req, false) && request.body.value.nop
                && old(request.body).value.closed == (old(request.body.value.closed) || !old(request.body).value.nop)
      ensures !Drains(logPayload, request) ==>
                && request.body == old(request.body) && req == []
                && (request.body.Some? ==> request.body.value.Rest() == old(request.body.value.Rest()))
    {
      on, req, resp, flushed := logPayload, [], [], false;
      new;
      if on && request.body.Some? && !request.isGet {
        var b, err := request.body.value.ReadAll();
        request.body.value.Close();
        var buffer := new Stream(b, false, true);
        request.body := Some(buffer);
        req := b;
      }
    }

    method LogResponse(rsp: Response?)
      modifies this, rsp, (if rsp == null then {} else {Bottom(rsp.body)}), (if rsp == null then {} else Wrappers(rsp.body))
      ensures !on ==> unchanged(this) && (rsp != null ==> unchanged(rsp) && unchanged(Bottom(rsp.body)))
      ensures !on && rsp != null ==> forall w :: w in Wrappers(rsp.body) && old(allocated(w)) ==> w.closed == old(w.closed)
      ensures on ==> flushed && req == old(req)
      ensures on && rsp == null ==> resp == old(resp)
      ensures on && rsp != null ==>
                && resp == old(resp) + old(ContentOf(rsp.body)).bytes
                && rsp.body.Plain? && fresh(rsp.body.stream) && rsp.body.stream.nop
                && ContentOf(rsp.body) == Content(old(ContentOf(rsp.body)).bytes, false)
                && (forall w :: w in old(Wrappers(rsp.body)) ==> w.closed)
                && old(Bottom(rsp.body)).closed == (old(Bottom(rsp.body).closed) || !old(Bottom(rsp.body)).nop)
    {
      if !on { return; }
      if rsp != null {
        var b, err := Bottom(rsp.body).ReadAll();
        ghost var was := rsp.body;
        CloseBody(rsp.body);
        assert forall w :: w in Wrappers(was) ==> w.closed;
        assert allocated(Bottom(was));
        assert allocated(Wrappers(was));
        var buffer := new Stream(b, false, true);
        rsp.body := Plain(buffer);
        assert forall w :: w in Wrappers(was) ==> w.closed;
        resp := resp + b;
      }
      flushed := true;
    }
  }

  predicate Drains(logPayload: bool, request: Request)
    reads request
  {
    logPayload && request.body.Some? && !request.isGet
  }

  ghost function Sees(request: Request): Option<Content>
    reads request, (if request.body.Some? then {request.body.value} else {})
  {
    if request.body.None? then None else Some(request.body.value.Rest())
  }

  /** loggingRoundtripper.RoundTrip. `answer` is what the base round tripper returns, null with an error;
      `sent` is what it could read as the request body. */
  method RoundTrip(logPayload: bool, monitor: Monitor?, request: Request, answer: Response?)
    returns (rsp: Response?, ghost sent: Option<Content>, logger: RequestLogger)
    requires answer != null && request.body.Some? ==> Bottom(answer.body) != request.body.value
    modifies request, (if request.body.Some? then {request.body.value} else {})
    modifies answer, (if answer == null then {} else {Bottom(answer.body)})
    modifies (if answer == null then {} else Wrappers(answer.body))
    modifies monitor
    ensures rsp == answer && fresh(logger) && logger.on == logPayload
    ensures sent.Some? == old(Sees(request)).Some?
    ensures sent.Some? ==> sent.value.bytes == old(Sees(request)).value.bytes
    ensures sent == old(Sees(request)) <==> !(old(Drains(logPayload, request)) && old(Sees(request)).value.fails)
    ensures rsp != null ==> ContentOf(rsp.body).bytes == old(ContentOf(answer.body)).bytes
    ensures rsp != null ==>
              (ContentOf(rsp.body) == old(ContentOf(answer.body)) <==> !(logPayload && old(ContentOf(answer.body)).fails))
    ensures logPayload ==> logger.flushed && (old(Drains(logPayload, request)) ==> logger.req == old(Sees(request)).value.bytes)
    ensures logPayload && rsp != null ==> logger.resp == old(ContentOf(answer.body)).bytes
    ensures rsp != null && !logPayload && monitor == null ==> rsp.body == old(answer.body)
    ensures rsp != null && !logPayload && monitor != null ==>
              && rsp.body.Wrapped? && rsp.body.inner == old(answer.body)
              && fresh(rsp.body.w) && !rsp.body.w.closed && monitor.openResponses == old(monitor.openResponses) + [rsp.body.w]
    ensures rsp != null && logPayload ==>
              rsp.body.Plain? && fresh(rsp.body.stream) && forall w :: w in old(Wrappers(answer.body)) ==> w.closed
    ensures rsp != null && logPayload && monitor != null ==>
              && |monitor.openResponses| == |old(monitor.openResponses)| + 1
              && old(monitor.openResponses) == monitor.openResponses[..|old(monitor.openResponses)|]
              && fresh(monitor.openResponses[|old(monitor.openResponses)|])
              && monitor.openResponses[|old(monitor.openResponses)|].closed
    ensures rsp == null && monitor != null ==> monitor.openResponses == old(monitor.openResponses)
  {
    if answer != null { assert allocated(Bottom(answer.body)) && allocated(Wrappers(answer.body)); }
    logger := new RequestLogger(logPayload, request);
    sent := Sees(request);
    rsp := answer;
    if rsp != null && monitor != null {
      monitor.AddResponse(rsp);
    }
    ghost var wrapped := if rsp == null then None else Some(rsp.body);
    logger.LogResponse(rsp);
    if rsp != null && logPayload && monitor != null {
      assert wrapped.value.w in Wrappers(wrapped.value);
      assert monitor.openResponses == old(monitor.openResponses) + [wrapped.value.w];
    }
  }

  // A whole request: the handler makes round trips and closes some of the bodies it got.

  /** `Trip` is a round trip that got a response, `FailedTrip` one that got an error, `Close(i)` closes the
      body of response number i, if there is one by then. */
  datatype Event = Trip(content: Content) | FailedTrip | Close(i: nat)

  /** The number of the response that a trip at position `k` gets. */
  function Number(events: seq<Event>, k: nat): nat
    requires k <= |events|
  {
    if k == 0 then 0 else Number(events, k - 1) + (if events[k - 1].Trip? then 1 else 0)
  }

  /** The handler never closed the response of the trip at `k`. */
  predicate LeftOpen(events: seq<Event>, k: nat) {
    k < |events| && events[k].Trip? && forall j :: k < j < |events| ==> events[j] != Close(Number(events, k))
  }

  /** For each response so far, whether its wrapper counts as closed. */
  function ClosedFlags(logPayload: bool, events: seq<Event>): seq<bool> {
    if events == [] then []
    else
      FlagsAfter(logPayload, ClosedFlags(logPayload, events[..|events| - 1]), events[|events| - 1])
  }

  function FlagsAfter(logPayload: bool, before: seq<bool>, event: Event): seq<bool> {
    match event
    case Trip(_) => before + [logPayload]
    case FailedTrip => before
    case Close(i) => if i < |before| then before[i := true] else before
  }

  lemma {:induction false} NumberPrefix(events: seq<Event>, n: nat, k: nat)
    requires k <= n <= |events|
    ensures Number(events[..n], k) == Number(events, k)
  {
    if k > 0 { NumberPrefix(events, n, k - 1); }
  }

  lemma {:induction false} NumberBelow(events: seq<Event>, j: nat, k: nat)
    requires j < k <= |events| && events[j].Trip?
    ensures Number(events, j) < Number(events, k)
  {
    if j + 1 < k { NumberBelow(events, j, k - 1); }
  }

  /** The flag of a response is down iff payloads are not logged and its trip was left open. */
  lemma {:induction false} FlagsTellLeftOpen(logPayload: bool, events: seq<Event>)
    ensures |ClosedFlags(logPayload, events)| == Number(events, |events|)
    ensures forall k: nat :: k < |events| && events[k].Trip? ==>
              Number(events, k) < Number(events, |events|)
              && (ClosedFlags(logPayload, events)[Number(events, k)] <==> logPayload || !LeftOpen(events, k))
  {
    if events != [] {
      var m := |events| - 1;
      var before := events[..m];
      FlagsTellLeftOpen(logPayload, before);
      NumberPrefix(events, m, m);
      forall k: nat | k < |events| && events[k].Trip?
        ensures Number(events, k) < Number(events, |events|)
        ensures ClosedFlags(logPayload, events)[Number(events, k)] <==> logPayload || !LeftOpen(events, k)
      {
        if k < m {
          NumberPrefix(events, m, k);
          NumberBelow(events, k, m);
          assert before[k] == events[k] && forall j :: 0 <= j < m ==> before[j] == events[j];
          assert LeftOpen(events, k) <==> LeftOpen(before, k) && events[m] != Close(Number(events, k));
        }
      }
    }
  }

  lemma {:induction false} EveryNumberIsATrip(events: seq<Event>, i: nat, n: nat) returns (k: nat)
    requires n <= |events| && i < Number(events, n)
    ensures k < n && events[k].Trip? && Number(events, k) == i
  {
    if i < Number(events, n - 1) {
      k := EveryNumberIsATrip(events, i, n - 1);
    } else {
      k := n - 1;
    }
  }

  predicate Tracked(b: Body, w: Wrapper) { b.Wrapped? && b.w == w && b.inner.Plain? }

  /** The monitor and the responses agree with the flags. */
  ghost predicate InStep(logPayload: bool, monitor: Monitor, got: seq<Response>, flags: seq<bool>)
    reads monitor, monitor.openResponses, got
  {
    var ws := monitor.openResponses;
    && |got| == |ws| == |flags|
    && (forall i :: 0 <= i < |ws| ==> ws[i].closed == flags[i])
    && (forall i, j :: 0 <= i < j < |ws| ==> ws[i] != ws[j])
    && (forall i :: 0 <= i < |got| ==> if logPayload then got[i].body.Plain? && flags[i] else Tracked(got[i].body, ws[i]))
  }

  ghost function Bottoms(got: seq<Response>): set<Stream>
    reads got
  {
    set i | 0 <= i < |got| :: Bottom(got[i].body)
  }

  /** The objects that the session has made. */
  ghost function Footprint(monitor: Monitor, got: seq<Response>): set<object>
    reads monitor, got
  {
    {monitor} + (set w: object | w in monitor.openResponses) + (set r: object | r in got) + (set b: object | b in Bottoms(got))
  }

  method OneTrip(logPayload: bool, monitor: Monitor, got: seq<Response>, content: Content, ghost flags: seq<bool>)
    returns (rsp: Response)
    requires InStep(logPayload, monitor, got, flags)
    modifies monitor
    ensures InStep(logPayload, monitor, got + [rsp], flags + [logPayload])
    ensures fresh(rsp) && fresh(Bottom(rsp.body))
    ensures |monitor.openResponses| == |got| + 1 && fresh(monitor.openResponses[|got|])
    ensures monitor.openResponses == old(monitor.openResponses) + [monitor.openResponses[|got|]]
  {
    var request := new Request(true, |got|, None);
    var stream := new Stream(content.bytes, content.fails, false);
    var answer := new Response(|got|, Plain(stream));
    ghost var ws := monitor.openResponses;
    var r, _, _ := RoundTrip(logPayload, monitor, request, answer);
    rsp := answer;
    assert forall i :: 0 <= i < |ws| ==> monitor.openResponses[i] == ws[i] && ws[i].closed == flags[i];
  }

  lemma BottomsSnoc(got: seq<Response>, rsp: Response)
    ensures Bottoms(got + [rsp]) == Bottoms(got) + {Bottom(rsp.body)}
  {
    var all := got + [rsp];
    assert all[|got|] == rsp && forall i :: 0 <= i < |got| ==> all[i] == got[i];
    forall s | s in Bottoms(got)
      ensures s in Bottoms(all)
    {
      var i :| 0 <= i < |got| && s == Bottom(got[i].body);
      assert s == Bottom(all[i].body);
    }
  }

  method TripEvent(logPayload: bool, monitor: Monitor, got: seq<Response>, content: Content, ghost flags: seq<bool>)
    returns (all: seq<Response>)
    requires InStep(logPayload, monitor, got, flags)
    modifies monitor
    ensures InStep(logPayload, monitor, all, flags + [logPayload])
    ensures fresh(Footprint(monitor, all) - old(Footprint(monitor, got)))
  {
    var rsp := OneTrip(logPayload, monitor, got, content, flags);
    BottomsSnoc(got, rsp);
    all := got + [rsp];
  }

  method OneFailure(logPayload: bool, monitor: Monitor, got: seq<Response>, ghost flags: seq<bool>)
    requires InStep(logPayload, monitor, got, flags)
    modifies monitor
    ensures InStep(logPayload, monitor, got, flags) && monitor.openResponses == old(monitor.openResponses)
  {
    var request := new Request(true, |got|, None);
    var r, _, _ := RoundTrip(logPayload, monitor, request, null);
  }

  method OneClose(logPayload: bool, monitor: Monitor, got: seq<Response>, i: nat, ghost flags: seq<bool>)
    requires InStep(logPayload, monitor, got, flags) && i < |got|
    modifies Bottoms(got), monitor.openResponses
    ensures InStep(logPayload, monitor, got, flags[i := true])
    ensures Footprint(monitor, got) == old(Footprint(monitor, got))
  {
    assert Bottom(got[i].body) in Bottoms(got);
    assert !logPayload ==> Wrappers(got[i].body) == {monitor.openResponses[i]};
    CloseBody(got[i].body);
  }

  /** Event number `n` of the session, on the responses that the handler has got so far. */
  method OneEvent(logPayload: bool, monitor: Monitor, got: seq<Response>, events: seq<Event>, n: nat)
    returns (all: seq<Response>)
    requires n < |events| && InStep(logPayload, monitor, got, ClosedFlags(logPayload, events[..n]))
    modifies Footprint(monitor, got)
    ensures InStep(logPayload, monitor, all, ClosedFlags(logPayload, events[..n + 1]))
    ensures fresh(Footprint(monitor, all) - old(Footprint(monitor, got)))
  {
    ghost var flags := ClosedFlags(logPayload, events[..n]);
    assert ClosedFlags(logPayload, events[..n + 1]) == FlagsAfter(logPayload, flags, events[n]) by {
      assert events[..n + 1][..n] == events[..n];
    }
    all := got;
    match events[n]
    case Trip(content) => all := TripEvent(logPayload, monitor, got, content, flags);
    case FailedTrip => OneFailure(logPayload, monitor, got, flags);
    case Close(i) => if i < |got| { OneClose(logPayload, monitor, got, i, flags); }
  }

  method FinalCheck(logPayload: bool, ghost events: seq<Event>, monitor: Monitor, ghost got: seq<Response>)
    returns (panics: bool)
    requires InStep(logPayload, monitor, got, ClosedFlags(logPayload, events))
    ensures panics <==> !logPayload && exists k :: LeftOpen(events, k)
  {
    var r := monitor.Check();
    panics := r.Some?;
    PanicsIff(logPayload, events, monitor, got);
  }

  /** At the end of the request the monitor's check panics iff payloads are not logged and the handler left
      some response open. With payload logging it never panics. */
  method Session(logPayload: bool, events: seq<Event>) returns (panics: bool)
    ensures panics <==> !logPayload && exists k :: LeftOpen(events, k)
  {
    var monitor := new Monitor();
    var got: seq<Response> := [];
    assert Footprint(monitor, got) == {monitor};
    for n := 0 to |events|
      invariant fresh(Footprint(monitor, got))
      invariant InStep(logPayload, monitor, got, ClosedFlags(logPayload, events[..n]))
    {
      got := OneEvent(logPayload, monitor, got, events, n);
    }
    assert events[..|events|] == events;
    panics := FinalCheck(logPayload, events, monitor, got);
  }

  lemma PanicsIff(logPayload: bool, events: seq<Event>, monitor: Monitor, got: seq<Response>)
    requires InStep(logPayload, monitor, got, ClosedFlags(logPayload, events))
    ensures (exists w :: w in monitor.openResponses && !w.closed) <==> !logPayload && exists k :: LeftOpen(events, k)
  {
    var ws := monitor.openResponses;
    FlagsTellLeftOpen(logPayload, events);
    if w :| w in ws && !w.closed {
      var i :| 0 <= i < |ws| && ws[i] == w;
      var k := EveryNumberIsATrip(events, i, |events|);
      assert LeftOpen(events, k);
    }
    if k :| !logPayload && LeftOpen(events, k) {
      assert !ws[Number(events, k)].closed;
    }
  }
}
