/** The buffering response writer of common/timeout.go, the real writer it stands in front of, and
    an independent account of the reply that a list of handler operations asks for. */
module TimeoutWriter {
  import opened Runs

  type Bytes = seq<bv8>
  type Header = map<string, seq<string>>

  const STATUS_OK := 200
  const STATUS_INTERNAL_SERVER_ERROR := 500

  /** What has reached the real http.ResponseWriter. `sent` is the header map as it stood at the first
      status line, `codes` are all the status lines asked for, in order. */
  datatype Wire = Wire(header: Header, sent: Option<Header>, codes: seq<int>, body: Bytes)

  datatype WireCall = PutHeader(k: string, vv: seq<string>) | PutCode(code: int) | PutBody(p: Bytes)

  function WireCode(w: Wire, code: int): Wire {
    w.(codes := w.codes + [code], sent := if w.sent.Some? then w.sent else Some(w.header))
  }

  function WireBody(w: Wire, p: Bytes): Wire {
    var w' := if w.sent.Some? then w else WireCode(w, STATUS_OK);
    w'.(body := w'.body + p)
  }

  function WireStep(w: Wire, c: WireCall): Wire {
    match c
    case PutHeader(k, vv) => w.(header := w.header[k := vv])
    case PutCode(code) => WireCode(w, code)
    case PutBody(p) => WireBody(w, p)
  }

  function WireRun(w: Wire, cs: seq<WireCall>): Wire
    decreases |cs|
  {
    if cs == [] then w else WireRun(WireStep(w, cs[0]), cs[1..])
  }

  datatype PanicValue = InvalidCode(code: int) | HandlerPanic(v: nat) | OpenBodies(ids: set<nat>)

  datatype WriteResult = WriteResult(n: nat, timedOut: bool)

  /** The fields of timeoutWriter as a value. */
  datatype Buf = Buf(timedOut: bool, wroteHeader: bool, code: int, wbuf: Bytes, h: Header)

  const EMPTY_BUF := Buf(false, false, 0, [], map[])

  predicate ValidCode(code: int) { 100 <= code <= 999 }

  function BufHeader(b: Buf, code: int): Buf {
    if b.timedOut || b.wroteHeader then b else b.(wroteHeader := true, code := code)
  }

  function BufWriteHeader(b: Buf, code: int): (Buf, Option<PanicValue>) {
    if ValidCode(code) then (BufHeader(b, code), None) else (b, Some(InvalidCode(code)))
  }

  function BufWrite(b: Buf, p: Bytes): (Buf, WriteResult) {
    if b.timedOut then (b, WriteResult(0, true))
    else (BufHeader(b, STATUS_OK).(wbuf := b.wbuf + p), WriteResult(|p|, false))
  }

  /** What the completed branch leaves on the real writer. */
  function Publish(w: Wire, b: Buf): Wire {
    WireBody(WireCode(w.(header := w.header + b.h), if b.wroteHeader then b.code else STATUS_OK), b.wbuf)
  }

  // The reference: what a list of operations asks for, read off the list itself.

  datatype Op =
    | SetHeader(k: string, vv: seq<string>)
    | DelHeader(k: string)
    | WriteHeader(code: int)
    | Write(p: Bytes)
    | OpenBody(id: nat)
    | CloseBody(id: nat)

  predicate Commits(op: Op) { op.WriteHeader? || op.Write? }

  /** The first operation that commits a status decides it. */
  function RefCode(ops: seq<Op>): int {
    if ops == [] then STATUS_OK
    else if ops[0].WriteHeader? then ops[0].code
    else if ops[0].Write? then STATUS_OK
    else RefCode(ops[1..])
  }

  predicate RefCommitted(ops: seq<Op>) { exists i :: 0 <= i < |ops| && Commits(ops[i]) }

  function RefBody(ops: seq<Op>): Bytes {
    if ops == [] then []
    else RefBody(ops[..|ops| - 1]) + (if ops[|ops| - 1].Write? then ops[|ops| - 1].p else [])
  }

  /** The last operation on key `k` decides whether the handler's own map holds it, and as what. */
  function RefHeader(ops: seq<Op>, k: string): Option<seq<string>> {
    if ops == [] then None
    else
      var op := ops[|ops| - 1];
      if op.SetHeader? && op.k == k then Some(op.vv)
      else if op.DelHeader? && op.k == k then None
      else RefHeader(ops[..|ops| - 1], k)
  }

  /** What the writes among the operations report as long as there is time. */
  function RefResults(ops: seq<Op>): seq<WriteResult> {
    if ops == [] then []
    else RefResults(ops[..|ops| - 1]) + (if ops[|ops| - 1].Write? then [WriteResult(|ops[|ops| - 1].p|, false)] else [])
  }

  /** The buffer says what the operations so far ask for. */
  ghost predicate Matches(b: Buf, ops: seq<Op>) {
    && (b.wroteHeader <==> RefCommitted(ops))
    && (b.wroteHeader ==> b.code == RefCode(ops) && ValidCode(b.code))
    && b.wbuf == RefBody(ops)
    && (forall k :: if k in b.h then RefHeader(ops, k) == Some(b.h[k]) else RefHeader(ops, k) == None)
  }

  /** `w` is one complete reply: a single valid status, all the bytes, and the base header map overridden
      by the handler's map, all of it in place before the status line went out. */
  ghost predicate IsReply(w: Wire, base: Header, ops: seq<Op>) {
    && w.codes == [RefCode(ops)] && ValidCode(RefCode(ops))
    && w.body == RefBody(ops)
    && w.sent == Some(w.header)
    && (forall k :: k in w.header <==> k in base || RefHeader(ops, k).Some?)
    && (forall k :: k in w.header ==>
          w.header[k] == if RefHeader(ops, k).Some? then RefHeader(ops, k).value else base[k])
  }

  lemma {:induction false} RefCodeSnoc(ops: seq<Op>, op: Op)
    ensures RefCommitted(ops) ==> RefCode(ops + [op]) == RefCode(ops)
    ensures !RefCommitted(ops) ==> RefCode(ops) == STATUS_OK && RefCode(ops + [op]) == RefCode([op])
    ensures RefCommitted(ops + [op]) <==> RefCommitted(ops) || Commits(op)
  {
    var all := ops + [op];
    if RefCommitted(ops) {
      var i :| 0 <= i < |ops| && Commits(ops[i]);
      assert Commits(all[i]);
    }
    if Commits(op) { assert Commits(all[|ops|]); }
    if RefCommitted(all) {
      var i :| 0 <= i < |all| && Commits(all[i]);
      assert i < |ops| ==> Commits(ops[i]);
    }
    if ops == [] {
      assert all == [op];
    } else {
      RefCodeSnoc(ops[1..], op);
      assert all[1..] == ops[1..] + [op];
      if !RefCommitted(ops) {
        assert !Commits(ops[0]);
        assert forall i :: 0 <= i < |ops[1..]| ==> ops[1..][i] == ops[i + 1];
      } else if !Commits(ops[0]) {
        var i :| 0 <= i < |ops| && Commits(ops[i]);
        assert ops[1..][i - 1] == ops[i];
      }
    }
  }

  /** One more operation, and the buffer still says what the operations ask for. */
  lemma MatchesSnoc(b: Buf, ops: seq<Op>, op: Op, b': Buf)
    requires Matches(b, ops) && !b.timedOut
    requires b' == match op
                   case SetHeader(k, vv) => b.(h := b.h[k := vv])
                   case DelHeader(k) => b.(h := b.h - {k})
                   case WriteHeader(code) => BufWriteHeader(b, code).0
                   case Write(p) => BufWrite(b, p).0
                   case _ => b
    requires op.WriteHeader? ==> ValidCode(op.code)
    ensures Matches(b', ops + [op])
  {
    RefCodeSnoc(ops, op);
    assert (ops + [op])[..|ops|] == ops;
  }

  /** Publishing a buffer that matches its operations onto an untouched writer is the reply they ask for. */
  lemma PublishIsReply(base: Header, b: Buf, ops: seq<Op>)
    requires Matches(b, ops)
    ensures IsReply(Publish(Wire(base, None, [], []), b), base, ops)
  {
    if !RefCommitted(ops) { RefCodeSnoc(ops, Write([])); }
  }

  /** The http.ResponseWriter that the server hands to the middleware. */
  class ResponseWriter {
    var header: Header
    var sent: Option<Header>
    var codes: seq<int>
    var body: Bytes

    ghost function View(): (w: Wire) reads this { Wire(header, sent, codes, body) }

    constructor (header: Header)
      ensures View() == Wire(header, None, [], [])
    {
      this.header, this.sent, this.codes, this.body := header, None, [], [];
    }

    method WriteHeader(code: int)
      modifies this
      ensures View() == WireCode(old(View()), code)
    {
      codes := codes + [code];
      if sent.None? { sent := Some(header); }
    }

    method Write(p: Bytes)
      modifies this
      ensures View() == WireBody(old(View()), p)
    {
      if sent.None? { WriteHeader(STATUS_OK); }
      body := body + p;
    }
  }

  /** timeoutWriter: every method takes the mutex and gives it back on every path out. */
  class BufferedWriter {
    var locked: bool
    var timedOut: bool
    var wroteHeader: bool
    var code: int
    var wbuf: Bytes
    var h: Header

    ghost function View(): (b: Buf) reads this { Buf(timedOut, wroteHeader, code, wbuf, h) }

    constructor ()
      ensures View() == EMPTY_BUF && !locked
    {
      locked, timedOut, wroteHeader, code, wbuf, h := false, false, false, 0, [], map[];
    }

    method WriteHeaderLocked(c: int) returns (p: Option<PanicValue>)
      requires locked
      modifies this
      ensures (View(), p) == BufWriteHeader(old(View()), c) && locked
    {
      if c < 100 || c > 999 { return Some(InvalidCode(c)); }
      p := None;
      if timedOut {
      } else if wroteHeader {
      } else {
        wroteHeader, code := true, c;
      }
    }

    method WriteHeader(c: int) returns (p: Option<PanicValue>)
      requires !locked
      modifies this
      ensures (View(), p) == BufWriteHeader(old(View()), c) && !locked
    {
      locked := true;
      p := WriteHeaderLocked(c);
      locked := false;
    }

    method Write(p: Bytes) returns (r: WriteResult)
      requires !locked
      modifies this
      ensures (View(), r) == BufWrite(old(View()), p) && !locked
    {
      locked := true;
      if timedOut {
        locked := false;
        return WriteResult(0, true);
      }
      if !wroteHeader {
        var none := WriteHeaderLocked(STATUS_OK);
      }
      wbuf := wbuf + p;
      locked := false;
      return WriteResult(|p|, false);
    }

    /** What the completed branch does under the mutex: the handler's map is copied key by key, in no fixed order. */
    method PublishLocked(w: ResponseWriter)
      requires locked
      modifies this, w
      ensures w.View() == Publish(old(w.View()), old(View())) && locked
      ensures h == old(h) && wbuf == old(wbuf) && timedOut == old(timedOut)
    {
      var left := h.Keys;
      while left != {}
        invariant locked && left <= h.Keys && h == old(h) && wbuf == old(wbuf) && timedOut == old(timedOut)
        invariant wroteHeader == old(wroteHeader) && code == old(code)
        invariant w.View() == old(w.View()).(header := old(w.header) + (h - left))
        decreases left
      {
        var k :| k in left;
        w.header := w.header[k := h[k]];
        left := left - {k};
      }
      assert h - {} == h;
      if !wroteHeader { code := STATUS_OK; }
      w.WriteHeader(code);
      w.Write(wbuf);
    }

    /** The completed branch of ServeHTTP. */
    method Complete(w: ResponseWriter)
      requires !locked
      modifies this, w
      ensures w.View() == Publish(old(w.View()), old(View())) && !locked
      ensures h == old(h) && wbuf == old(wbuf) && timedOut == old(timedOut)
    {
      locked := true;
      PublishLocked(w);
      locked := false;
    }

    /** What the deadline branch does under the mutex: the timeout handler writes to the real writer. */
    method ExpireLocked(w: ResponseWriter, calls: seq<WireCall>)
      requires locked
      modifies this, w
      ensures w.View() == WireRun(old(w.View()), calls)
      ensures View() == old(View()).(timedOut := true) && locked
    {
      Replay(w, calls);
      timedOut := true;
    }

    /** The deadline branch of ServeHTTP. */
    method Expire(w: ResponseWriter, calls: seq<WireCall>)
      requires !locked
      modifies this, w
      ensures w.View() == WireRun(old(w.View()), calls)
      ensures View() == old(View()).(timedOut := true) && !locked
    {
      locked := true;
      ExpireLocked(w, calls);
      locked := false;
    }
  }

  /** A handler whose effect on its writer is a list of calls. */
  method Replay(w: ResponseWriter, calls: seq<WireCall>)
    modifies w
    ensures w.View() == WireRun(old(w.View()), calls)
  {
    for i := 0 to |calls|
      invariant WireRun(w.View(), calls[i..]) == WireRun(old(w.View()), calls)
    {
      assert calls[i..][1..] == calls[i + 1..];
      match calls[i]
      case PutHeader(k, vv) => w.header := w.header[k := vv];
      case PutCode(c) => w.WriteHeader(c);
      case PutBody(p) => w.Write(p);
    }
  }
}
