/**
 The proxy's capture of one call: bounded buffers behind tees, and the completeness flag read off them when
 the response body closes (internal/proxy/proxy.go).
 */
module Capture {
  import opened Prelude
  import opened Events
  import opened Deliveries

  /** What a buffer of this capacity keeps of a stream. */
  function Kept(stream: Bytes, cap: int): Bytes {
    if cap <= 0 then [] else if |stream| <= cap then stream else stream[..cap]
  }

  /** The longest prefix of the stream that fits: all of it, or as many bytes as the capacity. */
  lemma KeptExactly(stream: Bytes, cap: int)
    ensures Kept(stream, cap) <= stream
    ensures |Kept(stream, cap)| == if |stream| <= cap then |stream| else if cap < 0 then 0 else cap
  {
  }

  class BoundedBuffer {
    const cap: int
    var buf: Bytes
    var truncated: bool
    /** Everything written so far. */
    ghost var seen: Bytes

    ghost predicate Valid()
      reads this
    {
      buf == Kept(seen, cap) && (truncated <==> buf != seen)
    }

    constructor (capacity: int)
      ensures Valid() && cap == capacity && seen == []
    {
      cap, buf, truncated, seen := capacity, [], false, [];
    }

    /**
     Keeps what still fits; the flag is set by the first byte that does not. The count returned falls short of
     the bytes given on the one write that straddles the capacity, and on no other.
     */
    method Write(p: Bytes) returns (n: nat)
      requires Valid()
      modifies this
      ensures Valid() && seen == old(seen) + p
      ensures n == |p| || n == |buf| - |old(buf)|
      ensures n < |p| <==> |old(seen)| < cap < |seen|
    {
      var room := cap - |buf|;
      seen := seen + p;
      if room <= 0 {
        if |p| > 0 {
          truncated := true;
        }
        return |p|;
      }
      var kept := p;
      if room < |p| {
        truncated := true;
        kept := p[..room];
      }
      buf := buf + kept;
      n := |kept|;
    }
  }

  /** One read from a body: the bytes it yielded and the error that came with them. */
  datatype ReadError = NoError | Eof | Canceled | Failed(reason: string)

  datatype Read = Read(data: Bytes, error: ReadError)

  function Data(rs: seq<Read>): Bytes {
    if rs == [] then [] else Data(rs[..|rs| - 1]) + rs[|rs| - 1].data
  }

  /** The first error that is neither a clean end nor the client stopping the stream. */
  function Abort(rs: seq<Read>): Option<string> {
    if rs == [] then None
    else
      var before := Abort(rs[..|rs| - 1]);
      if before.Some? then before
      else if rs[|rs| - 1].error.Failed? then Some(rs[|rs| - 1].error.reason)
      else None
  }

  class Tee {
    const buf: BoundedBuffer
    var readErr: Option<string>
    ghost var passed: seq<Read>

    ghost predicate Valid()
      reads this, buf
    {
      buf.Valid() && buf.seen == Data(passed) && readErr == Abort(passed)
    }

    constructor (capacity: int)
      ensures Valid() && fresh(buf) && buf.cap == capacity && passed == []
    {
      buf := new BoundedBuffer(capacity);
      readErr, passed := None, [];
    }

    /** Copies the bytes into the buffer before they go on, and remembers the first abort. */
    method Read(r: Read)
      requires Valid()
      modifies this, buf
      ensures Valid() && passed == old(passed) + [r]
    {
      if |r.data| > 0 {
        var _ := buf.Write(r.data);
      }
      if r.error.Failed? && readErr.None? {
        readErr := Some(r.error.reason);
      }
      DataSnoc(passed + [r], passed, r);
      AbortSnoc(passed + [r], passed, r);
      passed := passed + [r];
    }
  }

  datatype Call = Call(reqBody: Bytes, respBody: Bytes, captureComplete: bool, error: Option<string>)

  /** onClose of the response body: the call as submitted. */
  method Close(req: Tee, resp: Tee) returns (call: Call)
    requires req.Valid() && resp.Valid()
    ensures call.reqBody == Kept(Data(req.passed), req.buf.cap) && call.respBody == Kept(Data(resp.passed), resp.buf.cap)
    ensures call.error == Abort(resp.passed)
    ensures call.captureComplete <==>
              Abort(resp.passed) == None && call.reqBody == Data(req.passed) && call.respBody == Data(resp.passed)
  {
    if resp.readErr.Some? {
      return Call(req.buf.buf, resp.buf.buf, false, resp.readErr);
    }
    call := Call(req.buf.buf, resp.buf.buf, !resp.buf.truncated && !req.buf.truncated, None);
  }

  /** The submitted call as a function of the two streams and the capacity. */
  function Submitted(req: seq<Read>, resp: seq<Read>, cap: int): Call {
    var q, p := Kept(Data(req), cap), Kept(Data(resp), cap);
    Call(q, p, Abort(resp) == None && q == Data(req) && p == Data(resp), Abort(resp))
  }

  /** The reads of one exchange, one after the other, and the close at its end. */
  method CaptureCall(req: seq<Read>, resp: seq<Read>, cap: int) returns (call: Call)
    ensures call == Submitted(req, resp, cap)
  {
    var reqTee := new Tee(cap);
    for i := 0 to |req|
      invariant reqTee.Valid() && reqTee.passed == req[..i]
      invariant fresh(reqTee) && fresh(reqTee.buf)
    {
      reqTee.Read(req[i]);
    }
    var respTee := new Tee(cap);
    for i := 0 to |resp|
      invariant reqTee.Valid() && reqTee.passed == req
      invariant respTee.Valid() && respTee.passed == resp[..i]
      invariant fresh(respTee) && fresh(respTee.buf) && respTee != reqTee && respTee.buf != reqTee.buf
    {
      respTee.Read(resp[i]);
    }
    assert req[..|req|] == req && resp[..|resp|] == resp;
    call := Close(reqTee, respTee);
  }

  lemma {:induction false} DataSnoc(rs: seq<Read>, init: seq<Read>, last: Read)
    requires rs == init + [last]
    ensures Data(rs) == Data(init) + last.data
  {
    assert rs[..|rs| - 1] == init;
  }

  lemma {:induction false} AbortSnoc(rs: seq<Read>, init: seq<Read>, last: Read)
    requires rs == init + [last]
    ensures Abort(rs) ==
      if Abort(init).Some? then Abort(init) else if last.error.Failed? then Some(last.error.reason) else None
  {
    assert rs[..|rs| - 1] == init;
  }

  lemma {:induction false} DataAppend(a: seq<Read>, b: seq<Read>)
    ensures Data(a + b) == Data(a) + Data(b)
    decreases |b|
  {
    if b == [] {
      assert a + b == a;
    } else {
      var init, last := b[..|b| - 1], b[|b| - 1];
      DataAppend(a, init);
      DataSnoc(b, init, last);
      DataSnoc(a + b, a + init, last);
    }
  }

  lemma {:induction false} AbortIsFirst(rs: seq<Read>)
    ensures Abort(rs) == None <==> forall i :: 0 <= i < |rs| ==> !rs[i].error.Failed?
    ensures Abort(rs).Some? ==>
      exists i :: 0 <= i < |rs| && rs[i].error == Failed(Abort(rs).value)
                  && forall k :: 0 <= k < i ==> !rs[k].error.Failed?
  {
    if rs != [] {
      var init := rs[..|rs| - 1];
      AbortIsFirst(init);
      if Abort(init).Some? {
        var i :| 0 <= i < |init| && init[i].error == Failed(Abort(init).value)
                 && forall k :: 0 <= k < i ==> !init[k].error.Failed?;
        assert rs[i] == init[i];
        assert forall k :: 0 <= k < i ==> rs[k] == init[k];
      } else {
        assert forall k :: 0 <= k < |init| ==> rs[k] == init[k];
      }
    }
  }

  lemma {:induction false} AbortAppend(a: seq<Read>, b: seq<Read>)
    ensures Abort(a + b) == if Abort(a).Some? then Abort(a) else Abort(b)
    decreases |b|
  {
    if b == [] {
      assert a + b == a;
    } else {
      var init, last := b[..|b| - 1], b[|b| - 1];
      AbortAppend(a, init);
      AbortSnoc(b, init, last);
      AbortSnoc(a + b, a + init, last);
    }
  }

  lemma {:induction false} OneRead(r: Read)
    ensures Data([r]) == r.data && Abort([r]) == if r.error.Failed? then Some(r.error.reason) else None
  {
    assert [r][..0] == [];
  }

  lemma SplitRead(before: seq<Read>, a: Bytes, b: Bytes, error: ReadError, after: seq<Read>)
    ensures var whole := before + [Read(a + b, error)] + after;
            var split := before + [Read(a, NoError), Read(b, error)] + after;
            Data(split) == Data(whole) && Abort(split) == Abort(whole)
  {
    var one, two := [Read(a + b, error)], [Read(a, NoError), Read(b, error)];
    assert two == [Read(a, NoError)] + [Read(b, error)];
    DataAppend([Read(a, NoError)], [Read(b, error)]);
    AbortAppend([Read(a, NoError)], [Read(b, error)]);
    OneRead(Read(a, NoError));
    OneRead(Read(b, error));
    OneRead(Read(a + b, error));
    DataAppend(before, one);
    DataAppend(before, two);
    DataAppend(before + one, after);
    DataAppend(before + two, after);
    AbortAppend(before, one);
    AbortAppend(before, two);
    AbortAppend(before + one, after);
    AbortAppend(before + two, after);
  }

  /** Cutting any read of either body in two makes no difference to the call. */
  lemma ChunkingIrrelevant(before: seq<Read>, a: Bytes, b: Bytes, error: ReadError, after: seq<Read>,
                           other: seq<Read>, cap: int)
    ensures var whole := before + [Read(a + b, error)] + after;
            var split := before + [Read(a, NoError), Read(b, error)] + after;
            && Submitted(split, other, cap) == Submitted(whole, other, cap)
            && Submitted(other, split, cap) == Submitted(other, whole, cap)
  {
    SplitRead(before, a, b, error, after);
  }

  /** Complete means: the response ended cleanly, and neither body is over the cap. */
  lemma CompleteExactly(req: seq<Read>, resp: seq<Read>, cap: nat)
    ensures Submitted(req, resp, cap).captureComplete
       <==> (forall i :: 0 <= i < |resp| ==> !resp[i].error.Failed?) && |Data(req)| <= cap && |Data(resp)| <= cap
  {
    AbortIsFirst(resp);
  }

  // ---------- from the tee to the row ----------

  datatype Exchange = Exchange(req: seq<Read>, resp: seq<Read>, cap: int)

  function Stream(x: Exchange, c: Col): Bytes {
    match c
    case Req => Data(x.req)
    case Resp => Data(x.resp)
    case Transcript => []
  }

  /** `d` is the delivery the consumer builds from the captured call. */
  predicate IsCapture(d: Event, x: Exchange) {
    var call := Submitted(x.req, x.resp, x.cap);
    && d.captureComplete == call.captureComplete
    && (Req in d.bodies ==> d.bodies[Req] == call.reqBody)
    && (Resp in d.bodies ==> d.bodies[Resp] == call.respBody)
  }

  /**
   A row flagged complete, after any deliveries from any collectors in any order: a request or response body
   that came from the proxy is every byte that passed that proxy call's tee.
   */
  lemma CompleteRowHoldsTheStream(e: Event, ds: seq<Event>, xs: seq<Exchange>, c: Col)
    requires Summarizes(e, ds) && |xs| == |ds|
    requires forall i :: 0 <= i < |ds| && ds[i].fixed.source == Proxy ==> IsCapture(ds[i], xs[i])
    requires e.captureComplete && c != Transcript && !e.Empty(c)
    requires Owner(ds, c) >= 0 ==> ds[Owner(ds, c)].fixed.source == Proxy
    ensures 0 <= Owner(ds, c) && e.bodies[c] == Stream(xs[Owner(ds, c)], c)
  {
    CompletenessNeverLaundered(e, ds, c);
    OwnerCarries(ds, c);
    var o := Owner(ds, c);
    assert IsCapture(ds[o], xs[o]);
  }

  lemma OwnerCarries(ds: seq<Event>, c: Col)
    requires Owner(ds, c) >= 0
    ensures c in ds[Owner(ds, c)].bodies
  {
    assert Carries(c)(ds[Owner(ds, c)]);
  }
}
