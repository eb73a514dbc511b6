/** What one parser call says about every longer input. */
module ParserTheorems {
  import opened Bytes
  import opened HttpMessage
  import opened HttpContents
  import WebUtil
  import RequestLine

  /** A request was refused, or its declared length made std::stol throw. */
  predicate Failed(r: Received) {
    r.threw || r.ctx.resp >= 400
  }

  /** A parser between calls: reset, or waiting for more input. */
  predicate Live(c: Context) {
    && c.resp < 400
    && match c.recv {
         case RecvLine => c.req.body == []
         case RecvHead => c.req.body == []
         case RecvBody =>
           BodySize(c.req.headers).Some? && |c.req.body| < BodySize(c.req.headers).value
         case _ => false
       }
  }

  /** A waiting parser and the octets it left: no complete line, or a body still short. */
  predicate Settled(c: Context, rest: bytes) {
    && Live(c)
    && if c.recv == RecvBody then rest == [] else LF !in rest && |rest| <= MAX_LINE
  }

  // ---- the request line ----

  lemma LineFails(c: Context, b: bytes)
    requires c.recv == RecvLine
    ensures var d := RecvHttpLine(c, b).0;
            && (d.recv == RecvErr ==> d.resp >= 400)
            && (d.recv == RecvErr || d.recv == RecvHead || (d.recv == RecvLine && d == c))
            && (d.resp == c.resp || d.resp >= 400)
  {
    var n := LineLen(b);
    if 0 < n <= MAX_LINE && RequestLine.Match(b[..n]).Some? {
      var p := RequestLine.Match(b[..n]).value;
      FieldsKeepBody(
        c.(req := c.req.(version := p.version, meth := RequestLine.Upper(p.meth),
                         path := WebUtil.Decode(p.path, false))),
        WebUtil.Pieces(p.query, AMP));
    }
  }

  lemma LinePrefix(c: Context, x: bytes, y: bytes)
    requires c.recv == RecvLine
    ensures var (d, r) := RecvHttpLine(c, x);
            && (d.recv == RecvErr ==> RecvHttpLine(c, x + y).0 == d)
            && (d.recv == RecvHead ==> RecvHttpLine(c, x + y) == (d, r + y))
            && (d.recv == RecvLine ==> (d, r) == (c, x))
  {
    LineFails(c, x);
    LineLenAppend(x, y);
    CutAppend(x, y, LineLen(x));
  }

  /** A first part of `x` is a first part of x + y. */
  lemma CutAppend(x: bytes, y: bytes, n: nat)
    requires n <= |x|
    ensures (x + y)[..n] == x[..n] && (x + y)[n..] == x[n..] + y
  {
  }

  // ---- the header block ----

  lemma {:induction false} HeadPrefix(c: Context, x: bytes, y: bytes)
    requires c.recv == RecvHead
    ensures var (d, r) := RecvHttpHead(c, x);
            && (d.recv == RecvErr ==> RecvHttpHead(c, x + y).0 == d)
            && (d.recv == RecvHead ==> RecvHttpHead(c, x + y) == RecvHttpHead(d, r + y))
            && (d.recv == RecvBody ==> RecvHttpHead(c, x + y) == (d, r + y))
            && (d.recv == RecvErr || d.recv == RecvHead || d.recv == RecvBody)
    decreases |x|
  {
    var n := LineLen(x);
    LineLenAppend(x, y);
    CutAppend(x, y, n);
    if 0 < n <= MAX_LINE && !IsBlank(x[..n]) && ParseHead(c, x[..n]).recv == RecvHead {
      HeadPrefix(ParseHead(c, x[..n]), x[n..], y);
    }
  }

  lemma {:induction false} HeadFails(c: Context, b: bytes)
    requires c.recv == RecvHead
    ensures var (d, r) := RecvHttpHead(c, b);
            && (d.recv == RecvErr ==> d.resp >= 400)
            && (d.resp == c.resp || d.resp >= 400)
            && (d.recv == RecvHead ==> LF !in r && |r| <= MAX_LINE)
            && (d.recv == RecvBody ==> |r| < |b|)
            && |r| <= |b|
    decreases |b|
  {
    var n := LineLen(b);
    if 0 < n <= MAX_LINE && !IsBlank(b[..n]) && ParseHead(c, b[..n]).recv == RecvHead {
      HeadFails(ParseHead(c, b[..n]), b[n..]);
    }
  }

  // ---- the body ----

  /** What one call takes of the body, when `missing` octets are still to come. */
  lemma BodyPart(body: bytes, x: bytes, y: bytes, missing: nat)
    requires |x| < missing
    ensures var k := missing - |x|;
            && body + (x + y) == (body + x) + y
            && [] + y == y
            && (|y| >= k ==> body + (x + y)[..missing] == (body + x) + y[..k] && (x + y)[missing..] == y[k..])
  {
    if |y| >= missing - |x| {
      assert (x + y)[..missing] == x + y[..missing - |x|];
    }
  }

  lemma BodyComplete(c: Context, x: bytes, y: bytes, size: nat)
    requires c.recv == RecvBody && Ready(c) && BodySize(c.req.headers) == Some(size)
    requires size == 0 || |x| >= size - |c.req.body|
    ensures var a := RecvHttpBody(c, x);
            !a.threw && a.ctx.recv == RecvOver && RecvHttpBody(c, x + y) == Received(a.ctx, a.rest + y, false)
  {
    hide RecvHttpBody, Ready, BodySize;
    BodyTurn(c, x, size);
    BodyTurn(c, x + y, size);
    if size > 0 {
      CutAppend(x, y, size - |c.req.body|);
    }
  }

  lemma BodyShort(c: Context, x: bytes, y: bytes, size: nat)
    requires c.recv == RecvBody && Ready(c) && BodySize(c.req.headers) == Some(size)
    requires size > 0 && |x| < size - |c.req.body|
    ensures var a := RecvHttpBody(c, x);
            && !a.threw && a.ctx.recv == RecvBody && Ready(a.ctx)
            && RecvHttpBody(c, x + y) == RecvHttpBody(a.ctx, a.rest + y)
  {
    hide RecvHttpBody, Ready, BodySize;
    var d := c.(req := c.req.(body := c.req.body + x));
    ShortIsReady(c, x, size);
    BodyTurn(c, x, size);
    BodyPart(c.req.body, x, y, size - |c.req.body|);
    BodyTurn(c, x + y, size);
    BodyTurn(d, y, size);
  }

  lemma ShortIsReady(c: Context, x: bytes, size: nat)
    requires c.recv == RecvBody && BodySize(c.req.headers) == Some(size) && |c.req.body| + |x| < size
    ensures Ready(c.(req := c.req.(body := c.req.body + x)))
  {
    hide BodySize;
  }

  lemma BodyPrefix(c: Context, x: bytes, y: bytes)
    requires c.recv == RecvBody && Ready(c)
    ensures var a := RecvHttpBody(c, x);
            && (a.threw ==> RecvHttpBody(c, x + y).threw)
            && (!a.threw && a.ctx.recv == RecvOver ==> RecvHttpBody(c, x + y) == Received(a.ctx, a.rest + y, false))
            && (!a.threw && a.ctx.recv == RecvBody ==>
                  Ready(a.ctx) && RecvHttpBody(c, x + y) == RecvHttpBody(a.ctx, a.rest + y))
  {
    BodySkipped(c, x);
    BodySkipped(c, x + y);
    hide RecvHttpBody, Ready, BodySize;
    var size := BodySize(c.req.headers);
    if size.Some? {
      if size.value == 0 || |x| >= size.value - |c.req.body| {
        BodyComplete(c, x, y, size.value);
      } else {
        BodyShort(c, x, y, size.value);
      }
    }
  }

  lemma BodyOutcome(c: Context, b: bytes)
    requires c.recv == RecvBody && Ready(c)
    ensures var a := RecvHttpBody(c, b);
            && a.ctx.resp == c.resp && |a.rest| <= |b|
            && (a.ctx.recv == RecvOver || a.ctx.recv == RecvBody)
            && (Live(c) && a.ctx.recv == RecvOver ==> |a.rest| < |b|)
            && (c.resp < 400 && !a.threw && a.ctx.recv == RecvBody ==> Settled(a.ctx, a.rest))
  {
  }

  // ---- the three stages in a row ----

  /** From the header block on. */
  function HeadAndBody(c: Context, b: bytes): Received
    requires c.recv == RecvHead && c.req.body == []
  {
    HeadKeepsBody(c, b);
    RecvHttpBody(RecvHttpHead(c, b).0, RecvHttpHead(c, b).1)
  }

  /** A call that finds the parser past the request line, or past the header block. */
  lemma StagesSkipped(c: Context, b: bytes)
    requires Live(c)
    ensures c.recv == RecvHead ==> RecvHttpRequest(c, b) == HeadAndBody(c, b)
    ensures c.recv == RecvBody ==> Ready(c) && RecvHttpRequest(c, b) == RecvHttpBody(c, b)
  {
  }

  /** How a call on a first part of the input (of length `size`) foretells the call on all of it. */
  predicate Foretells(part: Received, size: nat, whole: Received, y: bytes) {
    && (Failed(part) ==> Failed(whole))
    && (!Failed(part) && part.ctx.recv == RecvOver ==>
          whole == Received(part.ctx, part.rest + y, false) && |part.rest| < size)
    && (!Failed(part) && part.ctx.recv != RecvOver ==>
          Settled(part.ctx, part.rest) && whole == RecvHttpRequest(part.ctx, part.rest + y))
  }

  lemma BodyForetells(c: Context, x: bytes, y: bytes, size: nat)
    requires c.recv == RecvBody && Ready(c) && |x| <= size
    requires Live(c) || |x| < size
    ensures Foretells(RecvHttpBody(c, x), size, RecvHttpBody(c, x + y), y)
  {
    BodyPrefix(c, x, y);
    BodyOutcome(c, x);
    BodyOutcome(c, x + y);
    var a := RecvHttpBody(c, x);
    if !Failed(a) && a.ctx.recv == RecvBody {
      StagesSkipped(a.ctx, a.rest + y);
    }
  }

  lemma HeadForetells(c: Context, x: bytes, y: bytes, size: nat)
    requires c.recv == RecvHead && c.req.body == [] && |x| <= size
    ensures Foretells(HeadAndBody(c, x), size, HeadAndBody(c, x + y), y)
    ensures c.resp >= 400 ==> Failed(HeadAndBody(c, x))
  {
    HeadPrefix(c, x, y);
    HeadFails(c, x);
    HeadKeepsBody(c, x);
    var (d, r) := RecvHttpHead(c, x);
    if d.recv == RecvBody {
      BodyForetells(d, r, y, size);
      BodyOutcome(d, r);
    } else if d.recv == RecvHead {
      HeadWaits(c, x, y);
    }
  }

  lemma HeadWaits(c: Context, x: bytes, y: bytes)
    requires c.recv == RecvHead && c.req.body == [] && RecvHttpHead(c, x).0.recv == RecvHead
    ensures Foretells(HeadAndBody(c, x), 0, HeadAndBody(c, x + y), y)
  {
    HeadPrefix(c, x, y);
    HeadFails(c, x);
    HeadKeepsBody(c, x);
    HeadKeepsBody(c, x + y);
    var (d, r) := RecvHttpHead(c, x);
    if d.resp < 400 {
      StagesSkipped(d, r + y);
    } else {
      HeadFails(d, r + y);
      BodyKeepsResp(d, r + y);
    }
  }

  lemma BodyKeepsResp(c: Context, b: bytes)
    requires c.recv == RecvHead && c.req.body == [] && c.resp >= 400
    ensures Failed(HeadAndBody(c, b))
  {
    HeadFails(c, b);
    HeadKeepsBody(c, b);
    var (d, r) := RecvHttpHead(c, b);
    if d.recv == RecvBody {
      BodyOutcome(d, r);
    }
  }

  /**
   * More input keeps a failure, keeps a completed request, and otherwise continues where the call
   * stopped, where the parser really waits.
   */
  lemma PrefixTheorem(c: Context, x: bytes, y: bytes)
    requires Live(c)
    ensures Foretells(RecvHttpRequest(c, x), |x|, RecvHttpRequest(c, x + y), y)
  {
    match c.recv
    case RecvLine =>
      LineFails(c, x);
      LinePrefix(c, x, y);
      LineKeepsBody(c, x);
      LineKeepsBody(c, x + y);
      var (d, r) := RecvHttpLine(c, x);
      if d.recv == RecvHead {
        HeadForetells(d, r, y, |x|);
      }
    case RecvHead =>
      StagesSkipped(c, x);
      StagesSkipped(c, x + y);
      HeadForetells(c, x, y, |x|);
    case RecvBody =>
      StagesSkipped(c, x);
      StagesSkipped(c, x + y);
      BodyForetells(c, x, y, |x|);
  }

  /** After a call that neither failed nor completed a request, the parser waits. */
  lemma WaitingState(c: Context, x: bytes)
    requires Live(c)
    ensures var a := RecvHttpRequest(c, x);
            !Failed(a) && a.ctx.recv != RecvOver ==> Settled(a.ctx, a.rest)
    ensures var a := RecvHttpRequest(c, x);
            !Failed(a) && a.ctx.recv == RecvOver ==> |a.rest| < |x|
  {
    PrefixTheorem(c, x, []);
  }
}
