/** How a byte stream is cut into reads does not change which requests are delivered. */
module Segmentation {
  import opened Bytes
  import opened HttpMessage
  import opened HttpContents
  import opened ParserTheorems
  import opened ConnModel

  /** A parser and its unread input, with the events so far. */
  datatype Out = Out(ctx: Context, rest: bytes, events: seq<Event>, dead: bool)

  /** The message callback without sending and closing: deliver requests until the input runs out. */
  function Deliver(c: Context, b: bytes): (o: Out)
    requires Live(c)
    ensures !o.dead ==> Settled(o.ctx, o.rest)
    decreases |b|
  {
    if b == [] then Out(c, b, [], false)
    else
      WaitingState(c, b);
      var r := RecvHttpRequest(c, b);
      if r.threw then Out(r.ctx, r.rest, [Threw], true)
      else if r.ctx.resp >= 400 then Out(RESET, [], [Rejected(r.ctx)], false)
      else if r.ctx.recv != RecvOver then Out(r.ctx, r.rest, [], false)
      else Then([Delivered(r.ctx.req)], Deliver(RESET, r.rest))
  }

  /** What happened after `events`, put behind them. */
  function Then(events: seq<Event>, o: Out): Out {
    o.(events := events + o.events)
  }

  // ---- verdicts ----

  /** The requests delivered up to the first failure, and whether there was a failure. */
  datatype Verdict = Verdict(requests: seq<Request>, failed: bool)

  function Judge(events: seq<Event>): Verdict {
    if events == [] then Verdict([], false)
    else if events[0].Delivered? then
      var v := Judge(events[1..]);
      Verdict([events[0].req] + v.requests, v.failed)
    else Verdict([], true)
  }

  lemma {:induction false} JudgeAppend(a: seq<Event>, b: seq<Event>)
    ensures Judge(a).failed ==> Judge(a + b) == Judge(a)
    ensures !Judge(a).failed ==>
              Judge(a + b) == Verdict(Judge(a).requests + Judge(b).requests, Judge(b).failed)
  {
    if a == [] {
      assert a + b == b;
    } else {
      assert (a + b)[1..] == a[1..] + b;
      JudgeAppend(a[1..], b);
    }
  }

  lemma JudgeOne(e: Event)
    ensures Judge([e]) == if e.Delivered? then Verdict([e.req], false) else Verdict([], true)
  {
    assert Judge([e][1..]) == Verdict([], false);
  }

  // ---- one cut ----

  /** Input that comes in two reads, against the same input in one. */
  predicate SameAs(first: Out, y: bytes, whole: Out)
    requires !Judge(first.events).failed ==> Live(first.ctx)
  {
    if Judge(first.events).failed then Judge(whole.events) == Judge(first.events)
    else whole == Then(first.events, Deliver(first.ctx, first.rest + y))
  }

  lemma {:induction false} OneCut(c: Context, x: bytes, y: bytes)
    requires Live(c)
    ensures var o := Deliver(c, x);
            && (o.dead ==> Judge(o.events).failed)
            && SameAs(o, y, Deliver(c, x + y))
    decreases |x|
  {
    if x == [] {
      assert x + y == y;
      NothingBefore(Deliver(c, y));
    } else {
      PrefixTheorem(c, x, y);
      hide RecvHttpRequest, RecvHttpBody, Settled;
      var r := RecvHttpRequest(c, x);
      if Failed(r) {
        FailedFirst(c, x);
        FailedFirst(c, x + y);
      } else if r.ctx.recv != RecvOver {
        WaitsFirst(c, x, y);
      } else {
        OneCut(RESET, r.rest, y);
        AfterDelivery(r.ctx.req, r.rest, y);
      }
    }
  }

  lemma NothingBefore(o: Out)
    ensures Then([], o) == o && Judge([]) == Verdict([], false)
  {
  }

  lemma FailedFirst(c: Context, b: bytes)
    requires Live(c) && b != [] && Failed(RecvHttpRequest(c, b))
    ensures Judge(Deliver(c, b).events) == Verdict([], true)
  {
    var r := RecvHttpRequest(c, b);
    JudgeOne(if r.threw then Threw else Rejected(r.ctx));
  }

  lemma WaitsFirst(c: Context, x: bytes, y: bytes)
    requires Live(c) && x != []
    requires var r := RecvHttpRequest(c, x);
             && !Failed(r) && r.ctx.recv != RecvOver && Live(r.ctx)
             && RecvHttpRequest(c, x + y) == RecvHttpRequest(r.ctx, r.rest + y)
    ensures var o := Deliver(c, x);
            !o.dead && !Judge(o.events).failed && SameAs(o, y, Deliver(c, x + y))
  {
    hide RecvHttpRequest, Settled;
    var r := RecvHttpRequest(c, x);
    NothingBefore(Deliver(r.ctx, r.rest + y));
    if r.rest + y == [] {
      assert x + y == x;
    }
  }

  lemma AfterDelivery(req: Request, rest: bytes, y: bytes)
    requires var o := Deliver(RESET, rest);
             (o.dead ==> Judge(o.events).failed) && SameAs(o, y, Deliver(RESET, rest + y))
    ensures var o := Then([Delivered(req)], Deliver(RESET, rest));
            && (o.dead ==> Judge(o.events).failed)
            && SameAs(o, y, Then([Delivered(req)], Deliver(RESET, rest + y)))
  {
    hide Deliver;
    var o, w := Deliver(RESET, rest), Deliver(RESET, rest + y);
    var e := Delivered(req);
    JudgeOne(e);
    JudgeAppend([e], o.events);
    JudgeAppend([e], w.events);
    if !Judge(o.events).failed {
      Assoc([e], o.events, Deliver(o.ctx, o.rest + y).events);
    }
  }

  // ---- any number of cuts ----

  /** One read: the new octets join the unread ones and the callback runs, unless the thread is gone. */
  function Receive(o: Out, part: bytes): (o': Out)
    requires o.dead || Live(o.ctx)
    ensures o'.dead || Settled(o'.ctx, o'.rest)
  {
    if o.dead then o else Then(o.events, Deliver(o.ctx, o.rest + part))
  }

  function ReceiveAll(o: Out, parts: seq<bytes>): Out
    requires o.dead || Live(o.ctx)
    decreases |parts|
  {
    if parts == [] then o else ReceiveAll(Receive(o, parts[0]), parts[1..])
  }

  /** Once something has failed, later reads no longer change the verdict. */
  lemma {:induction false} FailureStays(o: Out, parts: seq<bytes>)
    requires (o.dead || Live(o.ctx)) && Judge(o.events).failed
    ensures Judge(ReceiveAll(o, parts).events) == Judge(o.events)
    decreases |parts|
  {
    if parts != [] {
      if !o.dead {
        JudgeAppend(o.events, Deliver(o.ctx, o.rest + parts[0]).events);
      }
      FailureStays(Receive(o, parts[0]), parts[1..]);
    }
  }

  /**
   * Segmentation independence: reads of any sizes, empty ones included, deliver the same requests up to
   * the first failure as the whole stream at once; without a failure they also leave the same parser and
   * the same unread octets.
   */
  lemma {:induction false} AnyCuts(c: Context, rest: bytes, parts: seq<bytes>)
    requires Settled(c, rest)
    ensures var cut := ReceiveAll(Out(c, rest, [], false), parts);
            var whole := Deliver(c, rest + Concat(parts));
            && Judge(cut.events) == Judge(whole.events)
            && (!Judge(whole.events).failed ==> cut == whole)
    decreases |parts|
  {
    var start := Out(c, rest, [], false);
    if parts == [] {
      assert rest + [] == rest;
      IdleCallback(c, rest);
    } else {
      hide Deliver, Judge, RecvHttpRequest;
      var x, y := rest + parts[0], Concat(parts[1..]);
      Assoc(rest, parts[0], y);
      OneCut(c, x, y);
      var o := Deliver(c, x);
      NothingBefore(o);
      assert Receive(start, parts[0]) == o;
      if Judge(o.events).failed {
        FailureStays(o, parts[1..]);
      } else {
        AnyCuts(o.ctx, o.rest, parts[1..]);
        CutsAfter(o, y, parts[1..]);
      }
    }
  }

  /** The reads after the first one, with what the first one did put in front. */
  lemma CutsAfter(o: Out, y: bytes, parts: seq<bytes>)
    requires !o.dead && Live(o.ctx) && !Judge(o.events).failed
    requires var cut := ReceiveAll(Out(o.ctx, o.rest, [], false), parts);
             var whole := Deliver(o.ctx, o.rest + y);
             && Judge(cut.events) == Judge(whole.events)
             && (!Judge(whole.events).failed ==> cut == whole)
    ensures var cut := ReceiveAll(o, parts);
            var whole := Then(o.events, Deliver(o.ctx, o.rest + y));
            && Judge(cut.events) == Judge(whole.events)
            && (!Judge(whole.events).failed ==> cut == whole)
  {
    hide Deliver, Judge, ReceiveAll;
    var here := Out(o.ctx, o.rest, [], false);
    AppendNothing(o.events);
    assert Then(o.events, here) == o;
    LaterEvents(o.events, here, parts);
    JudgeAppend(o.events, Deliver(o.ctx, o.rest + y).events);
    JudgeAppend(o.events, ReceiveAll(here, parts).events);
  }

  /** Calling the callback again without new input changes nothing. */
  lemma IdleCallback(c: Context, rest: bytes)
    requires Settled(c, rest)
    ensures Deliver(c, rest) == Out(c, rest, [], false)
  {
    var n := LineLen(rest);
    if c.recv == RecvHead {
      assert RecvHttpHead(c, rest) == (c, rest);
    }
  }

  /** Events that came before stay in front. */
  lemma {:induction false} LaterEvents(events: seq<Event>, o: Out, parts: seq<bytes>)
    requires o.dead || Live(o.ctx)
    ensures ReceiveAll(Then(events, o), parts) == Then(events, ReceiveAll(o, parts))
    decreases |parts|
  {
    if parts != [] {
      if !o.dead {
        Assoc(events, o.events, Deliver(o.ctx, o.rest + parts[0]).events);
      }
      LaterEvents(events, Receive(o, parts[0]), parts[1..]);
    }
  }
}
