/** The connection's handlers deliver and answer what the plain delivery loop delivers. */
module Delivery {
  import opened Bytes
  import opened HttpMessage
  import opened HttpContents
  import opened ParserTheorems
  import opened ConnModel
  import opened Segmentation

  function Replies(svc: Service, events: seq<Event>): bytes {
    if events == [] then [] else Reply(svc, events[0]) + Replies(svc, events[1..])
  }

  lemma {:induction false} RepliesAppend(svc: Service, a: seq<Event>, b: seq<Event>)
    ensures Replies(svc, a + b) == Replies(svc, a) + Replies(svc, b)
  {
    if a == [] {
      assert a + b == b;
    } else {
      assert (a + b)[1..] == a[1..] + b;
      RepliesAppend(svc, a[1..], b);
      Assoc(Reply(svc, a[0]), Replies(svc, a[1..]), Replies(svc, b));
    }
  }

  lemma RepliesOne(svc: Service, e: Event)
    ensures Replies(svc, [e]) == Reply(svc, e)
  {
    assert Replies(svc, [e][1..]) == [];
    AppendNothing(Reply(svc, e));
  }

  /**
   * From `s` to `t` the connection did what `o` says: same parser, input and events; and if nothing else
   * was sent, what it accepted for sending are the replies, in order.
   */
  predicate Did(svc: Service, s: Conn, o: Out, t: Conn, quiet: bool) {
    && t.ctx == o.ctx && t.inp == o.rest && t.log == s.log + o.events && t.dead == o.dead
    && (quiet && s.status != Disconnected ==>
          t.status != Disconnected && t.accepted == s.accepted + Replies(svc, o.events))
  }

  lemma DidNothing(svc: Service, s: Conn)
    ensures Did(svc, s, Out(s.ctx, s.inp, [], s.dead), s, true)
  {
    AppendNothing(s.log);
    AppendNothing(s.accepted);
  }

  /** One event answered first. */
  lemma DidThen(svc: Service, s: Conn, e: Event, rest: bytes, o: Out, t: Conn)
    requires Did(svc, Answered(svc, s, e, rest), o, t, true)
    ensures Did(svc, s, Then([e], o), t, true)
  {
    Assoc(s.log, [e], o.events);
    RepliesOne(svc, e);
    RepliesAppend(svc, [e], o.events);
    Assoc(s.accepted, Reply(svc, e), Replies(svc, o.events));
  }

  lemma DidThrow(svc: Service, s: Conn, t: Conn)
    requires t == s.(ctx := t.ctx, inp := t.inp, log := s.log + [Threw], dead := true)
    ensures Did(svc, s, Out(t.ctx, t.inp, [Threw], true), t, true)
  {
    RepliesOne(svc, Threw);
    AppendNothing(s.accepted);
  }

  /** Whether the message callback ends in Shutdown or not, and however deeply they call each other. */
  lemma {:induction false} CallbackDelivers(svc: Service, s: Conn)
    requires !s.dead && Live(s.ctx)
    ensures Did(svc, s, Deliver(s.ctx, s.inp), OnMessage(svc, s), true)
    decreases |s.inp|, 0
  {
    hide Reply, RecvHttpRequest, Did, Settled, IsClose, Answer;
    if s.inp == [] {
      DidNothing(svc, s);
    } else {
      WaitingState(s.ctx, s.inp);
      var r := RecvHttpRequest(s.ctx, s.inp);
      if r.threw {
        DidThrow(svc, s, OnMessage(svc, s));
      } else if r.ctx.resp >= 400 {
        var e := Rejected(r.ctx);
        ShutDownDelivers(svc, Answered(svc, s, e, []));
        DidThen(svc, s, e, [], Out(RESET, [], [], false), OnMessage(svc, s));
        AppendNothing([e]);
      } else if r.ctx.recv != RecvOver {
        Quiet(svc, s, r);
      } else {
        var e := Delivered(r.ctx.req);
        var next := Answered(svc, s, e, r.rest);
        if IsClose(Answer(svc, r.ctx.req).headers) {
          ShutDownDelivers(svc, next);
        } else {
          CallbackDelivers(svc, next);
        }
        DidThen(svc, s, e, r.rest, Deliver(RESET, r.rest), OnMessage(svc, s));
      }
    }
  }

  lemma Quiet(svc: Service, s: Conn, r: Received)
    ensures Did(svc, s, Out(r.ctx, r.rest, [], s.dead), s.(ctx := r.ctx, inp := r.rest), true)
  {
    AppendNothing(s.log);
    AppendNothing(s.accepted);
  }

  lemma ShutDownDelivers(svc: Service, s: Conn)
    requires !s.dead && Live(s.ctx)
    ensures Did(svc, s, Deliver(s.ctx, s.inp), ShutDown(svc, s), true)
    decreases |s.inp|, 1
  {
    hide OnMessage, Deliver, Replies;
    CallbackDelivers(svc, s.(status := Disconnecting));
  }

  // ---- runs ----

  /** What the acts of a run read. */
  function ReadsOf(acts: seq<Act>): seq<bytes> {
    if acts == [] then [] else (if acts[0].Read? then [acts[0].part] else []) + ReadsOf(acts[1..])
  }

  /** Nothing but replies is sent, and the connection is not released. */
  predicate OnlyReplies(acts: seq<Act>) {
    forall a | a in acts :: !a.SendData? && !a.RunRelease?
  }

  /** One read, or nothing read. */
  function AfterAct(o: Out, a: Act): (o': Out)
    requires o.dead || Live(o.ctx)
    ensures o'.dead || Live(o'.ctx)
  {
    if a.Read? then Receive(o, a.part) else o
  }

  /** A handler that reads nothing delivers nothing: the parser has already taken all it can. */
  lemma OtherActs(svc: Service, s: Conn, a: Act)
    requires s.Idle() && !s.dead && !a.Read?
    ensures Did(svc, s, Out(s.ctx, s.inp, [], false), Step(svc, s, a), OnlyReplies([a]))
  {
    hide OnMessage, ShutDown, Deliver, Replies;
    IdleCallback(s.ctx, s.inp);
    CallbackDelivers(svc, s);
    ShutDownDelivers(svc, s);
    DidNothing(svc, s);
    assert a in [a];
  }

  lemma StepDelivers(svc: Service, s: Conn, a: Act)
    requires s.Idle()
    ensures Did(svc, s, AfterAct(Out(s.ctx, s.inp, [], s.dead), a), Step(svc, s, a), OnlyReplies([a]))
  {
    hide OnMessage, ShutDown, Deliver, Replies;
    if s.dead {
      DidNothing(svc, s);
    } else if a.Read? {
      CallbackDelivers(svc, s.(inp := s.inp + a.part));
      NothingBefore(Deliver(s.ctx, s.inp + a.part));
    } else {
      OtherActs(svc, s, a);
    }
  }

  lemma PartsStep(o: Out, acts: seq<Act>)
    requires acts != [] && (o.dead || Live(o.ctx))
    ensures ReceiveAll(o, ReadsOf(acts)) == ReceiveAll(AfterAct(o, acts[0]), ReadsOf(acts[1..]))
  {
    var rest := ReadsOf(acts[1..]);
    if acts[0].Read? {
      assert ([acts[0].part] + rest)[1..] == rest;
    } else {
      assert [] + rest == rest;
    }
  }

  lemma LaterReads(svc: Service, s: Conn, o: Out, t: Conn, q: bool, parts: seq<bytes>)
    requires Did(svc, s, o, t, q) && t.Running()
    ensures o.dead || Live(o.ctx)
    ensures ReceiveAll(o, parts) == Then(o.events, ReceiveAll(Out(t.ctx, t.inp, [], t.dead), parts))
  {
    hide ReceiveAll;
    var next := Out(t.ctx, t.inp, [], t.dead);
    AppendNothing(o.events);
    assert Then(o.events, next) == o;
    LaterEvents(o.events, next, parts);
  }

  /** One thing done after another. */
  lemma DidBoth(svc: Service, s: Conn, o: Out, t: Conn, q1: bool, o2: Out, u: Conn, q2: bool, q: bool)
    requires Did(svc, s, o, t, q1) && Did(svc, t, o2, u, q2) && (q ==> q1 && q2)
    ensures Did(svc, s, Then(o.events, o2), u, q)
  {
    Assoc(s.log, o.events, o2.events);
    RepliesAppend(svc, o.events, o2.events);
    Assoc(s.accepted, Replies(svc, o.events), Replies(svc, o2.events));
  }

  /** In every run, the connection delivers what its reads deliver. */
  lemma {:induction false} RunDelivers(svc: Service, s: Conn, acts: seq<Act>)
    requires s.Idle()
    ensures Did(svc, s, ReceiveAll(Out(s.ctx, s.inp, [], s.dead), ReadsOf(acts)), Run(svc, s, acts), OnlyReplies(acts))
    decreases |acts|
  {
    hide Did, Deliver, Step, Replies, Receive;
    var here := Out(s.ctx, s.inp, [], s.dead);
    if acts == [] {
      DidNothing(svc, s);
      DidLoosely(svc, s, here, s, OnlyReplies(acts));
    } else {
      var t, o := Step(svc, s, acts[0]), AfterAct(here, acts[0]);
      var next := Out(t.ctx, t.inp, [], t.dead);
      StepDelivers(svc, s, acts[0]);
      RunDelivers(svc, t, acts[1..]);
      PartsStep(here, acts);
      LaterReads(svc, s, o, t, OnlyReplies([acts[0]]), ReadsOf(acts[1..]));
      if OnlyReplies(acts) {
        QuietParts(acts);
      }
      DidBoth(svc, s, o, t, OnlyReplies([acts[0]]), ReceiveAll(next, ReadsOf(acts[1..])), Run(svc, t, acts[1..]),
              OnlyReplies(acts[1..]), OnlyReplies(acts));
    }
  }

  lemma QuietParts(acts: seq<Act>)
    requires acts != [] && OnlyReplies(acts)
    ensures OnlyReplies([acts[0]]) && OnlyReplies(acts[1..])
  {
    assert acts[0] in acts && forall a | a in acts[1..] :: a in acts;
  }

  lemma DidLoosely(svc: Service, s: Conn, o: Out, t: Conn, q: bool)
    requires Did(svc, s, o, t, true)
    ensures Did(svc, s, o, t, q)
  {
  }

  /** A run whose reads cut the stream somehow, against the whole stream taken at once. */
  lemma RunAgainstWhole(svc: Service, s: Conn, acts: seq<Act>)
    requires !s.dead && Settled(s.ctx, s.inp) && s.log == []
    ensures var t, whole := Run(svc, s, acts), Deliver(s.ctx, s.inp + Concat(ReadsOf(acts)));
            && Judge(t.log) == Judge(whole.events)
            && (!Judge(whole.events).failed ==>
                  && Out(t.ctx, t.inp, t.log, t.dead) == whole && !whole.dead
                  && (OnlyReplies(acts) && s.status != Disconnected ==>
                        t.accepted == s.accepted + Replies(svc, t.log)))
  {
    hide Run, ReceiveAll, Deliver, Judge, Replies;
    var t := Run(svc, s, acts);
    var o := ReceiveAll(Out(s.ctx, s.inp, [], false), ReadsOf(acts));
    AnyCuts(s.ctx, s.inp, ReadsOf(acts));
    RunDelivers(svc, s, acts);
    LogIs(svc, s, o, t, OnlyReplies(acts));
    OneCut(s.ctx, s.inp + Concat(ReadsOf(acts)), []);
  }

  lemma LogIs(svc: Service, s: Conn, o: Out, t: Conn, q: bool)
    requires Did(svc, s, o, t, q) && s.log == []
    ensures t.log == o.events
  {
    assert [] + o.events == o.events;
  }

  /**
   * Two runs of a connection that read the same octets, cut differently and mixed with any other handlers:
   * both deliver the same requests up to the first failure; without a failure they end with the same parser
   * and unread input, and a run that sends nothing but replies has accepted the replies in request order.
   * The log starts empty at the state `s`.
   */
  lemma SegmentationIndependence(svc: Service, s: Conn, acts1: seq<Act>, acts2: seq<Act>)
    requires !s.dead && Settled(s.ctx, s.inp) && s.log == []
    requires Concat(ReadsOf(acts1)) == Concat(ReadsOf(acts2))
    ensures var t1, t2 := Run(svc, s, acts1), Run(svc, s, acts2);
            && Judge(t1.log) == Judge(t2.log)
            && (!Judge(t1.log).failed ==>
                  && t1.ctx == t2.ctx && t1.inp == t2.inp && t1.log == t2.log && !t1.dead && !t2.dead
                  && (OnlyReplies(acts1) && s.status != Disconnected ==>
                        t1.accepted == s.accepted + Replies(svc, t1.log)))
  {
    hide Run, Deliver, Judge, Replies;
    RunAgainstWhole(svc, s, acts1);
    RunAgainstWhole(svc, s, acts2);
  }
}
