/** How a connection ends: what closes it, what queues its release, and what its peer got by then. */
module Lifecycle {
  import opened Bytes
  import opened HttpMessage
  import opened HttpContents
  import opened ParserTheorems
  import opened ConnModel
  import opened Segmentation
  import opened Delivery
  import opened Output
  import opened Responses

  // ---- closing ----

  /** What decides after an answer: the handler's Connection header, or the request's where it sets none. */
  predicate AskedToClose(svc: Service, req: Request) {
    !KeepsAlive(if "Connection" in svc.route(req).headers then svc.route(req).headers else req.headers)
  }

  lemma CompletedTurn(svc: Service, s: Conn)
    requires s.Running() && !s.dead && s.inp != []
    requires var r := RecvHttpRequest(s.ctx, s.inp); !r.threw && r.ctx.resp < 400 && r.ctx.recv == RecvOver
    ensures var r := RecvHttpRequest(s.ctx, s.inp);
            var next := Answered(svc, s, Delivered(r.ctx.req), r.rest);
            next.Running()
            && OnMessage(svc, s) == if AskedToClose(svc, r.ctx.req) then ShutDown(svc, next) else OnMessage(svc, next)
  {
    hide RecvHttpRequest, ShutDown, Reply, Answer, IsClose;
    WaitingState(s.ctx, s.inp);
    ClosesAsAsked(svc, RecvHttpRequest(s.ctx, s.inp).ctx.req);
  }

  /**
   * A completed request that is the last of the input shuts the connection down if and only if it, or its
   * handler, asked for that; one that asked for it does so whatever input follows.
   */
  lemma ClosesConnection(svc: Service, s: Conn)
    requires s.Running() && !s.dead && s.inp != [] && !Closing(s)
    requires var r := RecvHttpRequest(s.ctx, s.inp); !r.threw && r.ctx.resp < 400 && r.ctx.recv == RecvOver
    ensures var r := RecvHttpRequest(s.ctx, s.inp);
            && (AskedToClose(svc, r.ctx.req) ==> OnMessage(svc, s).status == Disconnecting)
            && (r.rest == [] ==> (OnMessage(svc, s).status == Disconnecting <==> AskedToClose(svc, r.ctx.req)))
  {
    hide RecvHttpRequest, AskedToClose, Reply, OnMessage;
    CompletedTurn(svc, s);
    var r := RecvHttpRequest(s.ctx, s.inp);
    var next := Answered(svc, s, Delivered(r.ctx.req), r.rest);
    if AskedToClose(svc, r.ctx.req) {
      CallbackQueuesNoRelease(svc, next.(status := Disconnecting));
    } else if r.rest == [] {
      NothingToDo(svc, next);
    }
  }

  lemma NothingToDo(svc: Service, s: Conn)
    requires s.Running() && s.inp == []
    ensures OnMessage(svc, s) == s
  {
  }

  /** ShutDownInLoop leaves DISCONNECTING behind, whatever the status was; also after ReleaseInloop. */
  lemma {:induction false} ShutDownDisconnects(svc: Service, s: Conn)
    requires s.Running()
    ensures ShutDown(svc, s).status == Disconnecting
  {
    hide OnMessage;
    CallbackQueuesNoRelease(svc, s.(status := Disconnecting));
  }

  // ---- released, and back ----

  /** Between two handler calls, the message callback has nothing to do. */
  lemma IdleIsDone(svc: Service, s: Conn)
    requires s.Idle()
    ensures OnMessage(svc, s) == s
  {
    if !s.dead && s.inp != [] {
      IdleRequest(s.ctx, s.inp);
      hide RecvHttpRequest;
    }
  }

  lemma IdleRequest(c: Context, rest: bytes)
    requires Settled(c, rest) && rest != []
    ensures RecvHttpRequest(c, rest) == Received(c, rest, false) && c.recv != RecvOver && c.resp < 400
  {
    assert LineLen(rest) == 0;
    if c.recv == RecvHead {
      assert RecvHttpHead(c, rest) == (c, rest);
    }
  }

  /** A request was refused, or answered and had asked for the connection to be closed. */
  predicate Closes(svc: Service, e: Event) {
    e.Rejected? || (e.Delivered? && AskedToClose(svc, e.req))
  }

  predicate NothingCloses(svc: Service, events: seq<Event>) {
    forall e | e in events :: !Closes(svc, e)
  }

  lemma ClosesThen(svc: Service, e: Event, events: seq<Event>)
    ensures NothingCloses(svc, [e] + events) <==> !Closes(svc, e) && NothingCloses(svc, events)
  {
    hide Closes;
    assert e in [e] + events;
    assert forall x | x in events :: x in [e] + events;
  }

  /** What the message callback does to a released connection. */
  lemma {:induction false} ReleasedCallback(svc: Service, s: Conn)
    requires !s.dead && Live(s.ctx) && s.status == Disconnected
    ensures var t := OnMessage(svc, s);
            && (t.status == Disconnected <==> NothingCloses(svc, Deliver(s.ctx, s.inp).events))
            && (t.status == Disconnected ==> t.accepted == s.accepted)
    decreases |s.inp|
  {
    hide RecvHttpRequest, ShutDown, Reply, NothingCloses, AskedToClose, Settled;
    if s.inp == [] {
      NothingToDo(svc, s);
      NoEvents(svc);
    } else {
      WaitingState(s.ctx, s.inp);
      var r := RecvHttpRequest(s.ctx, s.inp);
      if r.threw {
        OneEvent(svc, Threw);
      } else if r.ctx.resp >= 400 {
        OneEvent(svc, Rejected(r.ctx));
        ShutDownDisconnects(svc, Answered(svc, s, Rejected(r.ctx), []));
      } else if r.ctx.recv != RecvOver {
        NoEvents(svc);
      } else {
        CompletedTurn(svc, s);
        var next := Answered(svc, s, Delivered(r.ctx.req), r.rest);
        ClosesThen(svc, Delivered(r.ctx.req), Deliver(RESET, r.rest).events);
        if AskedToClose(svc, r.ctx.req) {
          ShutDownDisconnects(svc, next);
        } else {
          ReleasedCallback(svc, next);
        }
      }
    }
  }

  lemma NoEvents(svc: Service)
    ensures NothingCloses(svc, [])
  {
  }

  lemma OneEvent(svc: Service, e: Event)
    ensures NothingCloses(svc, [e]) <==> !Closes(svc, e)
  {
    assert [e] + [] == [e];
    ClosesThen(svc, e, []);
    NoEvents(svc);
  }

  /** What leaves a released connection released: no failed read, no shutdown, and no input that closes. */
  predicate Leaves(svc: Service, o: Out, a: Act)
    requires o.dead || Live(o.ctx)
  {
    && !a.ReadFailed? && !a.AskShutdown?
    && (a.Read? ==> o.dead || NothingCloses(svc, Deliver(o.ctx, o.rest + a.part).events))
  }

  function ParserOf(s: Conn): Out {
    Out(s.ctx, s.inp, [], s.dead)
  }

  /** A released connection stays released in one act if and only if that leaves it so; and then it accepts nothing. */
  lemma StaysReleasedIff(svc: Service, s: Conn, a: Act)
    requires s.Idle() && !s.dead && s.status == Disconnected
    ensures var t := Step(svc, s, a);
            && (t.status == Disconnected <==> Leaves(svc, ParserOf(s), a))
            && (t.status == Disconnected ==> t.accepted == s.accepted)
  {
    hide OnMessage, Deliver, Live, NothingCloses;
    match a
    case Read(part) =>
      IdleLives(s);
      ReleasedCallback(svc, s.(inp := s.inp + part));
    case ReadFailed => ShutDownDisconnects(svc, s);
    case AskShutdown => ShutDownDisconnects(svc, s);
    case WriteFailed => IdleIsDone(svc, s);
    case Hangup => IdleIsDone(svc, s);
    case _ =>
  }

  lemma IdleLives(s: Conn)
    requires s.Idle() && !s.dead
    ensures Live(s.ctx)
  {
  }

  predicate AlwaysReleased(svc: Service, s: Conn, acts: seq<Act>)
    requires s.Idle()
    decreases |acts|
  {
    s.status == Disconnected && (acts == [] || AlwaysReleased(svc, Step(svc, s, acts[0]), acts[1..]))
  }

  /** The same of a run, by its acts and what the parser makes of its reads; an exception ends all. */
  predicate LeavesAll(svc: Service, o: Out, acts: seq<Act>)
    requires o.dead || Live(o.ctx)
    decreases |acts|
  {
    o.dead || acts == [] ||
    (Leaves(svc, o, acts[0]) &&
     LeavesAll(svc, if acts[0].Read? then Receive(Out(o.ctx, o.rest, [], false), acts[0].part) else o, acts[1..]))
  }

  lemma {:induction false} DeadStaysReleased(svc: Service, s: Conn, acts: seq<Act>)
    requires s.dead && s.status == Disconnected
    ensures AlwaysReleased(svc, s, acts)
    decreases |acts|
  {
    if acts != [] {
      DeadStaysReleased(svc, s, acts[1..]);
    }
  }

  lemma LeavesByParser(svc: Service, o: Out, p: Out, acts: seq<Act>)
    requires o.dead || Live(o.ctx)
    requires o.ctx == p.ctx && o.rest == p.rest && o.dead == p.dead
    ensures LeavesAll(svc, o, acts) == LeavesAll(svc, p, acts)
    decreases |acts|
  {
    hide Live, Deliver, NothingCloses;
    if acts != [] && !o.dead {
      var a, rest := acts[0], acts[1..];
      if !a.Read? {
        LeavesByParser(svc, o, p, rest);
      }
    }
  }

  lemma SameParser(svc: Service, s: Conn, a: Act)
    requires s.Idle() && !s.dead && !a.Read? && !a.ReadFailed? && !a.AskShutdown?
    ensures ParserOf(Step(svc, s, a)) == ParserOf(s)
  {
    IdleIsDone(svc, s);
    hide OnMessage, Settled;
  }

  lemma ReadParser(svc: Service, s: Conn, part: bytes)
    requires s.Idle() && !s.dead
    ensures Live(s.ctx)
    ensures var t, o := Step(svc, s, Read(part)), Receive(ParserOf(s), part);
            t.ctx == o.ctx && t.inp == o.rest && t.dead == o.dead
  {
    IdleLives(s);
    hide Live, OnMessage, Deliver, Replies;
    CallbackDelivers(svc, s.(inp := s.inp + part));
  }

  /**
   * A released connection stays released throughout a run if and only if, until a handler throws, no read fails,
   * nothing asks for a shutdown, and no input is refused or asks for the connection to be closed.
   */
  lemma {:induction false} StaysReleasedRunIff(svc: Service, s: Conn, acts: seq<Act>)
    requires s.Idle() && s.status == Disconnected
    ensures s.dead || Live(s.ctx)
    ensures AlwaysReleased(svc, s, acts) <==> LeavesAll(svc, ParserOf(s), acts)
    decreases |acts|
  {
    hide Step, Live, Deliver, NothingCloses, Receive, Leaves;
    if s.dead {
      DeadStaysReleased(svc, s, acts);
    } else {
      IdleLives(s);
      if acts != [] {
        var a, rest, t := acts[0], acts[1..], Step(svc, s, acts[0]);
        StaysReleasedIff(svc, s, a);
        if t.status == Disconnected {
          StaysReleasedRunIff(svc, t, rest);
          if a.Read? {
            ReadParser(svc, s, a.part);
            LeavesByParser(svc, ParserOf(t), Receive(ParserOf(s), a.part), rest);
          } else {
            LeavesQuiet(svc, ParserOf(s), a);
            SameParser(svc, s, a);
          }
        } else {
          NotReleased(svc, t, rest);
        }
      }
    }
  }

  lemma LeavesQuiet(svc: Service, o: Out, a: Act)
    requires (o.dead || Live(o.ctx)) && Leaves(svc, o, a)
    ensures !a.ReadFailed? && !a.AskShutdown?
  {
  }

  lemma NotReleased(svc: Service, s: Conn, acts: seq<Act>)
    requires s.Idle() && s.status != Disconnected
    ensures !AlwaysReleased(svc, s, acts)
  {
  }

  /** As long as it stays released, a connection accepts nothing for sending. */
  lemma {:induction false} ReleasedAcceptsNothing(svc: Service, s: Conn, acts: seq<Act>)
    requires s.Idle() && AlwaysReleased(svc, s, acts)
    ensures Run(svc, s, acts).accepted == s.accepted
    decreases |acts|
  {
    hide Step;
    if s.dead {
      DeadRun(svc, s, acts);
    } else if acts != [] {
      StaysReleasedIff(svc, s, acts[0]);
      ReleasedAcceptsNothing(svc, Step(svc, s, acts[0]), acts[1..]);
    }
  }

  /** At an input: a released connection that is shut down accepts output again. */
  lemma SentAfterRelease(svc: Service, s: Conn, data: bytes)
    requires s.Idle() && !s.dead && s.status == Disconnected
    ensures Run(svc, s, [SendData(data)]).accepted == s.accepted
    ensures Run(svc, s, [AskShutdown, SendData(data)]).accepted == s.accepted + data
  {
    IdleIsDone(svc, s.(status := Disconnecting));
    hide OnMessage, Settled;
    var u := ShutDown(svc, s);
    RunOne(svc, s, SendData(data));
    RunOne(svc, s, AskShutdown);
    RunOne(svc, u, SendData(data));
    RunThen(svc, s, [AskShutdown], [SendData(data)]);
    assert [AskShutdown] + [SendData(data)] == [AskShutdown, SendData(data)];
  }

  // ---- releases ----

  /** The first event that closes is the last event of all. */
  predicate LastCloses(svc: Service, events: seq<Event>) {
    events != [] && NothingCloses(svc, events[..|events| - 1]) && Closes(svc, events[|events| - 1])
  }

  lemma LastClosesThen(svc: Service, e: Event, events: seq<Event>)
    ensures LastCloses(svc, [e] + events) <==> if Closes(svc, e) then events == [] else LastCloses(svc, events)
  {
    hide Closes, NothingCloses;
    var all := [e] + events;
    if events == [] {
      NoEvents(svc);
      assert all == [e] && all[..0] == [];
    } else {
      assert all[..|all| - 1] == [e] + events[..|events| - 1];
      assert all[|all| - 1] == events[|events| - 1];
      ClosesThen(svc, e, events[..|events| - 1]);
    }
  }

  lemma LastClosesOne(svc: Service, e: Event)
    ensures LastCloses(svc, [e]) <==> Closes(svc, e)
  {
    hide Closes, NothingCloses;
    assert [e] + [] == [e];
    LastClosesThen(svc, e, []);
  }

  /** While output is accepted, the message callback leaves none behind only where it has nothing to report. */
  lemma SilentIff(svc: Service, s: Conn)
    requires !s.dead && Live(s.ctx) && s.status == Disconnecting
    ensures var t := OnMessage(svc, s);
            t.out == [] && !t.dead <==> s.out == [] && Deliver(s.ctx, s.inp).events == []
  {
    hide RecvHttpRequest, Reply, IsClose, Answer, Settled;
    if s.inp == [] {
      NothingToDo(svc, s);
    } else {
      WaitingState(s.ctx, s.inp);
      var r := RecvHttpRequest(s.ctx, s.inp);
      if !r.threw && r.ctx.resp >= 400 {
        var next := Answered(svc, s, Rejected(r.ctx), []);
        ReplyNotEmpty(svc, Rejected(r.ctx));
        CallbackQueuesNoRelease(svc, next.(status := Disconnecting));
      } else if !r.threw && r.ctx.recv == RecvOver {
        var next := Answered(svc, s, Delivered(r.ctx.req), r.rest);
        ReplyNotEmpty(svc, Delivered(r.ctx.req));
        CallbackQueuesNoRelease(svc, next);
        CallbackQueuesNoRelease(svc, next.(status := Disconnecting));
      }
    }
  }

  lemma ShutDownReleases(svc: Service, s: Conn)
    requires !s.dead && Live(s.ctx)
    ensures var t := ShutDown(svc, s);
            var silent := s.out == [] && Deliver(s.ctx, s.inp).events == [];
            && t.releases == s.releases + (if silent then 1 else 0)
            && (silent ==> t.out == [] && !t.dead && t.status == Disconnecting)
  {
    hide OnMessage, Deliver, Live;
    var c := s.(status := Disconnecting);
    SilentIff(svc, c);
    CallbackQueuesNoRelease(svc, c);
  }

  /** What the message callback queues for a released connection, whose replies are not accepted. */
  lemma {:induction false} ReleasedReleases(svc: Service, s: Conn)
    requires !s.dead && Live(s.ctx) && s.status == Disconnected
    ensures var t := OnMessage(svc, s);
            var again := s.out == [] && LastCloses(svc, Deliver(s.ctx, s.inp).events);
            && t.releases == s.releases + (if again then 1 else 0)
            && (again ==> t.out == [] && !t.dead && t.status == Disconnecting)
    decreases |s.inp|
  {
    hide RecvHttpRequest, ShutDown, Reply, LastCloses, AskedToClose, Settled;
    if s.inp == [] {
      NothingToDo(svc, s);
      NoneCloses(svc);
    } else {
      WaitingState(s.ctx, s.inp);
      var r := RecvHttpRequest(s.ctx, s.inp);
      if r.threw {
        LastClosesOne(svc, Threw);
      } else if r.ctx.resp >= 400 {
        LastClosesOne(svc, Rejected(r.ctx));
        ShutDownReleases(svc, Answered(svc, s, Rejected(r.ctx), []));
      } else if r.ctx.recv != RecvOver {
        NoneCloses(svc);
      } else {
        CompletedTurn(svc, s);
        var next := Answered(svc, s, Delivered(r.ctx.req), r.rest);
        LastClosesThen(svc, Delivered(r.ctx.req), Deliver(RESET, r.rest).events);
        if AskedToClose(svc, r.ctx.req) {
          ShutDownReleases(svc, next);
        } else {
          ReleasedReleases(svc, next);
        }
      }
    }
  }

  lemma NoneCloses(svc: Service)
    ensures !LastCloses(svc, [])
  {
  }

  /** The acts that queue a release, by the state they find. */
  predicate QueuesRelease(svc: Service, s: Conn, a: Act)
    requires s.Idle() && !s.dead
  {
    match a
    case TimerFired => true
    case Hangup => true
    case WriteFailed => true
    case ReadFailed => s.out == []
    case AskShutdown => s.out == []
    case Wrote(n) => |s.out| <= n && s.status == Disconnecting
    case Read(part) =>
      s.status == Disconnected && s.out == [] && LastCloses(svc, Deliver(s.ctx, s.inp + part).events)
    case _ => false
  }

  /** Each act queues one release exactly in these cases, and otherwise none. */
  lemma ReleasesQueued(svc: Service, s: Conn, a: Act)
    requires s.Idle() && !s.dead
    ensures Step(svc, s, a).releases == s.releases + if QueuesRelease(svc, s, a) then 1 else 0
  {
    hide OnMessage, Live, Send, Deliver, LastCloses;
    match a
    case Read(part) =>
      IdleLives(s);
      if s.status == Disconnected {
        ReleasedReleases(svc, s.(inp := s.inp + part));
      } else {
        CallbackQueuesNoRelease(svc, s.(inp := s.inp + part));
      }
    case ReadFailed => IdleIsDone(svc, s.(status := Disconnecting));
    case AskShutdown => IdleIsDone(svc, s.(status := Disconnecting));
    case WriteFailed => IdleIsDone(svc, s);
    case Hangup => IdleIsDone(svc, s);
    case SendData(data) => SendOnly(s, data);
    case _ =>
  }

  lemma SendOnly(s: Conn, data: bytes)
    ensures Send(s, data).status == s.status && Send(s, data).releases == s.releases && Send(s, data).dead == s.dead
  {
  }

  /** A read that queues a release leaves a connection without output that the next write or hang-up releases again. */
  lemma ReadThatReleases(svc: Service, s: Conn, a: Act)
    requires s.Idle() && !s.dead && (a.Read? || a.ReadFailed?) && QueuesRelease(svc, s, a)
    ensures var u := Step(svc, s, a); u.status == Disconnecting && !u.dead && u.out == []
  {
    hide OnMessage, Live, Deliver, LastCloses;
    if a.Read? {
      IdleLives(s);
      ReleasedReleases(svc, s.(inp := s.inp + a.part));
    } else {
      IdleIsDone(svc, s.(status := Disconnecting));
    }
  }

  lemma RestReleases(svc: Service, u: Conn, e: Ready, n: Option<nat>)
    requires u.Idle() && !u.dead
    ensures var t := Run(svc, u, RestPart(e, n));
            && u.releases <= t.releases <= u.releases + 1
            && (u.status == Disconnecting && u.out == [] ==>
                  (t.releases == u.releases + 1 <==> e.output || e.hup || e.err))
  {
    hide Settled, Step;
    if RestPart(e, n) != [] {
      RunOne(svc, u, RestPart(e, n)[0]);
      ReleasesQueued(svc, u, RestPart(e, n)[0]);
    }
  }

  function ReadAct(got: Option<bytes>): Act {
    if got.Some? then Read(got.value) else ReadFailed
  }

  /**
   * One dispatch queues two releases if and only if it reads, that queues one (recv fails with no output waiting, or
   * the connection is released and the input closes it), and output, a hang-up or an error is reported as well.
   */
  lemma ReleasedTwiceIff(svc: Service, s: Conn, e: Ready, got: Option<bytes>, n: Option<nat>)
    requires s.Idle() && !s.dead
    ensures Run(svc, s, Callbacks(e, got, n)).releases == s.releases + 2 <==>
            (e.input || e.rdhup || e.pri) && QueuesRelease(svc, s, ReadAct(got)) && (e.output || e.hup || e.err)
  {
    hide Settled, Run, Step, QueuesRelease;
    RunThen(svc, s, ReadPart(e, got), RestPart(e, n));
    var u := Run(svc, s, ReadPart(e, got));
    if e.input || e.rdhup || e.pri {
      RunOne(svc, s, ReadAct(got));
      ReleasesQueued(svc, s, ReadAct(got));
      if QueuesRelease(svc, s, ReadAct(got)) {
        ReadThatReleases(svc, s, ReadAct(got));
      }
    } else {
      NoActs(svc, s);
    }
    if u.dead {
      DeadRun(svc, u, RestPart(e, n));
    } else {
      RestReleases(svc, u, e, n);
    }
  }

  lemma NoActs(svc: Service, s: Conn)
    requires s.Idle()
    ensures Run(svc, s, []) == s
  {
  }

  /** At an input: a peer that resets a connection with nothing left to send. */
  lemma ResetReleasesTwice(svc: Service, s: Conn)
    requires s.Idle() && !s.dead && s.out == []
    ensures Run(svc, s, Callbacks(Ready(true, false, false, false, true, false), None, None)).releases == s.releases + 2
  {
    hide Settled, Run;
    ReleasedTwiceIff(svc, s, Ready(true, false, false, false, true, false), None, None);
  }

  // ---- the order on the wire ----

  lemma Carried(s: Conn, t: Conn, replies: bytes)
    requires Conserved(s) && Conserved(t) && t.accepted == s.accepted + replies
    ensures t.sent + t.out == s.sent + s.out + replies
  {
  }

  /**
   * In a run that sends nothing but replies, and whose stream holds no failure, what the socket took and what
   * still waits are, in this order, the octets from before and the replies to the requests of the whole
   * stream, in request order; so what the peer got of them is a prefix.
   */
  lemma WireOrder(svc: Service, s: Conn, acts: seq<Act>)
    requires !s.dead && Settled(s.ctx, s.inp) && s.log == [] && Conserved(s) && s.status != Disconnected
    requires OnlyReplies(acts) && !Judge(Deliver(s.ctx, s.inp + Concat(ReadsOf(acts))).events).failed
    ensures var t, events := Run(svc, s, acts), Deliver(s.ctx, s.inp + Concat(ReadsOf(acts))).events;
            && t.sent + t.out == s.sent + s.out + Replies(svc, events)
            && t.sent <= s.sent + s.out + Replies(svc, events)
  {
    hide Run, Deliver, Replies, Judge, Conserved, Settled;
    RunAgainstWhole(svc, s, acts);
    OutputConservation(svc, s, acts);
    Carried(s, Run(svc, s, acts), Replies(svc, Run(svc, s, acts).log));
  }
}
