/** What each handler and each dispatch does to every field of a connection, by the state it finds. */
module Effects {
  import opened Bytes
  import opened HttpMessage
  import opened HttpContents
  import opened ParserTheorems
  import opened ConnModel
  import opened Segmentation
  import opened Delivery
  import opened Output
  import opened Lifecycle

  // ---- the message callback ----

  /** The replies that are accepted: of a released connection, those behind the first request that closes it. */
  function Accepted(svc: Service, status: ConnStatus, events: seq<Event>): bytes
    decreases |events|
  {
    if status != Disconnected then Replies(svc, events)
    else if events == [] then []
    else if Closes(svc, events[0]) then Replies(svc, events[1..])
    else Accepted(svc, status, events[1..])
  }

  /** A connection after these events, with this parser and unread input. */
  function AfterEvents(svc: Service, s: Conn, o: Out): Conn {
    var acc, closes := Accepted(svc, s.status, o.events), !NothingCloses(svc, o.events);
    var out := s.out + acc;
    var again := s.status == Disconnected && closes && !o.dead && out == [];
    Conn(if closes then Disconnecting else s.status, o.ctx, o.rest, out,
         s.writing || acc != [] || (closes && !o.dead && out != []), s.accepted + acc, s.sent,
         s.releases + (if again then 1 else 0), s.log + o.events, o.dead)
  }

  /** And after Shutdown with these events. */
  function AfterShutDown(svc: Service, s: Conn, o: Out): Conn {
    var acc := Replies(svc, o.events);
    var out := s.out + acc;
    Conn(Disconnecting, o.ctx, o.rest, out, s.writing || acc != [] || (!o.dead && out != []), s.accepted + acc, s.sent,
         s.releases + (if !o.dead && out == [] then 1 else 0), s.log + o.events, o.dead)
  }

  lemma AfterNothing(svc: Service, s: Conn, c: Context, rest: bytes)
    requires !s.dead
    ensures AfterEvents(svc, s, Out(c, rest, [], false)) == s.(ctx := c, inp := rest)
  {
    AppendNothing(s.out);
    AppendNothing(s.accepted);
    AppendNothing(s.log);
    NoEvents(svc);
  }

  lemma AfterThrow(svc: Service, s: Conn, c: Context, rest: bytes)
    ensures AfterEvents(svc, s, Out(c, rest, [Threw], true))
         == s.(ctx := c, inp := rest, log := s.log + [Threw], dead := true)
  {
    hide AskedToClose;
    RepliesOne(svc, Threw);
    OneEvent(svc, Threw);
    assert [Threw][1..] == [];
    AppendNothing(s.out);
    AppendNothing(s.accepted);
  }

  /** One event that does not close, and what comes behind it. */
  lemma KeepsThen(svc: Service, s: Conn, e: Event, rest: bytes, o: Out)
    requires !s.dead && e != Threw && !Closes(svc, e)
    ensures AfterEvents(svc, s, Then([e], o)) == AfterEvents(svc, Answered(svc, s, e, rest), o)
  {
    hide Reply, Closes, NothingCloses;
    var next, all := Answered(svc, s, e, rest), [e] + o.events;
    assert all[1..] == o.events;
    ClosesThen(svc, e, o.events);
    RepliesOne(svc, e);
    RepliesAppend(svc, [e], o.events);
    ReplyNotEmpty(svc, e);
    Assoc(s.log, [e], o.events);
    Assoc(s.out, Reply(svc, e), Replies(svc, o.events));
    Assoc(s.accepted, Reply(svc, e), Replies(svc, o.events));
    hide Replies;
  }

  /** One event that closes, and what Shutdown still finds behind it. */
  lemma ClosesAndThen(svc: Service, s: Conn, e: Event, rest: bytes, o: Out)
    requires !s.dead && e != Threw && Closes(svc, e)
    ensures AfterEvents(svc, s, Then([e], o)) == AfterShutDown(svc, Answered(svc, s, e, rest), o)
  {
    hide Reply, Closes, NothingCloses;
    var next, all := Answered(svc, s, e, rest), [e] + o.events;
    assert all[1..] == o.events;
    ClosesThen(svc, e, o.events);
    RepliesOne(svc, e);
    RepliesAppend(svc, [e], o.events);
    ReplyNotEmpty(svc, e);
    Assoc(s.log, [e], o.events);
    Assoc(s.out, Reply(svc, e), Replies(svc, o.events));
    Assoc(s.accepted, Reply(svc, e), Replies(svc, o.events));
    hide Replies;
  }

  /** Shutdown, once what its message callback does is known. */
  lemma ShutDownFrom(svc: Service, s: Conn, o: Out)
    requires s.Running() && !s.dead
    requires OnMessage(svc, s.(status := Disconnecting)) == AfterEvents(svc, s.(status := Disconnecting), o)
    ensures ShutDown(svc, s) == AfterShutDown(svc, s, o)
  {
    hide OnMessage, NothingCloses, Replies, Live;
    ClosesLeavesOutput(svc, o.events);
  }

  lemma {:induction false} ClosesLeavesOutput(svc: Service, events: seq<Event>)
    ensures !NothingCloses(svc, events) ==> Replies(svc, events) != []
    decreases |events|
  {
    hide Closes, NothingCloses, Reply;
    if events == [] {
      NoEvents(svc);
    } else {
      assert events == [events[0]] + events[1..];
      ClosesThen(svc, events[0], events[1..]);
      ClosesLeavesOutput(svc, events[1..]);
      if Closes(svc, events[0]) {
        ThrewKeeps(svc);
        ReplyNotEmpty(svc, events[0]);
      }
    }
  }

  lemma ThrewKeeps(svc: Service)
    ensures !Closes(svc, Threw)
  {
  }

  /**
   * The message callback, whatever the status, whatever is unread, and however deeply it and Shutdown call each other:
   * all fields afterwards, by what the plain delivery loop finds in the input.
   */
  lemma {:induction false} CallbackIs(svc: Service, s: Conn)
    requires !s.dead && Live(s.ctx)
    ensures OnMessage(svc, s) == AfterEvents(svc, s, Deliver(s.ctx, s.inp))
    decreases |s.inp|, 0
  {
    hide Reply, RecvHttpRequest, Settled, AfterEvents, AfterShutDown, AskedToClose, ShutDown, Closes;
    if s.inp == [] {
      NothingToDo(svc, s);
      AfterNothing(svc, s, s.ctx, s.inp);
    } else {
      WaitingState(s.ctx, s.inp);
      var r := RecvHttpRequest(s.ctx, s.inp);
      if r.threw {
        AfterThrow(svc, s, r.ctx, r.rest);
      } else if r.ctx.resp >= 400 {
        var e := Rejected(r.ctx);
        RejectedCloses(svc, r.ctx);
        ShutDownIs(svc, Answered(svc, s, e, []));
        ClosesAndThen(svc, s, e, [], Out(RESET, [], [], false));
        AppendNothing([e]);
      } else if r.ctx.recv != RecvOver {
        AfterNothing(svc, s, r.ctx, r.rest);
      } else {
        var e := Delivered(r.ctx.req);
        CompletedTurn(svc, s);
        DeliveredCloses(svc, r.ctx.req);
        var next := Answered(svc, s, e, r.rest);
        if AskedToClose(svc, r.ctx.req) {
          ShutDownIs(svc, next);
          ClosesAndThen(svc, s, e, r.rest, Deliver(RESET, r.rest));
        } else {
          CallbackIs(svc, next);
          KeepsThen(svc, s, e, r.rest, Deliver(RESET, r.rest));
        }
      }
    }
  }

  lemma RejectedCloses(svc: Service, c: Context)
    ensures Closes(svc, Rejected(c))
  {
  }

  lemma DeliveredCloses(svc: Service, req: Request)
    ensures Closes(svc, Delivered(req)) <==> AskedToClose(svc, req)
  {
  }

  lemma ShutDownIs(svc: Service, s: Conn)
    requires !s.dead && Live(s.ctx)
    ensures ShutDown(svc, s) == AfterShutDown(svc, s, Deliver(s.ctx, s.inp))
    decreases |s.inp|, 1
  {
    hide OnMessage, ShutDown, AfterEvents, AfterShutDown, Deliver, Live;
    CallbackIs(svc, s.(status := Disconnecting));
    ShutDownFrom(svc, s, Deliver(s.ctx, s.inp));
  }

  // ---- each act ----

  /** What recv returns is worked on at once; where it fails, the connection is shut down. */
  function AfterRead(svc: Service, s: Conn, got: Option<bytes>): Conn
    requires Live(s.ctx)
  {
    if got.Some? then AfterEvents(svc, s, Deliver(s.ctx, s.inp + got.value))
    else if s.out != [] then s.(status := Disconnecting, writing := true)
    else s.(status := Disconnecting, releases := s.releases + 1)
  }

  /** What send takes leaves the output; an empty output drops EPOLLOUT, and lets a closing connection go. */
  function AfterWrite(s: Conn, n: Option<nat>): Conn {
    if n.None? then s.(releases := s.releases + 1)
    else
      var k := if n.value < |s.out| then n.value else |s.out|;
      var t := s.(sent := s.sent + s.out[..k], out := s.out[k..]);
      if k < |s.out| then t
      else t.(writing := false, releases := s.releases + (if s.status == Disconnecting then 1 else 0))
  }

  lemma ReadIs(svc: Service, s: Conn, got: Option<bytes>)
    requires s.Idle() && !s.dead
    ensures Live(s.ctx)
    ensures Step(svc, s, ReadAct(got)) == AfterRead(svc, s, got)
  {
    IdleLives(s);
    hide OnMessage, AfterEvents, Deliver, Live;
    if got.Some? {
      CallbackIs(svc, s.(inp := s.inp + got.value));
    } else {
      IdleIsDone(svc, s.(status := Disconnecting));
    }
  }

  lemma WriteIs(svc: Service, s: Conn, n: Option<nat>)
    requires s.Idle() && !s.dead
    ensures Step(svc, s, if n.Some? then Wrote(n.value) else WriteFailed) == AfterWrite(s, n)
  {
    IdleIsDone(svc, s);
    hide OnMessage, Settled;
  }

  /** HanderClose, with whatever is unread: a release is queued unless the last message callback throws. */
  lemma CloseIs(svc: Service, s: Conn)
    requires !s.dead && Live(s.ctx)
    ensures var t := AfterEvents(svc, s, Deliver(s.ctx, s.inp));
            HandleClose(svc, s) == if t.dead then t else t.(releases := t.releases + 1)
  {
    hide OnMessage, AfterEvents, Deliver, Live;
    CallbackIs(svc, s);
  }

  /** The other acts, field by field. */
  lemma OtherActsAre(svc: Service, s: Conn, data: bytes)
    requires s.Idle() && !s.dead
    ensures Step(svc, s, Hangup) == s.(releases := s.releases + 1)
    ensures Step(svc, s, TimerFired) == s.(releases := s.releases + 1)
    ensures Step(svc, s, AskShutdown) == AfterRead(svc, s, None)
    ensures Step(svc, s, RunRelease) == if s.releases > 0 then s.(status := Disconnected) else s
    ensures Step(svc, s, SendData(data)) ==
            if s.status == Disconnected then s
            else s.(out := s.out + data, accepted := s.accepted + data, writing := true)
  {
    IdleLives(s);
    IdleIsDone(svc, s);
    IdleIsDone(svc, s.(status := Disconnecting));
    hide OnMessage, Settled, Live, AfterEvents, Deliver;
  }

  // ---- a dispatch, by its event bits ----

  /** Without an input bit: output comes first, and a hang-up or an error is looked at only without it. */
  lemma DispatchWithoutInput(svc: Service, s: Conn, e: Ready, got: Option<bytes>, n: Option<nat>)
    requires s.Idle() && !s.dead && !e.input && !e.rdhup && !e.pri
    ensures Run(svc, s, Callbacks(e, got, n)) ==
            if e.output then AfterWrite(s, n)
            else if e.hup || e.err then s.(releases := s.releases + 1)
            else s
  {
    hide Settled, Step, Run, AfterWrite;
    assert [] + RestPart(e, n) == RestPart(e, n);
    if e.output {
      RunOne(svc, s, if n.Some? then Wrote(n.value) else WriteFailed);
      WriteIs(svc, s, n);
    } else if e.hup || e.err {
      RunOne(svc, s, Hangup);
      OtherActsAre(svc, s, []);
    } else {
      NoActs(svc, s);
    }
  }

  /** With one: what recv returns is delivered and answered first, and unless that throws the rest is as without it. */
  lemma DispatchWithInput(svc: Service, s: Conn, e: Ready, got: Option<bytes>, n: Option<nat>)
    requires s.Idle() && !s.dead && (e.input || e.rdhup || e.pri)
    ensures Live(s.ctx)
    ensures var u := AfterRead(svc, s, got);
            && u.Idle()
            && Run(svc, s, Callbacks(e, got, n)) ==
               if u.dead then u
               else if e.output then AfterWrite(u, n)
               else if e.hup || e.err then u.(releases := u.releases + 1)
               else u
  {
    ReadIs(svc, s, got);
    hide Settled, Step, Run, AfterWrite, AfterRead, Live;
    RunThen(svc, s, ReadPart(e, got), RestPart(e, n));
    RunOne(svc, s, ReadAct(got));
    var u, quiet := Step(svc, s, ReadAct(got)), Ready(false, false, false, e.output, e.hup, e.err);
    if u.dead {
      DeadRun(svc, u, RestPart(e, n));
    } else {
      DispatchWithoutInput(svc, u, quiet, got, n);
      assert [] + RestPart(quiet, n) == RestPart(e, n);
    }
  }

  // ---- a queued release that runs ----

  /** From then on the connection is released, and what is sent to it is not accepted. */
  lemma ReleaseRuns(svc: Service, s: Conn, data: bytes)
    requires s.Idle() && !s.dead && s.releases > 0
    ensures Run(svc, s, [RunRelease]) == s.(status := Disconnected)
    ensures Run(svc, s, [RunRelease, SendData(data)]) == s.(status := Disconnected)
  {
    hide Settled, Step, Run;
    var t := s.(status := Disconnected);
    RunOne(svc, s, RunRelease);
    OtherActsAre(svc, s, data);
    RunOne(svc, t, SendData(data));
    OtherActsAre(svc, t, data);
    RunThen(svc, s, [RunRelease], [SendData(data)]);
    assert [RunRelease] + [SendData(data)] == [RunRelease, SendData(data)];
  }

  /** And as long as nothing brings it back, it accepts nothing any more. */
  lemma ReleaseStands(svc: Service, s: Conn, acts: seq<Act>)
    requires s.Idle() && !s.dead && s.releases > 0
    ensures Live(s.ctx)
    ensures LeavesAll(svc, ParserOf(s), acts) ==>
              AlwaysReleased(svc, s.(status := Disconnected), acts)
              && Run(svc, s, [RunRelease] + acts).accepted == s.accepted
  {
    IdleLives(s);
    hide Settled, Step, Run, Live, LeavesAll;
    var t := s.(status := Disconnected);
    ReleaseRuns(svc, s, []);
    RunThen(svc, s, [RunRelease], acts);
    StaysReleasedRunIff(svc, t, acts);
    if LeavesAll(svc, ParserOf(s), acts) {
      ReleasedAcceptsNothing(svc, t, acts);
    }
  }

  // ---- the interest in EPOLLOUT ----

  /** EPOLLOUT is asked for exactly while output waits. */
  predicate Interested(s: Conn) {
    s.writing <==> s.out != []
  }

  lemma ReadInterested(svc: Service, s: Conn, got: Option<bytes>)
    requires Live(s.ctx) && Interested(s)
    ensures Interested(AfterRead(svc, s, got))
  {
    hide Deliver, Live, NothingCloses, Accepted;
  }

  lemma StepInterested(svc: Service, s: Conn, a: Act)
    requires s.Idle() && Interested(s) && a != SendData([])
    ensures Interested(Step(svc, s, a))
  {
    hide Settled, Step, Live;
    if s.dead {
      DeadStep(svc, s, a);
    } else {
      OtherActsAre(svc, s, if a.SendData? then a.data else []);
      match a
      case Read(part) =>
        ReadIs(svc, s, Some(part));
        ReadInterested(svc, s, Some(part));
      case ReadFailed => ReadIs(svc, s, None);
      case Wrote(n) => WriteIs(svc, s, Some(n));
      case WriteFailed => WriteIs(svc, s, None);
      case _ =>
    }
  }

  lemma DeadStep(svc: Service, s: Conn, a: Act)
    requires s.dead
    ensures Step(svc, s, a) == s
  {
  }

  /** In every run in which no empty text is sent; and a write that leaves nothing always drops it. */
  lemma {:induction false} AlwaysInterested(svc: Service, s: Conn, acts: seq<Act>)
    requires s.Idle() && Interested(s) && SendData([]) !in acts
    ensures Interested(Run(svc, s, acts))
    decreases |acts|
  {
    hide Step, Settled, Interested;
    if acts != [] {
      assert acts[0] in acts && forall a | a in acts[1..] :: a in acts;
      StepInterested(svc, s, acts[0]);
      AlwaysInterested(svc, Step(svc, s, acts[0]), acts[1..]);
    }
  }

  /** At an input: an empty text asks for EPOLLOUT with nothing to send, until the next write. */
  lemma EmptySend(svc: Service, s: Conn, n: nat)
    requires s.Idle() && !s.dead && s.status != Disconnected && s.out == []
    ensures var t := Step(svc, s, SendData([])); t.writing && t.out == [] && !Step(svc, t, Wrote(n)).writing
  {
    hide Settled, Step;
    OtherActsAre(svc, s, []);
    WriteIs(svc, Step(svc, s, SendData([])), Some(n));
  }
}
