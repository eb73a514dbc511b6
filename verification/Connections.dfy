/** A connection of the HTTP server: its two buffers, its parser, and the handlers that drive them. */
module Connections {
  import opened Bytes
  import opened ByteBuffer
  import opened HttpMessage
  import opened HttpContents
  import opened ParserTheorems
  import D = Deadlines
  import E = EventLoop
  import G = Reenabling
  import I = IdleTimeout
  import M = ConnModel
  import R = TimerRuns
  import T = TimerWheel
  import W = WheelModel
  import opened ConnModel

  /** The most one recv call returns. */
  const READ_MAX: nat := 65535
  /** The largest array an input buffer reaches. */
  const INPUT_CAP: nat := MAX_LINE + 2 * READ_MAX - 1

  /** From one state of a connection's loop to the next: no map entry is gone or changed, and what is queued
      are the releases counted. */
  ghost predicate Acts(fd: E.Fd, ch: E.Chan, was: E.Reactor, r0: nat, now: E.Reactor, r1: nat) {
    r0 <= r1 && E.Reacted(was, now, fd, ch, r1 - r0)
  }

  lemma ActsNothing(fd: E.Fd, ch: E.Chan, v: E.Reactor, r: nat)
    ensures Acts(fd, ch, v, r, v, r)
  {
    AppendNothing(v.queue);
  }

  lemma ActsTwice(fd: E.Fd, ch: E.Chan, v0: E.Reactor, r0: nat, v1: E.Reactor, r1: nat, v2: E.Reactor, r2: nat)
    requires Acts(fd, ch, v0, r0, v1, r1) && Acts(fd, ch, v1, r1, v2, r2)
    ensures Acts(fd, ch, v0, r0, v2, r2)
  {
    E.ReactedTwice(v0, v1, v2, fd, ch, r1 - r0, r2 - r1);
    hide E.Reacted;
  }

  lemma Updates(fd: E.Fd, ch: E.Chan, v: E.Reactor, w: E.Reactor, r: nat, added: bool)
    requires w == v.(reg := E.Update(v.reg, fd, ch, added))
    ensures Acts(fd, ch, v, r, w, r)
  {
    AppendNothing(v.queue);
  }

  lemma OneQueued(fd: E.Fd, ch: E.Chan, v: E.Reactor, w: E.Reactor, r: nat)
    requires w == v.(queue := v.queue + [E.ReleaseConn(fd, ch)])
    ensures Acts(fd, ch, v, r, w, r + 1)
  {
    assert E.Releases(fd, ch, 1) == E.Releases(fd, ch, 0) + [E.ReleaseConn(fd, ch)];
  }

  /** Handlers keep every entry of the poller's map, whatever they do besides. */
  lemma HandlersRemoveNothing(fd: E.Fd, ch: E.Chan, v: E.Reactor, r0: nat, w: E.Reactor, r1: nat)
    requires Acts(fd, ch, v, r0, w, r1)
    ensures forall f | f in v.reg.channels :: f in w.reg.channels && w.reg.channels[f] == v.reg.channels[f]
    ensures v.reg.kernel <= w.reg.kernel
    ensures v.queue <= w.queue
  {
    E.ReactedKeeps(v, w, fd, ch, r1 - r0);
  }

  lemma WriteStep(svc: Service, s: Conn, n: Option<nat>)
    requires s.Idle() && !s.dead
    ensures M.Step(svc, s, if n.Some? then Wrote(n.value) else WriteFailed)
         == M.HandleWrite(svc, s, if n.Some? && n.value > |s.out| then Some(|s.out|) else n)
  {
    hide M.HandleWrite;
  }

  class Connection {
    var status: ConnStatus
    var writing: bool
    var releases: nat
    /** The descriptor, its channel, and the loop with its poller. */
    const fd: E.Fd
    const ch: E.Chan
    const loop: E.TaskLoop
    /** The loop's timing wheel, the connection's timer id, and Is_Enable_Time_del. */
    const wheel: T.TimeTaskWheel
    const timerId: W.Id
    var timeoutOn: bool
    const inbuf: Buffer
    const outbuf: Buffer
    const context: HttpContent
    ghost var accepted: bytes
    ghost var sent: bytes
    ghost var log: seq<Event>
    ghost var dead: bool

    ghost function Repr(): set<object>
      reads this, inbuf, outbuf
    {
      {this, inbuf, inbuf.store, outbuf, outbuf.store, context, loop, loop.poller}
    }

    /** The buffers are two, and sound; the input array keeps to its cap. */
    ghost predicate Shape()
      reads this, inbuf, outbuf
    {
      && inbuf != outbuf && inbuf.store != outbuf.store
      && inbuf.Valid() && outbuf.Valid()
      && inbuf.store.Length <= INPUT_CAP
    }

    /** What holds whenever no message is being worked on. */
    ghost predicate Valid()
      reads this, inbuf, outbuf, context
    {
      Shape() && (dead || Live(context.View()))
    }

    ghost function State(): Conn
      reads this, inbuf, inbuf.store, outbuf, outbuf.store, context
      requires Shape()
    {
      Conn(status, context.View(), inbuf.Unread(), outbuf.Unread(), writing, accepted, sent, releases, log, dead)
    }

    constructor (fd: E.Fd, ch: E.Chan, loop: E.TaskLoop, wheel: T.TimeTaskWheel, timerId: W.Id)
      ensures Valid() && fresh(Repr() - {loop, loop.poller}) && this.fd == fd && this.ch == ch && this.loop == loop
      ensures this.wheel == wheel && this.timerId == timerId && !timeoutOn
      ensures State() == Conn(Connecting, RESET, [], [], false, [], [], 0, [], false)
    {
      this.fd, this.ch, this.loop, this.wheel, this.timerId, timeoutOn := fd, ch, loop, wheel, timerId, false;
      status, writing, releases := Connecting, false, 0;
      inbuf := new Buffer();
      outbuf := new Buffer();
      context := new HttpContent();
      accepted, sent, log, dead := [], [], [], false;
    }

    /** Fd_Add_Write and Fd_Delete_Write: the interest bit, and UpdateEvent, whose epoll_ctl may fail. */
    method WantWrite(on: bool)
      modifies this`writing, loop.poller
      ensures writing == on && Acts(fd, ch, old(loop.View()), releases, loop.View(), releases)
      ensures fd in loop.poller.channels && loop.taskQueue == old(loop.taskQueue)
    {
      writing := on;
      ghost var added: bool := *;
      loop.poller.UpdateEvent(fd, ch, added);
      Updates(fd, ch, old(loop.View()), loop.View(), releases, added);
    }

    /** Takes a copy of the octets, as std::bind does with the temporary buffer. */
    method SendInLoop(b: Buffer)
      requires Shape() && b.Valid() && b !in Repr() && b.store !in Repr()
      modifies this`accepted, this`writing, outbuf, outbuf.store, loop.poller
      ensures Shape() && fresh(Repr() - old(Repr()))
      ensures State() == M.Send(old(State()), old(b.Unread()))
      ensures Acts(fd, ch, old(loop.View()), releases, loop.View(), releases)
      ensures status != Disconnected && !old(writing) ==> fd in loop.poller.channels
    {
      hide Buf.Append, Settled, Live, Acts;
      ActsNothing(fd, ch, loop.View(), releases);
      if status == Disconnected {
        return;
      }
      outbuf.WriteAsBufferAndAdd(b);
      accepted := accepted + b.Unread();
      if !writing {
        WantWrite(true);
      }
    }

    method Send(data: bytes)
      requires Shape()
      modifies this`accepted, this`writing, outbuf, outbuf.store, loop.poller
      ensures Shape() && fresh(Repr() - old(Repr()))
      ensures State() == M.Send(old(State()), data)
      ensures Acts(fd, ch, old(loop.View()), releases, loop.View(), releases)
    {
      hide M.Send, Buf.Append, Settled, Live, Acts;
      FirstWrite(data);
      var b := new Buffer();
      b.WriteAndAdd(data);
      SendInLoop(b);
    }

    /** Release only queues ReleaseInloop, and counts it. */
    method Release()
      requires Shape()
      modifies this`releases, loop
      ensures Shape()
      ensures State() == M.Release(old(State()))
      ensures Acts(fd, ch, old(loop.View()), old(releases), loop.View(), releases)
    {
      loop.QueueInLoop(E.ReleaseConn(fd, ch));
      OneQueued(fd, ch, old(loop.View()), loop.View(), releases);
      releases := releases + 1;
    }

    method ShutDownInLoop(server: HttpServer) returns (threw: bool)
      requires Valid() && !dead
      modifies Repr()
      ensures Valid() && fresh(Repr() - old(Repr())) && inbuf.store == old(inbuf.store)
      ensures timeoutOn == old(timeoutOn)
      ensures State() == M.ShutDown(server.svc, old(State())) && threw == dead
      ensures Acts(fd, ch, old(loop.View()), old(releases), loop.View(), releases)
      decreases |inbuf.Unread()|, 2
    {
      hide Live, Settled, RecvHttpRequest, Answered, Acts;
      ghost var v, r := loop.View(), releases;
      ActsNothing(fd, ch, v, r);
      status := Disconnecting;
      threw := false;
      if inbuf.Readable() > 0 {
        threw := server.OnMessage(this);
        if threw {
          return;
        }
      }
      FinishShutDown(v, r);
    }

    /** The end of ShutDownInLoop: what is left to send keeps EPOLLOUT, and nothing left means release. */
    method FinishShutDown(ghost v: E.Reactor, ghost r: nat)
      requires Shape() && Acts(fd, ch, v, r, loop.View(), releases)
      modifies this`writing, this`releases, loop, loop.poller
      ensures Shape()
      ensures State() == if old(State()).out != [] then old(State()).(writing := true) else M.Release(old(State()))
      ensures Acts(fd, ch, v, r, loop.View(), releases)
      ensures old(State()).out != [] && !old(writing) ==> fd in loop.poller.channels
    {
      hide Acts, Settled, Live;
      ghost var v1, r1 := loop.View(), releases;
      if outbuf.Readable() > 0 {
        if !writing {
          WantWrite(true);
          ActsTwice(fd, ch, v, r, v1, r1, loop.View(), releases);
        }
      }
      if outbuf.Readable() == 0 {
        Release();
        ActsTwice(fd, ch, v, r, v1, r1, loop.View(), releases);
      }
    }

    /** HanderRead: at most READ_MAX octets arrive at once. */
    method HanderRead(server: HttpServer, got: Option<bytes>) returns (threw: bool)
      requires Valid() && !dead && State().Idle()
      requires got.Some? ==> |got.value| <= READ_MAX
      modifies Repr()
      ensures Valid() && fresh(Repr() - old(Repr())) && State().Idle()
      ensures timeoutOn == old(timeoutOn)
      ensures State() == M.HandleRead(server.svc, old(State()), got) && threw == dead
      ensures Acts(fd, ch, old(loop.View()), old(releases), loop.View(), releases)
    {
      hide Live, Buf.Append, M.ShutDown, RecvHttpRequest, Answered, Acts;
      if got.None? {
        threw := ShutDownInLoop(server);
        return;
      }
      threw := false;
      ActsNothing(fd, ch, loop.View(), releases);
      InputFits(inbuf.View(), got.value);
      inbuf.WriteAndAdd(got.value);
      if inbuf.Readable() > 0 {
        threw := server.OnMessage(this);
      }
    }

    method HanderClose(server: HttpServer) returns (threw: bool)
      requires Valid() && !dead
      modifies Repr()
      ensures Valid() && fresh(Repr() - old(Repr())) && State().Idle()
      ensures timeoutOn == old(timeoutOn)
      ensures State() == M.HandleClose(server.svc, old(State())) && threw == dead
      ensures Acts(fd, ch, old(loop.View()), old(releases), loop.View(), releases)
    {
      hide Live, RecvHttpRequest, Answered, Acts;
      ghost var v, r := loop.View(), releases;
      ActsNothing(fd, ch, v, r);
      threw := false;
      if inbuf.Readable() > 0 {
        threw := server.OnMessage(this);
        if threw {
          return;
        }
      }
      ghost var v1, r1 := loop.View(), releases;
      Release();
      ActsTwice(fd, ch, v, r, v1, r1, loop.View(), releases);
    }

    /** HanderWrite: `n` is what send returned for the unread output. */
    method HanderWrite(server: HttpServer, n: Option<nat>) returns (threw: bool)
      requires Valid() && !dead && State().Idle()
      requires n.Some? ==> n.value <= |outbuf.Unread()|
      modifies Repr()
      ensures Valid() && fresh(Repr() - old(Repr())) && State().Idle()
      ensures timeoutOn == old(timeoutOn)
      ensures State() == M.HandleWrite(server.svc, old(State()), n) && threw == dead
      ensures Acts(fd, ch, old(loop.View()), old(releases), loop.View(), releases)
    {
      hide Live, Settled, M.HandleClose, M.OnMessage, Acts;
      if n.None? {
        threw := HanderClose(server);
        return;
      }
      threw := false;
      sent := sent + outbuf.Unread()[..n.value];
      outbuf.MoveReadPosition(n.value);
      ActsNothing(fd, ch, loop.View(), releases);
      if outbuf.Readable() == 0 {
        AllSent();
      }
    }

    /** The end of HanderWrite with an empty output buffer. */
    method AllSent()
      requires Shape()
      modifies this`writing, this`releases, loop, loop.poller
      ensures Shape()
      ensures State() == if old(status) == Disconnecting then M.Release(old(State()).(writing := false))
                         else old(State()).(writing := false)
      ensures Acts(fd, ch, old(loop.View()), old(releases), loop.View(), releases)
      ensures fd in loop.poller.channels
    {
      hide Acts, Settled, Live;
      ghost var v, r := loop.View(), releases;
      WantWrite(false);
      if status == Disconnecting {
        ghost var v1, r1 := loop.View(), releases;
        Release();
        ActsTwice(fd, ch, v, r, v1, r1, loop.View(), releases);
      }
    }

    /** The read callback of a dispatch, if the event bits ask for it. */
    method DispatchRead(server: HttpServer, e: Ready, got: Option<bytes>) returns (threw: bool)
      requires Valid() && !dead && State().Idle()
      requires got.Some? ==> |got.value| <= READ_MAX
      modifies Repr()
      ensures Valid() && fresh(Repr() - old(Repr())) && State().Idle() && threw == dead
      ensures timeoutOn == old(timeoutOn)
      ensures State() == M.Run(server.svc, old(State()), ReadPart(e, got))
      ensures Acts(fd, ch, old(loop.View()), old(releases), loop.View(), releases)
    {
      hide Live, Settled, Acts, M.HandleRead, M.OnMessage, M.ShutDown;
      threw := false;
      ActsNothing(fd, ch, loop.View(), releases);
      RunOne(server.svc, State(), if got.Some? then Read(got.value) else ReadFailed);
      if e.input || e.rdhup || e.pri {
        threw := HanderRead(server, got);
      }
    }

    /** The write callback, where send takes at most what there is. */
    method DispatchWrite(server: HttpServer, n: Option<nat>) returns (threw: bool)
      requires Valid() && !dead && State().Idle()
      modifies Repr()
      ensures Valid() && fresh(Repr() - old(Repr())) && State().Idle() && threw == dead
      ensures timeoutOn == old(timeoutOn)
      ensures State() == M.Step(server.svc, old(State()), if n.Some? then Wrote(n.value) else WriteFailed)
      ensures Acts(fd, ch, old(loop.View()), old(releases), loop.View(), releases)
    {
      hide Live, Settled, Acts, M.HandleWrite, M.Step;
      WriteStep(server.svc, State(), n);
      var k := if n.Some? && n.value > outbuf.Readable() then Some(outbuf.Readable()) else n;
      threw := HanderWrite(server, k);
    }

    /** HanderErr does what HanderClose does. */
    method DispatchClose(server: HttpServer) returns (threw: bool)
      requires Valid() && !dead && State().Idle()
      modifies Repr()
      ensures Valid() && fresh(Repr() - old(Repr())) && State().Idle() && threw == dead
      ensures timeoutOn == old(timeoutOn)
      ensures State() == M.Step(server.svc, old(State()), Hangup)
      ensures Acts(fd, ch, old(loop.View()), old(releases), loop.View(), releases)
    {
      hide Live, Settled, Acts, M.HandleClose;
      threw := HanderClose(server);
    }

    /** The write callback, or else the close or error callback. */
    method DispatchRest(server: HttpServer, e: Ready, n: Option<nat>) returns (threw: bool)
      requires Valid() && !dead && State().Idle()
      modifies Repr()
      ensures Valid() && fresh(Repr() - old(Repr())) && State().Idle() && threw == dead
      ensures timeoutOn == old(timeoutOn)
      ensures State() == M.Run(server.svc, old(State()), RestPart(e, n))
      ensures Acts(fd, ch, old(loop.View()), old(releases), loop.View(), releases)
    {
      hide Live, Settled, Acts, M.Step;
      threw := false;
      ActsNothing(fd, ch, loop.View(), releases);
      RunOne(server.svc, State(), if n.Some? then Wrote(n.value) else WriteFailed);
      RunOne(server.svc, State(), Hangup);
      if e.output {
        threw := DispatchWrite(server, n);
      } else if e.hup || e.err {
        threw := DispatchClose(server);
      }
    }

    /** All of a dispatch but the event callback: it takes nothing out of the poller. */
    method DispatchCallbacks(server: HttpServer, e: Ready, got: Option<bytes>, n: Option<nat>) returns (threw: bool)
      requires Valid() && !dead && State().Idle()
      requires got.Some? ==> |got.value| <= READ_MAX
      modifies Repr()
      ensures Valid() && fresh(Repr() - old(Repr())) && State().Idle() && threw == dead
      ensures State() == M.Run(server.svc, old(State()), Callbacks(e, got, n))
      ensures Acts(fd, ch, old(loop.View()), old(releases), loop.View(), releases)
      ensures timeoutOn == old(timeoutOn)
    {
      hide Live, Settled, Acts, M.Step, M.Run;
      ghost var s, v, r := State(), loop.View(), releases;
      RunThen(server.svc, s, ReadPart(e, got), RestPart(e, n));
      threw := DispatchRead(server, e, got);
      ghost var v1, r1 := loop.View(), releases;
      if threw {
        DeadRun(server.svc, State(), RestPart(e, n));
      } else {
        threw := DispatchRest(server, e, n);
        ActsTwice(fd, ch, v, r, v1, r1, loop.View(), releases);
      }
    }

    /** Channel::HanderEvent: the callbacks of the event bits and, unless one threw, the event callback. */
    method HanderEvent(server: HttpServer, e: Ready, got: Option<bytes>, n: Option<nat>) returns (threw: bool)
      requires Valid() && !dead && State().Idle() && CanFlush()
      requires got.Some? ==> |got.value| <= READ_MAX
      modifies Repr(), wheel
      ensures Valid() && wheel.Valid() && fresh(Repr() - old(Repr())) && State().Idle() && threw == dead
      ensures State() == M.Run(server.svc, old(State()), Callbacks(e, got, n))
      ensures Timing() == if threw then old(Timing()) else I.Happens(old(Timing()), timerId, I.EventDispatched)
      ensures Acts(fd, ch, old(loop.View()), old(releases), loop.View(), releases)
      ensures forall f | f in old(loop.poller.channels) ::
                f in loop.poller.channels && loop.poller.channels[f] == old(loop.poller.channels)[f]
    {
      hide Live, Settled, Acts, M.Run, M.Callbacks, I.Happens, W.Sound;
      threw := DispatchCallbacks(server, e, got, n);
      HandlersRemoveNothing(fd, ch, old(loop.View()), old(releases), loop.View(), releases);
      if !threw {
        EventCallback();
      }
    }

    // ---- the idle timeout ----

    ghost function Timing(): I.Timed
      reads this, wheel
    {
      I.Timed(wheel.View(), timeoutOn)
    }

    /** A flush of the pending timer, if any, is defined in the source's int arithmetic. */
    ghost predicate CanFlush()
      reads this, wheel
    {
      && wheel.Valid()
      && (timerId in wheel.timers && wheel.timers[timerId] in wheel.heap ==>
            W.FlushDefined(wheel.tick, wheel.heap[wheel.timers[timerId]].delay))
    }

    /** Connection::HanderEvent */
    method EventCallback()
      requires CanFlush()
      modifies wheel
      ensures wheel.Valid() && Timing() == I.Happens(old(Timing()), timerId, I.EventDispatched)
    {
      hide W.Sound, W.FlushTask, W.FlushDefined;
      OneCall(wheel.View(), R.Flush(timerId));
      NoCall(wheel.View());
      if timeoutOn {
        wheel.FlushTimeTask(timerId);
      }
    }

    method EnableTimeoutDelInLoop(sec: W.Delay)
      requires CanFlush()
      modifies this`timeoutOn, wheel
      ensures wheel.Valid() && Timing() == I.Happens(old(Timing()), timerId, I.EnableTimeout(sec))
    {
      hide W.Sound, W.FlushTask, W.SetTask, W.FlushDefined;
      EnableCalls(Timing(), timerId, sec);
      timeoutOn := true;
      var found := wheel.HasTimer(timerId);
      if found {
        wheel.FlushTimeTask(timerId);
      }
      wheel.SetTimeTask(timerId, sec);
    }

    method DisableTimeoutDelInLoop()
      requires wheel.Valid()
      modifies this`timeoutOn, wheel
      ensures wheel.Valid() && Timing() == I.Happens(old(Timing()), timerId, I.DisableTimeout)
    {
      hide W.Sound, W.CancelTask;
      OneCall(wheel.View(), R.Cancels(timerId));
      NoCall(wheel.View());
      timeoutOn := false;
      var found := wheel.HasTimer(timerId);
      if found {
        wheel.RemoveTimeTask(timerId);
      }
    }

    /** ReleaseInloop, the only one to take the channel out of the poller; it cancels the timer HasTimer knows. */
    method ReleaseInloop()
      requires Valid() && wheel.Valid()
      modifies this`status, this`timeoutOn, loop.poller, wheel
      ensures Valid() && wheel.Valid()
      ensures State() == M.ReleaseInLoop(old(State()))
      ensures loop.View() == old(loop.View()).(reg := E.Remove(old(loop.View()).reg, fd))
      ensures Timing() == I.Happens(old(Timing()), timerId, I.Released)
    {
      hide W.Sound, W.CancelTask, Live, Settled, I.Happens, Buf.Valid;
      I.ReleaseSwitchesOff(Timing(), timerId);
      status := Disconnected;
      loop.poller.RemoveEvent(fd);
      var found := wheel.HasTimer(timerId);
      if found {
        DisableTimeoutDelInLoop();
      }
    }
  }

  lemma OneCall(w: W.Wheel, op: R.Op)
    requires W.Sound(w)
    ensures R.Run(w, [op]) == R.Step(w, op)
  {
    hide W.Sound;
    R.StepSound(w, op);
    assert [op][1..] == [];
  }

  lemma NoCall(w: W.Wheel)
    requires W.Sound(w)
    ensures R.Run(w, []) == w
  {
  }

  lemma EnableCalls(c: I.Timed, id: W.Id, sec: W.Delay)
    requires W.Sound(c.wheel)
    ensures W.Sound(W.FlushTask(c.wheel, id)) && |W.FlushTask(c.wheel, id).slots| == W.CAPACITY
    ensures I.Happens(c, id, I.EnableTimeout(sec)) == I.Timed(W.SetTask(W.FlushTask(c.wheel, id), id, sec), true)
    ensures id !in c.wheel.timers ==> W.FlushTask(c.wheel, id) == c.wheel
  {
    G.EnabledIs(c, id, sec);
    D.FlushSound(c.wheel, id);
    D.SoundShape(W.FlushTask(c.wheel, id));
    hide W.Sound, W.SetTask;
  }

  /** One read into a buffer that holds at most one unfinished line stays within the cap. */
  lemma InputFits(b: Buf, data: bytes)
    requires b.Valid() && |b.Unread()| <= MAX_LINE && |data| <= READ_MAX && |b.store| <= INPUT_CAP
    ensures |b.Append(data).store| <= INPUT_CAP
  {
    AppendSize(b, data);
  }

  /** What the message callback does with the parser's outcome. */
  lemma OnMessageTurn(svc: Service, s: Conn)
    requires s.Running() && !s.dead && s.inp != []
    ensures var r := RecvHttpRequest(s.ctx, s.inp);
            var t, u := s.(ctx := r.ctx, inp := r.rest), M.OnMessage(svc, s);
            && (r.threw ==> u == t.(log := s.log + [Threw], dead := true))
            && (!r.threw && r.ctx.resp >= 400 ==>
                  var v := Answered(svc, t, Rejected(r.ctx), []);
                  v.Running() && u == M.ShutDown(svc, v))
            && (!r.threw && r.ctx.resp < 400 && r.ctx.recv != RecvOver ==> u == t)
            && (!r.threw && r.ctx.resp < 400 && r.ctx.recv == RecvOver ==>
                  var v := Answered(svc, t, Delivered(r.ctx.req), r.rest);
                  v.Running()
                  && u == if IsClose(Answer(svc, r.ctx.req).headers) then M.ShutDown(svc, v) else M.OnMessage(svc, v))
  {
    hide RecvHttpRequest, M.ShutDown, Reply, Wire, Answer, ErrorAnswer, IsClose;
    WaitingState(s.ctx, s.inp);
  }

  class HttpServer {
    const svc: Service

    constructor (svc: Service)
      ensures this.svc == svc
    {
      this.svc := svc;
    }

    /** Answers the completed request and starts the parser afresh. */
    method Respond(conn: Connection) returns (closing: bool)
      requires conn.Shape() && !conn.dead
      modifies conn`accepted, conn`writing, conn`log, conn.outbuf, conn.outbuf.store, conn.context, conn.loop.poller
      ensures conn.Valid() && !conn.dead && fresh(conn.Repr() - old(conn.Repr()))
      ensures conn.State() ==
              Answered(svc, old(conn.State()), Delivered(old(conn.context.request)), old(conn.inbuf.Unread()))
      ensures closing == IsClose(Answer(svc, old(conn.context.request)).headers)
      ensures Acts(conn.fd, conn.ch, old(conn.loop.View()), old(conn.releases), conn.loop.View(), conn.releases)
    {
      hide Wire, Answer, IsClose, Acts;
      var req := conn.context.request;
      var res := Answer(svc, req);
      conn.Send(Wire(svc, req, res));
      conn.context.Reset();
      conn.log := conn.log + [Delivered(req)];
      closing := IsClose(res.headers);
    }

    /** Answers with the error page, starts the parser afresh and drops the unread input. */
    method Refuse(conn: Connection)
      requires conn.Shape() && !conn.dead
      modifies conn`accepted, conn`writing, conn`log, conn.outbuf, conn.outbuf.store, conn.context, conn.inbuf`rd
      modifies conn.loop.poller
      ensures conn.Valid() && !conn.dead && fresh(conn.Repr() - old(conn.Repr()))
      ensures conn.State() == Answered(svc, old(conn.State()), Rejected(old(conn.context.View())), [])
      ensures Acts(conn.fd, conn.ch, old(conn.loop.View()), old(conn.releases), conn.loop.View(), conn.releases)
    {
      hide Wire, ErrorAnswer, M.Send, Buf.Skip, Acts;
      var c := Context(conn.context.resp, conn.context.recv, conn.context.request);
      conn.Send(Wire(svc, c.req, ErrorAnswer(svc, c)));
      conn.context.Reset();
      conn.inbuf.MoveReadPosition(conn.inbuf.Readable());
      conn.log := conn.log + [Rejected(c)];
    }

    /** Lets the parser take what it can from the input buffer. */
    method Receive(conn: Connection) returns (threw: bool)
      requires conn.Valid() && !conn.dead && conn.State().inp != []
      modifies conn`log, conn`dead, conn.context, conn.inbuf`rd
      ensures conn.Shape()
      ensures var s := old(conn.State());
              var r := RecvHttpRequest(s.ctx, s.inp);
              && threw == r.threw == conn.dead
              && conn.State() == (if threw then s.(ctx := r.ctx, inp := r.rest, log := s.log + [Threw], dead := true)
                                  else s.(ctx := r.ctx, inp := r.rest))
              && (!threw && r.ctx.resp < 400 && r.ctx.recv == RecvOver ==> |r.rest| < |s.inp|)
              && (!threw && r.ctx.resp < 400 && r.ctx.recv != RecvOver ==> conn.Valid())
    {
      WaitingState(conn.context.View(), conn.inbuf.Unread());
      hide RecvHttpRequest;
      threw := conn.context.ReceiveRequest(conn.inbuf);
      if threw {
        conn.log := conn.log + [Threw];
        conn.dead := true;
      }
    }

    /** The refusal of a request; `bound` is the input there was when the turn began. */
    method TurnDown(conn: Connection, ghost bound: nat) returns (threw: bool)
      requires conn.Shape() && !conn.dead && bound > 0
      modifies conn.Repr()
      ensures conn.Valid() && fresh(conn.Repr() - old(conn.Repr())) && conn.inbuf.store == old(conn.inbuf.store)
      ensures conn.timeoutOn == old(conn.timeoutOn)
      ensures threw == conn.dead && Answered(svc, old(conn.State()), Rejected(old(conn.context.View())), []).Running()
      ensures conn.State() == M.ShutDown(svc, Answered(svc, old(conn.State()), Rejected(old(conn.context.View())), []))
      ensures Acts(conn.fd, conn.ch, old(conn.loop.View()), old(conn.releases), conn.loop.View(), conn.releases)
      decreases bound, 0, 0
    {
      hide Acts, M.ShutDown, M.Send, Reply, Live, Settled;
      ghost var v, r := conn.loop.View(), conn.releases;
      Refuse(conn);
      ghost var v1, r1 := conn.loop.View(), conn.releases;
      threw := conn.ShutDownInLoop(this);
      ActsTwice(conn.fd, conn.ch, v, r, v1, r1, conn.loop.View(), conn.releases);
    }

    /** The answer to a completed request; `more` when the connection stays open. */
    method TurnOver(conn: Connection, ghost bound: nat) returns (more: bool, threw: bool)
      requires conn.Shape() && !conn.dead && |conn.inbuf.Unread()| < bound
      modifies conn.Repr()
      ensures conn.Valid() && fresh(conn.Repr() - old(conn.Repr())) && conn.inbuf.store == old(conn.inbuf.store)
      ensures conn.timeoutOn == old(conn.timeoutOn)
      ensures threw == conn.dead && (more ==> !threw)
      ensures var v := Answered(svc, old(conn.State()), Delivered(old(conn.context.request)), old(conn.inbuf.Unread()));
              && more == !IsClose(Answer(svc, old(conn.context.request)).headers) && v.Running()
              && conn.State() == if more then v else M.ShutDown(svc, v)
      ensures Acts(conn.fd, conn.ch, old(conn.loop.View()), old(conn.releases), conn.loop.View(), conn.releases)
      decreases bound, 0, 0
    {
      hide Acts, M.ShutDown, M.Send, Reply, Live, Settled, Answer, IsClose;
      ghost var v, r := conn.loop.View(), conn.releases;
      var closing := Respond(conn);
      more, threw := !closing, false;
      if closing {
        ghost var v1, r1 := conn.loop.View(), conn.releases;
        threw := conn.ShutDownInLoop(this);
        ActsTwice(conn.fd, conn.ch, v, r, v1, r1, conn.loop.View(), conn.releases);
      }
    }

    /** One turn of the loop below; `more` when the loop goes on. */
    method Turn(conn: Connection) returns (more: bool, threw: bool)
      requires conn.Valid() && !conn.dead && conn.State().inp != []
      modifies conn.Repr()
      ensures conn.Valid() && fresh(conn.Repr() - old(conn.Repr())) && conn.inbuf.store == old(conn.inbuf.store)
      ensures conn.timeoutOn == old(conn.timeoutOn)
      ensures threw == conn.dead
      ensures !more ==> conn.State() == M.OnMessage(svc, old(conn.State()))
      ensures more ==> !threw && |conn.State().inp| < |old(conn.State()).inp|
      ensures more ==> M.OnMessage(svc, conn.State()) == M.OnMessage(svc, old(conn.State()))
      ensures Acts(conn.fd, conn.ch, old(conn.loop.View()), old(conn.releases), conn.loop.View(), conn.releases)
      decreases |conn.inbuf.Unread()|, 0
    {
      hide RecvHttpRequest, M.ShutDown, M.OnMessage, M.Send, Reply, Wire, Answer, ErrorAnswer, IsClose;
      hide Live, Settled, Acts;
      ActsNothing(conn.fd, conn.ch, conn.loop.View(), conn.releases);
      OnMessageTurn(svc, conn.State());
      ghost var bound := |conn.inbuf.Unread()|;
      threw := Receive(conn);
      if threw {
        return false, true;
      }
      if conn.context.resp >= 400 {
        threw := TurnDown(conn, bound);
        return false, threw;
      }
      if conn.context.recv != RecvOver {
        return false, false;
      }
      more, threw := TurnOver(conn, bound);
    }

    /** The message callback; every further turn or nested call finds less unread input. */
    method OnMessage(conn: Connection) returns (threw: bool)
      requires conn.Valid() && !conn.dead
      modifies conn.Repr()
      ensures conn.Valid() && fresh(conn.Repr() - old(conn.Repr())) && conn.inbuf.store == old(conn.inbuf.store)
      ensures conn.timeoutOn == old(conn.timeoutOn)
      ensures conn.State() == M.OnMessage(svc, old(conn.State())) && threw == conn.dead
      ensures Acts(conn.fd, conn.ch, old(conn.loop.View()), old(conn.releases), conn.loop.View(), conn.releases)
      decreases |conn.inbuf.Unread()|, 1
    {
      hide Acts, Live, Settled, RecvHttpRequest, M.ShutDown, Answered;
      ghost var v, r := conn.loop.View(), conn.releases;
      ActsNothing(conn.fd, conn.ch, v, r);
      threw := false;
      ghost var goal := M.OnMessage(svc, conn.State());
      while conn.inbuf.Readable() > 0
        invariant conn.Valid() && !conn.dead && !threw
        invariant fresh(conn.Repr() - old(conn.Repr())) && conn.inbuf.store == old(conn.inbuf.store)
        invariant conn.timeoutOn == old(conn.timeoutOn)
        invariant |conn.inbuf.Unread()| <= old(|conn.inbuf.Unread()|)
        invariant M.OnMessage(svc, conn.State()) == goal
        invariant Acts(conn.fd, conn.ch, v, r, conn.loop.View(), conn.releases)
        decreases |conn.inbuf.Unread()|
      {
        ghost var v1, r1 := conn.loop.View(), conn.releases;
        var more;
        more, threw := Turn(conn);
        ActsTwice(conn.fd, conn.ch, v, r, v1, r1, conn.loop.View(), conn.releases);
        if !more {
          return;
        }
      }
    }
  }
}
