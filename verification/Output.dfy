/** The output path: nothing accepted is lost or reordered, and a shutdown lets it all go first. */
module Output {
  import opened Bytes
  import opened HttpMessage
  import opened HttpContents
  import opened ParserTheorems
  import opened ConnModel

  /** Every accepted octet went to the socket or waits, in order, and waiting octets ask for EPOLLOUT. */
  predicate Conserved(s: Conn) {
    s.accepted == s.sent + s.out && (s.out != [] ==> s.writing)
  }

  lemma SendConserves(s: Conn, data: bytes)
    requires Conserved(s)
    ensures Conserved(Send(s, data))
  {
    Assoc(s.sent, s.out, data);
  }

  lemma {:induction false} CallbackConserves(svc: Service, s: Conn)
    requires s.Running() && Conserved(s)
    ensures Conserved(OnMessage(svc, s))
    decreases |s.inp|, 0
  {
    hide Conserved, Reply, RecvHttpRequest, Settled, IsClose, Answer;
    if !s.dead && s.inp != [] {
      WaitingState(s.ctx, s.inp);
      var r := RecvHttpRequest(s.ctx, s.inp);
      if r.threw || (r.ctx.resp < 400 && r.ctx.recv != RecvOver) {
        OnlyOutputCounts(s, OnMessage(svc, s));
      } else if r.ctx.resp >= 400 {
        AnswerConserves(svc, s, Rejected(r.ctx), []);
        ShutDownConserves(svc, Answered(svc, s, Rejected(r.ctx), []));
      } else {
        var next := Answered(svc, s, Delivered(r.ctx.req), r.rest);
        AnswerConserves(svc, s, Delivered(r.ctx.req), r.rest);
        if IsClose(Answer(svc, r.ctx.req).headers) {
          ShutDownConserves(svc, next);
        } else {
          CallbackConserves(svc, next);
        }
      }
    }
  }

  lemma OnlyOutputCounts(s: Conn, t: Conn)
    requires Conserved(s)
    requires t.accepted == s.accepted && t.sent == s.sent && t.out == s.out && t.writing == s.writing
    ensures Conserved(t)
  {
  }

  lemma AnswerConserves(svc: Service, s: Conn, e: Event, rest: bytes)
    requires Conserved(s)
    ensures Conserved(Answered(svc, s, e, rest))
  {
    SendConserves(s, Reply(svc, e));
  }

  lemma ShutDownConserves(svc: Service, s: Conn)
    requires s.Running() && Conserved(s)
    ensures Conserved(ShutDown(svc, s))
    decreases |s.inp|, 1
  {
    hide OnMessage;
    CallbackConserves(svc, s.(status := Disconnecting));
  }

  lemma WriteConserves(svc: Service, s: Conn, n: nat)
    requires s.Idle() && Conserved(s) && n <= |s.out|
    ensures Conserved(HandleWrite(svc, s, Some(n)))
  {
    assert s.out == s.out[..n] + s.out[n..];
    Assoc(s.sent, s.out[..n], s.out[n..]);
  }

  lemma StepConserves(svc: Service, s: Conn, a: Act)
    requires s.Idle() && Conserved(s)
    ensures Conserved(Step(svc, s, a))
  {
    hide OnMessage, ShutDown, Conserved;
    if !s.dead {
      match a
      case Read(part) =>
        OnlyOutputCounts(s, s.(inp := s.inp + part));
        CallbackConserves(svc, s.(inp := s.inp + part));
      case ReadFailed => ShutDownConserves(svc, s);
      case Wrote(n) => WriteConserves(svc, s, if n < |s.out| then n else |s.out|);
      case WriteFailed => CloseConserves(svc, s);
      case Hangup => CloseConserves(svc, s);
      case SendData(data) => SendConserves(s, data);
      case AskShutdown => ShutDownConserves(svc, s);
      case TimerFired => OnlyOutputCounts(s, Release(s));
      case RunRelease => OnlyOutputCounts(s, Step(svc, s, a));
    }
  }

  lemma CloseConserves(svc: Service, s: Conn)
    requires s.Running() && Conserved(s)
    ensures Conserved(HandleClose(svc, s))
  {
    hide OnMessage;
    CallbackConserves(svc, s);
  }

  /** Output conservation, in every state of every run. */
  lemma {:induction false} OutputConservation(svc: Service, s: Conn, acts: seq<Act>)
    requires s.Idle() && Conserved(s)
    ensures Conserved(Run(svc, s, acts))
    decreases |acts|
  {
    hide Step, Conserved;
    if acts != [] {
      StepConserves(svc, s, acts[0]);
      OutputConservation(svc, Step(svc, s, acts[0]), acts[1..]);
    }
  }

  // ---- graceful shutdown ----

  /** While output is accepted, the message callback queues no release: each reply leaves output behind. */
  lemma {:induction false} CallbackQueuesNoRelease(svc: Service, s: Conn)
    requires s.Running() && s.status != Disconnected
    ensures var t := OnMessage(svc, s);
            t.releases == s.releases && |t.out| >= |s.out|
            && t.status != Disconnected && (s.status == Disconnecting ==> t.status == Disconnecting)
    decreases |s.inp|
  {
    hide Reply, RecvHttpRequest, Settled, IsClose, Answer;
    if !s.dead && s.inp != [] {
      WaitingState(s.ctx, s.inp);
      var r := RecvHttpRequest(s.ctx, s.inp);
      if !r.threw && r.ctx.resp >= 400 {
        var e := Rejected(r.ctx);
        ReplyNotEmpty(svc, e);
        CallbackQueuesNoRelease(svc, Answered(svc, s, e, []).(status := Disconnecting));
      } else if !r.threw && r.ctx.recv == RecvOver {
        var e := Delivered(r.ctx.req);
        ReplyNotEmpty(svc, e);
        var next := Answered(svc, s, e, r.rest);
        CallbackQueuesNoRelease(svc, next);
        CallbackQueuesNoRelease(svc, next.(status := Disconnecting));
      }
    }
  }

  lemma ReplyNotEmpty(svc: Service, e: Event)
    requires e != Threw
    ensures |Reply(svc, e)| > 0
  {
  }

  predicate Closing(s: Conn) {
    s.status == Disconnecting || s.status == Disconnected
  }

  /** What is accepted only grows, and what was queued stays queued; only the socket takes octets. */
  predicate Grown(s: Conn, t: Conn) {
    && s.accepted <= t.accepted && t.sent == s.sent && t.releases >= s.releases
    && (Closing(s) ==> Closing(t))
  }

  lemma GrownTwice(s: Conn, t: Conn, u: Conn)
    requires Grown(s, t) && Grown(t, u)
    ensures Grown(s, u)
  {
  }

  lemma AnswerGrows(svc: Service, s: Conn, e: Event, rest: bytes)
    ensures Grown(s, Answered(svc, s, e, rest))
  {
    hide Reply;
  }

  lemma {:induction false} CallbackGrows(svc: Service, s: Conn)
    requires s.Running()
    ensures Grown(s, OnMessage(svc, s))
    decreases |s.inp|, 0
  {
    hide Reply, RecvHttpRequest, Settled, IsClose, Answer, Send;
    if !s.dead && s.inp != [] {
      WaitingState(s.ctx, s.inp);
      var r := RecvHttpRequest(s.ctx, s.inp);
      if !r.threw && r.ctx.resp >= 400 {
        var next := Answered(svc, s, Rejected(r.ctx), []);
        AnswerGrows(svc, s, Rejected(r.ctx), []);
        ShutDownGrows(svc, next);
        GrownTwice(s, next, ShutDown(svc, next));
      } else if !r.threw && r.ctx.recv == RecvOver {
        var next := Answered(svc, s, Delivered(r.ctx.req), r.rest);
        AnswerGrows(svc, s, Delivered(r.ctx.req), r.rest);
        if IsClose(Answer(svc, r.ctx.req).headers) {
          ShutDownGrows(svc, next);
          GrownTwice(s, next, ShutDown(svc, next));
        } else {
          CallbackGrows(svc, next);
          GrownTwice(s, next, OnMessage(svc, next));
        }
      }
    }
  }

  lemma {:induction false} ShutDownGrows(svc: Service, s: Conn)
    requires s.Running()
    ensures Grown(s, ShutDown(svc, s)) && Closing(ShutDown(svc, s))
    decreases |s.inp|, 1
  {
    hide OnMessage;
    CallbackGrows(svc, s.(status := Disconnecting));
  }

  /** After Shutdown: a release is queued only once no output is left. */
  predicate Draining(s: Conn) {
    && Conserved(s) && Closing(s) && (s.status == Disconnected ==> s.releases > 0)
    && (s.releases > 0 ==> s.out == [])
    && (s.releases == 0 && !s.dead ==> s.status == Disconnecting && s.out != [])
  }

  /** The acts that do not release a connection by themselves. */
  predicate OnlyShutdownReleases(acts: seq<Act>) {
    forall a | a in acts :: !a.WriteFailed? && !a.Hangup? && !a.TimerFired?
  }

  /** How many writes the socket took something in. */
  function Progress(acts: seq<Act>): nat {
    if acts == [] then 0 else (if acts[0].Wrote? && acts[0].n > 0 then 1 else 0) + Progress(acts[1..])
  }

  lemma SameOutput(s: Conn, t: Conn)
    requires Conserved(s) && Conserved(t) && t.accepted == s.accepted && t.sent == s.sent
    ensures t.out == s.out
  {
    assert s.out == s.accepted[|s.sent|..] && t.out == t.accepted[|t.sent|..];
  }

  /** One act: accepted octets grow, or the draining goes on. */
  predicate Drained(s: Conn, t: Conn, progress: nat) {
    && s.accepted <= t.accepted
    && (t.accepted == s.accepted ==>
          && Draining(t) && t.releases >= s.releases
          && (t.releases == 0 && !t.dead ==> !s.dead && progress + |t.out| <= |s.out|))
  }

  lemma QuietCallback(svc: Service, s: Conn)
    requires s.Running() && Draining(s)
    ensures Drained(s, OnMessage(svc, s), 0)
  {
    hide OnMessage;
    var t := OnMessage(svc, s);
    if s.dead {
      DeadStays(svc, s);
    } else {
      CallbackGrows(svc, s);
      CallbackConserves(svc, s);
      if s.status == Disconnecting {
        CallbackQueuesNoRelease(svc, s);
      }
      if t.accepted == s.accepted {
        SameOutput(s, t);
      }
    }
  }

  lemma DeadStays(svc: Service, s: Conn)
    requires s.dead
    ensures OnMessage(svc, s) == s
  {
  }

  lemma QuietShutDown(svc: Service, s: Conn)
    requires s.Running() && Draining(s) && !s.dead
    ensures Drained(s, ShutDown(svc, s), 0)
  {
    hide OnMessage;
    var c := s.(status := Disconnecting);
    QuietCallback(svc, c);
    ShutDownConserves(svc, s);
    ShutDownGrows(svc, s);
  }

  lemma QuietRead(svc: Service, s: Conn, part: bytes)
    requires s.Running() && Draining(s)
    ensures Drained(s, OnMessage(svc, s.(inp := s.inp + part)), 0)
  {
    hide OnMessage;
    QuietCallback(svc, s.(inp := s.inp + part));
  }

  lemma QuietWrite(svc: Service, s: Conn, n: nat)
    requires s.Idle() && Draining(s) && !s.dead
    ensures Drained(s, Step(svc, s, Wrote(n)), if n > 0 then 1 else 0)
  {
    hide Settled, OnMessage;
    WriteConserves(svc, s, if n < |s.out| then n else |s.out|);
  }

  lemma QuietSend(svc: Service, s: Conn, data: bytes)
    requires s.Idle() && Draining(s)
    ensures Drained(s, Send(s, data), 0)
  {
    SendConserves(s, data);
    if Send(s, data).accepted == s.accepted {
      SameOutput(s, Send(s, data));
    }
  }

  lemma DrainStep(svc: Service, s: Conn, a: Act)
    requires s.Idle() && Draining(s) && OnlyShutdownReleases([a])
    ensures Drained(s, Step(svc, s, a), if a.Wrote? && a.n > 0 then 1 else 0)
  {
    hide Draining, OnMessage, ShutDown, Send;
    assert a in [a];
    if !s.dead {
      match a
      case Read(part) => QuietRead(svc, s, part);
      case ReadFailed => QuietShutDown(svc, s);
      case Wrote(n) => QuietWrite(svc, s, n);
      case SendData(data) => QuietSend(svc, s, data);
      case AskShutdown => QuietShutDown(svc, s);
      case RunRelease => QuietRelease(s);
    }
  }

  lemma QuietRelease(s: Conn)
    requires Draining(s) && !s.dead
    ensures Drained(s, if s.releases > 0 then ReleaseInLoop(s) else s, 0)
  {
  }

  lemma DrainedTwice(s: Conn, t: Conn, u: Conn, m: nat, n: nat)
    requires Drained(s, t, m) && t.accepted <= u.accepted
    requires t.accepted == s.accepted ==> Drained(t, u, n)
    ensures Drained(s, u, m + n)
  {
    if u.accepted == s.accepted {
      assert |t.accepted| == |s.accepted|;
      assert t.accepted == s.accepted;
    }
  }

  lemma StepGrows(svc: Service, s: Conn, a: Act)
    requires s.Idle()
    ensures s.accepted <= Step(svc, s, a).accepted && (Closing(s) ==> Closing(Step(svc, s, a)))
  {
    hide OnMessage, ShutDown;
    if !s.dead {
      match a
      case Read(part) => CallbackGrows(svc, s.(inp := s.inp + part));
      case ReadFailed => ShutDownGrows(svc, s);
      case WriteFailed => CallbackGrows(svc, s);
      case Hangup => CallbackGrows(svc, s);
      case AskShutdown => ShutDownGrows(svc, s);
      case _ =>
    }
  }

  lemma {:induction false} RunGrows(svc: Service, s: Conn, acts: seq<Act>)
    requires s.Idle()
    ensures s.accepted <= Run(svc, s, acts).accepted && (Closing(s) ==> Closing(Run(svc, s, acts)))
    decreases |acts|
  {
    hide Step;
    if acts != [] {
      StepGrows(svc, s, acts[0]);
      RunGrows(svc, Step(svc, s, acts[0]), acts[1..]);
    }
  }

  lemma {:induction false} DrainRun(svc: Service, s: Conn, acts: seq<Act>)
    requires s.Idle() && Draining(s) && OnlyShutdownReleases(acts)
    ensures Drained(s, Run(svc, s, acts), Progress(acts))
    decreases |acts|
  {
    hide Step, Draining, Drained, Conserved, Settled;
    if acts == [] {
      StillDraining(s);
    } else {
      var a, rest := acts[0], acts[1..];
      assert OnlyShutdownReleases([a]) && OnlyShutdownReleases(rest);
      var t := Step(svc, s, a);
      DrainStep(svc, s, a);
      RunGrows(svc, t, rest);
      if t.accepted == s.accepted {
        WhileDraining(s, t, if a.Wrote? && a.n > 0 then 1 else 0);
        DrainRun(svc, t, rest);
      }
      DrainedTwice(s, t, Run(svc, t, rest), if a.Wrote? && a.n > 0 then 1 else 0, Progress(rest));
    }
  }

  lemma StillDraining(s: Conn)
    requires Draining(s)
    ensures Drained(s, s, 0)
  {
  }

  lemma WhileDraining(s: Conn, t: Conn, progress: nat)
    requires Drained(s, t, progress) && t.accepted == s.accepted
    ensures Draining(t)
  {
  }

  /** Also where the message callback calls it, between two of the requests it still has to deliver. */
  lemma ShutDownDrains(svc: Service, s: Conn)
    requires s.Running() && Conserved(s) && s.releases == 0
    ensures Draining(ShutDown(svc, s))
  {
    hide OnMessage;
    ShutDownConserves(svc, s);
    CallbackQueuesNoRelease(svc, s.(status := Disconnecting));
  }

  /**
   * Graceful shutdown: when Shutdown alone releases the connection and nothing is accepted for sending after
   * it, whatever else is read, written or asked for, a release is queued, and run, only after the socket has
   * taken every accepted octet; and, unless a handler threw, it is queued after at most as many writes that
   * take something as there were octets waiting.
   */
  lemma GracefulShutdown(svc: Service, s: Conn, acts: seq<Act>)
    requires s.Running() && Conserved(s) && s.releases == 0 && OnlyShutdownReleases(acts)
    ensures Graceful(svc, ShutDown(svc, s), acts)
  {
    hide ShutDown, Draining, Graceful;
    ShutDownDrains(svc, s);
    DrainsGracefully(svc, ShutDown(svc, s), acts);
  }

  /** If nothing more is accepted, releases come only after all was sent, and soon enough. */
  predicate Graceful(svc: Service, t: Conn, acts: seq<Act>)
    requires t.Idle()
  {
    var u := Run(svc, t, acts);
    u.accepted == t.accepted ==>
      && (u.releases > 0 || u.status == Disconnected ==> u.sent == u.accepted)
      && (Progress(acts) >= |t.out| && !u.dead ==> u.releases > 0)
  }

  lemma DrainsGracefully(svc: Service, t: Conn, acts: seq<Act>)
    requires t.Idle() && Draining(t) && OnlyShutdownReleases(acts)
    ensures Graceful(svc, t, acts)
  {
    hide Run, Progress, Settled;
    DrainRun(svc, t, acts);
    AppendNothing(Run(svc, t, acts).sent);
  }

  // ---- whatever closes the connection ----

  /** Nothing has closed or released the connection yet. */
  predicate Open(s: Conn) {
    Conserved(s) && s.releases == 0 && !Closing(s)
  }

  /** The message callback leaves an open connection open, or shuts it down, wherever in the input. */
  lemma {:induction false} CallbackDrains(svc: Service, s: Conn)
    requires s.Running() && Open(s)
    ensures var t := OnMessage(svc, s); Open(t) || Draining(t)
    decreases |s.inp|
  {
    hide Conserved, Reply, RecvHttpRequest, Settled, IsClose, Answer, ShutDown, Draining;
    if !s.dead && s.inp != [] {
      WaitingState(s.ctx, s.inp);
      var r := RecvHttpRequest(s.ctx, s.inp);
      if r.threw || (r.ctx.resp < 400 && r.ctx.recv != RecvOver) {
        OnlyOutputCounts(s, OnMessage(svc, s));
      } else if r.ctx.resp >= 400 {
        AnswerConserves(svc, s, Rejected(r.ctx), []);
        ShutDownDrains(svc, Answered(svc, s, Rejected(r.ctx), []));
      } else {
        var next := Answered(svc, s, Delivered(r.ctx.req), r.rest);
        AnswerConserves(svc, s, Delivered(r.ctx.req), r.rest);
        if IsClose(Answer(svc, r.ctx.req).headers) {
          ShutDownDrains(svc, next);
        } else {
          CallbackDrains(svc, next);
        }
      }
    }
  }

  lemma WriteStaysOpen(svc: Service, s: Conn, n: nat)
    requires s.Idle() && Open(s) && n <= |s.out|
    ensures Open(HandleWrite(svc, s, Some(n)))
  {
    hide Conserved;
    WriteConserves(svc, s, n);
  }

  lemma StepDrains(svc: Service, s: Conn, a: Act)
    requires s.Idle() && Open(s) && OnlyShutdownReleases([a])
    ensures var t := Step(svc, s, a); Open(t) || Draining(t)
  {
    hide OnMessage, ShutDown, Conserved, Draining;
    assert a in [a];
    if !s.dead {
      match a
      case Read(part) =>
        OnlyOutputCounts(s, s.(inp := s.inp + part));
        CallbackDrains(svc, s.(inp := s.inp + part));
      case ReadFailed => ShutDownDrains(svc, s);
      case Wrote(n) => WriteStaysOpen(svc, s, if n < |s.out| then n else |s.out|);
      case SendData(data) => SendConserves(s, data);
      case AskShutdown => ShutDownDrains(svc, s);
      case RunRelease =>
    }
  }

  lemma {:induction false} StaysOpen(svc: Service, s: Conn, acts: seq<Act>)
    requires s.Idle() && Open(s) && OnlyShutdownReleases(acts) && !Closing(Run(svc, s, acts))
    ensures Open(Run(svc, s, acts))
    decreases |acts|
  {
    hide Step, Conserved, Draining, Settled;
    if acts != [] {
      var a, rest, t := acts[0], acts[1..], Step(svc, s, acts[0]);
      assert OnlyShutdownReleases([a]) && OnlyShutdownReleases(rest);
      StepDrains(svc, s, a);
      if Open(t) {
        StaysOpen(svc, t, rest);
      } else {
        DrainingCloses(t);
        RunGrows(svc, t, rest);
      }
    }
  }

  lemma DrainingCloses(s: Conn)
    requires Draining(s)
    ensures Closing(s)
  {
  }

  /**
   * In every run without a failed write, a hang-up or a timer's callback, whatever act closes the connection, be it
   * the read of a refused request, or of one that asks for it with more requests behind it: from there on, if nothing
   * more is accepted, it is released only after all accepted octets were sent, and soon enough.
   */
  lemma ClosesGracefully(svc: Service, s: Conn, before: seq<Act>, a: Act, after: seq<Act>)
    requires s.Idle() && Open(s) && OnlyShutdownReleases(before + [a] + after)
    requires !Closing(Run(svc, s, before)) && Closing(Step(svc, Run(svc, s, before), a))
    ensures Graceful(svc, Step(svc, Run(svc, s, before), a), after)
  {
    hide Step, Run, Conserved, Draining, Settled, Graceful;
    assert OnlyShutdownReleases(before) && OnlyShutdownReleases([a]) && OnlyShutdownReleases(after) by {
      assert forall x | x in before || x in [a] || x in after :: x in before + [a] + after;
    }
    StaysOpen(svc, s, before);
    StepDrains(svc, Run(svc, s, before), a);
    DrainsGracefully(svc, Step(svc, Run(svc, s, before), a), after);
  }
}
