/** The value of a connection of the HTTP server, and what each of its handlers makes of it. */
module ConnModel {
  import opened Bytes
  import opened HttpMessage
  import opened HttpContents
  import opened ParserTheorems
  import RequestLine

  // ---- responses ----

  datatype Response = Response(status: nat, body: bytes, redirect: Option<bytes>, headers: Fields)

  /**
   * What the server is configured with: the routes and their handlers as one function, the iteration
   * order of a header map, the description of each status, and the error page.
   */
  datatype Service = Service(
    route: Request -> Response,
    order: Fields -> seq<(bytes, bytes)>,
    statusText: nat -> bytes,
    errorPage: bytes)

  const CONTENT_TYPE: bytes := "Content-Type"
  const LOCATION: bytes := "Location"
  const OCTETS: bytes := "application/octet-stream"
  const HTML: bytes := "text/html"
  const ZERO: bytes := "0"

  /** The headers WriteResponse adds; the ones a handler has set stay. */
  function Complete(req: Request, res: Response): Response {
    var h1 := Insert(res.headers, CONNECTION, if IsClose(req.headers) then CLOSE else KEEP_ALIVE);
    var h2 := Insert(h1, CONTENT_LENGTH, ToDecimal(|res.body|));
    var h3 := if res.body != [] then Insert(h2, CONTENT_TYPE, OCTETS) else h2;
    var h4 := if res.redirect.Some? then Insert(h3, LOCATION, res.redirect.value) else h3;
    res.(headers := h4)
  }

  function StatusLine(svc: Service, req: Request, res: Response): bytes {
    req.version + [' '] + ToDecimal(res.status) + [' '] + svc.statusText(res.status) + CRLF
  }

  /** The octets WriteResponse sends for a completed response. */
  function Wire(svc: Service, req: Request, res: Response): bytes {
    StatusLine(svc, req, res) + PrintFields(svc.order(res.headers)) + CRLF + res.body
  }

  /** What a request is answered with: a HEAD response loses its body before it is completed. */
  function Answer(svc: Service, req: Request): Response {
    var res := svc.route(req);
    var cut := if req.meth == RequestLine.HEAD then
                 res.(body := [], headers := if CONTENT_LENGTH in res.headers
                                             then Insert(res.headers, CONTENT_LENGTH, ZERO) else res.headers)
               else res;
    Complete(req, cut)
  }

  function ErrorAnswer(svc: Service, c: Context): Response {
    Complete(c.req, Response(c.resp, svc.errorPage, None, map[CONTENT_TYPE := HTML]))
  }

  // ---- the value of a connection ----

  datatype ConnStatus = Disconnected | Connecting | Connected | Disconnecting

  /** What the message callback did, in order. */
  datatype Event = Delivered(req: Request) | Rejected(ctx: Context) | Threw

  function Reply(svc: Service, e: Event): bytes {
    match e
    case Delivered(req) => Wire(svc, req, Answer(svc, req))
    case Rejected(c) => Wire(svc, c.req, ErrorAnswer(svc, c))
    case Threw => []
  }

  /**
   * `writing` is the EPOLLOUT interest bit; `accepted` and `sent` are all octets taken by SendInLoop and
   * by the socket; `releases` counts queued ReleaseInloop tasks; `dead` means an exception escaped.
   */
  datatype Conn = Conn(
    status: ConnStatus,
    ctx: Context,
    inp: bytes,
    out: bytes,
    writing: bool,
    accepted: bytes,
    sent: bytes,
    releases: nat,
    log: seq<Event>,
    dead: bool)
  {
    /** The parser is between calls, unless the thread is gone. */
    predicate Running() {
      dead || Live(ctx)
    }

    /** Between two handler calls the parser has taken all it can. */
    predicate Idle() {
      dead || Settled(ctx, inp)
    }
  }

  /** SendInLoop */
  function Send(s: Conn, data: bytes): Conn {
    if s.status == Disconnected then s
    else s.(out := s.out + data, accepted := s.accepted + data, writing := true)
  }

  /** Release: one more ReleaseInloop in the task queue. */
  function Release(s: Conn): Conn {
    s.(releases := s.releases + 1)
  }

  /** The reply is sent, the parser reset, and `rest` is what stays unread. */
  function Answered(svc: Service, s: Conn, e: Event, rest: bytes): Conn {
    Send(s, Reply(svc, e)).(ctx := RESET, inp := rest, log := s.log + [e])
  }

  /** OnMessage: the loop over the unread input; a refusal or a closing response ends in Shutdown. */
  function OnMessage(svc: Service, s: Conn): (t: Conn)
    requires s.Running()
    ensures t.Idle()
    decreases |s.inp|, 0
  {
    if s.dead || s.inp == [] then s
    else
      WaitingState(s.ctx, s.inp);
      var r := RecvHttpRequest(s.ctx, s.inp);
      if r.threw then s.(ctx := r.ctx, inp := r.rest, log := s.log + [Threw], dead := true)
      else if r.ctx.resp >= 400 then
        ShutDown(svc, Answered(svc, s, Rejected(r.ctx), []))
      else if r.ctx.recv != RecvOver then s.(ctx := r.ctx, inp := r.rest)
      else
        var next := Answered(svc, s, Delivered(r.ctx.req), r.rest);
        if IsClose(Answer(svc, r.ctx.req).headers) then ShutDown(svc, next) else OnMessage(svc, next)
  }

  /** ShutDownInLoop: it calls the message callback once more for what is still unread. */
  function ShutDown(svc: Service, s: Conn): (t: Conn)
    requires s.Running()
    ensures t.Idle()
    decreases |s.inp|, 1
  {
    var t := OnMessage(svc, s.(status := Disconnecting));
    if t.dead then t
    else if t.out != [] then t.(writing := true)
    else Release(t)
  }

  /** HanderRead: None where recv failed. */
  function HandleRead(svc: Service, s: Conn, got: Option<bytes>): (t: Conn)
    requires s.Running()
    ensures t.Idle()
  {
    if got.None? then ShutDown(svc, s) else OnMessage(svc, s.(inp := s.inp + got.value))
  }

  /** HanderClose, and HanderErr. */
  function HandleClose(svc: Service, s: Conn): (t: Conn)
    requires s.Running()
    ensures t.Idle()
  {
    var t := OnMessage(svc, s);
    if t.dead then t else Release(t)
  }

  /** HanderWrite: the socket took `n` octets, or failed. */
  function HandleWrite(svc: Service, s: Conn, n: Option<nat>): (t: Conn)
    requires s.Idle() && (n.Some? ==> n.value <= |s.out|)
    ensures t.Idle()
  {
    if n.None? then HandleClose(svc, s)
    else
      var t := s.(out := s.out[n.value..], sent := s.sent + s.out[..n.value]);
      if t.out != [] then t
      else if t.status == Disconnecting then Release(t.(writing := false))
      else t.(writing := false)
  }

  /** ReleaseInloop, as far as sending is concerned. */
  function ReleaseInLoop(s: Conn): Conn {
    s.(status := Disconnected)
  }

  // ---- runs ----

  /**
   * What the event loop can do to a connection. A write takes up to `n` octets; `TimerFired` is the idle
   * timer's callback; `RunRelease` runs a queued ReleaseInloop.
   */
  datatype Act =
    | Read(part: bytes)
    | ReadFailed
    | Wrote(n: nat)
    | WriteFailed
    | Hangup
    | SendData(data: bytes)
    | AskShutdown
    | TimerFired
    | RunRelease

  function Step(svc: Service, s: Conn, a: Act): (t: Conn)
    requires s.Idle()
    ensures t.Idle()
  {
    if s.dead then s
    else
      match a
      case Read(part) => HandleRead(svc, s, Some(part))
      case ReadFailed => HandleRead(svc, s, None)
      case Wrote(n) => HandleWrite(svc, s, Some(if n < |s.out| then n else |s.out|))
      case WriteFailed => HandleWrite(svc, s, None)
      case Hangup => HandleClose(svc, s)
      case SendData(data) => Send(s, data)
      case AskShutdown => ShutDown(svc, s)
      case TimerFired => Release(s)
      case RunRelease => if s.releases > 0 then ReleaseInLoop(s) else s
  }

  /** The event bits epoll reported for a channel. */
  datatype Ready = Ready(input: bool, rdhup: bool, pri: bool, output: bool, hup: bool, err: bool)

  /** The read callback of a dispatch, with what recv will return. */
  function ReadPart(e: Ready, got: Option<bytes>): seq<Act> {
    if e.input || e.rdhup || e.pri then [if got.Some? then Read(got.value) else ReadFailed] else []
  }

  /** The write callback, with what send will return, or else the close or error callback. */
  function RestPart(e: Ready, n: Option<nat>): seq<Act> {
    if e.output then [if n.Some? then Wrote(n.value) else WriteFailed] else if e.hup || e.err then [Hangup] else []
  }

  /** Channel::HanderEvent: the callbacks it makes before the event callback. */
  function Callbacks(e: Ready, got: Option<bytes>, n: Option<nat>): seq<Act> {
    ReadPart(e, got) + RestPart(e, n)
  }

  function Run(svc: Service, s: Conn, acts: seq<Act>): (t: Conn)
    requires s.Idle()
    ensures t.Idle()
    decreases |acts|
  {
    if acts == [] then s else Run(svc, Step(svc, s, acts[0]), acts[1..])
  }

  lemma RunOne(svc: Service, s: Conn, a: Act)
    requires s.Idle()
    ensures Run(svc, s, [a]) == Step(svc, s, a)
  {
    hide Step;
    assert [a][1..] == [];
  }

  lemma {:induction false} RunThen(svc: Service, s: Conn, xs: seq<Act>, ys: seq<Act>)
    requires s.Idle()
    ensures Run(svc, s, xs + ys) == Run(svc, Run(svc, s, xs), ys)
    decreases |xs|
  {
    hide Step;
    if xs == [] {
      assert xs + ys == ys;
    } else {
      assert (xs + ys)[1..] == xs[1..] + ys;
      RunThen(svc, Step(svc, s, xs[0]), xs[1..], ys);
    }
  }

  lemma {:induction false} DeadRun(svc: Service, s: Conn, acts: seq<Act>)
    requires s.dead
    ensures Run(svc, s, acts) == s
    decreases |acts|
  {
    if acts != [] {
      DeadRun(svc, s, acts[1..]);
    }
  }
}
