/** The octets of a reply: its status line, the headers that are there by default, and its body. */
module Responses {
  import opened Bytes
  import opened HttpMessage
  import opened HttpContents
  import opened ConnModel

  /** A connection is kept only where that is said in so many words. */
  predicate KeepsAlive(headers: Fields) {
    "Connection" in headers && headers["Connection"] == "keep-alive"
  }

  lemma IsCloseIff(headers: Fields)
    ensures IsClose(headers) <==> !KeepsAlive(headers)
  {
  }

  function DefaultType(body: bytes): Fields {
    if body != [] then map["Content-Type" := "application/octet-stream"] else map[]
  }

  function DefaultConnection(req: Request): Fields {
    map["Connection" := if KeepsAlive(req.headers) then "keep-alive" else "close"]
  }

  /** The headers a response gets where its handler sets none of that name. */
  function Defaults(req: Request, body: bytes, redirect: Option<bytes>): Fields {
    (if redirect.Some? then map["Location" := redirect.value] else map[])
    + (DefaultType(body) + (map["Content-Length" := ToDecimal(|body|)] + DefaultConnection(req)))
  }

  lemma NamesDiffer()
    ensures |CONNECTION| == 10 && |CONTENT_LENGTH| == 14 && |CONTENT_TYPE| == 12 && |LOCATION| == 8
  {
  }

  lemma InsertIs(m: Fields, k: bytes, v: bytes)
    ensures Insert(m, k, v) == map[k := v] + m
  {
  }

  lemma MapAssoc(a: Fields, b: Fields, c: Fields)
    ensures (a + b) + c == a + (b + c)
  {
  }

  lemma NothingMore(m: Fields)
    ensures map[] + m == m
  {
  }

  lemma FourInserts(m: Fields, a: Fields, b: Fields, c: Fields, d: Fields)
    ensures (a + (b + (c + d))) + m == a + (b + (c + (d + m)))
  {
    MapAssoc(a, b + (c + d), m);
    MapAssoc(b, c + d, m);
    MapAssoc(c, d, m);
  }

  /** Completing a response keeps what its handler set, and fills in the defaults. */
  lemma CompletedHeaders(req: Request, res: Response)
    ensures Complete(req, res) == res.(headers := Defaults(req, res.body, res.redirect) + res.headers)
  {
    hide Insert, ToDecimal;
    IsCloseIff(req.headers);
    hide IsClose, KeepsAlive;
    var conn := if KeepsAlive(req.headers) then KEEP_ALIVE else CLOSE;
    InsertIs(res.headers, CONNECTION, conn);
    var h1 := Insert(res.headers, CONNECTION, conn);
    InsertIs(h1, CONTENT_LENGTH, ToDecimal(|res.body|));
    var h2 := Insert(h1, CONTENT_LENGTH, ToDecimal(|res.body|));
    InsertIs(h2, CONTENT_TYPE, OCTETS);
    NothingMore(h2);
    var h3 := if res.body != [] then Insert(h2, CONTENT_TYPE, OCTETS) else h2;
    NothingMore(h3);
    if res.redirect.Some? {
      InsertIs(h3, LOCATION, res.redirect.value);
    }
    FourInserts(res.headers, if res.redirect.Some? then map[LOCATION := res.redirect.value] else map[],
                if res.body != [] then map[CONTENT_TYPE := OCTETS] else map[],
                map[CONTENT_LENGTH := ToDecimal(|res.body|)], map[CONNECTION := conn]);
  }

  /** In particular the length of the body, where the handler sets none. */
  lemma CompletedLength(req: Request, res: Response)
    ensures var h := Complete(req, res).headers;
            && CONTENT_LENGTH in h
            && h[CONTENT_LENGTH] == if CONTENT_LENGTH in res.headers then res.headers[CONTENT_LENGTH]
                                    else ToDecimal(|res.body|)
  {
    hide ToDecimal, Complete, KeepsAlive;
    NamesDiffer();
    CompletedHeaders(req, res);
  }

  /** The body that is sent: none for HEAD. */
  function BodyFor(svc: Service, req: Request): bytes {
    if req.meth == "HEAD" then [] else svc.route(req).body
  }

  /** What a request is answered with: its handler's status and headers, the defaults, and the body. */
  lemma AnswerIs(svc: Service, req: Request)
    ensures var own, body := svc.route(req), BodyFor(svc, req);
            Answer(svc, req) ==
            Response(own.status, body, own.redirect, Defaults(req, body, own.redirect) + own.headers)
  {
    hide Complete, Defaults, ToDecimal;
    var own := svc.route(req);
    if CONTENT_LENGTH in own.headers {
      assert Insert(own.headers, CONTENT_LENGTH, ZERO) == own.headers;
    }
    CompletedHeaders(req, own.(body := BodyFor(svc, req)));
  }

  /** What a refused request is answered with: the code of the refusal and the error page, as HTML. */
  lemma ErrorAnswerIs(svc: Service, c: Context)
    ensures ErrorAnswer(svc, c) ==
            Response(c.resp, svc.errorPage, None,
                     Defaults(c.req, svc.errorPage, None) + map["Content-Type" := "text/html"])
  {
    hide Complete, Defaults, ToDecimal;
    CompletedHeaders(c.req, Response(c.resp, svc.errorPage, None, map[CONTENT_TYPE := HTML]));
  }

  /** The connection is kept open after an answer as its handler says or, where it says nothing, the request. */
  lemma ClosesAsAsked(svc: Service, req: Request)
    ensures var own := svc.route(req).headers;
            IsClose(Answer(svc, req).headers) <==> !KeepsAlive(if "Connection" in own then own else req.headers)
  {
    hide Answer, ToDecimal;
    AnswerIs(svc, req);
    IsCloseIff(Answer(svc, req).headers);
    NamesDiffer();
    assert |CLOSE| == 5 && |KEEP_ALIVE| == 10;
  }

  /** A response on the wire. */
  function Printed(svc: Service, version: bytes, status: nat, headers: Fields, body: bytes): bytes {
    (version + [' '] + ToDecimal(status) + [' '] + svc.statusText(status) + ['\r', '\n'])
    + (PrintFields(svc.order(headers)) + ['\r', '\n'] + body)
  }

  /** The reply to a request: the version it came with, the status of its handler, and these headers and body. */
  lemma ReplyIs(svc: Service, req: Request)
    ensures var own, body := svc.route(req), BodyFor(svc, req);
            Reply(svc, Delivered(req)) ==
            Printed(svc, req.version, own.status, Defaults(req, body, own.redirect) + own.headers, body)
  {
    hide Answer, Defaults, BodyFor, PrintFields, ToDecimal;
    AnswerIs(svc, req);
    WireIs(svc, req, Answer(svc, req));
  }

  lemma RefusalIs(svc: Service, c: Context)
    ensures Reply(svc, Rejected(c)) ==
            Printed(svc, c.req.version, c.resp,
                    Defaults(c.req, svc.errorPage, None) + map["Content-Type" := "text/html"], svc.errorPage)
  {
    hide ErrorAnswer, Defaults, PrintFields, ToDecimal;
    ErrorAnswerIs(svc, c);
    WireIs(svc, c.req, ErrorAnswer(svc, c));
  }

  lemma WireIs(svc: Service, req: Request, res: Response)
    ensures Wire(svc, req, res) == Printed(svc, req.version, res.status, res.headers, res.body)
  {
    hide PrintFields, ToDecimal;
    var line, fields := StatusLine(svc, req, res), PrintFields(svc.order(res.headers));
    Assoc(line, fields, CRLF);
    Assoc(line, fields + CRLF, res.body);
  }
}
