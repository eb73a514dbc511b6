/** What is printed as the protocol prescribes is read back: header blocks, queries, requests, pipelines. */
module RoundTrip {
  import opened Bytes
  import opened HttpMessage
  import opened HttpContents
  import opened ParserTheorems
  import opened Numerals
  import opened WebUtil
  import opened RequestLine
  import opened ConnModel
  import opened Responses
  import opened Segmentation
  import opened Delivery

  type Field = (bytes, bytes)

  // ---- maps and their listings ----

  /** The entries list exactly the map's pairs, in any order. */
  predicate Lists(es: seq<Field>, m: Fields) {
    && (forall e | e in es :: e.0 in m && m[e.0] == e.1)
    && (forall k | k in m :: (k, m[k]) in es)
  }

  function InsertAll(m: Fields, es: seq<Field>): Fields
    decreases |es|
  {
    if es == [] then m else InsertAll(Insert(m, es[0].0, es[0].1), es[1..])
  }

  lemma {:induction false} InsertAllGives(acc: Fields, es: seq<Field>, m: Fields)
    requires forall k | k in acc :: k in m && m[k] == acc[k]
    requires forall e | e in es :: e.0 in m && m[e.0] == e.1
    requires forall k | k in m :: k in acc || (k, m[k]) in es
    ensures InsertAll(acc, es) == m
    decreases |es|
  {
    if es == [] {
      assert acc == m;
    } else {
      assert es[0] in es;
      var next := Insert(acc, es[0].0, es[0].1);
      forall k | k in m ensures k in next || (k, m[k]) in es[1..] {
        if k !in acc && (k, m[k]) !in es[1..] {
          assert (k, m[k]) in es;
          assert es == [es[0]] + es[1..];
        }
      }
      assert forall e | e in es[1..] :: e in es;
      InsertAllGives(next, es[1..], m);
    }
  }

  // ---- one header line ----

  predicate PlainField(e: Field) {
    && LF !in e.0 && LF !in e.1
    && (forall j: nat | j < |e.0| :: !StartsAt(e.0, COLON, j))
    && |FieldLine(e)| <= MAX_LINE
  }

  function FieldLine(e: Field): bytes {
    e.0 + COLON + e.1 + CRLF
  }

  /** A line that ends in its only line feed. */
  predicate OneLine(l: bytes) {
    l != [] && l[|l| - 1] == LF && LF !in l[..|l| - 1]
  }

  lemma FirstLine(l: bytes, rest: bytes)
    requires OneLine(l)
    ensures LineLen(l + rest) == |l| > 0 && (l + rest)[..|l|] == l && (l + rest)[|l|..] == rest
  {
    forall k: nat | k < |l| - 1 ensures l[k] != LF {
      assert l[..|l| - 1][k] == l[k];
    }
    assert l[|l| - 1] in l;
    LineLenAppend(l, rest);
  }

  lemma EndsInLf(front: bytes)
    requires LF !in front
    ensures OneLine(front + CRLF) && Chomp(front + CRLF) == front
  {
    var l := front + CRLF;
    assert l[..|l| - 1] == front + ['\r'];
    assert l[..|l| - 1][..|l| - 2] == front;
  }

  /** The first ": " of a printed line is the one that was printed. */
  lemma ColonFound(e: Field)
    requires PlainField(e)
    ensures var l := e.0 + COLON + e.1;
            FindSeq(l, COLON, 0) == |e.0| && l[..|e.0|] == e.0 && l[|e.0| + 2..] == e.1
  {
    var l := e.0 + COLON + e.1;
    var n := |e.0|;
    assert StartsAt(l, COLON, n);
    forall j: nat | j < n ensures !StartsAt(l, COLON, j) {
      if j + 1 < n {
        assert l[j..j + 2] == e.0[j..j + 2];
        assert !StartsAt(e.0, COLON, j);
      } else {
        assert l[j + 1] == ':';
        assert l[j..j + 2][1] == ':' && COLON[1] == ' ';
      }
    }
  }

  lemma FieldRead(c: Context, e: Field)
    requires PlainField(e)
    ensures OneLine(FieldLine(e)) && !IsBlank(FieldLine(e))
    ensures ParseHead(c, FieldLine(e)) == c.(req := c.req.(headers := Insert(c.req.headers, e.0, e.1)))
  {
    EndsInLf(e.0 + COLON + e.1);
    ColonFound(e);
  }

  // ---- the header block ----

  lemma BlankRead(c: Context, rest: bytes)
    requires c.recv == RecvHead
    ensures RecvHttpHead(c, CRLF + rest) == (c.(recv := RecvBody), rest)
  {
    assert OneLine(CRLF);
    FirstLine(CRLF, rest);
  }

  lemma LineRead(c: Context, e: Field, rest: bytes)
    requires c.recv == RecvHead && PlainField(e)
    ensures RecvHttpHead(c, FieldLine(e) + rest) ==
            RecvHttpHead(c.(req := c.req.(headers := Insert(c.req.headers, e.0, e.1))), rest)
  {
    FieldRead(c, e);
    FirstLine(FieldLine(e), rest);
    hide ParseHead, OneLine, LineLen, FieldLine;
  }

  lemma {:induction false} FieldsRead(c: Context, es: seq<Field>, rest: bytes)
    requires c.recv == RecvHead
    requires forall k: nat | k < |es| :: PlainField(es[k])
    ensures RecvHttpHead(c, PrintFields(es) + CRLF + rest) ==
            (c.(recv := RecvBody, req := c.req.(headers := InsertAll(c.req.headers, es))), rest)
    decreases |es|
  {
    hide RecvHttpHead, PlainField;
    if es == [] {
      assert [] + CRLF == CRLF;
      BlankRead(c, rest);
    } else {
      var d := c.(req := c.req.(headers := Insert(c.req.headers, es[0].0, es[0].1)));
      var more := PrintFields(es[1..]) + CRLF + rest;
      PrintedFront(es, rest);
      LineRead(c, es[0], more);
      FieldsRead(d, es[1..], rest);
    }
  }

  lemma PrintedFront(es: seq<Field>, rest: bytes)
    requires es != []
    ensures PrintFields(es) + CRLF + rest == FieldLine(es[0]) + (PrintFields(es[1..]) + CRLF + rest)
  {
    var f, p := FieldLine(es[0]), PrintFields(es[1..]);
    Assoc(f, p, CRLF);
    Assoc(f, p + CRLF, rest);
  }

  /** A printed header block is read back as the same map, in whatever order it was printed. */
  lemma HeaderBlockRoundTrip(c: Context, m: Fields, es: seq<Field>, rest: bytes)
    requires c.recv == RecvHead && c.req.headers == map[]
    requires Lists(es, m) && forall k: nat | k < |es| :: PlainField(es[k])
    ensures RecvHttpHead(c, PrintFields(es) + CRLF + rest) ==
            (c.(recv := RecvBody, req := c.req.(headers := m)), rest)
  {
    hide RecvHttpHead, PlainField, PrintFields;
    FieldsRead(c, es, rest);
    InsertAllGives(map[], es, m);
  }

  lemma {:induction false} FirstOfKey(m: Fields, es: seq<Field>, i: nat)
    requires i < |es| && es[i].0 !in m && forall j: nat | j < i :: es[j].0 != es[i].0
    ensures es[i].0 in InsertAll(m, es) && InsertAll(m, es)[es[i].0] == es[i].1
    decreases |es|
  {
    if i == 0 {
      InsertedStays(Insert(m, es[0].0, es[0].1), es[1..], es[0].0);
    } else {
      assert es[1..][i - 1] == es[i];
      FirstOfKey(Insert(m, es[0].0, es[0].1), es[1..], i - 1);
    }
  }

  lemma {:induction false} InsertedStays(m: Fields, es: seq<Field>, k: bytes)
    requires k in m
    ensures k in InsertAll(m, es) && InsertAll(m, es)[k] == m[k]
    decreases |es|
  {
    if es != [] {
      InsertedStays(Insert(m, es[0].0, es[0].1), es[1..], k);
    }
  }

  /** Of a header that is there more than once, the first value is kept. */
  lemma RepeatedHeader(c: Context, es: seq<Field>, i: nat, rest: bytes)
    requires c.recv == RecvHead && c.req.headers == map[] && forall k: nat | k < |es| :: PlainField(es[k])
    requires i < |es| && forall j: nat | j < i :: es[j].0 != es[i].0
    ensures var h := RecvHttpHead(c, PrintFields(es) + CRLF + rest).0.req.headers;
            es[i].0 in h && h[es[i].0] == es[i].1
  {
    hide RecvHttpHead, PlainField, PrintFields;
    FieldsRead(c, es, rest);
    FirstOfKey(map[], es, i);
  }

  // ---- the query ----

  const EQUALS: byte := '='
  const AMPERSAND: byte := '&'

  function Pair(e: Field): bytes {
    Encode(e.0, true) + [EQUALS] + Encode(e.1, true)
  }

  function Pairs(ps: seq<Field>): (qs: seq<bytes>)
    ensures |qs| == |ps| && forall k: nat | k < |ps| :: qs[k] == Pair(ps[k])
  {
    seq(|ps|, k requires 0 <= k < |ps| => Pair(ps[k]))
  }

  function PrintQuery(ps: seq<Field>): bytes {
    Join(Pairs(ps), AMPERSAND)
  }

  lemma EncodedPlain(s: bytes)
    ensures EQUALS !in Encode(s, true) && AMPERSAND !in Encode(s, true)
  {
    hide Encode;
    EncodeIsSafe(s, true);
    assert !UrlSafe(EQUALS) && !UrlSafe(AMPERSAND);
  }

  lemma AbsentInPair(k: bytes, v: bytes, c: byte, other: byte)
    requires c !in k && c !in v && c != other
    ensures c !in k + [other] + v
  {
  }

  /** An encoded pair has no '&', and its first '=' is the one that was printed. */
  lemma PairRead(e: Field)
    ensures var f := Pair(e);
            && f != [] && AMPERSAND !in f
            && Find(f, EQUALS) == |Encode(e.0, true)| < |f|
            && Decode(f[..Find(f, EQUALS)], true) == e.0
            && Decode(f[Find(f, EQUALS) + 1..], true) == e.1
  {
    hide Encode, Decode, Find;
    var k, v := Encode(e.0, true), Encode(e.1, true);
    EncodedPlain(e.0);
    EncodedPlain(e.1);
    DecodeOfEncode(e.0, true);
    DecodeOfEncode(e.1, true);
    FoundAfter(k, EQUALS, v);
    AbsentInPair(k, v, AMPERSAND, EQUALS);
  }

  lemma FoundAfter(k: bytes, c: byte, v: bytes)
    requires c !in k
    ensures Find(k + [c] + v, c) == |k|
    ensures (k + [c] + v)[..|k|] == k && (k + [c] + v)[|k| + 1..] == v
  {
    var f := k + [c] + v;
    assert f[|k|] == c;
    assert forall j | 0 <= j < |k| :: f[j] == k[j];
  }

  lemma {:induction false} PairsRead(c: Context, ps: seq<Field>)
    ensures ParseFields(c, Pairs(ps)) == c.(req := c.req.(params := InsertAll(c.req.params, ps)))
    decreases |ps|
  {
    hide Pair;
    if ps != [] {
      PairRead(ps[0]);
      assert Pairs(ps)[1..] == Pairs(ps[1..]);
      PairsRead(c.(req := c.req.(params := Insert(c.req.params, ps[0].0, ps[0].1))), ps[1..]);
    }
  }

  lemma PrintedPieces(ps: seq<Field>)
    ensures Pieces(PrintQuery(ps), AMP) == Pairs(ps)
  {
    hide PiecesFrom, Join;
    var q := PrintQuery(ps);
    forall k: nat | k < |ps| ensures Pairs(ps)[k] != [] && AMPERSAND !in Pairs(ps)[k] {
      PairRead(ps[k]);
    }
    assert q[0..] == q;
    PiecesOfJoin(q, 0, Pairs(ps), AMPERSAND);
    assert AMP == [AMPERSAND];
  }

  /** A printed query is read back as the same parameters, in whatever order it was printed. */
  lemma QueryRoundTrip(c: Context, m: Fields, ps: seq<Field>)
    requires c.req.params == map[] && Lists(ps, m)
    ensures ParseFields(c, Pieces(PrintQuery(ps), AMP)) == c.(req := c.req.(params := m))
  {
    hide PiecesFrom, Join, ParseFields;
    PrintedPieces(ps);
    PairsRead(c, ps);
    InsertAllGives(map[], ps, m);
  }

  // ---- the request line ----

  const SPACE: bytes := " "
  const QUESTION: byte := '?'

  function Target(path: bytes, ps: seq<Field>): bytes {
    Encode(path, false) + (if ps == [] then [] else [QUESTION] + PrintQuery(ps))
  }

  function PrintLine(req: Request, ps: seq<Field>): bytes {
    req.meth + SPACE + Target(req.path, ps) + SPACE + req.version + CRLF
  }

  /** What an encoded text or query is made of: no space, no '?', no line feed. */
  predicate TargetSafe(c: byte) {
    UrlSafe(c) || c == EQUALS || c == AMPERSAND
  }

  predicate AllSafe(s: bytes) {
    forall c | c in s :: TargetSafe(c)
  }

  lemma PairSafe(e: Field)
    ensures AllSafe(Pair(e))
  {
    EncodeIsSafe(e.0, true);
    EncodeIsSafe(e.1, true);
  }

  lemma {:induction false} JoinSafe(qs: seq<bytes>)
    requires forall k: nat | k < |qs| :: AllSafe(qs[k])
    ensures AllSafe(Join(qs, AMPERSAND))
    decreases |qs|
  {
    if |qs| > 1 {
      JoinSafe(qs[1..]);
    }
  }

  lemma QuerySafe(ps: seq<Field>)
    ensures AllSafe(PrintQuery(ps))
  {
    forall k: nat | k < |ps| ensures AllSafe(Pairs(ps)[k]) {
      PairSafe(ps[k]);
    }
    JoinSafe(Pairs(ps));
  }

  lemma SafeMeans(s: bytes)
    requires AllSafe(s)
    ensures NoSpace(s) && LF !in s && QUESTION !in s
  {
  }

  lemma TargetSplits(meth: bytes, version: bytes, path: bytes, ps: seq<Field>)
    requires path != []
    ensures var t := Target(path, ps);
            && t != [] && NoSpace(t) && LF !in t
            && SplitTarget(meth, t, version) ==
               Parts(meth, Encode(path, false), if ps == [] then [] else PrintQuery(ps), version)
  {
    hide Encode, Join;
    var p, q, t := Encode(path, false), PrintQuery(ps), Target(path, ps);
    EncodeIsSafe(path, false);
    QuerySafe(ps);
    SafeMeans(p);
    SafeMeans(q);
    if ps == [] {
      assert t == p;
      MarkAtEnd(p);
    } else {
      assert t == p + [QUESTION] + q;
      MarkFound(p, q);
    }
  }

  lemma MarkAtEnd(p: bytes)
    requires p != [] && QUESTION !in p
    ensures QueryMark(p) == |p| && p[..|p|] == p
  {
  }

  lemma MarkFound(p: bytes, q: bytes)
    requires p != [] && QUESTION !in p
    ensures var t := p + [QUESTION] + q;
            QueryMark(t) == |p| && t[..|p|] == p && t[|p| + 1..] == q
  {
    var t := p + [QUESTION] + q;
    assert t[1..] == p[1..] + [QUESTION] + q;
    FoundAfter(p[1..], QUESTION, q);
  }

  lemma MethodUpper(m: bytes)
    requires IsMethod(m)
    ensures Upper(m) == m
  {
    assert forall c | c in GET || c in POST || c in HEAD || c in DELETE || c in PUT :: UpperByte(c) == c;
    assert forall i: nat | i < |m| :: UpperByte(m[i]) == m[i];
  }

  lemma VersionUpper(v: bytes)
    requires IsVersion(v)
    ensures Upper(v) == v
  {
    assert forall i: nat | i < |v| :: UpperByte(v[i]) == v[i];
  }

  lemma LineMatches(req: Request, ps: seq<Field>)
    requires IsMethod(req.meth) && IsVersion(req.version) && req.path != []
    ensures Match(PrintLine(req, ps)) ==
            Some(Parts(req.meth, Encode(req.path, false), if ps == [] then [] else PrintQuery(ps), req.version))
    ensures OneLine(PrintLine(req, ps))
  {
    hide Encode, PrintQuery, Match, SplitTarget, UpperByte;
    var m, t, v := req.meth, Target(req.path, ps), req.version;
    TargetSplits(m, v, req.path, ps);
    MethodUpper(m);
    VersionUpper(v);
    MatchComplete(PrintLine(req, ps), m, SPACE, t, SPACE, v, CRLF);
    NamesHaveNoSpace(m);
    NamesHaveNoSpace(v);
    NoLineFeed(m, t, v);
    EndsInLf(m + SPACE + t + SPACE + v);
  }

  lemma NoLineFeed(m: bytes, t: bytes, v: bytes)
    requires NoSpace(m) && NoSpace(t) && NoSpace(v)
    ensures LF !in m + SPACE + t + SPACE + v
  {
    assert IsSpace(LF);
  }

  // ---- whole requests ----

  /** A request with the order in which its parameters and its headers are printed. */
  datatype Message = Message(req: Request, query: seq<Field>, fields: seq<Field>)

  function PrintMessage(m: Message): bytes {
    PrintLine(m.req, m.query) + (PrintFields(m.fields) + CRLF + m.req.body)
  }

  /** A request whose lines the parser takes as they are printed. */
  predicate Sendable(m: Message) {
    && IsMethod(m.req.meth) && IsVersion(m.req.version) && m.req.path != []
    && Lists(m.query, m.req.params) && Lists(m.fields, m.req.headers)
    && |PrintLine(m.req, m.query)| <= MAX_LINE
    && (forall k: nat | k < |m.fields| :: PlainField(m.fields[k]))
  }

  /** Such a request whose headers declare the length of its body: without a Content-Length it has none. */
  ghost predicate Printable(m: Message) {
    Sendable(m) && Declares(m.req.headers, |m.req.body|)
  }

  lemma LineParsed(m: Message)
    requires Sendable(m)
    ensures ParseLine(RESET, PrintLine(m.req, m.query)) ==
            Context(200, RecvLine, Request(m.req.meth, m.req.path, m.req.version, [], map[], m.req.params))
  {
    hide Match, Encode, Decode, PrintQuery, Pieces, ParseFields, PlainField, PrintLine;
    LineMatches(m.req, m.query);
    MethodUpper(m.req.meth);
    DecodeOfEncode(m.req.path, false);
    EmptyQuery();
    QueryRoundTrip(Context(200, RecvLine, Request(m.req.meth, m.req.path, m.req.version, [], map[], map[])),
                   m.req.params, m.query);
  }

  lemma EmptyQuery()
    ensures PrintQuery([]) == []
  {
  }

  lemma LineReceived(m: Message, rest: bytes)
    requires Sendable(m)
    ensures RecvHttpLine(RESET, PrintLine(m.req, m.query) + rest) ==
            (Context(200, RecvHead, Request(m.req.meth, m.req.path, m.req.version, [], map[], m.req.params)), rest)
  {
    hide ParseLine, PrintLine, PlainField, OneLine, LineLen, Match, BodySize;
    LineMatches(m.req, m.query);
    FirstLine(PrintLine(m.req, m.query), rest);
    LineParsed(m);
  }

  lemma BodyReceived(c: Context, body: bytes, rest: bytes)
    requires c.recv == RecvBody && c.req.body == [] && BodySize(c.req.headers) == Some(|body|)
    ensures RecvHttpBody(c, body + rest) == Received(Context(c.resp, RecvOver, c.req.(body := body)), rest, false)
  {
    assert [] + rest == rest && [] + body == body;
    assert (body + rest)[..|body|] == body && (body + rest)[|body|..] == rest;
    if body == [] {
      assert body + rest == rest;
    }
  }

  /** A header block and a body of the length it declares, printed and received. */
  lemma BlockAndBody(c: Context, m: Fields, es: seq<Field>, body: bytes, rest: bytes)
    requires c.recv == RecvHead && c.req.headers == map[] && c.req.body == []
    requires Lists(es, m) && (forall k: nat | k < |es| :: PlainField(es[k])) && Declares(m, |body|)
    ensures HeadAndBody(c, PrintFields(es) + CRLF + body + rest) ==
            Received(Context(c.resp, RecvOver, c.req.(headers := m, body := body)), rest, false)
  {
    hide RecvHttpHead, RecvHttpBody, PlainField, PrintFields, BodySize, Declares, Lists;
    BodySizeIff(m, |body|);
    Assoc(PrintFields(es) + CRLF, body, rest);
    HeaderBlockRoundTrip(c, m, es, body + rest);
    BodyReceived(c.(recv := RecvBody, req := c.req.(headers := m)), body, rest);
  }

  /** A printed request is received as that request, and what follows it stays unread. */
  lemma RequestRoundTrip(m: Message, rest: bytes)
    requires Printable(m)
    ensures RecvHttpRequest(RESET, PrintMessage(m) + rest) == Received(Context(200, RecvOver, m.req), rest, false)
  {
    var block := PrintFields(m.fields) + CRLF + m.req.body;
    var c := Context(200, RecvHead, Request(m.req.meth, m.req.path, m.req.version, [], map[], m.req.params));
    hide RecvHttpLine, RecvHttpHead, RecvHttpBody, PlainField, PrintFields, PrintLine, Declares, Lists;
    Assoc(PrintLine(m.req, m.query), block, rest);
    LineReceived(m, block + rest);
    HeadKeepsBody(c, block + rest);
    assert RecvHttpRequest(RESET, PrintMessage(m) + rest) == HeadAndBody(c, block + rest);
    BlockAndBody(c, m.req.headers, m.fields, m.req.body, rest);
    assert c.req.(headers := m.req.headers, body := m.req.body) == m.req;
    assert HeadAndBody(c, block + rest) == Received(Context(200, RecvOver, m.req), rest, false);
    assert PrintMessage(m) == PrintLine(m.req, m.query) + block;
  }

  /** A request without a body and without a Content-Length, or with a body and its length. */
  predicate Framed(m: Message) {
    Sendable(m) &&
    if CONTENT_LENGTH in m.req.headers then
      |m.req.body| < LONG_LIMIT && m.req.headers[CONTENT_LENGTH] == ToDecimal(|m.req.body|)
    else m.req.body == []
  }

  /** Such a request is complete when its last octet is there, whatever follows. */
  lemma FramedReceived(m: Message, rest: bytes)
    requires Framed(m)
    ensures Printable(m)
    ensures RecvHttpRequest(RESET, PrintMessage(m) + rest) == Received(Context(200, RecvOver, m.req), rest, false)
  {
    hide Sendable, PrintMessage, RecvHttpRequest, ToDecimal;
    if CONTENT_LENGTH in m.req.headers {
      PrintedLengthDeclared(m.req.headers, |m.req.body|);
    }
    RequestRoundTrip(m, rest);
  }

  // ---- pipelines ----

  function PrintAll(ms: seq<Message>): bytes {
    if ms == [] then [] else PrintMessage(ms[0]) + PrintAll(ms[1..])
  }

  function DeliveredAll(ms: seq<Message>): seq<Event> {
    if ms == [] then [] else [Delivered(ms[0].req)] + DeliveredAll(ms[1..])
  }

  lemma MessageNotEmpty(m: Message)
    ensures PrintMessage(m) != []
  {
    assert |PrintLine(m.req, m.query)| >= |CRLF|;
  }

  lemma {:induction false} PipelineDelivered(ms: seq<Message>)
    requires forall k: nat | k < |ms| :: Printable(ms[k])
    ensures Deliver(RESET, PrintAll(ms)) == Out(RESET, [], DeliveredAll(ms), false)
    ensures Judge(DeliveredAll(ms)) == Verdict(Judge(DeliveredAll(ms)).requests, false)
    decreases |ms|
  {
    hide RecvHttpRequest, PrintMessage, Printable, Settled;
    if ms != [] {
      MessageNotEmpty(ms[0]);
      RequestRoundTrip(ms[0], PrintAll(ms[1..]));
      PipelineDelivered(ms[1..]);
      JudgeAppend([Delivered(ms[0].req)], DeliveredAll(ms[1..]));
      JudgeOne(Delivered(ms[0].req));
    }
  }

  /**
   * A pipeline of printed requests, arriving in any portions at a connection between requests and mixed
   * with any other handlers, is delivered request by request and leaves nothing unread; a run that sends
   * nothing but replies has accepted the replies to exactly these requests, in order.
   */
  lemma PipelineRoundTrip(svc: Service, s: Conn, ms: seq<Message>, acts: seq<Act>)
    requires !s.dead && s.ctx == RESET && s.inp == [] && s.log == []
    requires forall k: nat | k < |ms| :: Printable(ms[k])
    requires Concat(ReadsOf(acts)) == PrintAll(ms)
    ensures var t := Run(svc, s, acts);
            && t.log == DeliveredAll(ms) && t.ctx == RESET && t.inp == [] && !t.dead
            && (OnlyReplies(acts) && s.status != Disconnected ==>
                  t.accepted == s.accepted + Replies(svc, DeliveredAll(ms)))
  {
    hide Run, Deliver, Judge, Replies, PrintAll, Printable, ReadsOf, OnlyReplies;
    PipelineDelivered(ms);
    assert [] + PrintAll(ms) == PrintAll(ms);
    RunAgainstWhole(svc, s, acts);
  }

  // ---- responses ----

  /** A body is received as it is if and only if the declared length is its length. */
  lemma BodyReceivedIff(c: Context, body: bytes, rest: bytes)
    requires c.recv == RecvBody && c.req.body == []
    ensures RecvHttpBody(c, body + rest) == Received(Context(c.resp, RecvOver, c.req.(body := body)), rest, false)
       <==> Declares(c.req.headers, |body|)
  {
    hide BodySize, Declares;
    BodySizeIff(c.req.headers, |body|);
    if BodySize(c.req.headers) == Some(|body|) {
      BodyReceived(c, body, rest);
    } else if BodySize(c.req.headers).Some? {
      var n := BodySize(c.req.headers).value;
      assert RecvHttpBody(c, body + rest).ctx.recv == RecvOver ==> |RecvHttpBody(c, body + rest).ctx.req.body| == n;
    }
  }

  predicate PrintableHeaders(svc: Service, h: Fields) {
    Lists(svc.order(h), h) && forall k: nat | k < |svc.order(h)| :: PlainField(svc.order(h)[k])
  }

  lemma WireParts(svc: Service, req: Request, res: Response)
    ensures Wire(svc, req, res) ==
            StatusLine(svc, req, res) + (PrintFields(svc.order(res.headers)) + CRLF + res.body)
  {
    hide PrintFields;
    var line := StatusLine(svc, req, res);
    Assoc(line, PrintFields(svc.order(res.headers)), CRLF);
    Assoc(line, PrintFields(svc.order(res.headers)) + CRLF, res.body);
  }

  /**
   * A response frames itself (after its status line, reading a header block and the body it declares gives
   * back its headers and its body, and stops there) if and only if the Content-Length it ends up with, which
   * is the handler's own where there is one, is the length of its body.
   */
  lemma ResponseFramesIff(svc: Service, req: Request, res: Response, rest: bytes)
    requires PrintableHeaders(svc, Complete(req, res).headers)
    ensures var done := Complete(req, res);
            var line, wire := StatusLine(svc, req, done), Wire(svc, req, done);
            && line <= wire
            && (HeadAndBody(Context(200, RecvHead, FRESH), wire[|line|..] + rest) ==
                Received(Context(200, RecvOver, FRESH.(headers := done.headers, body := res.body)), rest, false)
                <==> Declares(done.headers, |res.body|))
  {
    hide PlainField, PrintFields, Lists, RecvHttpHead, RecvHttpBody, Declares, Wire, StatusLine;
    var done := Complete(req, res);
    var line, es := StatusLine(svc, req, done), svc.order(done.headers);
    WireParts(svc, req, done);
    var block := PrintFields(es) + CRLF + res.body;
    assert (line + block)[|line|..] == block;
    var c := Context(200, RecvHead, FRESH);
    Assoc(PrintFields(es) + CRLF, res.body, rest);
    HeaderBlockRoundTrip(c, done.headers, es, res.body + rest);
    BodyReceivedIff(c.(recv := RecvBody, req := c.req.(headers := done.headers)), res.body, rest);
  }

  /** Where the handler sets no Content-Length of its own, it is the length of the body. */
  lemma DefaultLengthFits(req: Request, res: Response)
    requires CONTENT_LENGTH !in res.headers && |res.body| < LONG_LIMIT
    ensures Declares(Complete(req, res).headers, |res.body|)
  {
    LengthDeclared(req, res);
    hide ToDecimal, Complete, Declares;
    PrintedLengthDeclared(Complete(req, res).headers, |res.body|);
  }

  lemma LengthDeclared(req: Request, res: Response)
    requires CONTENT_LENGTH !in res.headers
    ensures var h := Complete(req, res).headers;
            CONTENT_LENGTH in h && h[CONTENT_LENGTH] == ToDecimal(|res.body|)
  {
    hide Complete, ToDecimal;
    CompletedLength(req, res);
  }

  /** What the answer is completed from: the handler's own response, without its body for HEAD. */
  lemma AnswerOf(svc: Service, req: Request) returns (res: Response)
    ensures Answer(svc, req) == Complete(req, res) && res.headers == svc.route(req).headers
    ensures res.body == if req.meth == RequestLine.HEAD then [] else svc.route(req).body
  {
    hide Complete, IsClose;
    res := svc.route(req);
    if req.meth == RequestLine.HEAD {
      res := res.(body := []);
      assert CONTENT_LENGTH in res.headers ==> Insert(res.headers, CONTENT_LENGTH, ZERO) == res.headers;
    }
  }

  /**
   * The answer to any request frames itself if and only if its handler set no Content-Length of its own, or the length
   * of the body that is sent, which is none for HEAD: the library never corrects it.
   */
  lemma AnswerFramesIff(svc: Service, req: Request, rest: bytes)
    requires PrintableHeaders(svc, Answer(svc, req).headers) && |svc.route(req).body| < LONG_LIMIT
    ensures var own, ans := svc.route(req), Answer(svc, req);
            var line, wire := StatusLine(svc, req, ans), Reply(svc, Delivered(req));
            && ans.body == (if req.meth == RequestLine.HEAD then [] else own.body) && line <= wire
            && CONTENT_LENGTH in ans.headers
            && ans.headers[CONTENT_LENGTH] == (if CONTENT_LENGTH in own.headers then own.headers[CONTENT_LENGTH]
                                               else ToDecimal(|ans.body|))
            && (HeadAndBody(Context(200, RecvHead, FRESH), wire[|line|..] + rest) ==
                Received(Context(200, RecvOver, FRESH.(headers := ans.headers, body := ans.body)), rest, false)
                <==> (CONTENT_LENGTH in own.headers ==> Declares(own.headers, |ans.body|)))
  {
    hide PrintableHeaders, StatusLine, Wire, Value, HeadAndBody, ToDecimal;
    var res := AnswerOf(svc, req);
    CompleteKeepsBody(req, res);
    hide Complete, Answer;
    ResponseFramesIff(svc, req, res, rest);
    if CONTENT_LENGTH in res.headers {
      CompletedLength(req, res);
    } else {
      LengthDeclared(req, res);
      DefaultLengthFits(req, res);
    }
  }

  lemma CompleteKeepsBody(req: Request, res: Response)
    ensures Complete(req, res).body == res.body
  {
  }

  // ---- refused request lines ----

  lemma {:induction false} FieldsRefusedIff(c: Context, fields: seq<bytes>)
    requires c.recv == RecvLine
    ensures ParseFields(c, fields).recv == RecvErr <==> exists f :: f in fields && EQUALS !in f
    decreases |fields|
  {
    hide Decode;
    if fields != [] {
      var f, pos := fields[0], Find(fields[0], EQUALS);
      assert fields == [f] + fields[1..];
      if pos < |f| {
        var d := c.(req := c.req.(params := Insert(c.req.params, Decode(f[..pos], true), Decode(f[pos + 1..], true))));
        assert f[pos] == EQUALS;
        FieldsRefusedIff(d, fields[1..]);
        assert forall g | g in fields :: g == f || g in fields[1..];
      } else {
        assert f in fields && EQUALS !in f;
      }
    }
  }

  /** A request line is refused if and only if the pattern does not match it or a parameter has no '='. */
  lemma RefusedIff(l: bytes)
    ensures ParseLine(RESET, l).recv == RecvErr <==>
            Match(l).None? || exists f :: f in Pieces(Match(l).value.query, AMP) && EQUALS !in f
  {
    hide Match, Decode, Pieces, ParseFields;
    if Match(l).Some? {
      var p := Match(l).value;
      FieldsRefusedIff(
        RESET.(req := RESET.req.(version := p.version, meth := Upper(p.meth), path := Decode(p.path, false))),
        Pieces(p.query, AMP));
    }
  }

  /** The header stage, refused or not, meets a line or an unfinished line beyond the limit. */
  predicate TooLong(y: bytes)
    decreases |y|
  {
    var n := LineLen(y);
    if n == 0 then |y| > MAX_LINE
    else n > MAX_LINE || (!IsBlank(y[..n]) && HasColon(y[..n]) && TooLong(y[n..]))
  }

  predicate HasColon(line: bytes) {
    FindSeq(Chomp(line), COLON, 0) < |Chomp(line)|
  }

  lemma {:induction false} RefusedHead(c: Context, y: bytes)
    requires c.recv == RecvHead && c.resp == 400
    ensures RecvHttpHead(c, y).0.resp == if TooLong(y) then 414 else 400
    decreases |y|
  {
    hide Chomp, FindSeq;
    var n := LineLen(y);
    if 0 < n <= MAX_LINE && !IsBlank(y[..n]) && HasColon(y[..n]) {
      RefusedHead(ParseHead(c, y[..n]), y[n..]);
    }
  }

  /**
   * A refused request line, whatever follows: the request fails, with 414 if the header stage, which goes on all the
   * same, meets something too long before a blank or a bad line, and with 400 otherwise.
   */
  lemma RefusedRequest(l: bytes, y: bytes)
    requires OneLine(l) && |l| <= MAX_LINE && ParseLine(RESET, l).recv == RecvErr
    ensures var r := RecvHttpRequest(RESET, l + y);
            Failed(r) && r.ctx.resp == if TooLong(y) then 414 else 400
  {
    hide OneLine, ParseLine, RecvHttpHead, RecvHttpBody, TooLong, LineLen;
    RefusedCode(l);
    var c := ParseLine(RESET, l).(recv := RecvHead);
    AfterLine(l, y, c);
    RefusedHead(c, y);
    BodyKeepsResp(c, y);
    HeadKeepsCode(c, y);
  }

  lemma AfterLine(l: bytes, y: bytes, c: Context)
    requires OneLine(l) && |l| <= MAX_LINE && c == ParseLine(RESET, l).(recv := RecvHead) && c.req.body == []
    ensures RecvHttpRequest(RESET, l + y) == HeadAndBody(c, y)
  {
    hide OneLine, ParseLine, RecvHttpHead, RecvHttpBody;
    FirstLine(l, y);
    hide LineLen;
    assert RecvHttpLine(RESET, l + y) == (c, y);
  }

  lemma HeadKeepsCode(c: Context, y: bytes)
    requires c.recv == RecvHead && c.req.body == []
    ensures HeadAndBody(c, y).ctx.resp == RecvHttpHead(c, y).0.resp
  {
    hide RecvHttpHead;
    HeadKeepsBody(c, y);
  }

  lemma RefusedCode(l: bytes)
    requires ParseLine(RESET, l).recv == RecvErr
    ensures ParseLine(RESET, l).resp == 400 && ParseLine(RESET, l).req.body == []
  {
    hide Match, Decode, Pieces;
    if Match(l).Some? {
      var p := Match(l).value;
      FieldsKeepBody(
        RESET.(req := RESET.req.(version := p.version, meth := Upper(p.meth), path := Decode(p.path, false))),
        Pieces(p.query, AMP));
    }
  }

  /**
   * A line the pattern does not match, followed by no complete line: the request is refused, and its state and
   * its code depend on how much of the next line is there, 414 with ERR beyond the limit, else 400 with HEAD.
   */
  lemma RefusedLine(l: bytes, y: bytes)
    requires OneLine(l) && |l| <= MAX_LINE && Match(l).None? && LF !in y
    ensures var r := RecvHttpRequest(RESET, l + y);
            && !r.threw && r.rest == y
            && r.ctx.resp == (if |y| > MAX_LINE then 414 else 400)
            && r.ctx.recv == (if |y| > MAX_LINE then RecvErr else RecvHead)
  {
    FirstLine(l, y);
    hide OneLine, Match, Chomp, ParseFields;
    assert LineLen(y) == 0;
    assert RecvHttpLine(RESET, l + y) == (Fail(RESET, 400).(recv := RecvHead), y);
  }
}
