/** Content-Length values that std::stol rejects, and what becomes of the request that carries one. */
module ContentLength {
  import opened Bytes
  import opened HttpMessage
  import opened Numerals
  import opened HttpContents
  import opened ParserTheorems
  import opened ConnModel
  import opened WebUtil
  import opened RequestLine
  import opened RoundTrip

  // ---- a printed request ----

  lemma BlockThrowsIff(c: Context, m: Fields, es: seq<Field>, rest: bytes)
    requires c.recv == RecvHead && c.req.headers == map[] && c.req.body == []
    requires Lists(es, m) && forall k: nat | k < |es| :: PlainField(es[k])
    ensures HeadAndBody(c, PrintFields(es) + CRLF + rest).threw <==> BodySize(m).None?
  {
    hide RecvHttpHead, PlainField, PrintFields, BodySize, Lists;
    HeaderBlockRoundTrip(c, m, es, rest);
  }

  /** Whatever line the request starts with, the header stage finds no headers yet. */
  lemma LineLeavesHeaders(l: bytes)
    ensures var c := ParseLine(RESET, l); c.req.headers == map[] && c.req.body == []
  {
    hide Match, Decode, Pieces, ParseFields;
    if Match(l).Some? {
      var p := Match(l).value;
      FieldsKeepBody(
        RESET.(req := RESET.req.(version := p.version, meth := Upper(p.meth), path := Decode(p.path, false))),
        Pieces(p.query, AMP));
    }
  }

  /**
   * After any request line, matched by the pattern or refused, a printed header block makes the parser throw exactly
   * when its Content-Length is no numeral in range: a refusal does not keep the later stages from running.
   */
  lemma ThrowsIff(l: bytes, headers: Fields, es: seq<Field>, rest: bytes)
    requires OneLine(l) && |l| <= MAX_LINE && Lists(es, headers) && forall k: nat | k < |es| :: PlainField(es[k])
    ensures RecvHttpRequest(RESET, l + (PrintFields(es) + CRLF + rest)).threw
       <==> CONTENT_LENGTH in headers && !Numeric(headers[CONTENT_LENGTH])
  {
    hide OneLine, ParseLine, RecvHttpHead, RecvHttpBody, PlainField, PrintFields, BodySize, Lists, Numeric;
    var c := ParseLine(RESET, l).(recv := RecvHead);
    LineLeavesHeaders(l);
    AfterLine(l, PrintFields(es) + CRLF + rest, c);
    BlockThrowsIff(c, headers, es, rest);
    BodySizeThrowsIff(headers);
  }

  /** The parser throws on a printed request exactly when its Content-Length is no numeral in range. */
  lemma RequestThrowsIff(m: Message, rest: bytes)
    requires Sendable(m)
    ensures RecvHttpRequest(RESET, PrintMessage(m) + rest).threw
       <==> CONTENT_LENGTH in m.req.headers && !Numeric(m.req.headers[CONTENT_LENGTH])
  {
    hide RecvHttpRequest, PlainField, PrintFields, PrintLine, Lists, Numeric, OneLine;
    var block := PrintFields(m.fields) + CRLF + m.req.body;
    Assoc(PrintLine(m.req, m.query), block, rest);
    Assoc(PrintFields(m.fields) + CRLF, m.req.body, rest);
    LineMatches(m.req, m.query);
    ThrowsIff(PrintLine(m.req, m.query), m.req.headers, m.fields, m.req.body + rest);
  }

  /** Such an exception leaves the message callback, and with it the loop thread. */
  lemma ThrowLeavesCallback(svc: Service, s: Conn)
    requires s.Running() && !s.dead && s.inp != [] && RecvHttpRequest(s.ctx, s.inp).threw
    ensures OnMessage(svc, s).dead && OnMessage(svc, s).log == s.log + [Threw]
  {
    hide RecvHttpRequest, ShutDown;
  }

  // ---- at an input ----

  lemma NumericHasDigit(s: bytes)
    requires Numeric(s)
    ensures exists c :: c in s && IsDigit(c)
  {
    var sp, sign, ds, tail :| Numeral(s, sp, sign, ds, tail) && -LONG_LIMIT <= Value(sign, ds) < LONG_LIMIT;
    hide Value, Decimal;
    NumeralCuts(s, sp, sign, ds, tail);
    var j := |sp| + |sign|;
    assert s[j] == ds[0] && ds[0] in ds;
  }

  const X: bytes := "x"

  /** GET of "/" with "Content-Length: x". */
  const BAD: Message :=
    Message(Request(GET, "/", VERSION_1_1, [], map[CONTENT_LENGTH := X], map[]), [], [(CONTENT_LENGTH, X)])

  lemma BadIsPlain()
    ensures PlainField((CONTENT_LENGTH, X))
  {
    var k: bytes := CONTENT_LENGTH;
    assert k == ['C', 'o', 'n', 't', 'e', 'n', 't', '-', 'L', 'e', 'n', 'g', 't', 'h'];
    forall j: nat | j < |k| ensures !StartsAt(k, COLON, j) {
      assert k[j] != COLON[0];
    }
  }

  lemma BadIsSendable()
    ensures Sendable(BAD)
  {
    BadIsPlain();
    hide PlainField;
    assert PrintLine(BAD.req, []) == GET + SPACE + Target("/", []) + SPACE + VERSION_1_1 + CRLF;
    assert |Target("/", [])| == 3;
  }

  /** So this request, whatever follows it, ends the loop thread. */
  lemma BadLength(svc: Service, s: Conn, rest: bytes)
    requires !s.dead && s.ctx == RESET && s.inp == PrintMessage(BAD) + rest
    ensures OnMessage(svc, s).dead
  {
    hide Sendable, RecvHttpRequest, PrintMessage, OnMessage, Numeric;
    BadIsSendable();
    if Numeric(X) {
      NumericHasDigit(X);
      assert false;
    }
    RequestThrowsIff(BAD, rest);
    MessageNotEmpty(BAD);
    ThrowLeavesCallback(svc, s);
  }
}
