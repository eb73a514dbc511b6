/** The resumable request parser: LINE, HEAD, BODY, then OVER or ERR. */
module HttpContents {
  import opened Bytes
  import opened ByteBuffer
  import opened HttpMessage
  import RequestLine
  import WebUtil

  const MAX_LINE: nat := 8192
  const AMP: bytes := "&"

  datatype RecvStatus = RecvErr | RecvLine | RecvHead | RecvBody | RecvOver

  /** The value of a parser: response code, state, and the request being filled in. */
  datatype Context = Context(resp: nat, recv: RecvStatus, req: Request)

  const RESET: Context := Context(200, RecvLine, FRESH)

  /** What one call leaves: the parser, the unread octets, and whether an exception escaped. */
  datatype Received = Received(ctx: Context, rest: bytes, threw: bool)

  function Fail(c: Context, code: nat): Context {
    c.(resp := code, recv := RecvErr)
  }

  /** The query's fields, key before the first '='; a field without one fails the request. */
  function ParseFields(c: Context, fields: seq<bytes>): Context
    decreases |fields|
  {
    if fields == [] then c
    else
      var e := fields[0];
      var pos := Find(e, '=');
      if pos == |e| then Fail(c, 400)
      else
        var key := WebUtil.Decode(e[..pos], true);
        var value := WebUtil.Decode(e[pos + 1..], true);
        ParseFields(c.(req := c.req.(params := Insert(c.req.params, key, value))), fields[1..])
  }

  function ParseLine(c: Context, line: bytes): Context {
    match RequestLine.Match(line)
    case None => Fail(c, 400)
    case Some(p) =>
      ParseFields(
        c.(req := c.req.(version := p.version, meth := RequestLine.Upper(p.meth),
                         path := WebUtil.Decode(p.path, false))),
        WebUtil.Pieces(p.query, AMP))
  }

  /** RecvHttpLine: after a line was parsed the state is HEAD even when parsing failed. */
  function RecvHttpLine(c: Context, b: bytes): (Context, bytes) {
    if c.recv != RecvLine then (c, b)
    else
      var n := LineLen(b);
      if n == 0 then (if |b| > MAX_LINE then Fail(c, 414) else c, b)
      else if n > MAX_LINE then (Fail(c, 414), b[n..])
      else (ParseLine(c, b[..n]).(recv := RecvHead), b[n..])
  }

  /** The line without its line feed and without a carriage return before it. */
  function Chomp(line: bytes): bytes {
    var l := if line != [] && line[|line| - 1] == '\n' then line[..|line| - 1] else line;
    if l != [] && l[|l| - 1] == '\r' then l[..|l| - 1] else l
  }

  function ParseHead(c: Context, line: bytes): Context {
    var l := Chomp(line);
    var pos := FindSeq(l, COLON, 0);
    if pos == |l| then Fail(c, 400)
    else c.(req := c.req.(headers := Insert(c.req.headers, l[..pos], l[pos + 2..])))
  }

  predicate IsBlank(line: bytes) {
    line == RequestLine.EOL || line == CRLF
  }

  function RecvHttpHead(c: Context, b: bytes): (Context, bytes)
    decreases |b|
  {
    if c.recv != RecvHead then (c, b)
    else
      var n := LineLen(b);
      if n == 0 then (if |b| > MAX_LINE then Fail(c, 414) else c, b)
      else if n > MAX_LINE then (Fail(c, 414), b[n..])
      else if IsBlank(b[..n]) then (c.(recv := RecvBody), b[n..])
      else RecvHttpHead(ParseHead(c, b[..n]), b[n..])
  }

  /** One turn of the header loop, by the line it finds. */
  lemma HeadTurn(c: Context, b: bytes, line: bytes, rest: bytes)
    requires c.recv == RecvHead && line == b[..LineLen(b)] && rest == b[LineLen(b)..]
    ensures line == [] ==> rest == b && RecvHttpHead(c, b) == (if |b| > MAX_LINE then Fail(c, 414) else c, rest)
    ensures |line| > MAX_LINE ==> RecvHttpHead(c, b) == (Fail(c, 414), rest)
    ensures 0 < |line| <= MAX_LINE && (line == RequestLine.EOL || line == CRLF) ==>
              RecvHttpHead(c, b) == (c.(recv := RecvBody), rest)
    ensures 0 < |line| <= MAX_LINE && line != RequestLine.EOL && line != CRLF ==>
              |line| > 1 && RecvHttpHead(c, b) == RecvHttpHead(ParseHead(c, line), rest)
  {
    hide ParseHead;
    if |line| == 1 {
      assert line == RequestLine.EOL;
    }
  }

  lemma HeadStops(c: Context, b: bytes)
    requires c.recv != RecvHead
    ensures RecvHttpHead(c, b) == (c, b)
  {
  }

  lemma ParseHeadState(c: Context, line: bytes)
    requires c.recv == RecvHead
    ensures ParseHead(c, line).recv == RecvErr || ParseHead(c, line).recv == RecvHead
  {
    hide Chomp, FindSeq, Insert;
  }

  /** The body holds less than the declared length until it is complete. */
  predicate Ready(c: Context) {
    || c.recv == RecvOver || c.recv == RecvErr
    || c.req.body == []
    || (c.recv == RecvBody && BodySize(c.req.headers).Some? && |c.req.body| < BodySize(c.req.headers).value)
  }

  function RecvHttpBody(c: Context, b: bytes): Received
    requires Ready(c)
  {
    if c.recv != RecvBody then Received(c, b, false)
    else if BodySize(c.req.headers).None? then Received(c, b, true)
    else
      var length := BodySize(c.req.headers).value;
      if length == 0 then Received(c.(recv := RecvOver), b, false)
      else
        var missing := length - |c.req.body|;
        if |b| >= missing then
          Received(Context(c.resp, RecvOver, c.req.(body := c.req.body + b[..missing])), b[missing..], false)
        else
          Received(c.(req := c.req.(body := c.req.body + b)), [], false)
  }

  /** The body stage, by how much of the declared length is there. */
  lemma BodyTurn(c: Context, b: bytes, size: nat)
    requires c.recv == RecvBody && Ready(c) && BodySize(c.req.headers) == Some(size)
    ensures size == 0 ==> RecvHttpBody(c, b) == Received(c.(recv := RecvOver), b, false)
    ensures size > 0 ==> |c.req.body| < size
    ensures size > 0 && |b| >= size - |c.req.body| ==>
              var missing := size - |c.req.body|;
              RecvHttpBody(c, b) ==
              Received(c.(recv := RecvOver, req := c.req.(body := c.req.body + b[..missing])), b[missing..], false)
    ensures size > 0 && |b| < size - |c.req.body| ==>
              RecvHttpBody(c, b) == Received(c.(req := c.req.(body := c.req.body + b)), [], false)
  {
    hide BodySize;
  }

  lemma BodySkipped(c: Context, b: bytes)
    requires Ready(c)
    ensures c.recv != RecvBody ==> RecvHttpBody(c, b) == Received(c, b, false)
    ensures c.recv == RecvBody && BodySize(c.req.headers).None? ==> RecvHttpBody(c, b) == Received(c, b, true)
  {
    hide BodySize;
  }

  lemma {:induction false} FieldsKeepBody(c: Context, fields: seq<bytes>)
    ensures var d := ParseFields(c, fields);
            d.req.body == c.req.body && d.req.headers == c.req.headers
    ensures var d := ParseFields(c, fields);
            (d.recv == RecvErr && d.resp == 400) || (d.recv == c.recv && d.resp == c.resp)
    decreases |fields|
  {
    if fields != [] && Find(fields[0], '=') < |fields[0]| {
      var e, pos := fields[0], Find(fields[0], '=');
      var params := Insert(c.req.params, WebUtil.Decode(e[..pos], true), WebUtil.Decode(e[pos + 1..], true));
      FieldsKeepBody(c.(req := c.req.(params := params)), fields[1..]);
    }
  }

  lemma LineKeepsBody(c: Context, b: bytes)
    ensures RecvHttpLine(c, b).0.req.body == c.req.body
    ensures RecvHttpLine(c, b).0.recv == RecvBody ==> c.recv == RecvBody
  {
    var n := LineLen(b);
    if c.recv == RecvLine && 0 < n <= MAX_LINE && RequestLine.Match(b[..n]).Some? {
      var p := RequestLine.Match(b[..n]).value;
      FieldsKeepBody(
        c.(req := c.req.(version := p.version, meth := RequestLine.Upper(p.meth),
                         path := WebUtil.Decode(p.path, false))),
        WebUtil.Pieces(p.query, AMP));
    }
  }

  lemma {:induction false} HeadKeepsBody(c: Context, b: bytes)
    ensures RecvHttpHead(c, b).0.req.body == c.req.body
    decreases |b|
  {
    var n := LineLen(b);
    if c.recv == RecvHead && 0 < n <= MAX_LINE && !IsBlank(b[..n]) {
      HeadKeepsBody(ParseHead(c, b[..n]), b[n..]);
    }
  }

  /** RecvHttpRequest: each stage runs if the one before it got there. */
  function RecvHttpRequest(c: Context, b: bytes): Received
    requires Ready(c)
  {
    var (c1, b1) := RecvHttpLine(c, b);
    LineKeepsBody(c, b);
    var (c2, b2) := RecvHttpHead(c1, b1);
    HeadKeepsBody(c1, b1);
    RecvHttpBody(c2, b2)
  }

  class HttpContent {
    var resp: nat
    var recv: RecvStatus
    var request: Request

    ghost function View(): Context
      reads this
    {
      Context(resp, recv, request)
    }

    constructor ()
      ensures View() == RESET
    {
      resp, recv, request := 200, RecvLine, FRESH;
    }

    method Reset()
      modifies this
      ensures View() == RESET
    {
      recv := RecvLine;
      resp := 200;
      request := FRESH;
    }

    method ParseHttpLine(line: bytes) returns (ok: bool)
      requires recv == RecvLine
      modifies this
      ensures View() == ParseLine(old(View()), line)
      ensures ok == (recv != RecvErr)
    {
      var sm := RequestLine.Match(line);
      if sm.None? {
        resp := 400;
        recv := RecvErr;
        return false;
      }
      var path := WebUtil.UrlDecode(sm.value.path, false);
      request := request.(version := sm.value.version, meth := RequestLine.Upper(sm.value.meth), path := path);
      var v, _ := WebUtil.Split(sm.value.query, AMP, []);
      assert v == WebUtil.Pieces(sm.value.query, AMP);
      ok := ParseQuery(v);
    }

    method ParseQuery(v: seq<bytes>) returns (ok: bool)
      requires recv == RecvLine
      modifies this
      ensures View() == ParseFields(old(View()), v)
      ensures ok == (recv != RecvErr)
    {
      var i := 0;
      while i < |v|
        invariant 0 <= i <= |v| && recv == RecvLine
        invariant ParseFields(View(), v[i..]) == ParseFields(old(View()), v)
      {
        var e := v[i];
        DropDrop(v, i, 1);
        var pos := Find(e, '=');
        if pos == |e| {
          resp := 400;
          recv := RecvErr;
          return false;
        }
        var key := WebUtil.UrlDecode(e[..pos], true);
        var value := WebUtil.UrlDecode(e[pos + 1..], true);
        request := request.(params := Insert(request.params, key, value));
        i := i + 1;
      }
      assert v[i..] == [];
      ok := true;
    }

    method ReceiveLine(buffer: Buffer)
      requires buffer.Valid()
      modifies this, buffer`rd
      ensures buffer.Valid() && old(buffer.rd) <= buffer.rd
      ensures (View(), buffer.Unread()) == RecvHttpLine(old(View()), old(buffer.Unread()))
    {
      if recv != RecvLine {
        return;
      }
      var line := buffer.GetLineAndAdd();
      if |line| == 0 {
        if buffer.Readable() > MAX_LINE {
          resp := 414;
          recv := RecvErr;
        }
        return;
      }
      if |line| > MAX_LINE {
        resp := 414;
        recv := RecvErr;
        return;
      }
      var _ := ParseHttpLine(line);
      recv := RecvHead;
    }

    method ParseHttpHead(line: bytes) returns (ok: bool)
      requires |line| > 1 && recv == RecvHead
      modifies this
      ensures View() == ParseHead(old(View()), line)
      ensures ok == (recv != RecvErr)
    {
      hide FindSeq, Insert;
      var l := line;
      if l[|l| - 1] == '\n' {
        l := l[..|l| - 1];
      }
      if l[|l| - 1] == '\r' {
        l := l[..|l| - 1];
      }
      var pos := FindSeq(l, COLON, 0);
      if pos == |l| {
        resp := 400;
        recv := RecvErr;
        return false;
      }
      var key := l[..pos];
      var value := l[pos + 2..];
      request := request.(headers := Insert(request.headers, key, value));
      ok := true;
    }

    method ReceiveHead(buffer: Buffer)
      requires buffer.Valid()
      modifies this, buffer`rd
      ensures buffer.Valid() && old(buffer.rd) <= buffer.rd
      ensures (View(), buffer.Unread()) == RecvHttpHead(old(View()), old(buffer.Unread()))
    {
      hide RecvHttpHead, ParseHead, LineLen;
      if recv != RecvHead {
        HeadStops(View(), buffer.Unread());
        return;
      }
      while true
        invariant buffer.Valid() && recv == RecvHead && old(buffer.rd) <= buffer.rd
        invariant RecvHttpHead(View(), buffer.Unread()) == RecvHttpHead(old(View()), old(buffer.Unread()))
        decreases |buffer.Unread()|
      {
        ghost var b := buffer.Unread();
        HeadTurn(View(), b, b[..LineLen(b)], b[LineLen(b)..]);
        var line := buffer.GetLineAndAdd();
        if |line| == 0 {
          if buffer.Readable() > MAX_LINE {
            resp := 414;
            recv := RecvErr;
          }
          return;
        }
        if |line| > MAX_LINE {
          resp := 414;
          recv := RecvErr;
          return;
        }
        if line == RequestLine.EOL || line == CRLF {
          break;
        }
        ParseHeadState(View(), line);
        var ok := ParseHttpHead(line);
        if !ok {
          HeadStops(View(), buffer.Unread());
          return;
        }
      }
      recv := RecvBody;
    }

    /** `threw`: std::stol rejected the declared length, and nothing catches the exception. */
    method ReceiveBody(buffer: Buffer) returns (threw: bool)
      requires buffer.Valid() && Ready(View())
      modifies this, buffer`rd
      ensures buffer.Valid() && old(buffer.rd) <= buffer.rd
      ensures Received(View(), buffer.Unread(), threw) == RecvHttpBody(old(View()), old(buffer.Unread()))
    {
      hide RecvHttpBody, BodySize, Ready;
      BodySkipped(View(), buffer.Unread());
      if recv != RecvBody {
        return false;
      }
      var size := BodySize(request.headers);
      if size.None? {
        return true;
      }
      BodyTurn(View(), buffer.Unread(), size.value);
      if size.value == 0 {
        recv := RecvOver;
        return false;
      }
      var missing := size.value - |request.body|;
      if buffer.Readable() >= missing {
        var part := buffer.ReadAsString(missing);
        request := request.(body := request.body + part);
        buffer.MoveReadPosition(missing);
        recv := RecvOver;
        return false;
      } else {
        var part := buffer.ReadAsString(buffer.Readable());
        request := request.(body := request.body + part);
        buffer.MoveReadPosition(buffer.Readable());
      }
      threw := false;
    }

    method ReceiveRequest(buffer: Buffer) returns (threw: bool)
      requires buffer.Valid() && Ready(View())
      modifies this, buffer`rd
      ensures buffer.Valid() && old(buffer.rd) <= buffer.rd
      ensures Received(View(), buffer.Unread(), threw) == RecvHttpRequest(old(View()), old(buffer.Unread()))
    {
      LineKeepsBody(View(), buffer.Unread());
      threw := false;
      match recv
      case RecvLine =>
        ReceiveLine(buffer);
        HeadKeepsBody(View(), buffer.Unread());
        ReceiveHead(buffer);
        threw := ReceiveBody(buffer);
      case RecvHead =>
        HeadKeepsBody(View(), buffer.Unread());
        ReceiveHead(buffer);
        threw := ReceiveBody(buffer);
      case RecvBody =>
        threw := ReceiveBody(buffer);
      case _ =>
    }
  }
}
