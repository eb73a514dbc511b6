/** Requests as peers write them: any case, any blanks, raw targets, line feeds alone; and where the limits are. */
module RawRequests {
  import opened Bytes
  import opened HttpMessage
  import opened HttpContents
  import opened ParserTheorems
  import opened Numerals
  import opened RequestLine
  import opened WebUtil
  import opened UrlText
  import opened RoundTrip
  import opened ConnModel
  import opened Segmentation
  import opened Delivery

  // ---- the words of the pattern ----

  /** The word, its capital letters in either case. */
  predicate SameLetters(s: bytes, word: string) {
    |s| == |word| && forall i: nat | i < |s| ::
      s[i] == word[i] || ('A' <= word[i] <= 'Z' && s[i] as int == word[i] as int + 32)
  }

  predicate MethodWord(word: string) {
    word == "GET" || word == "POST" || word == "HEAD" || word == "DELETE" || word == "PUT"
  }

  predicate VersionWord(word: string) {
    word == "HTTP/1.0" || word == "HTTP/1.1"
  }

  /** What \s matches. */
  predicate Blank(c: byte) {
    c as int == 32 || 9 <= c as int <= 13
  }

  lemma CapitalLetters(word: string)
    requires MethodWord(word) || VersionWord(word)
    ensures forall i: nat | i < |word| :: 'A' <= word[i] <= 'Z' || '/' <= word[i] <= '1' || word[i] == '.'
  {
  }

  lemma UpperIs(s: bytes, word: bytes)
    requires forall i: nat | i < |word| :: 'A' <= word[i] <= 'Z' || '/' <= word[i] <= '1' || word[i] == '.'
    ensures Upper(s) == word <==> SameLetters(s, word)
  {
    if Upper(s) == word {
      forall i: nat | i < |s|
        ensures s[i] == word[i] || ('A' <= word[i] <= 'Z' && s[i] as int == word[i] as int + 32)
      {
        assert UpperByte(s[i]) == word[i];
      }
    }
    if SameLetters(s, word) {
      forall i: nat | i < |s| ensures UpperByte(s[i]) == word[i] {
      }
    }
  }

  /** The pattern takes exactly these five methods and two versions, in any case, and exactly these blanks. */
  lemma PatternWords(s: bytes, c: byte)
    ensures IsMethod(Upper(s)) <==> exists word :: MethodWord(word) && SameLetters(s, word)
    ensures IsVersion(Upper(s)) <==> exists word :: VersionWord(word) && SameLetters(s, word)
    ensures IsSpace(c) <==> Blank(c)
    ensures IsEnding(s) <==> s == [] || s == ['\n'] || s == ['\r', '\n']
  {
    hide SameLetters, Upper;
    var u := Upper(s);
    if IsMethod(u) || IsVersion(u) {
      CapitalLetters(u);
      UpperIs(s, u);
    }
    if word :| MethodWord(word) && SameLetters(s, word) {
      WordIs(s, word);
    }
    if word :| VersionWord(word) && SameLetters(s, word) {
      WordIs(s, word);
    }
  }

  lemma WordIs(s: bytes, word: string)
    requires (MethodWord(word) || VersionWord(word)) && SameLetters(s, word)
    ensures Upper(s) == word
  {
    WordIsOctets(word);
    CapitalLetters(word);
    UpperIs(s, word);
  }

  lemma WordIsOctets(word: string)
    requires MethodWord(word) || VersionWord(word)
    ensures forall i: nat | i < |word| :: word[i] as int < 256
  {
    CapitalLetters(word);
  }

  // ---- request lines ----

  predicate Blanks(s: bytes) {
    s != [] && LF !in s && forall c | c in s :: Blank(c)
  }

  predicate NoBlank(s: bytes) {
    forall c | c in s :: !Blank(c)
  }

  /** A parameter as it stands in a query: the key ends at the first '=', the value at the next '&'. */
  predicate RawParam(e: Field) {
    '=' !in e.0 && '&' !in e.0 && '&' !in e.1
  }

  function RawPair(e: Field): bytes {
    e.0 + ['='] + e.1
  }

  function RawPairs(ps: seq<Field>): (qs: seq<bytes>)
    ensures |qs| == |ps| && forall k: nat | k < |ps| :: qs[k] == RawPair(ps[k])
  {
    seq(|ps|, k requires 0 <= k < |ps| => RawPair(ps[k]))
  }

  /** The parameters as they are stored. */
  function Decoded(ps: seq<Field>): seq<Field> {
    if ps == [] then [] else [(Decode(ps[0].0, true), Decode(ps[0].1, true))] + Decoded(ps[1..])
  }

  /** A request line: method in any case, blanks, path, query if there is one, blanks, version, line end. */
  datatype RawLine = RawLine(
    m: bytes, s1: bytes, path: bytes, query: Option<seq<Field>>, s2: bytes, v: bytes, crlf: bool)

  function RawQuery(q: Option<seq<Field>>): bytes {
    if q.None? then [] else ['?'] + Join(RawPairs(q.value), '&')
  }

  function RawLineText(l: RawLine): bytes {
    l.m + l.s1 + (l.path + RawQuery(l.query)) + l.s2 + l.v + if l.crlf then ['\r', '\n'] else ['\n']
  }

  predicate GoodLine(l: RawLine, name: string) {
    && MethodWord(name) && SameLetters(l.m, name)
    && (SameLetters(l.v, "HTTP/1.0") || SameLetters(l.v, "HTTP/1.1"))
    && Blanks(l.s1) && Blanks(l.s2)
    && l.path != [] && NoBlank(l.path) && '?' !in l.path[1..]
    && (l.query.Some? ==> forall e | e in l.query.value :: RawParam(e) && NoBlank(e.0) && NoBlank(e.1))
  }

  lemma RawPairRead(e: Field)
    requires RawParam(e)
    ensures var f := RawPair(e);
            f != [] && '&' !in f && Find(f, '=') == |e.0| < |f| && f[..|e.0|] == e.0 && f[|e.0| + 1..] == e.1
  {
    FoundAfter(e.0, '=', e.1);
  }

  /** The fields of a raw query: of a key that is there twice the first value stays. */
  lemma {:induction false} RawPairsRead(c: Context, ps: seq<Field>)
    requires forall e | e in ps :: RawParam(e)
    ensures ParseFields(c, RawPairs(ps)) == c.(req := c.req.(params := InsertAll(c.req.params, Decoded(ps))))
    decreases |ps|
  {
    hide RawPair, Decode, RawParam;
    if ps != [] {
      assert ps[0] in ps && forall e | e in ps[1..] :: e in ps;
      RawPairRead(ps[0]);
      assert RawPairs(ps)[1..] == RawPairs(ps[1..]);
      var e := (Decode(ps[0].0, true), Decode(ps[0].1, true));
      assert ([e] + Decoded(ps[1..]))[1..] == Decoded(ps[1..]);
      RawPairsRead(c.(req := c.req.(params := Insert(c.req.params, e.0, e.1))), ps[1..]);
    }
  }

  lemma RawPieces(ps: seq<Field>)
    requires forall e | e in ps :: RawParam(e)
    ensures Pieces(Join(RawPairs(ps), '&'), AMP) == RawPairs(ps)
  {
    hide PiecesFrom, Join, RawParam;
    var q := Join(RawPairs(ps), '&');
    forall k: nat | k < |ps| ensures RawPairs(ps)[k] != [] && '&' !in RawPairs(ps)[k] {
      assert ps[k] in ps;
      RawPairRead(ps[k]);
    }
    assert q[0..] == q;
    PiecesOfJoin(q, 0, RawPairs(ps), '&');
    assert AMP == ['&'];
  }

  lemma {:induction false} JoinNoBlank(qs: seq<bytes>)
    requires forall k: nat | k < |qs| :: NoBlank(qs[k])
    ensures NoBlank(Join(qs, '&'))
    decreases |qs|
  {
    if |qs| > 1 {
      JoinNoBlank(qs[1..]);
    }
  }

  lemma QueryNoBlank(ps: seq<Field>)
    requires forall e | e in ps :: NoBlank(e.0) && NoBlank(e.1)
    ensures NoBlank(Join(RawPairs(ps), '&'))
  {
    forall k: nat | k < |ps| ensures NoBlank(RawPairs(ps)[k]) {
      assert ps[k] in ps;
    }
    JoinNoBlank(RawPairs(ps));
  }

  /** The first '?' behind the first octet ends the path. */
  lemma TargetCut(meth: bytes, version: bytes, path: bytes, q: Option<seq<Field>>)
    requires path != [] && '?' !in path[1..]
    ensures var t := path + RawQuery(q);
            t != [] && SplitTarget(meth, t, version) ==
                       Parts(meth, path, if q.None? then [] else Join(RawPairs(q.value), '&'), version)
  {
    hide Join;
    var t := path + RawQuery(q);
    if q.None? {
      assert t == path;
    } else {
      var text := Join(RawPairs(q.value), '&');
      assert t[1..] == path[1..] + ['?'] + text;
      FoundAfter(path[1..], '?', text);
      assert t[..|path|] == path && t[|path| + 1..] == text;
    }
  }

  lemma BlankIsSpace(s: bytes)
    ensures (forall c | c in s :: Blank(c)) <==> AllSpace(s)
    ensures NoBlank(s) <==> NoSpace(s)
  {
  }

  lemma GoodTarget(l: RawLine, name: string)
    requires GoodLine(l, name)
    ensures l.path + RawQuery(l.query) != [] && NoSpace(l.path + RawQuery(l.query))
  {
    hide Join, SameLetters;
    if l.query.Some? {
      QueryNoBlank(l.query.value);
      BlankIsSpace(Join(RawPairs(l.query.value), '&'));
    }
    BlankIsSpace(l.path);
  }

  lemma GoodMatches(l: RawLine, name: bytes)
    requires GoodLine(l, name)
    ensures Match(RawLineText(l)) ==
            Some(Parts(l.m, l.path, if l.query.None? then [] else Join(RawPairs(l.query.value), '&'), l.v))
    ensures Upper(l.m) == name && OneLine(RawLineText(l))
  {
    hide Match, SplitTarget, RawQuery, Upper, SameLetters, Join;
    var t, e: bytes := l.path + RawQuery(l.query), if l.crlf then ['\r', '\n'] else ['\n'];
    GoodTarget(l, name);
    WordIs(l.m, name);
    VersionIs(l.v);
    BlankIsSpace(l.s1);
    BlankIsSpace(l.s2);
    MatchComplete(RawLineText(l), l.m, l.s1, t, l.s2, l.v, e);
    TargetCut(l.m, l.v, l.path, l.query);
    NamesHaveNoSpace(l.m);
    NamesHaveNoSpace(l.v);
    assert IsSpace(LF);
    OnlyLineFeed(l.m + l.s1 + t + l.s2 + l.v, l.crlf);
  }

  lemma VersionIs(v: bytes)
    requires SameLetters(v, "HTTP/1.0") || SameLetters(v, "HTTP/1.1")
    ensures IsVersion(Upper(v))
  {
    hide SameLetters, Upper;
    if SameLetters(v, "HTTP/1.0") {
      WordIs(v, "HTTP/1.0");
    } else {
      WordIs(v, "HTTP/1.1");
    }
  }

  lemma OnlyLineFeed(front: bytes, crlf: bool)
    requires LF !in front
    ensures OneLine(front + if crlf then ['\r', '\n'] else ['\n'])
  {
    var l := front + if crlf then ['\r', '\n'] else ['\n'];
    assert l[..|l| - 1] == front + if crlf then ['\r'] else [];
  }

  /**
   * A good line, as a peer writes it: the method arrives in capitals, the path decoded without the rule for '+', the
   * version as it stands, and the parameters decoded with that rule, of each key the first value.
   */
  lemma RawLineReceived(l: RawLine, name: bytes, y: bytes)
    requires GoodLine(l, name) && |RawLineText(l)| <= 8192
    ensures RecvHttpLine(RESET, RawLineText(l) + y) ==
            (Context(200, RecvHead, Request(name, Decode(l.path, false), l.v, [], map[],
               if l.query.None? then map[] else InsertAll(map[], Decoded(l.query.value)))), y)
  {
    hide Match, Decode, ParseFields, PiecesFrom, OneLine, LineLen, Join, Upper, RawLineText, SameLetters;
    GoodMatches(l, name);
    FirstLine(RawLineText(l), y);
    var c := RESET.(req := RESET.req.(version := l.v, meth := name, path := Decode(l.path, false)));
    if l.query.Some? {
      RawPieces(l.query.value);
      RawPairsRead(c, l.query.value);
    } else {
      EmptyQueryFields(c);
    }
  }

  lemma EmptyQueryFields(c: Context)
    ensures ParseFields(c, Pieces([], AMP)) == c
  {
  }

  /** A path without escapes arrives as it is written. */
  lemma RawPathKept(l: RawLine, name: bytes, y: bytes)
    requires GoodLine(l, name) && |RawLineText(l)| <= 8192 && '%' !in l.path
    ensures RecvHttpLine(RESET, RawLineText(l) + y).0.req.path == l.path
  {
    hide GoodLine, RawLineText, RecvHttpLine;
    RawLineReceived(l, name, y);
    DecodeOfRaw(l.path, false);
  }

  // ---- header lines ----

  function LineEnd(crlf: bool): bytes {
    if crlf then ['\r', '\n'] else ['\n']
  }

  /** A header line, with either end; before a line feed alone, a carriage return would not be part of the value. */
  datatype RawField = RawField(field: Field, crlf: bool)

  function RawFieldText(f: RawField): bytes {
    f.field.0 + [':', ' '] + f.field.1 + LineEnd(f.crlf)
  }

  predicate GoodField(f: RawField) {
    && LF !in f.field.0 && LF !in f.field.1 && |RawFieldText(f)| <= 8192
    && (forall j: nat | j < |f.field.0| :: !StartsAt(f.field.0, COLON, j))
    && (!f.crlf && f.field.1 != [] ==> f.field.1[|f.field.1| - 1] != '\r')
  }

  function RawBlock(fs: seq<RawField>): bytes {
    if fs == [] then [] else RawFieldText(fs[0]) + RawBlock(fs[1..])
  }

  function FieldsOf(fs: seq<RawField>): seq<Field> {
    if fs == [] then [] else [fs[0].field] + FieldsOf(fs[1..])
  }

  lemma ChompedEnd(front: bytes, crlf: bool)
    requires !crlf && front != [] ==> front[|front| - 1] != '\r'
    ensures Chomp(front + LineEnd(crlf)) == front
  {
    var l := front + LineEnd(crlf);
    assert l[..|l| - 1] == front + if crlf then ['\r'] else [];
    if crlf {
      assert l[..|l| - 1][..|l| - 2] == front;
    }
  }

  lemma ColonIn(f: RawField)
    requires GoodField(f)
    ensures var l := f.field.0 + COLON + f.field.1;
            FindSeq(l, COLON, 0) == |f.field.0| && l[..|f.field.0|] == f.field.0 && l[|f.field.0| + 2..] == f.field.1
  {
    var e, l := f.field, f.field.0 + COLON + f.field.1;
    assert StartsAt(l, COLON, |e.0|);
    forall j: nat | j < |e.0| ensures !StartsAt(l, COLON, j) {
      if j + 1 < |e.0| {
        assert l[j..j + 2] == e.0[j..j + 2];
        assert !StartsAt(e.0, COLON, j);
      } else {
        assert l[j + 1] == ':';
        assert l[j..j + 2][1] == ':' && COLON[1] == ' ';
      }
    }
  }

  lemma GoodFieldRead(c: Context, f: RawField)
    requires GoodField(f)
    ensures OneLine(RawFieldText(f)) && !IsBlank(RawFieldText(f))
    ensures ParseHead(c, RawFieldText(f)) == c.(req := c.req.(headers := Insert(c.req.headers, f.field.0, f.field.1)))
  {
    var front := f.field.0 + COLON + f.field.1;
    assert front[|front| - 1] == if f.field.1 == [] then ' ' else f.field.1[|f.field.1| - 1];
    ChompedEnd(front, f.crlf);
    OnlyLineFeed(front, f.crlf);
    ColonIn(f);
  }

  lemma RawFieldRead(c: Context, f: RawField, rest: bytes)
    requires c.recv == RecvHead && GoodField(f)
    ensures RecvHttpHead(c, RawFieldText(f) + rest) ==
            RecvHttpHead(c.(req := c.req.(headers := Insert(c.req.headers, f.field.0, f.field.1))), rest)
  {
    GoodFieldRead(c, f);
    FirstLine(RawFieldText(f), rest);
    hide ParseHead, OneLine, LineLen, RawFieldText, GoodField;
    GoodFieldSize(f);
  }

  lemma GoodFieldSize(f: RawField)
    requires GoodField(f)
    ensures |RawFieldText(f)| <= MAX_LINE
  {
  }

  /** Header lines are stored one after the other, of each name the first value, whatever comes behind them. */
  lemma {:induction false} RawBlockRead(c: Context, fs: seq<RawField>, rest: bytes)
    requires c.recv == RecvHead && forall f | f in fs :: GoodField(f)
    ensures RecvHttpHead(c, RawBlock(fs) + rest) ==
            RecvHttpHead(c.(req := c.req.(headers := InsertAll(c.req.headers, FieldsOf(fs)))), rest)
    decreases |fs|
  {
    hide RecvHttpHead, GoodField, RawFieldText;
    if fs == [] {
      assert [] + rest == rest;
    } else {
      assert fs[0] in fs && forall f | f in fs[1..] :: f in fs;
      Assoc(RawFieldText(fs[0]), RawBlock(fs[1..]), rest);
      RawFieldRead(c, fs[0], RawBlock(fs[1..]) + rest);
      assert ([fs[0].field] + FieldsOf(fs[1..]))[1..] == FieldsOf(fs[1..]);
      RawBlockRead(c.(req := c.req.(headers := Insert(c.req.headers, fs[0].field.0, fs[0].field.1))), fs[1..], rest);
    }
  }

  // ---- what ends the header block, or fails the request ----

  /** An empty line, ended either way, ends the block. */
  lemma EmptyLineEnds(c: Context, crlf: bool, rest: bytes)
    requires c.recv == RecvHead
    ensures RecvHttpHead(c, LineEnd(crlf) + rest) == (c.(recv := RecvBody), rest)
  {
    OnlyLineFeed([], crlf);
    assert [] + LineEnd(crlf) == LineEnd(crlf);
    FirstLine(LineEnd(crlf), rest);
    hide OneLine, LineLen;
  }

  /** A line without ": " is a bad request, and nothing behind it is looked at. */
  lemma BadFieldFails(c: Context, front: bytes, crlf: bool, rest: bytes)
    requires c.recv == RecvHead && front != [] && LF !in front && |front| + 2 <= 8192
    requires front != ['\r'] && forall j: nat | j < |front| :: !StartsAt(front, [':', ' '], j)
    requires !crlf ==> front[|front| - 1] != '\r'
    ensures RecvHttpHead(c, front + LineEnd(crlf) + rest) == (c.(resp := 400, recv := RecvErr), rest)
  {
    var l := front + LineEnd(crlf);
    OnlyLineFeed(front, crlf);
    ChompedEnd(front, crlf);
    FirstLine(l, rest);
    assert FindSeq(front, COLON, 0) == |front|;
    hide OneLine, LineLen, Chomp, FindSeq;
    assert l[0] == front[0] && |l| > 1;
    HeadStops(ParseHead(c, l), rest);
  }

  /** A line longer than 8192 octets is answered with 414. */
  lemma LongFieldFails(c: Context, l: bytes, rest: bytes)
    requires c.recv == RecvHead && OneLine(l) && |l| > 8192
    ensures RecvHttpHead(c, l + rest) == (c.(resp := 414, recv := RecvErr), rest)
  {
    FirstLine(l, rest);
    hide OneLine, LineLen;
  }

  /** So is the beginning of one; shorter, it waits for its end. */
  lemma UnfinishedField(c: Context, b: bytes)
    requires c.recv == RecvHead && LF !in b
    ensures RecvHttpHead(c, b) == (if |b| > 8192 then c.(resp := 414, recv := RecvErr) else c, b)
  {
    assert LineLen(b) == 0;
    hide LineLen;
  }

  /** The same of a request line; what follows a long one stays unread. */
  lemma LongLineFails(l: bytes, y: bytes)
    requires OneLine(l) && |l| > 8192
    ensures RecvHttpRequest(RESET, l + y) == Received(Context(414, RecvErr, FRESH), y, false)
  {
    FirstLine(l, y);
    hide OneLine, LineLen, ParseLine;
  }

  lemma UnfinishedLine(b: bytes)
    requires LF !in b
    ensures RecvHttpRequest(RESET, b) ==
            Received(if |b| > 8192 then Context(414, RecvErr, FRESH) else Context(200, RecvLine, FRESH), b, false)
  {
    assert LineLen(b) == 0;
    hide LineLen, ParseLine;
  }

  // ---- whole requests ----

  datatype RawRequest = RawRequest(line: RawLine, fields: seq<RawField>, crlf: bool, body: bytes)

  function RawText(r: RawRequest): bytes {
    RawLineText(r.line) + (RawBlock(r.fields) + (LineEnd(r.crlf) + r.body))
  }

  /** What a request means. */
  function Meaning(r: RawRequest, name: bytes): Request {
    Request(name, Decode(r.line.path, false), r.line.v, r.body, InsertAll(map[], FieldsOf(r.fields)),
            if r.line.query.None? then map[] else InsertAll(map[], Decoded(r.line.query.value)))
  }

  ghost predicate GoodRequest(r: RawRequest, name: string) {
    && GoodLine(r.line, name) && |RawLineText(r.line)| <= 8192
    && (forall f | f in r.fields :: GoodField(f))
    && Declares(InsertAll(map[], FieldsOf(r.fields)), |r.body|)
  }

  /** A request as a peer writes it is received as what it means, and all that follows stays unread. */
  lemma RawRequestReceived(r: RawRequest, name: bytes, rest: bytes)
    requires GoodRequest(r, name)
    ensures RecvHttpRequest(RESET, RawText(r) + rest) == Received(Context(200, RecvOver, Meaning(r, name)), rest, false)
  {
    hide RecvHttpLine, RecvHttpHead, RecvHttpBody, GoodLine, GoodField, RawLineText, RawBlock, Declares, Decode;
    hide LineEnd;
    var m := Meaning(r, name);
    var after := r.body + rest;
    var block := RawBlock(r.fields) + (LineEnd(r.crlf) + r.body);
    var c := Context(200, RecvHead, m.(headers := map[], body := []));
    var d := c.(req := c.req.(headers := m.headers));
    Assoc(RawLineText(r.line), block, rest);
    Assoc(RawBlock(r.fields), LineEnd(r.crlf) + r.body, rest);
    Assoc(LineEnd(r.crlf), r.body, rest);
    RawLineReceived(r.line, name, block + rest);
    RawBlockRead(c, r.fields, LineEnd(r.crlf) + after);
    EmptyLineEnds(d, r.crlf, after);
    BodySizeIff(m.headers, |r.body|);
    BodyReceived(d.(recv := RecvBody), r.body, rest);
  }

  // ---- streams of requests ----

  /** A request and its method. */
  type Sent = (RawRequest, bytes)

  function Stream(rs: seq<Sent>): bytes {
    if rs == [] then [] else RawText(rs[0].0) + Stream(rs[1..])
  }

  function Meant(rs: seq<Sent>): seq<Event> {
    if rs == [] then [] else [Delivered(Meaning(rs[0].0, rs[0].1))] + Meant(rs[1..])
  }

  lemma TextNotEmpty(r: RawRequest)
    ensures RawText(r) != []
  {
    assert |RawLineText(r.line)| > 0;
  }

  lemma {:induction false} StreamDelivered(rs: seq<Sent>)
    requires forall r | r in rs :: GoodRequest(r.0, r.1)
    ensures Deliver(RESET, Stream(rs)) == Out(RESET, [], Meant(rs), false) && !Judge(Meant(rs)).failed
    decreases |rs|
  {
    hide RecvHttpRequest, RawText, GoodRequest, Settled, Meaning;
    if rs != [] {
      assert rs[0] in rs && forall r | r in rs[1..] :: r in rs;
      TextNotEmpty(rs[0].0);
      RawRequestReceived(rs[0].0, rs[0].1, Stream(rs[1..]));
      StreamDelivered(rs[1..]);
      JudgeAppend([Delivered(Meaning(rs[0].0, rs[0].1))], Meant(rs[1..]));
      JudgeOne(Delivered(Meaning(rs[0].0, rs[0].1)));
    }
  }

  /**
   * Any requests as peers write them, in any portions, at a connection between requests and mixed with any other
   * handlers, are delivered as what they mean; a run that sends nothing but replies has accepted these, in order.
   */
  lemma RawPipeline(svc: Service, s: Conn, rs: seq<Sent>, acts: seq<Act>)
    requires !s.dead && s.ctx == RESET && s.inp == [] && s.log == []
    requires (forall r | r in rs :: GoodRequest(r.0, r.1)) && Concat(ReadsOf(acts)) == Stream(rs)
    ensures var t := Run(svc, s, acts);
            && t.log == Meant(rs) && t.ctx == RESET && t.inp == [] && !t.dead
            && (OnlyReplies(acts) && s.status != Disconnected ==>
                  t.accepted == s.accepted + Replies(svc, Meant(rs)))
  {
    hide Run, Deliver, Judge, Replies, Stream, GoodRequest, ReadsOf, OnlyReplies;
    StreamDelivered(rs);
    assert [] + Stream(rs) == Stream(rs);
    RunAgainstWhole(svc, s, acts);
  }

  // ---- at an input ----

  lemma SmallLine()
    ensures GoodLine(RawLine("GET", [' '], "/a", None, [' '], "HTTP/1.1", true), "GET")
  {
  }

  lemma SmallText()
    ensures var l := RawLine("GET", [' '], "/a", None, [' '], "HTTP/1.1", true);
            RawText(RawRequest(l, [], true, [])) == "GET /a HTTP/1.1\r\n\r\n" && |RawLineText(l)| == 17
  {
  }

  /** The smallest request there is, in so many octets. */
  lemma AtAnInput(rest: bytes)
    ensures RecvHttpRequest(RESET, "GET /a HTTP/1.1\r\n\r\n" + rest) ==
            Received(Context(200, RecvOver, Request("GET", "/a", "HTTP/1.1", [], map[], map[])), rest, false)
  {
    hide RecvHttpRequest, Decode, SameLetters, RawText, GoodLine, RawLineText;
    var r := RawRequest(RawLine("GET", [' '], "/a", None, [' '], "HTTP/1.1", true), [], true, []);
    SmallLine();
    SmallText();
    RawRequestReceived(r, "GET", rest);
    DecodeOfRaw("/a", false);
  }
}
