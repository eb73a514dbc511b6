/** The request line: a tokenizer for the regular expression the source matches it with. */
module RequestLine {
  import opened Bytes
  import opened HttpMessage

  datatype Parts = Parts(meth: bytes, path: bytes, query: bytes, version: bytes)

  function UpperByte(c: byte): byte {
    if 'a' <= c <= 'z' then (c as int - 32) as char else c
  }

  /** std::transform with toupper */
  function Upper(s: bytes): (u: bytes)
    ensures |u| == |s|
  {
    seq(|s|, i requires 0 <= i < |s| => UpperByte(s[i]))
  }

  const GET: bytes := "GET"
  const POST: bytes := "POST"
  const HEAD: bytes := "HEAD"
  const DELETE: bytes := "DELETE"
  const PUT: bytes := "PUT"
  const VERSION_1_0: bytes := "HTTP/1.0"
  const EOL: bytes := "\n"

  predicate IsMethod(s: bytes) {
    s == GET || s == POST || s == HEAD || s == DELETE || s == PUT
  }

  predicate IsVersion(s: bytes) {
    s == VERSION_1_0 || s == VERSION_1_1
  }

  predicate IsEnding(s: bytes) {
    s == [] || s == EOL || s == CRLF
  }

  /** Where a target's query starts: its first '?' that is not its first octet. */
  function QueryMark(target: bytes): (k: nat)
    requires target != []
    ensures 0 < k <= |target|
  {
    1 + Find(target[1..], '?')
  }

  function SplitTarget(meth: bytes, target: bytes, version: bytes): Parts
    requires target != []
  {
    var k := QueryMark(target);
    Parts(meth, target[..k], if k == |target| then [] else target[k + 1..], version)
  }

  /** The line cut at its runs of spaces: method, target, version, and what ends it. */
  function Match(l: bytes): Option<Parts> {
    var a := RunEnd(l, 0, false);
    var b := RunEnd(l, a, true);
    var c := RunEnd(l, b, false);
    var d := RunEnd(l, c, true);
    var e := RunEnd(l, d, false);
    if IsMethod(Upper(l[..a])) && a < b < c < d && IsVersion(Upper(l[d..e])) && IsEnding(l[e..])
    then Some(SplitTarget(l[..a], l[b..c], l[d..e]))
    else None
  }

  predicate AllSpace(s: bytes) {
    forall c | c in s :: IsSpace(c)
  }

  predicate NoSpace(s: bytes) {
    forall c | c in s :: !IsSpace(c)
  }

  /** The regular expression as a grammar: m s1 t s2 v e, letters compared without case. */
  predicate Derives(l: bytes, m: bytes, s1: bytes, t: bytes, s2: bytes, v: bytes, e: bytes) {
    && l == m + s1 + t + s2 + v + e
    && IsMethod(Upper(m)) && IsVersion(Upper(v)) && IsEnding(e)
    && s1 != [] && AllSpace(s1) && t != [] && NoSpace(t) && s2 != [] && AllSpace(s2)
  }

  lemma RunEndAt(l: bytes, i: nat, k: nat, space: bool)
    requires i <= k <= |l|
    requires forall j: nat | i <= j < k :: IsSpace(l[j]) == space
    requires k < |l| ==> IsSpace(l[k]) != space
    ensures RunEnd(l, i, space) == k
  {
  }

  /** A run `p` of one kind at `i`, followed by the other kind or the end. */
  lemma RunIs(l: bytes, i: nat, p: bytes, space: bool)
    requires i + |p| <= |l| && l[i..i + |p|] == p
    requires forall c | c in p :: IsSpace(c) == space
    requires i + |p| < |l| ==> IsSpace(l[i + |p|]) != space
    ensures RunEnd(l, i, space) == i + |p|
  {
    forall j: nat | i <= j < i + |p| ensures IsSpace(l[j]) == space {
      assert l[j] == p[j - i];
    }
    RunEndAt(l, i, i + |p|, space);
  }

  /** Method and version names contain no space, in either case of letters. */
  lemma NamesHaveNoSpace(s: bytes)
    requires IsMethod(Upper(s)) || IsVersion(Upper(s))
    ensures NoSpace(s) && s != []
  {
    var u := Upper(s);
    forall c | c in s ensures !IsSpace(c) {
      var i: nat :| i < |s| && s[i] == c;
      assert u[i] == UpperByte(c) && u[i] in u;
    }
  }

  /** `p` lies in `l` at `i`. */
  predicate LiesAt(l: bytes, i: nat, p: bytes) {
    i + |p| <= |l| && l[i..i + |p|] == p && (p != [] ==> l[i] == p[0])
  }

  /** The five inner boundaries of a line in six parts. */
  datatype Marks = Marks(a: nat, b: nat, c: nat, d: nat, f: nat)

  function MarksOf(m: bytes, s1: bytes, t: bytes, s2: bytes, v: bytes): Marks {
    Marks(|m|, |m| + |s1|, |m| + |s1| + |t|, |m| + |s1| + |t| + |s2|, |m| + |s1| + |t| + |s2| + |v|)
  }

  predicate LaidOut(l: bytes, k: Marks, m: bytes, s1: bytes, t: bytes, s2: bytes, v: bytes, e: bytes) {
    && k.a == |m| && k.b == k.a + |s1| && k.c == k.b + |t| && k.d == k.c + |s2| && k.f == k.d + |v|
    && |l| == k.f + |e|
    && LiesAt(l, 0, m) && LiesAt(l, k.a, s1) && LiesAt(l, k.b, t) && LiesAt(l, k.c, s2)
    && LiesAt(l, k.d, v) && LiesAt(l, k.f, e)
  }

  /** Where the six parts of a concatenation lie. */
  lemma Cuts(l: bytes, m: bytes, s1: bytes, t: bytes, s2: bytes, v: bytes, e: bytes)
    requires l == m + s1 + t + s2 + v + e
    ensures LaidOut(l, MarksOf(m, s1, t, s2, v), m, s1, t, s2, v, e)
  {
  }

  lemma FirstOf(s: bytes)
    requires s != []
    ensures AllSpace(s) ==> IsSpace(s[0])
    ensures NoSpace(s) ==> !IsSpace(s[0])
  {
  }

  lemma RunsOf(l: bytes, i: nat, p: bytes, q: bytes, space: bool)
    requires LiesAt(l, i, p) && LiesAt(l, i + |p|, q)
    requires if space then AllSpace(p) && NoSpace(q) else NoSpace(p) && AllSpace(q)
    requires q == [] ==> i + |p| == |l|
    ensures RunEnd(l, i, space) == i + |p|
  {
    if q != [] {
      FirstOf(q);
    }
    RunIs(l, i, p, space);
  }

  /** Six parts of alternating kind are found one after the other. */
  lemma RunsLaidOut(l: bytes, k: Marks, m: bytes, s1: bytes, t: bytes, s2: bytes, v: bytes, e: bytes)
    requires LaidOut(l, k, m, s1, t, s2, v, e)
    requires NoSpace(m) && AllSpace(s1) && NoSpace(t) && AllSpace(s2) && NoSpace(v) && AllSpace(e)
    requires s1 != [] && t != [] && s2 != [] && v != []
    ensures RunEnd(l, 0, false) == k.a && RunEnd(l, k.a, true) == k.b && RunEnd(l, k.b, false) == k.c
    ensures RunEnd(l, k.c, true) == k.d && RunEnd(l, k.d, false) == k.f
  {
    hide RunEnd, LiesAt;
    RunsOf(l, 0, m, s1, false);
    RunsOf(l, k.a, s1, t, true);
    RunsOf(l, k.b, t, s2, false);
    RunsOf(l, k.c, s2, v, true);
    RunsOf(l, k.d, v, e, false);
  }

  lemma MatchLaidOut(l: bytes, k: Marks, m: bytes, s1: bytes, t: bytes, s2: bytes, v: bytes, e: bytes)
    requires LaidOut(l, k, m, s1, t, s2, v, e)
    requires RunEnd(l, 0, false) == k.a && RunEnd(l, k.a, true) == k.b && RunEnd(l, k.b, false) == k.c
    requires RunEnd(l, k.c, true) == k.d && RunEnd(l, k.d, false) == k.f
    requires IsMethod(Upper(m)) && s1 != [] && t != [] && s2 != [] && IsVersion(Upper(v)) && IsEnding(e)
    ensures Match(l) == Some(SplitTarget(m, t, v))
  {
    assert l[..k.a] == m && l[k.b..k.c] == t && l[k.d..k.f] == v && l[k.f..] == e;
  }

  /** Every line the grammar derives is matched, and cut where the grammar cuts it. */
  lemma MatchComplete(l: bytes, m: bytes, s1: bytes, t: bytes, s2: bytes, v: bytes, e: bytes)
    requires Derives(l, m, s1, t, s2, v, e)
    ensures Match(l) == Some(SplitTarget(m, t, v))
  {
    NamesHaveNoSpace(m);
    NamesHaveNoSpace(v);
    Cuts(l, m, s1, t, s2, v, e);
    var k := MarksOf(m, s1, t, s2, v);
    RunsLaidOut(l, k, m, s1, t, s2, v, e);
    MatchLaidOut(l, k, m, s1, t, s2, v, e);
  }

  /** Every matched line is derived by the grammar, with the parts the match returned. */
  lemma MatchSound(l: bytes) returns (m: bytes, s1: bytes, t: bytes, s2: bytes, v: bytes, e: bytes)
    requires Match(l).Some?
    ensures Derives(l, m, s1, t, s2, v, e)
    ensures Match(l) == Some(SplitTarget(m, t, v))
  {
    var a := RunEnd(l, 0, false);
    var b := RunEnd(l, a, true);
    var c := RunEnd(l, b, false);
    var d := RunEnd(l, c, true);
    var f := RunEnd(l, d, false);
    SixParts(l, a, b, c, d, f);
    RunKind(l, a, b, true);
    RunKind(l, b, c, false);
    RunKind(l, c, d, true);
    m, s1, t, s2, v, e := l[..a], l[a..b], l[b..c], l[c..d], l[d..f], l[f..];
  }

  lemma RunKind(l: bytes, i: nat, k: nat, space: bool)
    requires i <= |l| && k == RunEnd(l, i, space)
    ensures if space then AllSpace(l[i..k]) else NoSpace(l[i..k])
  {
  }

  lemma SixParts(l: bytes, a: nat, b: nat, c: nat, d: nat, f: nat)
    requires a <= b <= c <= d <= f <= |l|
    ensures l == l[..a] + l[a..b] + l[b..c] + l[c..d] + l[d..f] + l[f..]
  {
    assert l[..a] + l[a..b] == l[..b];
    assert l[..b] + l[b..c] == l[..c];
    assert l[..c] + l[c..d] == l[..d];
    assert l[..d] + l[d..f] == l[..f];
  }

  // ---- the captured groups ----

  /** The target as the pattern writes it: group 2, and group 3 behind a '?' where it takes part. */
  function Whole(p: bytes, q: Option<bytes>): bytes {
    if q.None? then p else p + ['?'] + q.value
  }

  /** The text of a group, empty where it took no part. */
  function Text(q: Option<bytes>): bytes {
    if q.None? then [] else q.value
  }

  /** A way to match the line with the pattern. */
  predicate Matches(l: bytes, m: bytes, s1: bytes, p: bytes, q: Option<bytes>, s2: bytes, v: bytes, e: bytes) {
    p != [] && Derives(l, m, s1, Whole(p, q), s2, v, e)
  }

  /** The way the pattern prefers: group 2 is lazy, so no other way has a shorter one. */
  ghost predicate Captures(l: bytes, m: bytes, s1: bytes, p: bytes, q: Option<bytes>, s2: bytes, v: bytes, e: bytes) {
    && Matches(l, m, s1, p, q, s2, v, e)
    && forall m', s1', p', q', s2', v', e' :: Matches(l, m', s1', p', q', s2', v', e') ==> |p| <= |p'|
  }

  /** The mark is the end of the shortest possible group 2. */
  lemma MarkIsFirst(p: bytes, q: Option<bytes>)
    requires p != []
    ensures QueryMark(Whole(p, q)) <= |p|
  {
    var t := Whole(p, q);
    if q.Some? {
      assert t[1..][|p| - 1] == '?';
    }
  }

  /** The target, cut at its mark. */
  function Rest(t: bytes): (q: Option<bytes>)
    requires t != []
    ensures Whole(t[..QueryMark(t)], q) == t
  {
    var k := QueryMark(t);
    if k == |t| then None
    else
      assert t[k] == t[1..][k - 1] == '?';
      Some(t[k + 1..])
  }

  /** If the pattern matches, in its preferred way, then the groups it captures are what the tokenizer returns. */
  lemma GroupsComplete(l: bytes, m: bytes, s1: bytes, p: bytes, q: Option<bytes>, s2: bytes, v: bytes, e: bytes)
    requires Captures(l, m, s1, p, q, s2, v, e)
    ensures Match(l) == Some(Parts(m, p, Text(q), v))
  {
    hide Derives, Match, QueryMark;
    var t := Whole(p, q);
    var k := QueryMark(t);
    MatchComplete(l, m, s1, t, s2, v, e);
    MarkIsFirst(p, q);
    assert Matches(l, m, s1, t[..k], Rest(t), s2, v, e);
    assert k == |p|;
    assert t[..k] == p && (k < |t| ==> t[k + 1..] == Text(q));
  }

  /** Whatever the tokenizer returns are the groups of the preferred match. */
  lemma GroupsSound(l: bytes)
    returns (m: bytes, s1: bytes, p: bytes, q: Option<bytes>, s2: bytes, v: bytes, e: bytes)
    requires Match(l).Some?
    ensures Captures(l, m, s1, p, q, s2, v, e) && Match(l) == Some(Parts(m, p, Text(q), v))
  {
    hide Derives, Match, QueryMark;
    var t;
    m, s1, t, s2, v, e := MatchSound(l);
    NotEmptyTarget(l, m, s1, t, s2, v, e);
    var k := QueryMark(t);
    p, q := t[..k], Rest(t);
    assert Text(q) == if k == |t| then [] else t[k + 1..];
    forall m', s1', p', q', s2', v', e' | Matches(l, m', s1', p', q', s2', v', e') ensures |p| <= |p'| {
      MatchComplete(l, m', s1', Whole(p', q'), s2', v', e');
      SameMark(m, t, v, m', Whole(p', q'), v');
      MarkIsFirst(p', q');
    }
  }

  lemma NotEmptyTarget(l: bytes, m: bytes, s1: bytes, t: bytes, s2: bytes, v: bytes, e: bytes)
    requires Derives(l, m, s1, t, s2, v, e)
    ensures t != []
  {
  }

  lemma SameMark(m: bytes, t: bytes, v: bytes, m': bytes, t': bytes, v': bytes)
    requires t != [] && t' != [] && SplitTarget(m, t, v) == SplitTarget(m', t', v')
    ensures QueryMark(t) == QueryMark(t')
  {
    assert |t[..QueryMark(t)]| == |t'[..QueryMark(t')]|;
  }
}
