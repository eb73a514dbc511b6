/** Requests, their header maps, and the numbers read out of them. */
module HttpMessage {
  import opened Bytes

  type Fields = map<bytes, bytes>

  datatype Request = Request(
    meth: bytes,
    path: bytes,
    version: bytes,
    body: bytes,
    headers: Fields,
    params: Fields)

  const VERSION_1_1: bytes := "HTTP/1.1"

  /** A request right after ReSet. */
  const FRESH: Request := Request([], [], VERSION_1_1, [], map[], map[])

  /** unordered_map::insert: the first value of a key stays. */
  function Insert(m: Fields, key: bytes, value: bytes): Fields {
    if key in m then m else m[key := value]
  }

  const CONTENT_LENGTH: bytes := "Content-Length"
  const CONNECTION: bytes := "Connection"
  const KEEP_ALIVE: bytes := "keep-alive"
  const CLOSE: bytes := "close"

  /** Is_Cose: anything but an explicit keep-alive closes. */
  predicate IsClose(headers: Fields) {
    !(CONNECTION in headers && headers[CONNECTION] == KEEP_ALIVE)
  }

  // ---- std::stol ----

  predicate IsSpace(c: byte) {
    c == ' ' || '\t' <= c <= '\r'
  }

  /** End of the run, from `i` on, of octets that are all spaces or all non-spaces. */
  function RunEnd(s: bytes, i: nat, space: bool): (k: nat)
    requires i <= |s|
    ensures i <= k <= |s|
    ensures forall j: nat | i <= j < k :: IsSpace(s[j]) == space
    ensures k < |s| ==> IsSpace(s[k]) != space
    decreases |s| - i
  {
    if i == |s| || IsSpace(s[i]) != space then i else RunEnd(s, i + 1, space)
  }

  function DigitsEnd(s: bytes, i: nat): (k: nat)
    requires i <= |s|
    ensures i <= k <= |s|
    ensures forall j: nat | i <= j < k :: IsDigit(s[j])
    decreases |s| - i
  {
    if i == |s| || !IsDigit(s[i]) then i else DigitsEnd(s, i + 1)
  }

  function Decimal(s: bytes): nat
    requires forall c | c in s :: IsDigit(c)
  {
    if s == [] then 0
    else
      assert IsDigit(s[|s| - 1]);
      Decimal(s[..|s| - 1]) * 10 + (s[|s| - 1] as int - '0' as int)
  }

  const LONG_LIMIT: int := 0x8000_0000_0000_0000

  /** None where std::stol throws: no digits, or a value outside a 64-bit long. */
  function Stol(s: bytes): (v: Option<int>)
    ensures v.Some? ==> -LONG_LIMIT <= v.value < LONG_LIMIT
  {
    var i := RunEnd(s, 0, true);
    var j := if i < |s| && (s[i] == '-' || s[i] == '+') then i + 1 else i;
    var k := DigitsEnd(s, j);
    if k == j then None
    else
      var d: int := Decimal(s[j..k]);
      var v: int := if i < j && s[i] == '-' then -d else d;
      if -LONG_LIMIT <= v < LONG_LIMIT then Some(v) else None
  }

  /** BodySize: the declared length as a size_t, where a negative number wraps; None where it throws. */
  function BodySize(headers: Fields): Option<nat> {
    if CONTENT_LENGTH !in headers then Some(0)
    else
      var v := Stol(headers[CONTENT_LENGTH]);
      if v.None? then None
      else Some(if v.value < 0 then v.value + 2 * LONG_LIMIT else v.value)
  }

  // ---- printing ----

  /** std::to_string of a size */
  function ToDecimal(n: nat): bytes {
    var digit: byte := ('0' as int + n % 10) as char;
    if n < 10 then [digit] else ToDecimal(n / 10) + [digit]
  }

  const CRLF: bytes := "\r\n"
  const COLON: bytes := ": "

  /** A header block's lines, in the given order. */
  function PrintFields(entries: seq<(bytes, bytes)>): bytes {
    if entries == [] then []
    else entries[0].0 + COLON + entries[0].1 + CRLF + PrintFields(entries[1..])
  }
}
