/** Octet strings, and the library searches (memchr, std::string::find) the sources call on them. */
module Bytes {

  /** A C++ `char`, taken as an unsigned octet. */
  type byte = c: char | c as int < 256
  type bytes = seq<byte>

  datatype Option<+T> = None | Some(value: T)

  const LF: byte := '\n'

  predicate IsDigit(c: byte) {
    '0' <= c <= '9'
  }

  /** Index of the first `c` in `s`, or |s| when there is none. */
  function Find(s: bytes, c: byte): (i: nat)
    ensures i <= |s|
    ensures forall k | 0 <= k < i :: s[k] != c
    ensures i < |s| ==> s[i] == c
  {
    if s == [] || s[0] == c then 0 else 1 + Find(s[1..], c)
  }

  predicate StartsAt(s: bytes, p: bytes, k: nat) {
    k + |p| <= |s| && s[k..k + |p|] == p
  }

  /** std::string::find: the first occurrence of `p` at or after `from`, or |s| when there is none. */
  function FindSeq(s: bytes, p: bytes, from: nat): (i: nat)
    requires p != [] && from <= |s|
    ensures from <= i <= |s|
    ensures i < |s| ==> StartsAt(s, p, i)
    ensures forall k: nat | from <= k < i :: !StartsAt(s, p, k)
    decreases |s| - from
  {
    if from == |s| || StartsAt(s, p, from) then from else FindSeq(s, p, from + 1)
  }

  /** A one-octet text occurs where the octet is. */
  lemma StartsAtByte(s: bytes, c: byte, k: nat)
    requires k < |s|
    ensures StartsAt(s, [c], k) <==> s[k] == c
  {
    assert s[k..k + 1] == [s[k]];
  }

  /** Length of the shortest prefix of `b` that ends in a line feed; 0 when there is no line feed. */
  function LineLen(b: bytes): (n: nat)
    ensures n <= |b|
    ensures n == 0 <==> LF !in b
    ensures n > 0 ==> b[n - 1] == LF && LF !in b[..n - 1]
  {
    var i := Find(b, LF);
    if i == |b| then 0 else i + 1
  }

  /** More input after a complete first line does not change that line. */
  lemma LineLenAppend(x: bytes, y: bytes)
    ensures LineLen(x) > 0 ==> LineLen(x + y) == LineLen(x)
    ensures LineLen(x) == 0 && LineLen(x + y) > 0 ==> LineLen(x + y) > |x|
  {
    assert forall k | 0 <= k < |x| :: (x + y)[k] == x[k];
    assert LF in x ==> x[LineLen(x) - 1] in x + y;
  }

  /** Dropping what has been read so far and then `n` more. */
  lemma DropDrop<T>(s: seq<T>, i: nat, n: nat)
    requires i + n <= |s|
    ensures s[i..][n..] == s[i + n..]
  {
  }

  lemma TailSlice<T>(s: seq<T>, i: nat)
    requires i <= |s|
    ensures s[i..|s|] == s[i..]
  {
  }

  lemma AppendNothing<T>(s: seq<T>)
    ensures s + [] == s
  {
  }

  lemma HeadTail<T>(s: seq<T>)
    requires s != []
    ensures s == [s[0]] + s[1..]
  {
  }

  lemma Assoc<T>(a: seq<T>, b: seq<T>, c: seq<T>)
    ensures (a + b) + c == a + (b + c)
  {
  }

  function Concat(parts: seq<bytes>): bytes {
    if parts == [] then [] else parts[0] + Concat(parts[1..])
  }
}
