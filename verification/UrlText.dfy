/** What URL coding means, octet by octet: a text is a row of octets and escapes, perhaps cut short at its end. */
module UrlText {
  import opened Bytes
  import opened WebUtil

  /** An octet as it stands, or '%' and the two octets behind it. */
  datatype Token = Raw(c: byte) | Escape(a: byte, b: byte)

  const DIGITS: string := "0123456789"
  const LETTERS: string := "abcdefghijklmnopqrstuvwxyz"
  const HEX: bytes := "0123456789ABCDEF"

  function Lower(a: byte): byte {
    if 'A' <= a <= 'Z' then (a as int + 32) as char else a
  }

  /** The place of a character in a row. */
  function Place(row: string, c: char): (k: nat)
    ensures k <= |row|
  {
    if row == [] || row[0] == c then 0 else 1 + Place(row[1..], c)
  }

  /** The value of a digit: its place among the digits and, in either case, the letters; anything else is -1. */
  function DigitValue(a: byte): int {
    if a in DIGITS then Place(DIGITS, a)
    else if Lower(a) in LETTERS then 10 + Place(LETTERS, Lower(a))
    else -1
  }

  function TextOf(t: Token): bytes {
    if t.Raw? then [t.c] else ['%', t.a, t.b]
  }

  predicate IsToken(t: Token) {
    t.Raw? ==> t.c != '%'
  }

  /** What a token stands for; '+' for a space only where the query's rule is asked for. */
  function OctetOf(t: Token, plus: bool): byte {
    match t
    case Raw(c) => if c == '+' && plus then ' ' else c
    case Escape(a, b) => ((16 * DigitValue(a) + DigitValue(b)) % 256) as char
  }

  function Text(ts: seq<Token>): bytes {
    if ts == [] then [] else TextOf(ts[0]) + Text(ts[1..])
  }

  function Octets(ts: seq<Token>, plus: bool): bytes {
    if ts == [] then [] else [OctetOf(ts[0], plus)] + Octets(ts[1..], plus)
  }

  predicate Tokens(ts: seq<Token>) {
    forall t | t in ts :: IsToken(t)
  }

  /** The beginning of an escape, or nothing. */
  predicate CutShort(cut: bytes) {
    cut == [] || (|cut| <= 2 && cut[0] == '%')
  }

  /** A row of consecutive characters has each of them at its distance from the first. */
  lemma {:induction false} PlaceInRow(row: string, first: char, c: char)
    requires forall k: nat | k < |row| :: row[k] as int == first as int + k
    ensures c in row <==> first as int <= c as int < first as int + |row|
    ensures c in row ==> Place(row, c) == c as int - first as int
    decreases |row|
  {
    if row != [] {
      HeadTail(row);
      if |row| > 1 {
        PlaceInRow(row[1..], row[1], c);
      }
    }
  }

  lemma DigitsRow()
    ensures |DIGITS| == 10 && forall k: nat | k < |DIGITS| :: DIGITS[k] as int == '0' as int + k
  {
  }

  lemma LettersRow()
    ensures |LETTERS| == 26 && forall k: nat | k < |LETTERS| :: LETTERS[k] as int == 'a' as int + k
  {
  }

  lemma ConvIsDigitValue(a: byte)
    ensures Conv(a) == DigitValue(a)
  {
    DigitsRow();
    LettersRow();
    PlaceInRow(DIGITS, '0', a);
    PlaceInRow(LETTERS, 'a', Lower(a));
    hide Place;
  }

  lemma DecodeToken(t: Token, rest: bytes, plus: bool)
    requires IsToken(t)
    ensures Decode(TextOf(t) + rest, plus) == [OctetOf(t, plus)] + Decode(rest, plus)
  {
    hide DigitValue, Conv;
    var s := TextOf(t) + rest;
    assert s[|TextOf(t)|..] == rest;
    if t.Escape? {
      ConvIsDigitValue(t.a);
      ConvIsDigitValue(t.b);
    }
  }

  /** A text decodes to what its tokens stand for; the beginning of an escape at its end is dropped. */
  lemma {:induction false} DecodeIs(ts: seq<Token>, cut: bytes, plus: bool)
    requires Tokens(ts) && CutShort(cut)
    ensures Decode(Text(ts) + cut, plus) == Octets(ts, plus)
    decreases |ts|
  {
    if ts == [] {
      assert [] + cut == cut;
    } else {
      assert ts[0] in ts && forall t | t in ts[1..] :: t in ts;
      hide Decode, OctetOf, TextOf;
      Assoc(TextOf(ts[0]), Text(ts[1..]), cut);
      DecodeToken(ts[0], Text(ts[1..]) + cut, plus);
      DecodeIs(ts[1..], cut, plus);
    }
  }

  /** Every text is such a row of tokens. */
  lemma {:induction false} EveryText(s: bytes) returns (ts: seq<Token>, cut: bytes)
    ensures Tokens(ts) && CutShort(cut) && s == Text(ts) + cut
    decreases |s|
  {
    if s == [] || (s[0] == '%' && |s| <= 2) {
      ts, cut := [], s;
    } else {
      var t := if s[0] == '%' then Escape(s[1], s[2]) else Raw(s[0]);
      var more;
      more, cut := EveryText(s[|TextOf(t)|..]);
      ts := [t] + more;
      assert ts[1..] == more;
      Assoc(TextOf(t), Text(more), cut);
      assert s == TextOf(t) + s[|TextOf(t)|..];
    }
  }

  /** In particular, what has no escape and no '+' to be a space stays as it is. */
  lemma {:induction false} DecodeOfRaw(s: bytes, plus: bool)
    requires '%' !in s && (plus ==> '+' !in s)
    ensures Decode(s, plus) == s
  {
    if s != [] {
      assert s[0] in s && forall c | c in s[1..] :: c in s;
      DecodeOfRaw(s[1..], plus);
      HeadTail(s);
    }
  }

  /** Whole tokens decode on their own, whatever follows. */
  lemma {:induction false} DecodeOfParts(ts: seq<Token>, rest: bytes, plus: bool)
    requires Tokens(ts)
    ensures Decode(Text(ts) + rest, plus) == Decode(Text(ts), plus) + Decode(rest, plus)
    decreases |ts|
  {
    AppendNothing(Text(ts));
    DecodeIs(ts, [], plus);
    if ts == [] {
      assert [] + rest == rest;
    } else {
      assert ts[0] in ts && forall t | t in ts[1..] :: t in ts;
      hide Decode, OctetOf, TextOf;
      Assoc(TextOf(ts[0]), Text(ts[1..]), rest);
      DecodeToken(ts[0], Text(ts[1..]) + rest, plus);
      DecodeOfParts(ts[1..], rest, plus);
      AppendNothing(Text(ts[1..]));
      DecodeIs(ts[1..], [], plus);
      Assoc([OctetOf(ts[0], plus)], Octets(ts[1..], plus), Decode(rest, plus));
    }
  }

  // ---- encoding ----

  /** Letters, digits, and "-_~." stay; a space is '+' where that is asked for; all else is an upper-case escape. */
  function TokenFor(c: byte, plus: bool): Token {
    if '0' <= c <= '9' || 'a' <= c <= 'z' || 'A' <= c <= 'Z' || c in {'-', '_', '~', '.'} then Raw(c)
    else if c == ' ' && plus then Raw('+')
    else Escape(HEX[c as int / 16], HEX[c as int % 16])
  }

  function TokensFor(s: bytes, plus: bool): seq<Token> {
    if s == [] then [] else [TokenFor(s[0], plus)] + TokensFor(s[1..], plus)
  }

  lemma {:induction false} EncodeIs(s: bytes, plus: bool)
    ensures Encode(s, plus) == Text(TokensFor(s, plus)) && Tokens(TokensFor(s, plus))
  {
    if s != [] {
      EncodeIs(s[1..], plus);
      var t, ts := TokenFor(s[0], plus), TokensFor(s[1..], plus);
      assert ([t] + ts)[1..] == ts;
      HexIs(s[0] as int / 16);
      HexIs(s[0] as int % 16);
    }
  }

  lemma HexIs(n: nat)
    requires n < 16
    ensures HexDigit(n) == HEX[n]
  {
  }
}
