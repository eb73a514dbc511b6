/** The numbers in a message: which texts std::stol reads, as what, and the body length they declare. */
module Numerals {
  import opened Bytes
  import opened HttpMessage
  import opened RequestLine

  // ---- which texts std::stol reads ----

  /** Spaces, an optional sign, at least one digit, and then no digit. */
  predicate Numeral(s: bytes, sp: bytes, sign: bytes, ds: bytes, tail: bytes) {
    && s == sp + sign + ds + tail
    && AllSpace(sp) && (sign == [] || sign == ['-'] || sign == ['+'])
    && ds != [] && (forall c | c in ds :: IsDigit(c)) && (tail != [] ==> !IsDigit(tail[0]))
  }

  function Value(sign: bytes, ds: bytes): int
    requires forall c | c in ds :: IsDigit(c)
  {
    var v: int := Decimal(ds);
    if sign == ['-'] then -v else v
  }

  /** A text that std::stol reads as a 64-bit long. */
  ghost predicate Numeric(s: bytes) {
    exists sp, sign, ds, tail :: Numeral(s, sp, sign, ds, tail) && -LONG_LIMIT <= Value(sign, ds) < LONG_LIMIT
  }

  lemma DigitsRun(s: bytes, j: nat, k: nat)
    requires j <= k <= |s| && (forall i: nat | j <= i < k :: IsDigit(s[i])) && (k < |s| ==> !IsDigit(s[k]))
    ensures DigitsEnd(s, j) == k
    decreases k - j
  {
    if j < k {
      DigitsRun(s, j + 1, k);
    }
  }

  lemma NumeralCuts(s: bytes, sp: bytes, sign: bytes, ds: bytes, tail: bytes)
    requires Numeral(s, sp, sign, ds, tail)
    ensures var i, j := |sp|, |sp| + |sign|;
            var k := j + |ds|;
            && k <= |s| && s[..i] == sp && s[i..j] == sign && s[j..k] == ds && s[k..] == tail
  {
  }

  lemma SignAt(s: bytes, sp: bytes, sign: bytes, ds: bytes, tail: bytes)
    requires Numeral(s, sp, sign, ds, tail)
    ensures |sp| < |s| && !IsSpace(s[|sp|])
    ensures (s[|sp|] == '-' <==> sign == ['-']) && (s[|sp|] == '+' <==> sign == ['+'])
  {
    NumeralCuts(s, sp, sign, ds, tail);
    var i, j := |sp|, |sp| + |sign|;
    assert s[j] == ds[0] && ds[0] in ds;
    if sign != [] {
      assert s[i..j][0] == sign[0];
    }
  }

  lemma NumeralRuns(s: bytes, sp: bytes, sign: bytes, ds: bytes, tail: bytes)
    requires Numeral(s, sp, sign, ds, tail)
    ensures var i, j := |sp|, |sp| + |sign|;
            && j + |ds| <= |s| && RunEnd(s, 0, true) == i && DigitsEnd(s, j) == j + |ds|
            && s[j..j + |ds|] == ds
  {
    NumeralCuts(s, sp, sign, ds, tail);
    SignAt(s, sp, sign, ds, tail);
    var i, j := |sp|, |sp| + |sign|;
    var k := j + |ds|;
    forall x: nat | x < i ensures IsSpace(s[x]) {
      assert s[x] == sp[x] && sp[x] in sp;
    }
    RunEndAt(s, 0, i, true);
    forall x: nat | j <= x < k ensures IsDigit(s[x]) {
      assert s[x] == ds[x - j] && ds[x - j] in ds;
    }
    assert k < |s| ==> s[k] == tail[0];
    DigitsRun(s, j, k);
  }

  /** What std::stol makes of a numeral: its value, or an exception when that is out of range. */
  lemma StolReads(s: bytes, sp: bytes, sign: bytes, ds: bytes, tail: bytes)
    requires Numeral(s, sp, sign, ds, tail)
    ensures Stol(s) == if -LONG_LIMIT <= Value(sign, ds) < LONG_LIMIT then Some(Value(sign, ds)) else None
  {
    SignAt(s, sp, sign, ds, tail);
    NumeralRuns(s, sp, sign, ds, tail);
    hide RunEnd, DigitsEnd, Decimal;
  }

  lemma StolParts(s: bytes) returns (sp: bytes, sign: bytes, ds: bytes, tail: bytes)
    requires Stol(s).Some?
    ensures Numeral(s, sp, sign, ds, tail)
  {
    hide Decimal, RunEnd, DigitsEnd;
    var i := RunEnd(s, 0, true);
    var j := if i < |s| && (s[i] == '-' || s[i] == '+') then i + 1 else i;
    var k := DigitsEnd(s, j);
    sp, sign, ds, tail := s[..i], s[i..j], s[j..k], s[k..];
    DigitsStop(s, j);
    assert s == s[..i] + s[i..j] + s[j..k] + s[k..];
  }

  lemma DigitsStop(s: bytes, i: nat)
    requires i <= |s|
    ensures DigitsEnd(s, i) < |s| ==> !IsDigit(s[DigitsEnd(s, i)])
    decreases |s| - i
  {
    if i < |s| && IsDigit(s[i]) {
      DigitsStop(s, i + 1);
    }
  }

  /** std::stol throws exactly on the texts that are no numeral in range. */
  lemma StolThrowsIff(s: bytes)
    ensures Stol(s).None? <==> !Numeric(s)
  {
    hide Stol, Value, Decimal;
    if Stol(s).Some? {
      var sp, sign, ds, tail := StolParts(s);
      StolReads(s, sp, sign, ds, tail);
    }
    if Numeric(s) {
      var sp, sign, ds, tail :| Numeral(s, sp, sign, ds, tail) && -LONG_LIMIT <= Value(sign, ds) < LONG_LIMIT;
      StolReads(s, sp, sign, ds, tail);
    }
  }

  // ---- the declared length of a body ----

  /**
   * The body length that a header map declares: none at all without the header, otherwise the value of its numeral,
   * taken as an unsigned 64-bit number.
   */
  ghost predicate Declares(headers: Fields, n: nat) {
    if CONTENT_LENGTH !in headers then n == 0
    else
      exists sp, sign, ds, tail ::
        && Numeral(headers[CONTENT_LENGTH], sp, sign, ds, tail)
        && -LONG_LIMIT <= Value(sign, ds) < LONG_LIMIT && n == Value(sign, ds) % 0x1_0000_0000_0000_0000
  }

  /** BodySize is the declared length. */
  lemma BodySizeIff(headers: Fields, n: nat)
    ensures BodySize(headers) == Some(n) <==> Declares(headers, n)
  {
    hide Stol, Value;
    if CONTENT_LENGTH in headers {
      var text := headers[CONTENT_LENGTH];
      if BodySize(headers) == Some(n) {
        var sp, sign, ds, tail := StolParts(text);
        StolReads(text, sp, sign, ds, tail);
      }
      if Declares(headers, n) {
        var sp, sign, ds, tail :| Numeral(text, sp, sign, ds, tail) && -LONG_LIMIT <= Value(sign, ds) < LONG_LIMIT
          && n == Value(sign, ds) % 0x1_0000_0000_0000_0000;
        StolReads(text, sp, sign, ds, tail);
      }
    }
  }

  lemma BodySizeThrowsIff(headers: Fields)
    ensures BodySize(headers).None? <==> CONTENT_LENGTH in headers && !Numeric(headers[CONTENT_LENGTH])
  {
    hide Stol, Numeric;
    if CONTENT_LENGTH in headers {
      StolThrowsIff(headers[CONTENT_LENGTH]);
    }
  }

  // ---- printed lengths ----

  lemma {:induction false} DecimalRoundTrip(n: nat)
    ensures forall c | c in ToDecimal(n) :: IsDigit(c)
    ensures ToDecimal(n) != [] && Decimal(ToDecimal(n)) == n
  {
    var d := ToDecimal(n);
    if n >= 10 {
      DecimalRoundTrip(n / 10);
      assert d[..|d| - 1] == ToDecimal(n / 10);
    } else {
      assert d[..0] == [];
    }
  }

  lemma AllDigits(s: bytes, i: nat)
    requires i <= |s| && forall c | c in s :: IsDigit(c)
    ensures DigitsEnd(s, i) == |s|
    decreases |s| - i
  {
    if i < |s| {
      AllDigits(s, i + 1);
    }
  }

  lemma LengthReadBack(n: nat)
    requires n < LONG_LIMIT
    ensures Stol(ToDecimal(n)) == Some(n)
  {
    var s := ToDecimal(n);
    DecimalRoundTrip(n);
    hide ToDecimal, Decimal;
    assert s[0] in s;
    AllDigits(s, 0);
    assert s[0..|s|] == s;
  }

  /** A printed length declares itself. */
  lemma PrintedLengthDeclared(headers: Fields, n: nat)
    requires n < LONG_LIMIT && CONTENT_LENGTH in headers && headers[CONTENT_LENGTH] == ToDecimal(n)
    ensures Declares(headers, n)
  {
    hide ToDecimal, Stol, Declares;
    LengthReadBack(n);
    BodySizeIff(headers, n);
  }

  lemma TwoDigits(a: byte, b: byte)
    requires IsDigit(a) && IsDigit(b)
    ensures Decimal([a]) == a as int - '0' as int
    ensures Decimal([a, b]) == 10 * (a as int - '0' as int) + (b as int - '0' as int)
  {
    assert [a][..0] == [] && [a, b][..1] == [a];
    assert Decimal([a]) == Decimal([]) * 10 + (a as int - '0' as int);
  }

  lemma ReadsTwoDigits(s: bytes, sp: bytes, sign: bytes, a: byte, b: byte, tail: bytes)
    requires IsDigit(a) && IsDigit(b) && Numeral(s, sp, sign, [a, b], tail)
    ensures var v: int := 10 * (a as int - '0' as int) + (b as int - '0' as int);
            Stol(s) == Some(if sign == ['-'] then -v else v)
  {
    hide Decimal, Stol, Numeral;
    TwoDigits(a, b);
    DigitsOnly(a, b);
    StolReads(s, sp, sign, [a, b], tail);
  }

  lemma DigitsOnly(a: byte, b: byte)
    requires IsDigit(a) && IsDigit(b)
    ensures forall c | c in [a, b] :: IsDigit(c)
  {
  }

  /** At inputs: base ten, most significant digit first; spaces and a sign before it, and anything after it. */
  lemma NumbersAtInputs()
    ensures ToDecimal(24) == "24" && Stol("24") == Some(24)
    ensures Stol(" \t+24;") == Some(24) && Stol("-20x5") == Some(-20)
  {
    hide Stol;
    ReadsTwoDigits("24", [], [], '2', '4', []);
    ReadsTwoDigits(" \t+24;", [' ', '\t'], ['+'], '2', '4', [';']);
    ReadsTwoDigits("-20x5", [], ['-'], '2', '0', ['x', '5']);
  }
}
