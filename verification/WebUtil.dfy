/** The text helpers of the HTTP layer: splitting, URL coding, path checking. */
module WebUtil {
  import opened Bytes

  // ---- split ----

  /** The stretch from..to as a field to keep: nothing when it is empty. */
  function Stretch(src: bytes, from: nat, to: nat): seq<bytes>
    requires from <= to <= |src|
  {
    if from == to then [] else [src[from..to]]
  }

  /** The non-empty stretches of src[from..] between separators; an empty separator splits nothing. */
  function PiecesFrom(src: bytes, sep: bytes, from: nat): seq<bytes>
    requires from <= |src|
    decreases |src| - from
  {
    if sep == [] then []
    else
      var i := FindSeq(src, sep, from);
      if i == |src| then Stretch(src, from, i) else Stretch(src, from, i) + PiecesFrom(src, sep, i + |sep|)
  }

  /** What `split` appends to its container. */
  function Pieces(src: bytes, sep: bytes): seq<bytes> {
    PiecesFrom(src, sep, 0)
  }

  /** The split loop at `offset`, with `out` found so far. */
  ghost function SplitLoop(src: bytes, sep: bytes, offset: nat, out: seq<bytes>): seq<bytes>
    requires sep != [] && offset <= |src|
    decreases |src| - offset
  {
    var pos := FindSeq(src, sep, offset);
    if pos == |src| then out + Stretch(src, offset, pos)
    else SplitLoop(src, sep, pos + |sep|, out + Stretch(src, offset, pos))
  }

  lemma {:induction false} SplitLoopAdds(src: bytes, sep: bytes, offset: nat, out: seq<bytes>)
    requires sep != [] && offset <= |src|
    ensures SplitLoop(src, sep, offset, out) == out + PiecesFrom(src, sep, offset)
    decreases |src| - offset
  {
    hide FindSeq, Stretch;
    var pos := FindSeq(src, sep, offset);
    if pos < |src| {
      SplitLoopAdds(src, sep, pos + |sep|, out + Stretch(src, offset, pos));
      Assoc(out, Stretch(src, offset, pos), PiecesFrom(src, sep, pos + |sep|));
    }
  }

  /** One turn of the loop, by what it finds. */
  lemma SplitTurn(src: bytes, sep: bytes, offset: nat, out: seq<bytes>, pos: nat)
    requires sep != [] && offset <= |src| && pos == FindSeq(src, sep, offset)
    ensures offset <= pos && (pos < |src| ==> pos + |sep| <= |src|)
    ensures pos == |src| && offset < pos ==> SplitLoop(src, sep, offset, out) == out + [src[offset..]]
    ensures pos == |src| && offset == pos ==> SplitLoop(src, sep, offset, out) == out
    ensures pos < |src| && offset < pos ==>
              SplitLoop(src, sep, offset, out) == SplitLoop(src, sep, pos + |sep|, out + [src[offset..pos]])
    ensures pos < |src| && offset == pos ==>
              SplitLoop(src, sep, offset, out) == SplitLoop(src, sep, pos + |sep|, out)
  {
    hide FindSeq;
    TailSlice(src, offset);
    AppendNothing(out);
  }

  lemma SplitStart(src: bytes, sep: bytes, out: seq<bytes>)
    ensures sep == [] ==> out + Pieces(src, sep) == out
    ensures sep != [] ==> SplitLoop(src, sep, 0, out) == out + Pieces(src, sep)
  {
    hide FindSeq;
    if sep != [] {
      SplitLoopAdds(src, sep, 0, out);
    }
  }

  method Split(src: bytes, sep: bytes, container: seq<bytes>) returns (out: seq<bytes>, n: nat)
    ensures out == container + Pieces(src, sep)
    ensures n == if sep == [] then 0 else |out|
  {
    hide *;
    SplitStart(src, sep, container);
    out := container;
    if sep == [] {
      return out, 0;
    }
    ghost var all := container + Pieces(src, sep);
    var offset := 0;
    while offset < |src|
      invariant 0 <= offset <= |src|
      invariant SplitLoop(src, sep, offset, out) == all
    {
      var pos := FindSeq(src, sep, offset);
      SplitTurn(src, sep, offset, out, pos);
      if pos == |src| {
        out := out + [src[offset..]];
        return out, |out|;
      }
      if offset == pos {
        offset := pos + |sep|;
        continue;
      }
      out := out + [src[offset..pos]];
      offset := pos + |sep|;
    }
    SplitTurn(src, sep, offset, out, offset);
    n := |out|;
  }

  /** The naive split: every stretch between separators, empty ones included. */
  function NaiveFields(src: bytes, sep: bytes, from: nat): seq<bytes>
    requires sep != [] && from <= |src|
    decreases |src| - from
  {
    var i := FindSeq(src, sep, from);
    if i == |src| then [src[from..]] else [src[from..i]] + NaiveFields(src, sep, i + |sep|)
  }

  function NonEmpty(fs: seq<bytes>): seq<bytes> {
    if fs == [] then [] else (if fs[0] == [] then [] else [fs[0]]) + NonEmpty(fs[1..])
  }

  lemma NonEmptyCons(f: bytes, fs: seq<bytes>)
    ensures NonEmpty([f] + fs) == (if f == [] then [] else [f]) + NonEmpty(fs)
    ensures fs == [] ==> NonEmpty([f]) == if f == [] then [] else [f]
  {
    assert ([f] + fs)[1..] == fs;
    assert fs == [] ==> [f] + fs == [f];
  }

  /** `split` is the naive split with the empty fields dropped. */
  lemma {:induction false} SplitDropsEmptyFields(src: bytes, sep: bytes, from: nat)
    requires sep != [] && from <= |src|
    ensures PiecesFrom(src, sep, from) == NonEmpty(NaiveFields(src, sep, from))
    decreases |src| - from
  {
    hide NonEmpty, FindSeq;
    var i := FindSeq(src, sep, from);
    if i == |src| {
      NonEmptyCons(src[from..], []);
      assert src[from..i] == src[from..];
    } else {
      SplitDropsEmptyFields(src, sep, i + |sep|);
      NonEmptyCons(src[from..i], NaiveFields(src, sep, i + |sep|));
    }
  }

  function Join(ps: seq<bytes>, c: byte): bytes {
    if ps == [] then [] else if |ps| == 1 then ps[0] else ps[0] + [c] + Join(ps[1..], c)
  }

  /** A stretch `p` free of `c`, up to the next `c` or the end, is the first field. */
  lemma FirstField(s: bytes, from: nat, p: bytes, c: byte)
    requires from + |p| <= |s| && s[from..from + |p|] == p && c !in p
    requires from + |p| < |s| ==> s[from + |p|] == c
    ensures FindSeq(s, [c], from) == from + |p|
  {
    forall k: nat | from <= k < from + |p| ensures !StartsAt(s, [c], k) {
      StartsAtByte(s, c, k);
      assert s[k] == p[k - from];
    }
    if from + |p| < |s| {
      StartsAtByte(s, c, from + |p|);
    }
  }

  /** The first piece of a join, found at `from`, and where the rest of the join starts. */
  lemma FirstOfJoin(s: bytes, from: nat, ps: seq<bytes>, c: byte)
    requires ps != [] && from <= |s| && s[from..] == Join(ps, c)
    ensures var i := from + |ps[0]|;
            && i <= |s| && s[from..i] == ps[0]
            && (|ps| == 1 ==> i == |s|)
            && (|ps| > 1 ==> i < |s| && s[i] == c && s[i + 1..] == Join(ps[1..], c))
  {
    var p, i, j := ps[0], from + |ps[0]|, s[from..];
    if |ps| == 1 {
      assert j == p;
    } else {
      assert j == p + [c] + Join(ps[1..], c);
      assert s[i] == j[|p|] && s[i + 1..] == j[|p| + 1..];
    }
    assert s[from..i] == j[..|p|];
  }

  lemma NothingLeft(s: bytes, from: nat, c: byte)
    requires from == |s|
    ensures PiecesFrom(s, [c], from) == []
  {
  }

  lemma PieceFound(s: bytes, from: nat, i: nat, c: byte)
    requires from < i <= |s| && FindSeq(s, [c], from) == i
    ensures PiecesFrom(s, [c], from) ==
            [s[from..i]] + if i == |s| then [] else PiecesFrom(s, [c], i + 1)
  {
    hide FindSeq;
  }

  lemma JoinOfNone(c: byte)
    ensures Join([], c) == []
  {
  }

  /** Splitting at `c` undoes joining with `c`, for non-empty pieces free of `c`. */
  lemma {:induction false} PiecesOfJoin(s: bytes, from: nat, ps: seq<bytes>, c: byte)
    requires from <= |s| && s[from..] == Join(ps, c)
    requires forall k: nat | k < |ps| :: ps[k] != [] && c !in ps[k]
    ensures PiecesFrom(s, [c], from) == ps
    decreases |ps|
  {
    hide Join, FindSeq, PiecesFrom;
    if ps == [] {
      JoinOfNone(c);
      NothingLeft(s, from, c);
    } else {
      var i := from + |ps[0]|;
      FirstOfJoin(s, from, ps, c);
      FirstField(s, from, ps[0], c);
      PieceFound(s, from, i, c);
      if |ps| > 1 {
        PiecesOfJoin(s, i + 1, ps[1..], c);
      }
      HeadTail(ps);
    }
  }

  // ---- URL coding ----

  predicate Unreserved(c: byte) {
    c == '-' || c == '_' || c == '~' || c == '.' || IsDigit(c) || 'a' <= c <= 'z' || 'A' <= c <= 'Z'
  }

  function HexDigit(n: nat): byte
    requires n < 16
  {
    if n < 10 then ('0' as int + n) as char else ('A' as int + n - 10) as char
  }

  function EncodeByte(c: byte, spaceToPlus: bool): (e: bytes)
    ensures e != []
  {
    if Unreserved(c) then [c]
    else if spaceToPlus && c == ' ' then ['+']
    else ['%', HexDigit(c as int / 16), HexDigit(c as int % 16)]
  }

  function Encode(s: bytes, spaceToPlus: bool): bytes {
    if s == [] then [] else EncodeByte(s[0], spaceToPlus) + Encode(s[1..], spaceToPlus)
  }

  method UrlEncode(src: bytes, spaceToPlus: bool) returns (ret: bytes)
    ensures ret == Encode(src, spaceToPlus)
  {
    ret := [];
    var i := 0;
    while i < |src|
      invariant 0 <= i <= |src|
      invariant Encode(src, spaceToPlus) == ret + Encode(src[i..], spaceToPlus)
    {
      var e := src[i];
      DropDrop(src, i, 1);
      Assoc(ret, EncodeByte(e, spaceToPlus), Encode(src[i + 1..], spaceToPlus));
      if e == '-' || e == '_' || e == '~' || e == '.' || IsDigit(e) || 'a' <= e <= 'z' || 'A' <= e <= 'Z' {
        ret := ret + [e];
      } else if spaceToPlus && e == ' ' {
        ret := ret + ['+'];
      } else {
        var c := e as int;
        ret := ret + ['%', HexDigit(c / 16), HexDigit(c % 16)];
      }
      i := i + 1;
    }
  }

  /** The value of a hexadecimal digit; letters past f are taken too, anything else is -1. */
  function Conv(a: byte): int {
    if IsDigit(a) then a as int - '0' as int
    else if 'a' <= a <= 'z' then a as int - 'a' as int + 10
    else if 'A' <= a <= 'Z' then a as int - 'A' as int + 10
    else -1
  }

  /** The narrowing of an int to a char. */
  function Narrow(n: int): byte {
    (n % 256) as char
  }

  function Decode(s: bytes, plusToSpace: bool): bytes
    decreases |s|
  {
    if s == [] then []
    else if s[0] == '+' && plusToSpace then [' '] + Decode(s[1..], plusToSpace)
    else if s[0] == '%' then
      if |s| <= 2 then [] else [Narrow(Conv(s[1]) * 16 + Conv(s[2]))] + Decode(s[3..], plusToSpace)
    else [s[0]] + Decode(s[1..], plusToSpace)
  }

  method UrlDecode(src: bytes, plusToSpace: bool) returns (ret: bytes)
    ensures ret == Decode(src, plusToSpace)
  {
    ret := [];
    hide Conv, Narrow;
    var i := 0;
    while i < |src|
      invariant 0 <= i <= |src|
      invariant Decode(src, plusToSpace) == ret + Decode(src[i..], plusToSpace)
    {
      ghost var rest := src[i..];
      DropDrop(src, i, 1);
      if src[i] == '+' && plusToSpace {
        Assoc(ret, [' '], Decode(rest[1..], plusToSpace));
        ret := ret + [' '];
      } else if src[i] == '%' {
        if i + 2 >= |src| {
          break;
        }
        DropDrop(src, i, 3);
        var first := Conv(src[i + 1]);
        var second := Conv(src[i + 2]);
        Assoc(ret, [Narrow(first * 16 + second)], Decode(rest[3..], plusToSpace));
        ret := ret + [Narrow(first * 16 + second)];
        i := i + 2;
      } else {
        Assoc(ret, [src[i]], Decode(rest[1..], plusToSpace));
        ret := ret + [src[i]];
      }
      i := i + 1;
    }
  }

  lemma ConvOfHexDigit(n: nat)
    requires n < 16
    ensures Conv(HexDigit(n)) == n
  {
  }

  lemma DecodeEncodedByte(c: byte, rest: bytes, plus: bool)
    ensures Decode(EncodeByte(c, plus) + rest, plus) == [c] + Decode(rest, plus)
  {
    var e := EncodeByte(c, plus);
    assert (e + rest)[|e|..] == rest;
    ConvOfHexDigit(c as int / 16);
    ConvOfHexDigit(c as int % 16);
  }

  /** Decoding undoes encoding, octet by octet, with either treatment of the space. */
  lemma {:induction false} DecodeOfEncode(s: bytes, plus: bool)
    ensures Decode(Encode(s, plus), plus) == s
  {
    if s != [] {
      DecodeEncodedByte(s[0], Encode(s[1..], plus), plus);
      DecodeOfEncode(s[1..], plus);
    }
  }

  /** The octets an encoded text is made of. */
  predicate UrlSafe(c: byte) {
    Unreserved(c) || c == '%' || c == '+'
  }

  lemma {:induction false} EncodeIsSafe(s: bytes, plus: bool)
    ensures forall c | c in Encode(s, plus) :: UrlSafe(c)
    ensures Encode(s, plus) == [] <==> s == []
  {
    if s != [] {
      EncodeIsSafe(s[1..], plus);
    }
  }

  // ---- path check ----

  const SLASH: bytes := "/"
  const UP: bytes := ".."
  const HERE: bytes := "."

  /** The source's level counter: ".." goes up, every other segment goes down. */
  predicate LevelsOk(segs: seq<bytes>, level: nat) {
    segs == [] ||
    (if segs[0] == UP then level > 0 && LevelsOk(segs[1..], level - 1) else LevelsOk(segs[1..], level + 1))
  }

  predicate PathOk(path: bytes) {
    LevelsOk(Pieces(path, SLASH), 0)
  }

  lemma LevelsStep(segs: seq<bytes>, i: nat, level: nat)
    requires i < |segs|
    ensures LevelsOk(segs[i..], level) ==
            if segs[i] == UP then level > 0 && LevelsOk(segs[i + 1..], level - 1)
            else LevelsOk(segs[i + 1..], level + 1)
  {
    DropDrop(segs, i, 1);
  }

  method VaildPath(path: bytes) returns (ok: bool)
    ensures ok == PathOk(path)
  {
    var v, n := Split(path, SLASH, []);
    assert v == Pieces(path, SLASH);
    ghost var all := LevelsOk(v, 0);
    var level := 0;
    var i := 0;
    while i < |v|
      invariant 0 <= i <= |v| && level >= 0
      invariant LevelsOk(v[i..], level) == all
    {
      LevelsStep(v, i, level);
      if v[i] == UP {
        level := level - 1;
        if level < 0 {
          return false;
        }
      } else {
        level := level + 1;
      }
      i := i + 1;
    }
    assert v[i..] == [];
    ok := true;
  }

  /** Resolving segments on a stack of directory names: ".." pops, "." stays, a name pushes. */
  function Resolve(segs: seq<bytes>, stack: seq<bytes>): Option<seq<bytes>> {
    if segs == [] then Some(stack)
    else if segs[0] == UP then
      if stack == [] then None else Resolve(segs[1..], stack[..|stack| - 1])
    else if segs[0] == HERE then Resolve(segs[1..], stack)
    else Resolve(segs[1..], stack + [segs[0]])
  }

  function NoDots(segs: seq<bytes>): seq<bytes> {
    if segs == [] then [] else (if segs[0] == HERE then [] else [segs[0]]) + NoDots(segs[1..])
  }

  /** A path stays inside its root exactly when the counter accepts it without its "." segments. */
  lemma {:induction false} StaysInsideIff(segs: seq<bytes>, stack: seq<bytes>)
    ensures Resolve(segs, stack).Some? <==> LevelsOk(NoDots(segs), |stack|)
  {
    if segs == [] {
    } else {
      var rest := NoDots(segs[1..]);
      assert NoDots(segs) == if segs[0] == HERE then rest else [segs[0]] + rest;
      assert segs[0] != HERE ==> NoDots(segs)[1..] == rest;
      if segs[0] == UP {
        if stack != [] {
          StaysInsideIff(segs[1..], stack[..|stack| - 1]);
        }
      } else if segs[0] == HERE {
        StaysInsideIff(segs[1..], stack);
      } else {
        StaysInsideIff(segs[1..], stack + [segs[0]]);
      }
    }
  }

  lemma {:induction false} DroppingDotsOnlyTightens(segs: seq<bytes>, level: nat, more: nat)
    requires LevelsOk(NoDots(segs), level)
    ensures LevelsOk(segs, level + more)
  {
    if segs != [] {
      var rest := NoDots(segs[1..]);
      assert NoDots(segs) == if segs[0] == HERE then rest else [segs[0]] + rest;
      assert segs[0] != HERE ==> NoDots(segs)[1..] == rest;
      if segs[0] == HERE {
        DroppingDotsOnlyTightens(segs[1..], level, more + 1);
      } else if segs[0] == UP {
        DroppingDotsOnlyTightens(segs[1..], level - 1, more);
      } else {
        DroppingDotsOnlyTightens(segs[1..], level + 1, more);
      }
    }
  }

  lemma {:induction false} NoDotsIdle(segs: seq<bytes>)
    requires HERE !in segs
    ensures NoDots(segs) == segs
  {
    if segs != [] {
      assert segs[0] in segs;
      NoDotsIdle(segs[1..]);
    }
  }

  /** The level check never rejects segments that stay inside; without "." it is exact. */
  lemma LevelCheck(segs: seq<bytes>)
    ensures Resolve(segs, []).Some? <==> LevelsOk(NoDots(segs), 0)
    ensures Resolve(segs, []).Some? ==> LevelsOk(segs, 0)
    ensures HERE !in segs ==> (LevelsOk(segs, 0) <==> Resolve(segs, []).Some?)
  {
    StaysInsideIff(segs, []);
    if LevelsOk(NoDots(segs), 0) {
      DroppingDotsOnlyTightens(segs, 0, 0);
    }
    if HERE !in segs {
      NoDotsIdle(segs);
    }
  }

  /** The path check, said of whole paths. */
  lemma PathCheck(path: bytes)
    ensures Resolve(Pieces(path, SLASH), []).Some? <==> LevelsOk(NoDots(Pieces(path, SLASH)), 0)
    ensures Resolve(Pieces(path, SLASH), []).Some? ==> PathOk(path)
    ensures HERE !in Pieces(path, SLASH) ==> (PathOk(path) <==> Resolve(Pieces(path, SLASH), []).Some?)
  {
    LevelCheck(Pieces(path, SLASH));
  }

  /** How many of the first `k` segments go up. */
  function Ups(segs: seq<bytes>, k: nat): nat
    requires k <= |segs|
  {
    if k == 0 then 0 else Ups(segs, k - 1) + if segs[k - 1] == ".." then 1 else 0
  }

  lemma {:induction false} UpsTail(segs: seq<bytes>, k: nat)
    requires 0 < k <= |segs|
    ensures Ups(segs, k) == Ups(segs[1..], k - 1) + if segs[0] == ".." then 1 else 0
    decreases k
  {
    if k > 1 {
      UpsTail(segs, k - 1);
    }
  }

  /** No first part of the segments goes up more often than it goes anywhere else, `level` more allowed. */
  predicate NeverBelow(segs: seq<bytes>, level: nat) {
    forall k: nat | k <= |segs| :: 2 * Ups(segs, k) <= level + k
  }

  lemma NeverBelowStep(segs: seq<bytes>, level: nat)
    requires segs != []
    ensures NeverBelow(segs, level) <==>
            if segs[0] == ".." then level > 0 && NeverBelow(segs[1..], level - 1) else NeverBelow(segs[1..], level + 1)
  {
    var up, rest := segs[0] == "..", segs[1..];
    forall k: nat | 0 < k <= |segs| ensures Ups(segs, k) == Ups(rest, k - 1) + if up then 1 else 0 {
      UpsTail(segs, k);
    }
    hide Ups;
    if up && level == 0 {
      assert Ups(rest, 0) >= 0;
      assert 2 * Ups(segs, 1) > level + 1;
    } else {
      var next := if up then level - 1 else level + 1;
      if NeverBelow(segs, level) {
        forall k: nat | k <= |rest| ensures 2 * Ups(rest, k) <= next + k {
          assert 2 * Ups(segs, k + 1) <= level + (k + 1);
        }
      }
      if NeverBelow(rest, next) {
        NothingUp(segs);
        forall k: nat | k <= |segs| ensures 2 * Ups(segs, k) <= level + k {
          assert k > 0 ==> 2 * Ups(rest, k - 1) <= next + (k - 1);
        }
      }
    }
  }

  lemma NothingUp(segs: seq<bytes>)
    ensures Ups(segs, 0) == 0
  {
  }

  /** The counter accepts exactly such segments. */
  lemma {:induction false} LevelsIff(segs: seq<bytes>, level: nat)
    ensures LevelsOk(segs, level) <==> NeverBelow(segs, level)
  {
    hide NeverBelow;
    if segs == [] {
      NoneBelow(level);
    } else {
      NeverBelowStep(segs, level);
      if segs[0] == UP {
        if level > 0 {
          LevelsIff(segs[1..], level - 1);
        }
      } else {
        LevelsIff(segs[1..], level + 1);
      }
    }
  }

  lemma NoneBelow(level: nat)
    ensures NeverBelow([], level)
  {
  }

  /** So the path check looks for an escape before each segment, of a path cut at its slashes. */
  lemma PathOkIff(path: bytes)
    ensures PathOk(path) <==> NeverBelow(Pieces(path, "/"), 0)
  {
    hide PiecesFrom, Ups, LevelsOk, NeverBelow;
    LevelsIff(Pieces(path, SLASH), 0);
  }

  /** The counter takes "." for a descent, so it accepts a path that leaves the root. */
  lemma DotHidesAnEscape()
    ensures PathOk("/./..") && Resolve(Pieces("/./..", "/"), []) == None
  {
    var p: bytes := "/./..";
    assert p[1..] == Join([HERE, UP], '/');
    PiecesOfJoin(p, 1, [HERE, UP], '/');
    StartsAtByte(p, '/', 0);
  }
}
