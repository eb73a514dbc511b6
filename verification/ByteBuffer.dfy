/** The byte buffer of the reactor: one growable array, a read index and a write index. */
module ByteBuffer {
  import opened Bytes

  const BUFFERSIZE: nat := 1024

  function Max(a: nat, b: nat): nat {
    if a < b then b else a
  }

  /** `n` zero octets: what std::vector::resize fills new places with. */
  function Zeros(n: nat): (z: bytes)
    ensures |z| == n
  {
    seq(n, _ => '\0')
  }

  /** The value of a buffer: array contents and the two indices. */
  datatype Buf = Buf(store: bytes, rd: nat, wr: nat) {

    predicate Valid() {
      rd <= wr <= |store|
    }

    /** The abstract queue: the octets between the indices. */
    function Unread(): bytes
      requires Valid()
    {
      store[rd..wr]
    }

    /** EnsureWriteSpaceSize: fit, compact to the front, or grow. */
    function Ensure(len: nat): (b: Buf)
      requires Valid()
      ensures b.Valid() && b.Unread() == Unread()
      ensures len <= |b.store| - b.wr
    {
      if len <= |store| - wr then this
      else if len <= |store| - wr + rd then Buf(Unread() + store[wr - rd..], 0, wr - rd)
      else Buf(store + Zeros(wr + len - |store|), rd, wr)
    }

    /** Write, which leaves the write index where it is. */
    function Write(data: bytes): (b: Buf)
      requires Valid()
      ensures b.Valid() && b.Unread() == Unread()
      ensures b.wr + |data| <= |b.store| && b.store[b.wr..b.wr + |data|] == data
    {
      var e := Ensure(|data|);
      e.(store := e.store[..e.wr] + data + e.store[e.wr + |data|..])
    }

    /** WriteAndAdd: the octets join the queue at its end. */
    function Append(data: bytes): (b: Buf)
      requires Valid()
      ensures b.Valid() && b.Unread() == Unread() + data
    {
      var w := Write(data);
      w.(wr := w.wr + |data|)
    }

    /** MoveReadPosition: octets leave the queue at its front. */
    function Skip(n: nat): (b: Buf)
      requires Valid() && n <= wr - rd
      ensures b.Valid() && b.Unread() == Unread()[n..]
    {
      this.(rd := rd + n)
    }

    function Clear(): (b: Buf)
      ensures b.Valid() && b.Unread() == []
    {
      this.(rd := 0, wr := 0)
    }
  }

  const EMPTY: Buf := Buf(Zeros(BUFFERSIZE), 0, 0)

  lemma FirstWrite(data: bytes)
    ensures EMPTY.Append(data).Unread() == data
  {
    assert EMPTY.Unread() == [];
    assert [] + data == data;
  }

  class Buffer {
    var store: array<byte>
    var rd: nat
    var wr: nat

    ghost predicate Valid()
      reads this
    {
      rd <= wr <= store.Length
    }

    ghost function View(): (b: Buf)
      reads this, store
      requires Valid()
      ensures b.Valid()
    {
      Buf(store[..], rd, wr)
    }

    ghost function Unread(): bytes
      reads this, store
      requires Valid()
    {
      View().Unread()
    }

    constructor ()
      ensures Valid() && fresh(store)
      ensures View() == EMPTY
    {
      store := new byte[BUFFERSIZE](_ => '\0');
      rd, wr := 0, 0;
    }

    /** CurrentEnableReadSpaceSize */
    function Readable(): (n: nat)
      reads this, store
      requires Valid()
      ensures n == |Unread()|
    {
      wr - rd
    }

    /** Fits as it is, or moves the unread octets to the front in place, or reallocates. */
    method EnsureWriteSpaceSize(len: nat)
      requires Valid()
      modifies this, store
      ensures Valid() && (store == old(store) || fresh(store))
      ensures View() == old(View()).Ensure(len)
    {
      if len <= store.Length - wr {
      } else if len <= store.Length - wr + rd {
        MoveToFront();
      } else {
        var was := store;
        var size := wr + len;
        var wider := new byte[size](i requires 0 <= i < size reads was
          => if i < was.Length then was[i] else '\0');
        store := wider;
      }
    }

    /** std::copy of the unread octets onto the front; the two ranges may overlap. */
    method MoveToFront()
      requires Valid()
      modifies store, this`rd, this`wr
      ensures Valid()
      ensures View() == Buf(old(Unread()) + old(store[..])[old(wr) - old(rd)..], 0, old(wr) - old(rd))
    {
      var n := wr - rd;
      var i := 0;
      while i < n
        modifies store
        invariant 0 <= i <= n
        invariant forall k | 0 <= k < i :: store[k] == old(store[rd + k])
        invariant forall k | i <= k < store.Length :: store[k] == old(store[k])
      {
        store[i] := store[rd + i];
        i := i + 1;
      }
      rd, wr := 0, n;
    }

    method Write(data: bytes)
      requires Valid()
      modifies this, store
      ensures Valid() && (store == old(store) || fresh(store))
      ensures View() == old(View()).Write(data)
    {
      if |data| == 0 {
        return;
      }
      EnsureWriteSpaceSize(|data|);
      CopyIn(data);
    }

    /** std::copy to the write position. */
    method CopyIn(data: bytes)
      requires Valid() && wr + |data| <= store.Length
      modifies store
      ensures store[..] == old(store[..])[..wr] + data + old(store[..])[wr + |data|..]
    {
      var i := 0;
      while i < |data|
        invariant 0 <= i <= |data|
        invariant store[..] == old(store[..])[..wr] + data[..i] + old(store[..])[wr + i..]
      {
        store[wr + i] := data[i];
        i := i + 1;
      }
    }

    method MoveWritePosition(len: nat)
      requires Valid() && len <= store.Length - wr
      modifies this`wr
      ensures Valid()
      ensures View() == old(View()).(wr := old(wr) + len)
    {
      wr := wr + len;
    }

    method WriteAndAdd(data: bytes)
      requires Valid()
      modifies this, store
      ensures Valid() && (store == old(store) || fresh(store))
      ensures View() == old(View()).Append(data)
    {
      Write(data);
      MoveWritePosition(|data|);
    }

    /** Appends the unread octets of a different buffer, which stays as it is. */
    method WriteAsBufferAndAdd(b: Buffer)
      requires Valid() && b.Valid() && b != this && b.store != store
      modifies this, store
      ensures Valid() && (store == old(store) || fresh(store))
      ensures View() == old(View()).Append(old(b.Unread()))
    {
      WriteAndAdd(b.store[b.rd..b.wr]);
    }

    method MoveReadPosition(len: nat)
      requires Valid() && len <= Readable()
      modifies this`rd
      ensures Valid()
      ensures View() == old(View()).Skip(len)
    {
      rd := rd + len;
    }

    method ReadAsString(len: nat) returns (s: bytes)
      requires Valid() && len <= Readable()
      ensures s == Unread()[..len]
    {
      s := store[rd..rd + len];
    }

    method RdStringAndPop(len: nat) returns (s: bytes)
      requires Valid() && len <= Readable()
      modifies this`rd
      ensures Valid()
      ensures s == old(Unread())[..len] && View() == old(View()).Skip(len)
    {
      s := ReadAsString(len);
      MoveReadPosition(len);
    }

    /** GetCRLF: the offset of the first line feed in the unread octets, if any. */
    method FindLineFeed() returns (at: Option<nat>)
      requires Valid()
      ensures at == if LF in Unread() then Some(LineLen(Unread()) - 1) else None
    {
      var i := 0;
      while i < wr - rd
        invariant 0 <= i <= wr - rd
        invariant LF !in Unread()[..i]
      {
        if store[rd + i] == LF {
          assert Unread()[i] == LF;
          return Some(i);
        }
        i := i + 1;
      }
      assert Unread()[..i] == Unread();
      at := None;
    }

    /** Removes the shortest prefix that ends in a line feed, or nothing when there is none. */
    method GetLineAndAdd() returns (line: bytes)
      requires Valid()
      modifies this`rd
      ensures Valid()
      ensures line == old(Unread())[..LineLen(old(Unread()))]
      ensures View() == old(View()).Skip(|line|)
    {
      var at := FindLineFeed();
      if at == None {
        line := [];
      } else {
        line := ReadAsString(at.value + 1);
      }
      MoveReadPosition(|line|);
    }

    method Clear()
      requires Valid()
      modifies this`rd, this`wr
      ensures Valid()
      ensures View() == old(View()).Clear()
    {
      rd, wr := 0, 0;
    }
  }

  // ---- Runs ----

  datatype Op = Push(data: bytes) | Pop(n: nat) | PopLine | Reset

  /** How many octets an operation takes from a queue that holds `q`. */
  function Taken(q: bytes, op: Op): (n: nat)
    ensures op.PopLine? ==> n <= |q|
  {
    match op
    case Push(_) => 0
    case Pop(n) => n
    case PopLine => LineLen(q)
    case Reset => |q|
  }

  /** The source asserts that a read does not pass the write index. */
  predicate Allowed(q: bytes, ops: seq<Op>)
    decreases |ops|
  {
    ops == [] || (Taken(q, ops[0]) <= |q| && Allowed(QueueStep(q, ops[0]), ops[1..]))
  }

  /** The queue the buffer stands for. */
  function QueueStep(q: bytes, op: Op): bytes
    requires Taken(q, op) <= |q|
  {
    if op.Push? then q + op.data else q[Taken(q, op)..]
  }

  /** Final queue, and what each reading operation returned, in order. */
  function QueueRun(q: bytes, ops: seq<Op>): (bytes, seq<bytes>)
    requires Allowed(q, ops)
    decreases |ops|
  {
    if ops == [] then (q, [])
    else
      var (q', outs) := QueueRun(QueueStep(q, ops[0]), ops[1..]);
      (q', if ops[0].Push? || ops[0].Reset? then outs else [q[..Taken(q, ops[0])]] + outs)
  }

  function Step(b: Buf, op: Op): (b': Buf)
    requires b.Valid() && Taken(b.Unread(), op) <= |b.Unread()|
    ensures b'.Valid()
  {
    match op
    case Push(data) => b.Append(data)
    case Reset => b.Clear()
    case _ => b.Skip(Taken(b.Unread(), op))
  }

  function Run(b: Buf, ops: seq<Op>): (Buf, seq<bytes>)
    requires b.Valid() && Allowed(b.Unread(), ops)
    decreases |ops|
  {
    if ops == [] then (b, [])
    else
      StepRefines(b, ops[0]);
      var (b', outs) := Run(Step(b, ops[0]), ops[1..]);
      (b', if ops[0].Push? || ops[0].Reset? then outs else [b.Unread()[..Taken(b.Unread(), ops[0])]] + outs)
  }

  lemma StepRefines(b: Buf, op: Op)
    requires b.Valid() && Taken(b.Unread(), op) <= |b.Unread()|
    ensures Step(b, op).Unread() == QueueStep(b.Unread(), op)
  {
  }

  /** Through compaction and reallocation, the buffer is a byte queue: same contents, same reads. */
  lemma {:induction false} BufferIsAQueue(b: Buf, ops: seq<Op>)
    requires b.Valid() && Allowed(b.Unread(), ops)
    ensures Run(b, ops).0.Valid()
    ensures (Run(b, ops).0.Unread(), Run(b, ops).1) == QueueRun(b.Unread(), ops)
    decreases |ops|
  {
    if ops != [] {
      StepRefines(b, ops[0]);
      BufferIsAQueue(Step(b, ops[0]), ops[1..]);
    }
  }

  /** The largest number of unread octets at any point of the run. */
  function Peak(q: bytes, ops: seq<Op>): (p: nat)
    requires Allowed(q, ops)
    ensures |q| <= p
    decreases |ops|
  {
    if ops == [] then |q| else Max(|q|, Peak(QueueStep(q, ops[0]), ops[1..]))
  }

  /** One write: the array grows only past half full. */
  lemma AppendSize(b: Buf, data: bytes)
    requires b.Valid()
    ensures |b.Append(data).store| <= Max(|b.store|, 2 * |b.Append(data).Unread()|)
    ensures |data| > 0 ==> |b.Append(data).store| <= Max(|b.store|, |b.Unread()| + 2 * |data| - 1)
  {
  }

  lemma {:induction false} SpaceBoundFrom(b: Buf, ops: seq<Op>)
    requires b.Valid() && Allowed(b.Unread(), ops)
    ensures |Run(b, ops).0.store| <= Max(|b.store|, 2 * Peak(b.Unread(), ops))
    decreases |ops|
  {
    if ops != [] {
      StepRefines(b, ops[0]);
      if ops[0].Push? {
        AppendSize(b, ops[0].data);
      }
      SpaceBoundFrom(Step(b, ops[0]), ops[1..]);
    }
  }

  /** The array of a new buffer never exceeds twice the peak load, or its initial size. */
  lemma SpaceBound(ops: seq<Op>)
    requires Allowed([], ops)
    ensures |Run(EMPTY, ops).0.store| <= Max(BUFFERSIZE, 2 * Peak([], ops))
  {
    SpaceBoundFrom(EMPTY, ops);
  }
}
