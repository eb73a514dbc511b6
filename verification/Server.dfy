/** The server's bookkeeping: one counter for connection and timer ids, and the map of connections. */
module Server {
  import opened WheelModel
  import opened TimerRuns

  /** The ids under which timers are set go up, starting above `last`. */
  predicate Increasing(ops: seq<Op>, last: nat)
    decreases |ops|
  {
    if ops == [] then true
    else if ops[0].Set? then ops[0].id > last && Increasing(ops[1..], ops[0].id)
    else Increasing(ops[1..], last)
  }

  predicate Upto(w: Wheel, last: nat) {
    forall id | id in w.timers :: id <= last
  }

  lemma {:induction false} DrainUpto(w: Wheel, last: nat)
    requires Sound(w) && Upto(w, last)
    ensures Upto(Drain(w), last)
    decreases if w.tick < |w.slots| then |w.slots[w.tick]| else 0
  {
    hide Counts, All, Lockable;
    if w.slots[w.tick] != [] {
      DropIsPossible(w);
      DropSound(w);
      DrainUpto(DropFirst(w), last);
    }
  }

  lemma StepUpto(w: Wheel, op: Op, last: nat)
    requires Sound(w) && Upto(w, last) && (op.Set? ==> op.id > last)
    ensures Upto(Step(w, op), if op.Set? then op.id else last)
  {
    hide Counts, All, Lockable, SetSlot, FlushSlot, FlushDefined;
    if op.Tick? {
      DrainUpto(Advance(w), last);
    }
  }

  /** Timers set under ids that only go up are all set under fresh ids, whatever else the wheel does. */
  lemma {:induction false} IncreasingIsFresh(w: Wheel, ops: seq<Op>, last: nat)
    requires Sound(w) && Upto(w, last) && Increasing(ops, last)
    ensures Fresh(w, ops)
    decreases |ops|
  {
    hide Sound, Step;
    if ops != [] {
      StepSound(w, ops[0]);
      StepUpto(w, ops[0], last);
      IncreasingIsFresh(Step(w, ops[0]), ops[1..], if ops[0].Set? then ops[0].id else last);
    }
  }

  /** So a wheel used with the server's ids alone always refines the map of deadlines. */
  lemma ServerIdsAreFresh(ops: seq<Op>)
    requires Increasing(ops, 0)
    ensures FreshFromStart(ops)
  {
    StartSound();
    hide Sound, Fresh, Increasing;
    IncreasingIsFresh(START, ops, 0);
  }

  predicate Subsequence(xs: seq<Op>, ys: seq<Op>)
    decreases |ys|
  {
    xs == [] ||
    (ys != [] && ((xs[0] == ys[0] && Subsequence(xs[1..], ys[1..])) || Subsequence(xs, ys[1..])))
  }

  /** The timers set, among all a wheel is asked for. */
  function SetsOf(ops: seq<Op>): seq<Op>
    decreases |ops|
  {
    if ops == [] then [] else (if ops[0].Set? then [ops[0]] else []) + SetsOf(ops[1..])
  }

  lemma {:induction false} IncreasingFromLess(ops: seq<Op>, last: nat, less: nat)
    requires Increasing(ops, last) && less <= last
    ensures Increasing(ops, less)
    decreases |ops|
  {
    if ops != [] && !ops[0].Set? {
      IncreasingFromLess(ops[1..], last, less);
    }
  }

  lemma {:induction false} SubsequenceIncreases(xs: seq<Op>, ys: seq<Op>, last: nat)
    requires Subsequence(xs, ys) && Increasing(ys, last) && forall y | y in ys :: y.Set?
    ensures Increasing(xs, last)
    decreases |ys|
  {
    if xs != [] {
      assert ys[0] in ys && forall y | y in ys[1..] :: y in ys;
      if xs[0] == ys[0] && Subsequence(xs[1..], ys[1..]) {
        SubsequenceIncreases(xs[1..], ys[1..], ys[0].id);
      } else {
        SubsequenceIncreases(xs, ys[1..], ys[0].id);
        IncreasingFromLess(xs, ys[0].id, last);
      }
    }
  }

  lemma {:induction false} SetsIncrease(ops: seq<Op>, last: nat)
    requires Increasing(SetsOf(ops), last)
    ensures Increasing(ops, last)
    decreases |ops|
  {
    if ops != [] {
      var sets := SetsOf(ops[1..]);
      if ops[0].Set? {
        assert ([ops[0]] + sets)[1..] == sets;
        SetsIncrease(ops[1..], ops[0].id);
      } else {
        assert [] + sets == sets;
        SetsIncrease(ops[1..], last);
      }
    }
  }

  /**
   * The wheel of one loop, which gets some of the server's timers, in the order the server asked for them, mixed with
   * any flushes, cancels and ticks: no timer is ever set under an id still in use.
   */
  lemma LoopsTimersAreFresh(sets: seq<Op>, ops: seq<Op>)
    requires Increasing(sets, 0) && (forall op | op in sets :: op.Set?) && Subsequence(SetsOf(ops), sets)
    ensures FreshFromStart(ops)
  {
    SubsequenceIncreases(SetsOf(ops), sets, 0);
    SetsIncrease(ops, 0);
    ServerIdsAreFresh(ops);
  }

  lemma {:induction false} IncreasingAppend(ops: seq<Op>, last: nat, top: nat, op: Op)
    requires Increasing(ops, last) && op.Set? && last <= top < op.id
    requires forall o | o in ops && o.Set? :: o.id <= top
    ensures Increasing(ops + [op], last)
    decreases |ops|
  {
    if ops != [] {
      assert (ops + [op])[1..] == ops[1..] + [op];
      assert ops[0] in ops && forall o | o in ops[1..] :: o in ops;
      IncreasingAppend(ops[1..], if ops[0].Set? then ops[0].id else last, top, op);
    }
  }

  class TcpServer {
    var connId: nat
    var conns: map<nat, nat>
    var timeout: Delay
    var isAbleDelayDel: bool
    /** The timers asked for, in order. */
    ghost var sets: seq<Op>

    ghost predicate Valid()
      reads this
    {
      && (forall id | id in conns :: id <= connId)
      && (forall op | op in sets :: op.Set? && op.id <= connId)
      && Increasing(sets, 0)
    }

    constructor ()
      ensures Valid() && conns == map[] && sets == [] && !isAbleDelayDel
    {
      connId, conns, timeout, isAbleDelayDel, sets := 0, map[], 0, false, [];
    }

    method EnableTimeout(sec: Delay)
      requires Valid()
      modifies this`timeout, this`isAbleDelayDel
      ensures Valid() && timeout == sec && isAbleDelayDel
    {
      timeout, isAbleDelayDel := sec, true;
    }

    /** The new id belongs to no connection and no timer, so the insertion takes effect. */
    method NewConnection(fd: nat) returns (id: nat)
      requires Valid()
      modifies this`connId, this`conns, this`sets
      ensures Valid() && id !in old(conns) && conns == old(conns)[id := fd]
      ensures forall op | op in old(sets) :: op.id != id
      ensures sets == old(sets) + if isAbleDelayDel then [Set(id, timeout)] else []
    {
      connId := connId + 1;
      id := connId;
      if isAbleDelayDel {
        IncreasingAppend(sets, 0, connId - 1, Set(id, timeout));
        sets := sets + [Set(id, timeout)];
      }
      if id !in conns {
        conns := conns[id := fd];
      }
    }

    method RunAfterInLoop(delay: Delay) returns (id: nat)
      requires Valid()
      modifies this`connId, this`sets
      ensures Valid() && id !in conns && sets == old(sets) + [Set(id, delay)]
      ensures forall op | op in old(sets) :: op.id != id
    {
      connId := connId + 1;
      id := connId;
      IncreasingAppend(sets, 0, connId - 1, Set(id, delay));
      sets := sets + [Set(id, delay)];
    }

    method RemoveConnectionInLoop(id: nat)
      requires Valid()
      modifies this`conns
      ensures Valid() && conns == old(conns) - {id}
    {
      if id in conns {
        conns := conns - {id};
      }
    }
  }
}
